# Controllerless API description — a verified Dafny model

Controllerless lets a command/query application publish API documentation through ASP.NET Web API's
description pipeline without writing controllers. A `ControllerlessApiExplorer` turns an ordered list
of message types into one `ApiDescription` per type: verb, relative path, documentation, parameters
and response. A `CompositeApiExplorer` merges several explorers. The three composite providers answer
a documentation or description lookup with the first answer of a list of providers that counts as a
hit.

This project models that layer with immutable Dafny datatypes and pure functions:

- `wrappers.dfy`, `errors.dfy`: `Option` stands for a possibly-null reference and `Result` for a
  call that may throw. `Error` lists the exceptions the code raises.
- `collections.dfy`: `AddRange`; one order-keeping filter for LINQ `OfType` and for the binding-flag
  selection of `GetProperties`; `SelectMany`; and `Select(...).ToList()` with an element that throws.
- `casing.dfy`: the camel-casing of parameter names and the case-insensitive `HttpMethod` comparison.
- `lazy.dfy`: `Lazy<T>` as a value with a cache and a count of factory runs.
- `fallback.dfy`: the ordered first-hit search behind all three composite providers.
- `descriptors.dfy`: message types (reflection replaced by explicit property and attribute lists)
  and the parameter and action descriptors.
- `providers.dfy`: `CompositeTypeDescriptionProvider`, `CompositeDescriptionProvider` and
  `CompositeDocumentationProvider`.
- `descriptions.dfy`: the host framework's records (`HttpMethod`, `ApiParameterSource`,
  `ApiDescription`, ...).
- `explorer.dfy`, `explorer_properties.dfy`: `ControllerlessApiExplorer` and what it promises.
- `composite_explorer.dfy`: `CompositeApiExplorer`.

Modelling choices:

- A CLR type is identified by its full name (`TypeRef`).
- Selectors are function-typed fields. The settable properties of the explorer form one `Settings`
  record. A setter is a record update `explorer.(settings := ...)`.
- A null constructor argument is an `Option` input. The constructor fails with `ArgumentNull`,
  naming the first null argument in the order the constructor checks them.
- A read of a cached `ApiDescriptions` property returns the value and the object after the read.
  `Lazy<T>` also caches an exception, so the cache holds a `Result`.
- `HttpMethod` keeps its method name. `HttpMethod` equality ignores case, so `"get"` is GET too.
- `ToLower` is fixed to ASCII: `A`-`Z` map to `a`-`z`, and every other character is unchanged.
- The composite explorer keeps the wrapped explorers themselves and reads each of them at its own
  first read. A setting changed on a wrapped explorer, or an element of the array replaced, before
  that read is an update of the composite's `apiExplorers`.
- A parameter's back-reference to its action descriptor is the action's identity `ActionRef`, made of
  the message type and the action name.

Three behaviours of the library that the model keeps as the code has them:

- The explorer's constructor rejects a null type-description selector with `ArgumentNull`
  (`ControllerlessApiExplorer.cs:36`).
- URI parameters are named by the camel-cased property name (`ControllerlessApiExplorer.cs:147`,
  `ControllerlessParameterDescriptor.cs:15`).
- The documentation composite returns an empty string as a hit, because its hit test is only
  "not null" (`CompositeDocumentationProvider.cs:29`).

## Model

| member | source | states |
|---|---|---|
| Collections.AddRange | src/Controllerless.WebApi.Description/Internal/CollectionExtensions.cs:11-14 | the result is the old contents followed by the range items in order: length grows by the range length, the prefix is unchanged, item i lands at old length + i |
| Collections.AddRangeIsAppend | src/Controllerless.WebApi.Description/Internal/CollectionExtensions.cs:11-14 | adding one by one equals appending the range; an empty range leaves the collection unchanged |
| Collections.Filter | src/Controllerless.WebApi.Description/ControllerlessActionDescriptor.cs:53 | the kept elements are exactly the accepted ones, with their multiplicities, and nothing else |
| Collections.FilterAppend | src/Controllerless.WebApi.Description/ControllerlessApiExplorer.cs:146 | filtering distributes over concatenation, so the selection keeps the order the properties are reported in |
| Collections.Concat | src/Controllerless.WebApi.Description/CompositeApiExplorer.cs:23 | the flattened length is the sum of the lengths; no sequences give the empty sequence |
| Collections.ConcatIndex | src/Controllerless.WebApi.Description/CompositeApiExplorer.cs:23 | element j of sequence k sits at the sum of the earlier lengths plus j |
| Collections.ConcatAppend | src/Controllerless.WebApi.Description/CompositeApiExplorer.cs:23 | flattening a concatenation of lists is the concatenation of their flattenings |
| Collections.MapResult | src/Controllerless.WebApi.Description/ControllerlessApiExplorer.cs:91-92 | success iff every element maps successfully, then one result per element in order; otherwise the error of the first failing element, with all earlier ones succeeding |
| Casing.ToLower | src/Controllerless.WebApi.Description/ControllerlessParameterDescriptor.cs:22 | an upper-case ASCII letter becomes its lower-case letter, any other character is unchanged, and the result is never upper case |
| Casing.ToUpper | src/Controllerless.WebApi.Description/ControllerlessApiExplorer.cs:110 | a lower-case ASCII letter becomes its upper-case letter and any other character is unchanged |
| Casing.UpperCaseOf | src/Controllerless.WebApi.Description/ControllerlessApiExplorer.cs:110 | an upper-case letter is the upper-case form of exactly two characters: itself and its lower-case letter |
| Casing.EqualsIgnoreCase | src/Controllerless.WebApi.Description/ControllerlessApiExplorer.cs:110 | two names are the same method when they have the same length and agree position by position once upper-cased |
| Casing.EqualsIgnoreCaseIsEquivalence | src/Controllerless.WebApi.Description/ControllerlessApiExplorer.cs:110 | the case-insensitive comparison is reflexive, symmetric and transitive |
| Casing.ToCamelCase | src/Controllerless.WebApi.Description/ControllerlessParameterDescriptor.cs:22 | fails with an out-of-range error iff the name is empty; otherwise same length, first character lower-cased, every later character unchanged |
| Casing.CamelCaseIdempotent | src/Controllerless.WebApi.Description/ControllerlessParameterDescriptor.cs:22 | camel-casing twice equals camel-casing once |
| Casing.CamelCaseIgnoresFirstLetterCase | src/Controllerless.WebApi.Description/ControllerlessParameterDescriptor.cs:22 | names that differ only in the case of the first letter give the same parameter name |
| Casing.CamelCaseExamples | src/Controllerless.WebApi.Description/ControllerlessParameterDescriptor.cs:22 | "Message" gives "message", "ID" gives "iD", the empty name fails |
| Casing.IgnoreCaseExamples | src/Controllerless.WebApi.Description/ControllerlessApiExplorer.cs:110 | "get" and "Get" compare equal to GET; "POST" and "GETS" do not |
| Lazy.Create | src/Controllerless.WebApi.Description/ControllerlessApiExplorer.cs:42 | a new lazy value holds nothing and its factory has not run |
| Lazy.Force | src/Controllerless.WebApi.Description/ControllerlessApiExplorer.cs:89 | a cached value is returned unchanged without running the factory; otherwise the factory runs once and its value is cached |
| Lazy.ForceOnce | src/Controllerless.WebApi.Description/ControllerlessApiExplorer.cs:42 | after one read, any later read returns the same value whatever factory it passes, and the factory has run exactly once |
| Fallback.FirstHit | src/Controllerless.WebApi.Description/CompositeTypeDescriptionProvider.cs:27-37 | the result is the first hit in order with every earlier answer a miss, or null when no answer is a hit |
| Fallback.FirstHitUnique | src/Controllerless.WebApi.Description/CompositeTypeDescriptionProvider.cs:27-37 | the first-hit condition determines the result uniquely |
| Fallback.Ask | src/Controllerless.WebApi.Description/CompositeDocumentationProvider.cs:18 | one answer per provider, in provider order |
| Fallback.AskAppend | src/Controllerless.WebApi.Description/CompositeDocumentationProvider.cs:18 | the answers of two provider lists in sequence are their answers concatenated |
| Fallback.LaterAnswersIgnored | src/Controllerless.WebApi.Description/CompositeTypeDescriptionProvider.cs:31-34 | once some answer is a hit, appending more answers does not change the result |
| Fallback.LeadingMissesSkipped | src/Controllerless.WebApi.Description/CompositeTypeDescriptionProvider.cs:27-35 | leading misses are skipped: the search continues with the remaining answers |
| Fallback.Consult | src/Controllerless.WebApi.Description/CompositeTypeDescriptionProvider.cs:27-37 | the provider loop returns the first-hit result and asks exactly the providers up to and including the first hit, or all of them when none hits |
| Fallback.FirstHitExamples | src/Controllerless.WebApi.Description/CompositeDocumentationProvider.cs:29 | [null, "X", "Y"] gives "X"; [null, "", "X"] gives "X" for descriptions and "" for documentation; no hit gives null |
| Fallback.HasDescription | src/Controllerless.WebApi.Description/CompositeTypeDescriptionProvider.cs:31 | a type description counts only when it is neither null nor empty (`string.IsNullOrEmpty`); the same test is at CompositeDescriptionProvider.cs:21 |
| Fallback.IsNotNull | src/Controllerless.WebApi.Description/CompositeDocumentationProvider.cs:29 | a documentation answer counts whenever it is not null, the empty string included |
| Descriptors.IsPublicInstance | src/Controllerless.WebApi.Description/ControllerlessApiExplorer.cs:146 | a property is selected by the flags `BindingFlags.Instance` and `BindingFlags.Public` exactly when it is public and not static |
| Descriptors.PublicInstanceProperties | src/Controllerless.WebApi.Description/ControllerlessApiExplorer.cs:146 | the selection holds exactly the public instance properties of the message type, each as often as the type lists it, and nothing else |
| Descriptors.PublicInstancePropertiesKeepOrder | src/Controllerless.WebApi.Description/ControllerlessApiExplorer.cs:146-147 | the selection keeps the reported order: a property added at the end of the list appears at the end of the selection exactly when it is public and non-static |
| Descriptors.NewParameterDescriptor | src/Controllerless.WebApi.Description/ControllerlessParameterDescriptor.cs:13-17 | the name is the camel-cased argument, the type is the argument type, and an empty name fails |
| Descriptors.NewActionDescriptor | src/Controllerless.WebApi.Description/ControllerlessActionDescriptor.cs:19-28 | message type, action name and return type are the arguments; the parameters keep their names, types and order, and each points back at the new action |
| Descriptors.GetParameters | src/Controllerless.WebApi.Description/ControllerlessActionDescriptor.cs:44 | the action's parameter collection as the constructor stored it (see GetParametersAfterConstruction) |
| Descriptors.GetParametersAfterConstruction | src/Controllerless.WebApi.Description/ControllerlessActionDescriptor.cs:44 | after construction, GetParameters yields the supplied parameters in order, each with the action as back-reference |
| Descriptors.GetCustomAttributes | src/Controllerless.WebApi.Description/ControllerlessActionDescriptor.cs:52-53 | the result holds exactly the message type's attributes of the requested kind, with their multiplicities |
| Descriptors.ExecuteAsync | src/Controllerless.WebApi.Description/ControllerlessActionDescriptor.cs:60-65 | executing an action always fails with NotImplemented |
| Providers.NewCompositeTypeDescriptionProvider | src/Controllerless.WebApi.Description/CompositeTypeDescriptionProvider.cs:16-20 | fails with ArgumentNull("providers") iff the array is null; otherwise keeps the array |
| Providers.GetTypeDescription | src/Controllerless.WebApi.Description/CompositeTypeDescriptionProvider.cs:25-38 | the first provider answer, in array order, that is neither null nor empty, or null; never the empty string |
| Providers.NewCompositeDescriptionProvider | src/Controllerless.WebApi.Description/CompositeDescriptionProvider.cs:9-13 | fails with ArgumentNull("providers") iff the array is null; otherwise keeps the array |
| Providers.GetDescription | src/Controllerless.WebApi.Description/CompositeDescriptionProvider.cs:15-25 | the first provider answer, in order, that is neither null nor empty, or null; never the empty string |
| Providers.DescriptionCompositesAgree | src/Controllerless.WebApi.Description/CompositeDescriptionProvider.cs:15-25 | both description composites answer the same for the same providers |
| Providers.DescriptionMissesAndLaterProviders | src/Controllerless.WebApi.Description/CompositeDescriptionProvider.cs:17-24 | null iff every provider misses, including no providers; after a hit, appended providers change nothing |
| Providers.NewCompositeDocumentationProvider | src/Controllerless.WebApi.Description/CompositeDocumentationProvider.cs:11-15 | fails with ArgumentNull("providers") iff the array is null; otherwise keeps the array |
| Providers.GetParameterDocumentation | src/Controllerless.WebApi.Description/CompositeDocumentationProvider.cs:17-18 | the first non-null provider answer for the parameter, or null |
| Providers.GetActionDocumentation | src/Controllerless.WebApi.Description/CompositeDocumentationProvider.cs:20-21 | the first non-null provider answer for the action, or null |
| Providers.GetControllerDocumentation | src/Controllerless.WebApi.Description/CompositeDocumentationProvider.cs:23-24 | the first non-null provider answer for the controller, or null |
| Providers.GetResponseDocumentation | src/Controllerless.WebApi.Description/CompositeDocumentationProvider.cs:26-27 | the first non-null provider answer for the action's response, or null |
| Providers.EmptyDocumentationIsAHit | src/Controllerless.WebApi.Description/CompositeDocumentationProvider.cs:29 | an empty documentation string after only nulls is returned, even if a later provider has text |
| Providers.ParameterDocumentationNullIffAllNull | src/Controllerless.WebApi.Description/CompositeDocumentationProvider.cs:17-18 | the parameter documentation is null iff every provider answers null for that parameter |
| Providers.ActionDocumentationNullIffAllNull | src/Controllerless.WebApi.Description/CompositeDocumentationProvider.cs:20-21 | the action documentation is null iff every provider answers null for that action |
| Providers.ControllerDocumentationNullIffAllNull | src/Controllerless.WebApi.Description/CompositeDocumentationProvider.cs:23-24 | the controller documentation is null iff every provider answers null for that controller |
| Providers.ResponseDocumentationNullIffAllNull | src/Controllerless.WebApi.Description/CompositeDocumentationProvider.cs:26-27 | the response documentation is null iff every provider answers null for that action's response |
| Providers.DocumentationNullIffAllNull | src/Controllerless.WebApi.Description/CompositeDocumentationProvider.cs:17-27 | for each of the four lookups (parameter, action, controller, response) the documentation is null iff every provider answers null |
| ApiExplorer.DefaultSettings | src/Controllerless.WebApi.Description/ControllerlessApiExplorer.cs:48-83 | the defaults are prefix "api/", body source, parameter name "message", the type's short name as action name, POST, the default path and one JSON formatter |
| ApiExplorer.NewControllerlessApiExplorer | src/Controllerless.WebApi.Description/ControllerlessApiExplorer.cs:28-45 | the first null argument, in checking order, is named in an ArgumentNull error; otherwise the arguments are kept, the defaults apply and nothing is synthesised yet |
| ApiExplorer.RelativePath | src/Controllerless.WebApi.Description/ControllerlessApiExplorer.cs:44 | the default path is prefix + controller name + "/" + action name, read from the current settings |
| ApiExplorer.GetWithBodyMessage | src/Controllerless.WebApi.Description/ControllerlessApiExplorer.cs:112-115 | the message contains the message type's full name right after its leading words |
| ApiExplorer.BuildParameters | src/Controllerless.WebApi.Description/ControllerlessApiExplorer.cs:140-153 | for FromUri, one camel-cased parameter per public instance property in order, typed as the property; otherwise one camel-cased parameter named by the setting, typed as the message; any empty name fails |
| ApiExplorer.ToApiParameterDescription | src/Controllerless.WebApi.Description/ControllerlessApiExplorer.cs:155-165 | name and descriptor come from the parameter, the source is the type's source, and the documentation is the selector applied to the parameter type |
| ApiExplorer.DescribeParameters | src/Controllerless.WebApi.Description/ControllerlessApiExplorer.cs:133-135 | one parameter description per action parameter, in order |
| ApiExplorer.CopyFormatters | src/Controllerless.WebApi.Description/ControllerlessApiExplorer.cs:131 | the description's formatters are the configured formatters |
| ApiExplorer.Assemble | src/Controllerless.WebApi.Description/ControllerlessApiExplorer.cs:118-135 | the assembled description carries the verb, route, documentation, action, response, formatters and parameter descriptions of its message type |
| Descriptions.IsGet | src/Controllerless.WebApi.Description/ControllerlessApiExplorer.cs:110 | a method is GET when its name equals "GET" ignoring case, as `HttpMethod` equality compares |
| Descriptions.GetSpellings | src/Controllerless.WebApi.Description/ControllerlessApiExplorer.cs:110 | the methods equal to GET are exactly the names of three letters g, e, t, each in either case |
| ApiExplorer.GetWithBody | src/Controllerless.WebApi.Description/ControllerlessApiExplorer.cs:110 | the rejected combination: the method selector gives GET and the parameter source selector gives FromBody |
| ApiExplorer.CreateApiDescription | src/Controllerless.WebApi.Description/ControllerlessApiExplorer.cs:96-138 | GET with body source fails with the error naming the type; otherwise it succeeds iff the parameters can be built, and the description states verb, route, documentation, response (declared = response type, documented by the selector) and parameters one-to-one |
| ApiExplorer.GetDescriptions | src/Controllerless.WebApi.Description/ControllerlessApiExplorer.cs:91-92 | one description per message type in input order, or the error of the first type that fails |
| ApiExplorer.ApiDescriptions | src/Controllerless.WebApi.Description/ControllerlessApiExplorer.cs:89 | the first read synthesises from the current state and caches the result; later reads return the cached result and change nothing |
| ApiExplorerProperties.OneDescriptionPerMessageType | src/Controllerless.WebApi.Description/ControllerlessApiExplorer.cs:91-92 | description i belongs to message type i, with that type's action name |
| ApiExplorerProperties.DefaultRoute | src/Controllerless.WebApi.Description/ControllerlessApiExplorer.cs:44 | with the default path selector, the route is prefix + controller name + "/" + the selected action name |
| ApiExplorerProperties.GetWithBodyRejected | src/Controllerless.WebApi.Description/ControllerlessApiExplorer.cs:110-116 | any GET message type with body source makes synthesis fail |
| ApiExplorerProperties.GetWithBodyNamed | src/Controllerless.WebApi.Description/ControllerlessApiExplorer.cs:110-116 | when the types before it synthesise, the failure is the invalid-operation error naming that type's full name |
| ApiExplorerProperties.InvalidOperationMeansGetWithBody | src/Controllerless.WebApi.Description/ControllerlessApiExplorer.cs:110-116 | an invalid-operation failure comes from a GET message type with body source and names its full name |
| ApiExplorerProperties.OnlyGetWithBodyFails | src/Controllerless.WebApi.Description/ControllerlessApiExplorer.cs:110 | when all names are present, a description fails iff its verb is GET and its source is the body |
| ApiExplorerProperties.ApiDescriptionsStable | src/Controllerless.WebApi.Description/ControllerlessApiExplorer.cs:89 | a second read returns the first read's result and leaves the explorer unchanged |
| ApiExplorerProperties.SynthesisRunsOnce | src/Controllerless.WebApi.Description/ControllerlessApiExplorer.cs:42 | synthesis has run exactly once after the first read, and later setting changes do not affect what is read |
| ApiExplorerProperties.PrefixReadAtSynthesis | src/Controllerless.WebApi.Description/ControllerlessApiExplorer.cs:44 | a prefix set before the first read appears in every default route |
| ApiExplorerProperties.DefaultsOfNewExplorer | src/Controllerless.WebApi.Description/ControllerlessApiExplorer.cs:48-68 | a new explorer posts type t to "api/" + controller + "/" + t.Name with one body parameter "message" of type t |
| ApiExplorerProperties.UriParameterExample | src/Controllerless.WebApi.Description/ControllerlessApiExplorer.cs:143-147 | properties Name and Age from the URI give parameters "name" and "age" with their types; a static property is skipped |
| ApiExplorerProperties.BodyParameterExample | src/Controllerless.WebApi.Description/ControllerlessApiExplorer.cs:149-152 | from the body the same message gives the single parameter "message" of the message type; an empty parameter name fails |
| ApiExplorerProperties.RouteExample | src/Controllerless.WebApi.Description/ControllerlessApiExplorer.cs:44 | with the default settings, CreateOrder in the "commands" explorer is routed to "api/commands/CreateOrder" |
| CompositeExplorer.NewCompositeApiExplorer | src/Controllerless.WebApi.Description/CompositeApiExplorer.cs:18-24 | fails with ArgumentNull("apiExplorers") iff the array is null; otherwise the explorers are kept as given and nothing is read or merged yet |
| CompositeExplorer.Read | src/Controllerless.WebApi.Description/CompositeApiExplorer.cs:23 | reading a wrapped controllerless explorer synthesises from its current settings when its cache is empty, returns the cache otherwise, and leaves everything but the cache unchanged; another explorer yields its fixed answer |
| CompositeExplorer.ReadStable | src/Controllerless.WebApi.Description/CompositeApiExplorer.cs:23 | a second read of a wrapped explorer yields the first read's value and changes nothing, so an explorer listed twice contributes the same descriptions twice |
| CompositeExplorer.Merge | src/Controllerless.WebApi.Description/CompositeApiExplorer.cs:23 | succeeds iff every read succeeds and then is the concatenation of the descriptions in explorer order, with the summed length; otherwise fails with the first failing read's error; no explorers give the empty collection |
| CompositeExplorer.MergeCons | src/Controllerless.WebApi.Description/CompositeApiExplorer.cs:23 | the merge goes left to right: a failing first explorer fails it with its own error, a later failure is passed on, otherwise the first explorer's descriptions come first |
| CompositeExplorer.MergeIsConcatenation | src/Controllerless.WebApi.Description/CompositeApiExplorer.cs:23 | description j of explorer k sits right after all descriptions of the explorers before k |
| CompositeExplorer.MergeTwo | src/Controllerless.WebApi.Description/CompositeApiExplorer.cs:23 | merging A and B gives A's descriptions followed by B's, with no de-duplication |
| CompositeExplorer.ReadAll | src/Controllerless.WebApi.Description/CompositeApiExplorer.cs:22-23 | reading the explorers in order gives exactly the merge of what each read yields, and the array keeps its length |
| CompositeExplorer.ReadAllLeavesRead | src/Controllerless.WebApi.Description/CompositeApiExplorer.cs:23 | after the merge, every explorer it reached has been read and every explorer after a failing read is untouched |
| CompositeExplorer.ApiDescriptions | src/Controllerless.WebApi.Description/CompositeApiExplorer.cs:22-27 | the first read reads the wrapped explorers as they are at that moment, merges them and caches the result; later reads return the cache and change nothing |
| CompositeExplorer.MergedOnce | src/Controllerless.WebApi.Description/CompositeApiExplorer.cs:22-27 | the merge runs exactly once and a second read returns the same collection |
| CompositeExplorer.UnreadExplorersSynthesise | src/Controllerless.WebApi.Description/CompositeApiExplorer.cs:23 | unread controllerless explorers yield, when read, the synthesis from their current settings |
| CompositeExplorer.ChildrenReadAtFirstRead | src/Controllerless.WebApi.Description/CompositeApiExplorer.cs:22-23 | with only unread controllerless explorers, the composite's first read merges their syntheses from the settings they have at that read |
| CompositeExplorer.PrefixSetAfterWrapping | src/Controllerless.WebApi.Description/CompositeApiExplorer.cs:22-23 | an API prefix set on a wrapped explorer after the composite is built but before its first read appears in the composite's routes |

## Left out

- Reflection: a message type lists its properties, inherited ones included, in one fixed order that stands for the order `GetProperties` reports. Reflection promises no particular order, and the model promises only that this given order is kept. The `inherit` flag of `GetCustomAttributes` is not modelled. Whether an attribute is a `T` is a predicate argument.
- `ResponseDescription` is set through `PropertyInfo.SetValue` in the source. Here the field is set directly.
- Descriptors.NewActionDescriptor: the `ApiDescription` argument the constructor stores (`ControllerlessActionDescriptor.cs:22`) is not kept. The description and its action descriptor refer to each other, a cycle of objects; here the description contains the action, and the action has no field pointing back.
- `HttpControllerDescriptor` is reduced to its controller name. `ControllerlessControllerDescriptor.GetCustomAttributes` always returns an empty collection and is not part of this model.
- `MediaTypeFormatter` objects are opaque values that are only copied.
- The thread safety of `Lazy<T>` is not modelled. Only compute-once is.
- `ExecuteAsync` keeps only its outcome, a failure. The controller context, the cancellation token and the `Task` are not modelled.
- Culture-sensitive `ToLower` is modelled as ASCII lower-casing. `Substring(0, 1)` takes one UTF-16 code unit, but a Dafny `char` is a Unicode scalar value, so surrogate pairs are not modelled.
- Casing.ToUpper and Casing.EqualsIgnoreCase fold the ASCII letters only, where `StringComparison.OrdinalIgnoreCase` also folds other letters. The library only compares a method name with "GET", and for that comparison the ASCII folding is exact (see `GetSpellings`).
- Null values assigned to the explorer's settable properties (`ApiPrefix`, `ParameterName`, selectors, `ControllerDescriptor`, `SupportedRequestBodyFormatters`) are not modelled: here those values are always present. In the source a null `SupportedRequestBodyFormatters` makes `AddRange` throw `NullReferenceException` (`CollectionExtensions.cs:13`, called from `ControllerlessApiExplorer.cs:131`).
- CompositeExplorer.ApiDescriptions: the wrapped explorers are held by value. The read returns them with their caches filled, but a caller that keeps its own reference to a wrapped explorer does not see that fill, because shared objects are not modelled. A wrapped composite, or an explorer of another kind, is represented only by a fixed answer (`Other`), so an inner composite read for the first time through the outer one is not modelled.
- The provider arrays of the three composite providers are kept by reference in the source (`CompositeTypeDescriptionProvider.cs:19`, `CompositeDescriptionProvider.cs:12`, `CompositeDocumentationProvider.cs:14`), so a later write to the array changes later lookups. Here the providers are an immutable sequence; a changed array is a new composite value.
- Null elements are not modelled: a null provider, a null explorer in `apiExplorers` or a null type in `messageTypes` throws `NullReferenceException` at lookup or synthesis in the source, while the model's sequences have no null elements.
- Selectors and providers are total functions here. One that throws, whose exception the explorer's `Lazy<T>` would then cache, is not modelled, and neither is an `HttpMethodSelector`, `ActionNameSelector` or `responseTypeSelector` that returns null.
- `messageTypes.ToArray()` makes a snapshot. Dafny sequences are values, so there is nothing to snapshot.
