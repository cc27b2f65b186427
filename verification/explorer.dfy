/**
 * `ControllerlessApiExplorer`: one API description per message type, synthesised on the first read
 * of `ApiDescriptions` from the settings in force at that moment, and cached from then on.
 */
module ApiExplorer {
  import opened Wrappers
  import opened Errors
  import opened Descriptors
  import opened Descriptions
  import Casing
  import Collections
  import Lazy

  /** `RelativePathSelector`: the default one, or one the caller assigned. */
  datatype PathSelector = DefaultRelativePath | CustomRelativePath(select: string -> string)

  /** The explorer's settable properties. */
  datatype Settings = Settings(
    apiPrefix: string,
    parameterSourceSelector: MessageType -> ParameterSource,
    parameterName: string,
    controllerDescriptor: ControllerDescriptor,
    actionNameSelector: MessageType -> string,
    httpMethodSelector: MessageType -> HttpMethod,
    relativePathSelector: PathSelector,
    supportedRequestBodyFormatters: seq<Formatter>)

  /** The property initialisers and the constructor's controller descriptor. */
  function DefaultSettings(controllerName: string): (s: Settings)
    ensures s.apiPrefix == "api/" && s.parameterName == "message"
    ensures s.controllerDescriptor == ControllerDescriptor(controllerName)
    ensures s.relativePathSelector == DefaultRelativePath
    ensures s.supportedRequestBodyFormatters == [JsonMediaTypeFormatter]
    ensures forall t :: s.parameterSourceSelector(t) == FromBody
    ensures forall t :: s.actionNameSelector(t) == t.name
    ensures forall t :: s.httpMethodSelector(t) == Post
  {
    Settings("api/", (t: MessageType) => FromBody, "message", ControllerDescriptor(controllerName),
             (t: MessageType) => t.name, (t: MessageType) => Post,
             DefaultRelativePath, [JsonMediaTypeFormatter])
  }

  datatype ControllerlessApiExplorer = ControllerlessApiExplorer(
    messageTypes: seq<MessageType>,
    typeDescriptionSelector: TypeRef -> Option<string>,
    responseTypeSelector: MessageType -> TypeRef,
    settings: Settings,
    descriptions: Lazy.Lazy<Result<seq<ApiDescription>, Error>>)

  /**
   * The constructor: the four arguments are checked for null in order, the first null one is
   * named in the error; otherwise the explorer starts with the default settings and an empty cache.
   */
  function NewControllerlessApiExplorer(controllerName: Option<string>, messageTypes: Option<seq<MessageType>>,
                                        typeDescriptionSelector: Option<TypeRef -> Option<string>>,
                                        responseTypeSelector: Option<MessageType -> TypeRef>)
    : (r: Result<ControllerlessApiExplorer, Error>)
    ensures r.Success? <==> controllerName.Some? && messageTypes.Some? && typeDescriptionSelector.Some?
                            && responseTypeSelector.Some?
    ensures controllerName.None? ==> r.Failure? && r.error == ArgumentNull("controllerName")
    ensures controllerName.Some? && messageTypes.None? ==> r.Failure? && r.error == ArgumentNull("messageTypes")
    ensures controllerName.Some? && messageTypes.Some? && typeDescriptionSelector.None? ==>
            r.Failure? && r.error == ArgumentNull("typeDescriptionSelector")
    ensures controllerName.Some? && messageTypes.Some? && typeDescriptionSelector.Some? && responseTypeSelector.None? ==>
            r.Failure? && r.error == ArgumentNull("responseTypeSelector")
    ensures r.Success? ==> && r.value.messageTypes == messageTypes.value
                           && r.value.typeDescriptionSelector == typeDescriptionSelector.value
                           && r.value.responseTypeSelector == responseTypeSelector.value
                           && r.value.settings == DefaultSettings(controllerName.value)
                           && r.value.descriptions.cached.None? && r.value.descriptions.evaluations == 0
  {
    if controllerName.None? then Failure(ArgumentNull("controllerName"))
    else if messageTypes.None? then Failure(ArgumentNull("messageTypes"))
    else if typeDescriptionSelector.None? then Failure(ArgumentNull("typeDescriptionSelector"))
    else if responseTypeSelector.None? then Failure(ArgumentNull("responseTypeSelector"))
    else Success(ControllerlessApiExplorer(messageTypes.value, typeDescriptionSelector.value, responseTypeSelector.value,
                                           DefaultSettings(controllerName.value), Lazy.Create()))
  }

  /**
   * The relative path of an action. The default reads the prefix and the controller name from the
   * settings passed in, that is, the ones in force when synthesis runs.
   */
  function RelativePath(settings: Settings, actionName: string): (r: string)
    ensures settings.relativePathSelector.DefaultRelativePath? ==>
            r == settings.apiPrefix + settings.controllerDescriptor.controllerName + "/" + actionName
  {
    match settings.relativePathSelector
    case DefaultRelativePath => settings.apiPrefix + settings.controllerDescriptor.controllerName + "/" + actionName
    case CustomRelativePath(select) => select(actionName)
  }

  const GetWithBodyLead: string := "For the given message type "
  const GetWithBodyTail: string := ", the provided HttpMethodSelector returned GET, while the ParameterSourceProvider "
    + "returned FromBody. This is an invalid combination, because GET requests don't have a body."

  /** The message of the exception for a GET message type whose parameters come from the body. */
  function GetWithBodyMessage(fullName: string): (m: string)
    ensures |m| == |GetWithBodyLead| + |fullName| + |GetWithBodyTail|
    ensures m[|GetWithBodyLead|..|GetWithBodyLead| + |fullName|] == fullName
  {
    GetWithBodyLead + fullName + GetWithBodyTail
  }

  /**
   * `BuildParameters`: one parameter per public instance property for `FromUri`, else the single
   * configured parameter typed as the message. Names are camel-cased, so an empty name fails.
   */
  function BuildParameters(messageType: MessageType, source: ParameterSource, parameterName: string)
    : (r: Result<seq<ParameterDescriptor>, Error>)
    ensures source == FromUri ==>
            (r.Success? <==> forall p :: p in PublicInstanceProperties(messageType) ==> |p.name| > 0)
    ensures source == FromUri && r.Success? ==> |r.value| == |PublicInstanceProperties(messageType)|
    ensures source == FromUri && r.Success? ==>
            forall i :: 0 <= i < |r.value| ==>
              && Casing.ToCamelCase(PublicInstanceProperties(messageType)[i].name) == Success(r.value[i].parameterName)
              && r.value[i].parameterType == PublicInstanceProperties(messageType)[i].propertyType
    ensures source != FromUri ==> (r.Success? <==> |parameterName| > 0)
    ensures source != FromUri && r.Success? ==>
            && |r.value| == 1
            && Casing.ToCamelCase(parameterName) == Success(r.value[0].parameterName)
            && r.value[0].parameterType == messageType.Ref()
    ensures r.Failure? ==> r.error == ArgumentOutOfRange("length")
  {
    if source == FromUri then
      var props := PublicInstanceProperties(messageType);
      var r := Collections.MapResult(props, (p: PropertyInfo) => NewParameterDescriptor(p.name, p.propertyType));
      assert r.Failure? ==> r.error == ArgumentOutOfRange("length");
      assert (forall p :: p in props ==> |p.name| > 0) <==> (forall i :: 0 <= i < |props| ==> |props[i].name| > 0);
      r
    else
      var p :- NewParameterDescriptor(parameterName, messageType.Ref());
      Success([p])
  }

  /** `ToApiParameterDescription`. */
  function ToApiParameterDescription(typeDescriptionSelector: TypeRef -> Option<string>,
                                     descriptor: ParameterDescriptor, source: ParameterSource)
    : (r: ApiParameterDescription)
    ensures r.name == descriptor.parameterName && r.source == source && r.parameterDescriptor == descriptor
    ensures r.documentation == typeDescriptionSelector(descriptor.parameterType)
  {
    ApiParameterDescription(typeDescriptionSelector(descriptor.parameterType), descriptor.parameterName,
                            descriptor, source)
  }

  /** The conflict `CreateApiDescription` rejects: a GET message whose parameter source is the body. */
  predicate GetWithBody(explorer: ControllerlessApiExplorer, messageType: MessageType) {
    IsGet(explorer.settings.httpMethodSelector(messageType))
    && explorer.settings.parameterSourceSelector(messageType) == FromBody
  }

  /** `desc.ParameterDescriptions.AddRange(...)`: one parameter description per parameter, in order. */
  function DescribeParameters(typeDescriptionSelector: TypeRef -> Option<string>, source: ParameterSource,
                              parameters: seq<ParameterDescriptor>): (r: seq<ApiParameterDescription>)
    ensures ParametersDescribed(typeDescriptionSelector, source, parameters, r)
  {
    var described := seq(|parameters|, i requires 0 <= i < |parameters| =>
      ToApiParameterDescription(typeDescriptionSelector, parameters[i], source));
    Collections.AddRangeIsAppend([], described);
    assert [] + described == described;
    Collections.AddRange([], described)
  }

  /** `desc.SupportedRequestBodyFormatters.AddRange(...)` on the fresh, empty collection. */
  function CopyFormatters(formatters: seq<Formatter>): (r: seq<Formatter>)
    ensures r == formatters
  {
    Collections.AddRangeIsAppend([], formatters);
    assert [] + formatters == formatters;
    Collections.AddRange([], formatters)
  }

  /**
   * The successful part of `CreateApiDescription`: the action descriptor over the built parameters,
   * the response description, the copied formatters and one parameter description per parameter.
   */
  function Assemble(explorer: ControllerlessApiExplorer, messageType: MessageType, parameters: seq<ParameterDescriptor>)
    : (d: ApiDescription)
    ensures DescribesMessage(explorer, messageType, d)
    ensures GetParameters(d.actionDescriptor) ==
            seq(|parameters|, i requires 0 <= i < |parameters| =>
              parameters[i].(actionDescriptor := Some(d.actionDescriptor.Ref())))
  {
    var settings := explorer.settings;
    var actionName := settings.actionNameSelector(messageType);
    var responseType := explorer.responseTypeSelector(messageType);
    var action := NewActionDescriptor(messageType, actionName, responseType, parameters)
                    .(controllerDescriptor := Some(settings.controllerDescriptor));
    var response := ResponseDescription(responseType, responseType, explorer.typeDescriptionSelector(responseType));
    ApiDescription(settings.httpMethodSelector(messageType), RelativePath(settings, actionName),
                   explorer.typeDescriptionSelector(messageType.Ref()), action, response,
                   CopyFormatters(settings.supportedRequestBodyFormatters),
                   DescribeParameters(explorer.typeDescriptionSelector, settings.parameterSourceSelector(messageType),
                                      GetParameters(action)))
  }

  /** `CreateApiDescription`: the description of one message type. */
  function CreateApiDescription(explorer: ControllerlessApiExplorer, messageType: MessageType)
    : (r: Result<ApiDescription, Error>)
    ensures GetWithBody(explorer, messageType) ==>
            r == Failure(InvalidOperation(GetWithBodyMessage(messageType.fullName)))
    ensures !GetWithBody(explorer, messageType) ==>
            var params := BuildParameters(messageType, explorer.settings.parameterSourceSelector(messageType),
                                          explorer.settings.parameterName);
            && (r.Success? <==> params.Success?)
            && (r.Failure? ==> r.error == params.error)
            && (r.Success? ==>
                  GetParameters(r.value.actionDescriptor) ==
                  seq(|params.value|, i requires 0 <= i < |params.value| =>
                    params.value[i].(actionDescriptor := Some(r.value.actionDescriptor.Ref()))))
    ensures r.Success? ==> DescribesMessage(explorer, messageType, r.value)
  {
    if GetWithBody(explorer, messageType) then
      Failure(InvalidOperation(GetWithBodyMessage(messageType.fullName)))
    else
      var parameters :- BuildParameters(messageType, explorer.settings.parameterSourceSelector(messageType),
                                        explorer.settings.parameterName);
      Success(Assemble(explorer, messageType, parameters))
  }

  /**
   * What a synthesised description says about its message type: verb, route, documentation,
   * action, response, formatters, and parameter descriptions matching the action's parameters
   * one-to-one and in order.
   */
  ghost predicate DescribesMessage(explorer: ControllerlessApiExplorer, messageType: MessageType, d: ApiDescription) {
    var settings := explorer.settings;
    var actionName := settings.actionNameSelector(messageType);
    var responseType := explorer.responseTypeSelector(messageType);
    var action := d.actionDescriptor;
    && d.httpMethod == settings.httpMethodSelector(messageType)
    && d.relativePath == RelativePath(settings, actionName)
    && d.documentation == explorer.typeDescriptionSelector(messageType.Ref())
    && action.messageType == messageType && action.actionName == actionName && action.returnType == responseType
    && action.controllerDescriptor == Some(settings.controllerDescriptor)
    && (forall p :: p in GetParameters(action) ==> p.actionDescriptor == Some(action.Ref()))
    && d.responseDescription.declaredType == responseType
    && d.responseDescription.responseType == responseType
    && d.responseDescription.documentation == explorer.typeDescriptionSelector(responseType)
    && d.supportedRequestBodyFormatters == settings.supportedRequestBodyFormatters
    && ParametersDescribed(explorer.typeDescriptionSelector, settings.parameterSourceSelector(messageType),
                           GetParameters(action), d.parameterDescriptions)
  }

  /** Parameter descriptions match the parameters one-to-one and in order. */
  ghost predicate ParametersDescribed(typeDescriptionSelector: TypeRef -> Option<string>, source: ParameterSource,
                                      parameters: seq<ParameterDescriptor>, descriptions: seq<ApiParameterDescription>) {
    && |descriptions| == |parameters|
    && forall i :: 0 <= i < |descriptions| ==>
         && descriptions[i].source == source
         && descriptions[i].name == parameters[i].parameterName
         && descriptions[i].parameterDescriptor == parameters[i]
         && descriptions[i].documentation == typeDescriptionSelector(parameters[i].parameterType)
  }

  /** `GetDescriptions`: the message types' descriptions in order; the first failure aborts. */
  function GetDescriptions(explorer: ControllerlessApiExplorer): (r: Result<seq<ApiDescription>, Error>)
    ensures r.Success? <==> forall i :: 0 <= i < |explorer.messageTypes| ==>
                              CreateApiDescription(explorer, explorer.messageTypes[i]).Success?
    ensures r.Success? ==> |r.value| == |explorer.messageTypes|
    ensures r.Success? ==> forall i :: 0 <= i < |explorer.messageTypes| ==>
                             r.value[i] == CreateApiDescription(explorer, explorer.messageTypes[i]).value
    ensures r.Failure? ==> exists k :: 0 <= k < |explorer.messageTypes|
                             && CreateApiDescription(explorer, explorer.messageTypes[k]) == Failure(r.error)
                             && forall j :: 0 <= j < k ==> CreateApiDescription(explorer, explorer.messageTypes[j]).Success?
  {
    Collections.MapResult(explorer.messageTypes, (t: MessageType) => CreateApiDescription(explorer, t))
  }

  /**
   * `ApiDescriptions`: the cached collection, synthesised from the current state on the first read.
   * The second component is the explorer after the read.
   */
  function ApiDescriptions(explorer: ControllerlessApiExplorer)
    : (r: (Result<seq<ApiDescription>, Error>, ControllerlessApiExplorer))
    ensures r.1 == explorer.(descriptions := r.1.descriptions)
    ensures r.1.descriptions.cached == Some(r.0)
    ensures explorer.descriptions.cached.None? ==> r.0 == GetDescriptions(explorer)
    ensures explorer.descriptions.cached.Some? ==> r.0 == explorer.descriptions.cached.value && r.1 == explorer
  {
    var (value, descriptions) := Lazy.Force(explorer.descriptions, () => GetDescriptions(explorer));
    (value, explorer.(descriptions := descriptions))
  }
}
