/**
 * The three composite providers. Each wraps an ordered array of providers and answers with the
 * first provider answer that counts as a hit (see `Fallback`).
 */
module Providers {
  import opened Wrappers
  import opened Errors
  import opened Descriptors
  import opened Fallback

  /** An `ITypeDescriptionProvider` or `IDescriptionProvider`: a description, or null, per type. */
  type DescriptionLookup = TypeRef -> Option<string>

  /** `CompositeTypeDescriptionProvider`. */
  datatype CompositeTypeDescriptionProvider = CompositeTypeDescriptionProvider(providers: seq<DescriptionLookup>)

  /** The constructor: a null provider array is rejected, any other array is kept as given. */
  function NewCompositeTypeDescriptionProvider(providers: Option<seq<DescriptionLookup>>)
    : (r: Result<CompositeTypeDescriptionProvider, Error>)
    ensures r.Failure? <==> providers.None?
    ensures r.Failure? ==> r.error == ArgumentNull("providers")
    ensures r.Success? ==> r.value.providers == providers.value
  {
    match providers
    case None => Failure(ArgumentNull("providers"))
    case Some(ps) => Success(CompositeTypeDescriptionProvider(ps))
  }

  /**
   * `GetDescription`: the first provider answer, in array order, that is neither null nor empty;
   * null when there is none. The empty string is never returned.
   */
  function GetTypeDescription(composite: CompositeTypeDescriptionProvider, t: TypeRef): (r: Option<string>)
    ensures IsFirstHit(Ask(composite.providers, t), HasDescription, r)
    ensures r != Some("")
  {
    FirstHit(Ask(composite.providers, t), HasDescription)
  }

  /** `CompositeDescriptionProvider`: the same rule behind the `IDescriptionProvider` interface. */
  datatype CompositeDescriptionProvider = CompositeDescriptionProvider(providers: seq<DescriptionLookup>)

  /** The constructor: a null provider array is rejected, any other array is kept as given. */
  function NewCompositeDescriptionProvider(providers: Option<seq<DescriptionLookup>>)
    : (r: Result<CompositeDescriptionProvider, Error>)
    ensures r.Failure? <==> providers.None?
    ensures r.Failure? ==> r.error == ArgumentNull("providers")
    ensures r.Success? ==> r.value.providers == providers.value
  {
    match providers
    case None => Failure(ArgumentNull("providers"))
    case Some(ps) => Success(CompositeDescriptionProvider(ps))
  }

  /**
   * `GetDescription`: the first provider answer, in order, that is neither null nor empty; null when
   * there is none. The empty string is never returned.
   */
  function GetDescription(composite: CompositeDescriptionProvider, t: TypeRef): (r: Option<string>)
    ensures IsFirstHit(Ask(composite.providers, t), HasDescription, r)
    ensures r != Some("")
  {
    FirstHit(Ask(composite.providers, t), HasDescription)
  }

  /** Both description composites give the same answer for the same provider array. */
  lemma DescriptionCompositesAgree(providers: seq<DescriptionLookup>, t: TypeRef)
    ensures GetDescription(CompositeDescriptionProvider(providers), t)
         == GetTypeDescription(CompositeTypeDescriptionProvider(providers), t)
  {
    var a := GetDescription(CompositeDescriptionProvider(providers), t);
    var b := GetTypeDescription(CompositeTypeDescriptionProvider(providers), t);
    FirstHitUnique(Ask(providers, t), HasDescription, a, b);
  }

  /**
   * With no providers, or when every provider answers null or empty, the result is null; once
   * some provider has a description, providers appended after it make no difference.
   */
  lemma {:induction false} DescriptionMissesAndLaterProviders(providers: seq<DescriptionLookup>,
                                                              later: seq<DescriptionLookup>, t: TypeRef)
    ensures |providers| == 0 ==> GetDescription(CompositeDescriptionProvider(providers), t).None?
    ensures (forall i :: 0 <= i < |providers| ==> !HasDescription(providers[i](t)))
            <==> GetDescription(CompositeDescriptionProvider(providers), t).None?
    ensures GetDescription(CompositeDescriptionProvider(providers), t).Some? ==>
            GetDescription(CompositeDescriptionProvider(providers + later), t)
            == GetDescription(CompositeDescriptionProvider(providers), t)
  {
    var answers := Ask(providers, t);
    if GetDescription(CompositeDescriptionProvider(providers), t).Some? {
      var k :| 0 <= k < |answers| && HasDescription(answers[k]);
      LaterAnswersIgnored(answers, Ask(later, t), HasDescription);
      AskAppend(providers, later, t);
    }
  }

  /** `IDocumentationProvider`: its four lookups, each answering documentation or null. */
  datatype DocumentationProvider = DocumentationProvider(
    parameterDocumentation: ParameterDescriptor -> Option<string>,
    actionDocumentation: ActionDescriptor -> Option<string>,
    controllerDocumentation: ControllerDescriptor -> Option<string>,
    responseDocumentation: ActionDescriptor -> Option<string>)

  /** `CompositeDocumentationProvider`. */
  datatype CompositeDocumentationProvider = CompositeDocumentationProvider(providers: seq<DocumentationProvider>)

  /** The constructor: a null provider array is rejected, any other array is kept as given. */
  function NewCompositeDocumentationProvider(providers: Option<seq<DocumentationProvider>>)
    : (r: Result<CompositeDocumentationProvider, Error>)
    ensures r.Failure? <==> providers.None?
    ensures r.Failure? ==> r.error == ArgumentNull("providers")
    ensures r.Success? ==> r.value.providers == providers.value
  {
    match providers
    case None => Failure(ArgumentNull("providers"))
    case Some(ps) => Success(CompositeDocumentationProvider(ps))
  }

  /** Each provider's lookup for one overload, in provider order. */
  function ParameterLookups(composite: CompositeDocumentationProvider): seq<ParameterDescriptor -> Option<string>>
  {
    seq(|composite.providers|, i requires 0 <= i < |composite.providers| => composite.providers[i].parameterDocumentation)
  }

  function ActionLookups(composite: CompositeDocumentationProvider): seq<ActionDescriptor -> Option<string>>
  {
    seq(|composite.providers|, i requires 0 <= i < |composite.providers| => composite.providers[i].actionDocumentation)
  }

  function ControllerLookups(composite: CompositeDocumentationProvider): seq<ControllerDescriptor -> Option<string>>
  {
    seq(|composite.providers|, i requires 0 <= i < |composite.providers| => composite.providers[i].controllerDocumentation)
  }

  function ResponseLookups(composite: CompositeDocumentationProvider): seq<ActionDescriptor -> Option<string>>
  {
    seq(|composite.providers|, i requires 0 <= i < |composite.providers| => composite.providers[i].responseDocumentation)
  }

  /** `GetDocumentation(HttpParameterDescriptor)`: the first non-null answer, the empty string included. */
  function GetParameterDocumentation(composite: CompositeDocumentationProvider, parameter: ParameterDescriptor)
    : (r: Option<string>)
    ensures IsFirstHit(Ask(ParameterLookups(composite), parameter), IsNotNull, r)
  {
    FirstHit(Ask(ParameterLookups(composite), parameter), IsNotNull)
  }

  /** `GetDocumentation(HttpActionDescriptor)`: the first non-null answer, the empty string included. */
  function GetActionDocumentation(composite: CompositeDocumentationProvider, action: ActionDescriptor)
    : (r: Option<string>)
    ensures IsFirstHit(Ask(ActionLookups(composite), action), IsNotNull, r)
  {
    FirstHit(Ask(ActionLookups(composite), action), IsNotNull)
  }

  /** `GetDocumentation(HttpControllerDescriptor)`: the first non-null answer, the empty string included. */
  function GetControllerDocumentation(composite: CompositeDocumentationProvider, controller: ControllerDescriptor)
    : (r: Option<string>)
    ensures IsFirstHit(Ask(ControllerLookups(composite), controller), IsNotNull, r)
  {
    FirstHit(Ask(ControllerLookups(composite), controller), IsNotNull)
  }

  /** `GetResponseDocumentation(HttpActionDescriptor)`: the first non-null answer, the empty string included. */
  function GetResponseDocumentation(composite: CompositeDocumentationProvider, action: ActionDescriptor)
    : (r: Option<string>)
    ensures IsFirstHit(Ask(ResponseLookups(composite), action), IsNotNull, r)
  {
    FirstHit(Ask(ResponseLookups(composite), action), IsNotNull)
  }

  /**
   * Unlike the description composites, an empty documentation string is a hit: it is returned even
   * when a later provider has text. With no providers the answer is null.
   */
  lemma EmptyDocumentationIsAHit(composite: CompositeDocumentationProvider, parameter: ParameterDescriptor, k: nat)
    requires k < |composite.providers|
    requires composite.providers[k].parameterDocumentation(parameter) == Some("")
    requires forall j :: 0 <= j < k ==> composite.providers[j].parameterDocumentation(parameter).None?
    ensures GetParameterDocumentation(composite, parameter) == Some("")
  {
    var answers := Ask(ParameterLookups(composite), parameter);
    assert forall j :: 0 <= j < |answers| ==> answers[j] == composite.providers[j].parameterDocumentation(parameter);
    assert answers[k] == Some("");
    FirstHitUnique(answers, IsNotNull, GetParameterDocumentation(composite, parameter), Some(""));
  }

  /** `GetParameterDocumentation` answers null exactly when every provider answers null. */
  lemma ParameterDocumentationNullIffAllNull(composite: CompositeDocumentationProvider, parameter: ParameterDescriptor)
    ensures GetParameterDocumentation(composite, parameter).None?
            <==> forall i :: 0 <= i < |composite.providers| ==> composite.providers[i].parameterDocumentation(parameter).None?
  {
    var answers := Ask(ParameterLookups(composite), parameter);
    assert forall i :: 0 <= i < |composite.providers| ==> answers[i] == composite.providers[i].parameterDocumentation(parameter);
  }

  /** `GetActionDocumentation` answers null exactly when every provider answers null. */
  lemma ActionDocumentationNullIffAllNull(composite: CompositeDocumentationProvider, action: ActionDescriptor)
    ensures GetActionDocumentation(composite, action).None?
            <==> forall i :: 0 <= i < |composite.providers| ==> composite.providers[i].actionDocumentation(action).None?
  {
    var answers := Ask(ActionLookups(composite), action);
    assert forall i :: 0 <= i < |composite.providers| ==> answers[i] == composite.providers[i].actionDocumentation(action);
  }

  /** `GetControllerDocumentation` answers null exactly when every provider answers null. */
  lemma ControllerDocumentationNullIffAllNull(composite: CompositeDocumentationProvider, controller: ControllerDescriptor)
    ensures GetControllerDocumentation(composite, controller).None?
            <==> forall i :: 0 <= i < |composite.providers| ==> composite.providers[i].controllerDocumentation(controller).None?
  {
    var answers := Ask(ControllerLookups(composite), controller);
    assert forall i :: 0 <= i < |composite.providers| ==> answers[i] == composite.providers[i].controllerDocumentation(controller);
  }

  /** `GetResponseDocumentation` answers null exactly when every provider answers null. */
  lemma ResponseDocumentationNullIffAllNull(composite: CompositeDocumentationProvider, action: ActionDescriptor)
    ensures GetResponseDocumentation(composite, action).None?
            <==> forall i :: 0 <= i < |composite.providers| ==> composite.providers[i].responseDocumentation(action).None?
  {
    var answers := Ask(ResponseLookups(composite), action);
    assert forall i :: 0 <= i < |composite.providers| ==> answers[i] == composite.providers[i].responseDocumentation(action);
  }

  /** Each of the four documentation lookups answers null exactly when every provider answers null. */
  lemma DocumentationNullIffAllNull(composite: CompositeDocumentationProvider, parameter: ParameterDescriptor,
                                    action: ActionDescriptor, controller: ControllerDescriptor)
    ensures GetParameterDocumentation(composite, parameter).None?
            <==> forall i :: 0 <= i < |composite.providers| ==> composite.providers[i].parameterDocumentation(parameter).None?
    ensures GetActionDocumentation(composite, action).None?
            <==> forall i :: 0 <= i < |composite.providers| ==> composite.providers[i].actionDocumentation(action).None?
    ensures GetControllerDocumentation(composite, controller).None?
            <==> forall i :: 0 <= i < |composite.providers| ==> composite.providers[i].controllerDocumentation(controller).None?
    ensures GetResponseDocumentation(composite, action).None?
            <==> forall i :: 0 <= i < |composite.providers| ==> composite.providers[i].responseDocumentation(action).None?
  {
    ParameterDocumentationNullIffAllNull(composite, parameter);
    ActionDocumentationNullIffAllNull(composite, action);
    ControllerDocumentationNullIffAllNull(composite, controller);
    ResponseDocumentationNullIffAllNull(composite, action);
  }
}
