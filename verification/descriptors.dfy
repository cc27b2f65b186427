/**
 * The reflected types the explorer reads and the parameter and action descriptors it builds.
 * Reflection is replaced by explicit records: a message type lists its properties and attributes.
 */
module Descriptors {
  import opened Wrappers
  import opened Errors
  import Casing
  import Collections

  /** Identity of a CLR type, by its full name. */
  datatype TypeRef = TypeRef(fullName: string)

  /** One reflected property: its name, its type and the binding flags that select it. */
  datatype PropertyInfo = PropertyInfo(name: string, propertyType: TypeRef, isPublic: bool, isStatic: bool)

  /** One custom attribute declared on a message class. */
  datatype Attribute = Attribute(attributeType: TypeRef, arguments: seq<string>)

  /** A command or query class: short name, full name, declared properties and custom attributes. */
  datatype MessageType = MessageType(name: string, fullName: string, properties: seq<PropertyInfo>,
                                     attributes: seq<Attribute>)
  {
    function Ref(): TypeRef {
      TypeRef(fullName)
    }
  }

  /** `BindingFlags.Instance | BindingFlags.Public`. */
  predicate IsPublicInstance(p: PropertyInfo) {
    p.isPublic && !p.isStatic
  }

  /**
   * `messageType.GetProperties(BindingFlags.Instance | BindingFlags.Public)`: the public instance
   * properties in the order of the `properties` list, which stands for the order reflection reports.
   */
  function PublicInstanceProperties(messageType: MessageType): (r: seq<PropertyInfo>)
    ensures forall p :: p in r <==> p in messageType.properties && IsPublicInstance(p)
    ensures forall p :: multiset(r)[p] == if IsPublicInstance(p) then multiset(messageType.properties)[p] else 0
    ensures |messageType.properties| == 0 ==> r == []
  {
    Collections.Filter(messageType.properties, IsPublicInstance)
  }

  /**
   * The selection keeps the reported order: one more property at the end of the list adds that
   * property at the end of the selection when it is a public instance property, and nothing otherwise.
   */
  lemma PublicInstancePropertiesKeepOrder(messageType: MessageType, p: PropertyInfo)
    ensures PublicInstanceProperties(messageType.(properties := messageType.properties + [p]))
            == PublicInstanceProperties(messageType) + if IsPublicInstance(p) then [p] else []
  {
    Collections.FilterAppend(messageType.properties, [p], IsPublicInstance);
    assert [p][1..] == [];
  }

  /** The controller descriptor shared by all actions of one explorer; only its name matters here. */
  datatype ControllerDescriptor = ControllerDescriptor(controllerName: string)

  /** Identity of an action descriptor, which is what a parameter's back-reference points to. */
  datatype ActionRef = ActionRef(messageType: TypeRef, actionName: string)

  /** `ControllerlessParameterDescriptor`; `actionDescriptor` is the back-reference set by the action. */
  datatype ParameterDescriptor = ParameterDescriptor(parameterName: string, parameterType: TypeRef,
                                                     actionDescriptor: Option<ActionRef>)

  /** The parameter descriptor constructor: the name is camel-cased, the type is kept as given. */
  function NewParameterDescriptor(parameterName: string, parameterType: TypeRef): (r: Result<ParameterDescriptor, Error>)
    ensures r.Failure? <==> |parameterName| == 0
    ensures r.Failure? ==> r.error == ArgumentOutOfRange("length")
    ensures r.Success? ==> Casing.ToCamelCase(parameterName) == Success(r.value.parameterName)
    ensures r.Success? ==> r.value.parameterType == parameterType && r.value.actionDescriptor.None?
  {
    var name :- Casing.ToCamelCase(parameterName);
    Success(ParameterDescriptor(name, parameterType, None))
  }

  /** A parameter descriptor without its back-reference: the part the caller supplies. */
  function Detached(p: ParameterDescriptor): ParameterDescriptor {
    p.(actionDescriptor := None)
  }

  /** `ControllerlessActionDescriptor`. */
  datatype ActionDescriptor = ActionDescriptor(messageType: MessageType, actionName: string, returnType: TypeRef,
                                               parameters: seq<ParameterDescriptor>,
                                               controllerDescriptor: Option<ControllerDescriptor>)
  {
    function Ref(): ActionRef {
      ActionRef(messageType.Ref(), actionName)
    }
  }

  /**
   * The action descriptor constructor: keeps its arguments, copies the parameters in order and
   * points every parameter's back-reference at the new descriptor.
   */
  function NewActionDescriptor(messageType: MessageType, actionName: string, returnType: TypeRef,
                               parameters: seq<ParameterDescriptor>): (r: ActionDescriptor)
    ensures r.messageType == messageType && r.actionName == actionName && r.returnType == returnType
    ensures r.controllerDescriptor.None?
    ensures |r.parameters| == |parameters|
    ensures forall i :: 0 <= i < |parameters| ==> Detached(r.parameters[i]) == Detached(parameters[i])
    ensures forall p :: p in r.parameters ==> p.actionDescriptor == Some(r.Ref())
  {
    var self := ActionRef(messageType.Ref(), actionName);
    ActionDescriptor(messageType, actionName, returnType,
                     seq(|parameters|, i requires 0 <= i < |parameters| => parameters[i].(actionDescriptor := Some(self))),
                     None)
  }

  /** `GetParameters`: the stored parameter collection. */
  function GetParameters(action: ActionDescriptor): seq<ParameterDescriptor> {
    action.parameters
  }

  /**
   * After construction `GetParameters` yields the supplied parameters, same names and types in the
   * same order, each pointing back at the action.
   */
  lemma GetParametersAfterConstruction(messageType: MessageType, actionName: string, returnType: TypeRef,
                                       parameters: seq<ParameterDescriptor>, i: nat)
    requires i < |parameters|
    ensures var action := NewActionDescriptor(messageType, actionName, returnType, parameters);
            && |GetParameters(action)| == |parameters|
            && GetParameters(action)[i].parameterName == parameters[i].parameterName
            && GetParameters(action)[i].parameterType == parameters[i].parameterType
            && GetParameters(action)[i].actionDescriptor == Some(action.Ref())
  {
    var action := NewActionDescriptor(messageType, actionName, returnType, parameters);
    assert Detached(action.parameters[i]) == Detached(parameters[i]);
    assert action.parameters[i] in action.parameters;
  }

  /**
   * `GetCustomAttributes<T>`: the message class's attributes that are instances of `T`, which
   * `isInstance` decides, in the order reflection reports them.
   */
  function GetCustomAttributes(action: ActionDescriptor, isInstance: Attribute -> bool): (r: seq<Attribute>)
    ensures forall a :: a in r <==> a in action.messageType.attributes && isInstance(a)
    ensures forall a :: multiset(r)[a] == if isInstance(a) then multiset(action.messageType.attributes)[a] else 0
  {
    Collections.Filter(action.messageType.attributes, isInstance)
  }

  /** `ExecuteAsync`: a descriptor only describes; executing it always throws `NotImplementedException`. */
  function ExecuteAsync<V>(action: ActionDescriptor, arguments: map<string, V>): (r: Result<V, Error>)
    ensures r.Failure? && r.error == NotImplemented
  {
    Failure(NotImplemented)
  }
}
