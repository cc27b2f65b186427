/** What the explorer promises about the descriptions it synthesises and about its cache. */
module ApiExplorerProperties {
  import opened Wrappers
  import opened Errors
  import opened Descriptors
  import opened Descriptions
  import opened ApiExplorer
  import Casing
  import Lazy

  /** One description per message type, in the order of the message types. */
  lemma OneDescriptionPerMessageType(explorer: ControllerlessApiExplorer, i: nat)
    requires i < |explorer.messageTypes|
    ensures GetDescriptions(explorer).Success? ==>
              && |GetDescriptions(explorer).value| == |explorer.messageTypes|
              && GetDescriptions(explorer).value[i].actionDescriptor.messageType == explorer.messageTypes[i]
              && GetDescriptions(explorer).value[i].actionDescriptor.actionName
                 == explorer.settings.actionNameSelector(explorer.messageTypes[i])
  {
    if GetDescriptions(explorer).Success? {
      var t := explorer.messageTypes[i];
      assert DescribesMessage(explorer, t, CreateApiDescription(explorer, t).value);
    }
  }

  /**
   * With the default path selector the route is prefix, controller name, `/`, action name, all
   * taken from the settings in force when the descriptions are synthesised.
   */
  lemma DefaultRoute(explorer: ControllerlessApiExplorer, i: nat)
    requires explorer.settings.relativePathSelector.DefaultRelativePath?
    requires i < |explorer.messageTypes|
    ensures GetDescriptions(explorer).Success? ==>
              GetDescriptions(explorer).value[i].relativePath
              == explorer.settings.apiPrefix + explorer.settings.controllerDescriptor.controllerName + "/"
                 + explorer.settings.actionNameSelector(explorer.messageTypes[i])
  {
    if GetDescriptions(explorer).Success? {
      var t := explorer.messageTypes[i];
      assert DescribesMessage(explorer, t, CreateApiDescription(explorer, t).value);
    }
  }

  /** A GET message type whose parameter source is the body makes synthesis fail. */
  lemma GetWithBodyRejected(explorer: ControllerlessApiExplorer, k: nat)
    requires k < |explorer.messageTypes| && GetWithBody(explorer, explorer.messageTypes[k])
    ensures GetDescriptions(explorer).Failure?
  {
    assert CreateApiDescription(explorer, explorer.messageTypes[k]).Failure?;
  }

  /**
   * When the message types before it synthesise, the error is the invalid-operation error naming
   * the full name of the GET message type whose parameter source is the body.
   */
  lemma GetWithBodyNamed(explorer: ControllerlessApiExplorer, k: nat)
    requires k < |explorer.messageTypes| && GetWithBody(explorer, explorer.messageTypes[k])
    requires forall j :: 0 <= j < k ==> CreateApiDescription(explorer, explorer.messageTypes[j]).Success?
    ensures GetDescriptions(explorer).Failure?
    ensures GetDescriptions(explorer).error == InvalidOperation(GetWithBodyMessage(explorer.messageTypes[k].fullName))
  {
    GetWithBodyRejected(explorer, k);
    var r := GetDescriptions(explorer);
    var k' :| 0 <= k' < |explorer.messageTypes|
              && CreateApiDescription(explorer, explorer.messageTypes[k']) == Failure(r.error)
              && forall j :: 0 <= j < k' ==> CreateApiDescription(explorer, explorer.messageTypes[j]).Success?;
    assert CreateApiDescription(explorer, explorer.messageTypes[k]).Failure?;
    assert k' == k;
  }

  /**
   * An invalid-operation failure of synthesis always comes from a GET message type whose parameter
   * source is the body, and its message names that type.
   */
  lemma InvalidOperationMeansGetWithBody(explorer: ControllerlessApiExplorer)
    requires GetDescriptions(explorer).Failure? && GetDescriptions(explorer).error.InvalidOperation?
    ensures exists k :: 0 <= k < |explorer.messageTypes| && GetWithBody(explorer, explorer.messageTypes[k])
                        && GetDescriptions(explorer).error.message
                           == GetWithBodyMessage(explorer.messageTypes[k].fullName)
  {
    var r := GetDescriptions(explorer);
    var k :| 0 <= k < |explorer.messageTypes|
             && CreateApiDescription(explorer, explorer.messageTypes[k]) == Failure(r.error)
             && forall j :: 0 <= j < k ==> CreateApiDescription(explorer, explorer.messageTypes[j]).Success?;
    assert GetWithBody(explorer, explorer.messageTypes[k]);
  }

  /** Property and parameter names a message type needs for its description to be built. */
  predicate NamesPresent(explorer: ControllerlessApiExplorer, messageType: MessageType) {
    && |explorer.settings.parameterName| > 0
    && forall p :: p in messageType.properties ==> |p.name| > 0
  }

  /**
   * When every name is present, GET with the body as parameter source is the only combination of
   * verb and source that fails.
   */
  lemma OnlyGetWithBodyFails(explorer: ControllerlessApiExplorer, messageType: MessageType)
    requires NamesPresent(explorer, messageType)
    ensures CreateApiDescription(explorer, messageType).Success? <==> !GetWithBody(explorer, messageType)
  {
    var props := PublicInstanceProperties(messageType);
    assert forall i :: 0 <= i < |props| ==> props[i] in props;
  }

  /** Reading `ApiDescriptions` twice gives the same result, and the second read changes nothing. */
  lemma ApiDescriptionsStable(explorer: ControllerlessApiExplorer)
    ensures ApiDescriptions(ApiDescriptions(explorer).1).0 == ApiDescriptions(explorer).0
    ensures ApiDescriptions(ApiDescriptions(explorer).1).1 == ApiDescriptions(explorer).1
  {
  }

  /**
   * Synthesis runs at most once: starting from a consistent cache, one read leaves the factory run
   * exactly once, and any settings changed after that read no longer affect what is read.
   */
  lemma {:induction false} SynthesisRunsOnce(explorer: ControllerlessApiExplorer, later: Settings)
    requires Lazy.Valid(explorer.descriptions)
    ensures ApiDescriptions(explorer).1.descriptions.evaluations == 1
    ensures ApiDescriptions(ApiDescriptions(explorer).1.(settings := later)).0 == ApiDescriptions(explorer).0
  {
    var (v, e1) := ApiDescriptions(explorer);
    Lazy.ForceOnce(explorer.descriptions, () => GetDescriptions(explorer),
                   () => GetDescriptions(e1.(settings := later)));
  }

  /**
   * Settings are read when synthesis runs, not when the explorer is built: changing the prefix
   * before the first read changes every default route.
   */
  lemma PrefixReadAtSynthesis(explorer: ControllerlessApiExplorer, prefix: string, i: nat)
    requires explorer.descriptions.cached.None?
    requires explorer.settings.relativePathSelector.DefaultRelativePath?
    requires var e := explorer.(settings := explorer.settings.(apiPrefix := prefix));
             ApiDescriptions(e).0.Success? && i < |explorer.messageTypes|
    ensures var e := explorer.(settings := explorer.settings.(apiPrefix := prefix));
            ApiDescriptions(e).0.value[i].relativePath
            == prefix + explorer.settings.controllerDescriptor.controllerName + "/"
               + explorer.settings.actionNameSelector(explorer.messageTypes[i])
  {
    var e := explorer.(settings := explorer.settings.(apiPrefix := prefix));
    DefaultRoute(e, i);
  }

  /**
   * A freshly constructed explorer posts every message type to `api/<controller>/<type name>`
   * with a single body parameter named `message` of the message's own type.
   */
  lemma DefaultsOfNewExplorer(controllerName: string, messageTypes: seq<MessageType>,
                              typeDescriptionSelector: TypeRef -> Option<string>,
                              responseTypeSelector: MessageType -> TypeRef, i: nat)
    requires i < |messageTypes|
    ensures var explorer := NewControllerlessApiExplorer(Some(controllerName), Some(messageTypes),
                                                         Some(typeDescriptionSelector), Some(responseTypeSelector)).value;
            var r := ApiDescriptions(explorer).0;
            && r.Success?
            && r.value[i].relativePath == "api/" + controllerName + "/" + messageTypes[i].name
            && r.value[i].httpMethod == Post
            && |r.value[i].parameterDescriptions| == 1
            && r.value[i].parameterDescriptions[0].name == "message"
            && r.value[i].parameterDescriptions[0].source == FromBody
            && r.value[i].parameterDescriptions[0].parameterDescriptor.parameterType == messageTypes[i].Ref()
  {
    var explorer := NewControllerlessApiExplorer(Some(controllerName), Some(messageTypes),
                                                 Some(typeDescriptionSelector), Some(responseTypeSelector)).value;
    Casing.CamelCaseExamples();
    assert !IsGet(Post) by {
      assert Casing.ToUpper('P') != Casing.ToUpper('G');
    }
    forall j | 0 <= j < |messageTypes|
      ensures CreateApiDescription(explorer, messageTypes[j]).Success?
    {
      assert !GetWithBody(explorer, messageTypes[j]);
    }
    var d := CreateApiDescription(explorer, messageTypes[i]).value;
    assert DescribesMessage(explorer, messageTypes[i], d);
  }

  /** A message with properties `Name: string` and `Age: int`, used by the examples below. */
  function PersonMessage(): MessageType {
    MessageType("CreatePerson", "Shop.CreatePerson",
                [PropertyInfo("Name", TypeRef("System.String"), true, false),
                 PropertyInfo("Age", TypeRef("System.Int32"), true, false),
                 PropertyInfo("Count", TypeRef("System.Int32"), true, true)],
                [])
  }

  /** From the URI the example message yields `name` and `age`; the static property is skipped. */
  lemma UriParameterExample()
    ensures var r := BuildParameters(PersonMessage(), FromUri, "message");
            && r.Success? && |r.value| == 2
            && r.value[0].parameterName == "name" && r.value[0].parameterType == TypeRef("System.String")
            && r.value[1].parameterName == "age" && r.value[1].parameterType == TypeRef("System.Int32")
  {
    var t := PersonMessage();
    var props := PublicInstanceProperties(t);
    assert t.properties[2..] == [t.properties[2]];
    assert t.properties[1..][1..] == t.properties[2..];
    assert props == [t.properties[0], t.properties[1]];
    assert Casing.ToCamelCase("Name") == Success("name") by {
      assert "Name"[1..] == "ame" && Casing.ToLower('N') == 'n' && ['n'] + "ame" == "name";
    }
    assert Casing.ToCamelCase("Age") == Success("age") by {
      assert "Age"[1..] == "ge" && Casing.ToLower('A') == 'a' && ['a'] + "ge" == "age";
    }
  }

  /**
   * From the body the example message yields the single parameter `message` of the message's
   * type, and an empty parameter name fails.
   */
  lemma BodyParameterExample()
    ensures var r := BuildParameters(PersonMessage(), FromBody, "message");
            && r.Success? && |r.value| == 1
            && r.value[0].parameterName == "message" && r.value[0].parameterType == TypeRef("Shop.CreatePerson")
    ensures BuildParameters(PersonMessage(), FromBody, "").Failure?
  {
    Casing.CamelCaseExamples();
  }

  /** With the default selectors the route of `CreateOrder` in the `commands` explorer is `api/commands/CreateOrder`. */
  lemma RouteExample()
    ensures var settings := DefaultSettings("commands");
            var createOrder := MessageType("CreateOrder", "Shop.CreateOrder", [], []);
            RelativePath(settings, settings.actionNameSelector(createOrder)) == "api/commands/CreateOrder"
  {
    assert "api/" + "commands" + "/" + "CreateOrder" == "api/commands/CreateOrder";
  }
}
