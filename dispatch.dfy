/** Message dispatch of `ConfigurationManagerImpl`: `handleMessage` and `handleApiMessage` test
    `instanceof` in a fixed order and hand the message to the first branch that matches. */
module Dispatch {
  import opened Wrappers

  /** A message as the dispatcher sees it: the classes and interfaces it is an instance of
      (simple names). */
  datatype Message = Message(types: set<string>)

  /** Where a message goes. */
  datatype Route =
    | ToInstanceOfferingPassThrough
    | ToDiskOfferingPassThrough
    | ToApiHandler(messageType: string)  // `handle(<messageType>)`
    | Unknown                            // `bus.dealWithUnknownMessage`

  const InstanceOfferingMessage := "InstanceOfferingMessage"
  const DiskOfferingMessage := "DiskOfferingMessage"
  const APIMessage := "APIMessage"

  /** The API message types `handleApiMessage` serves, in the order it tests them. */
  const ApiHandlers: seq<string> := [
    "APICreateInstanceOfferingMsg", "APIListInstanceOfferingMsg", "APICreateDiskOfferingMsg",
    "APIListDiskOfferingMsg", "APISearchInstanceOfferingMsg", "APISearchDiskOfferingMsg",
    "APIGetInstanceOfferingMsg", "APIGetDiskOfferingMsg", "APIGenerateApiJsonTemplateMsg",
    "APIGenerateTestLinkDocumentMsg", "APIGenerateGroovyClassMsg", "APIGenerateSqlVOViewMsg",
    "APIGenerateApiTypeScriptDefinitionMsg", "APIGenerateSqlForeignKeyMsg", "APIGenerateSqlIndexMsg"]

  /** The first of `handlers` the message is an instance of. */
  function FirstMatch(handlers: seq<string>, types: set<string>): Option<string> {
    if handlers == [] then None
    else if handlers[0] in types then Some(handlers[0])
    else FirstMatch(handlers[1..], types)
  }

  /** The first match is a handler type the message has, and no earlier handler type is one
      the message has; there is no match exactly when it has none of them. */
  lemma {:induction false} FirstMatchIsFirst(handlers: seq<string>, types: set<string>)
    ensures var r := FirstMatch(handlers, types);
      (r.None? <==> forall i :: 0 <= i < |handlers| ==> handlers[i] !in types) &&
      (r.Some? ==> exists i :: 0 <= i < |handlers| && handlers[i] == r.value && r.value in types &&
                     forall j :: 0 <= j < i ==> handlers[j] !in types)
  {
    if handlers != [] && handlers[0] !in types {
      var rest := handlers[1..];
      FirstMatchIsFirst(rest, types);
      if FirstMatch(rest, types).Some? {
        var i :| 0 <= i < |rest| && rest[i] == FirstMatch(rest, types).value && rest[i] in types &&
          forall j :: 0 <= j < i ==> rest[j] !in types;
        assert handlers[i + 1] == rest[i];
        forall j | 0 <= j < i + 1 ensures handlers[j] !in types {
          if j > 0 {
            assert handlers[j] == rest[j - 1];
          }
        }
      } else {
        forall i | 0 <= i < |handlers| ensures handlers[i] !in types {
          if i > 0 {
            assert handlers[i] == rest[i - 1];
          }
        }
      }
    }
  }

  /** `handleApiMessage`. */
  function HandleApiMessage(msg: Message): Route {
    match FirstMatch(ApiHandlers, msg.types)
    case Some(t) => ToApiHandler(t)
    case None => Unknown
  }

  /** `handleMessage`: instance-offering messages first, then disk-offering messages, then API
      messages; anything else is unknown. */
  function HandleMessage(msg: Message): Route {
    if InstanceOfferingMessage in msg.types then ToInstanceOfferingPassThrough
    else if DiskOfferingMessage in msg.types then ToDiskOfferingPassThrough
    else if APIMessage in msg.types then HandleApiMessage(msg)
    else Unknown
  }

  /** The priority of the branches: an offering message never reaches the API handlers, even
      when it is an API message too, and an API message goes to the first handler whose type it
      has, or is unknown when it has none. */
  lemma HandleMessageRoutes(msg: Message)
    ensures var r, ts := HandleMessage(msg), msg.types;
      (r == ToInstanceOfferingPassThrough <==> InstanceOfferingMessage in ts) &&
      (r == ToDiskOfferingPassThrough <==> InstanceOfferingMessage !in ts && DiskOfferingMessage in ts) &&
      (r.ToApiHandler? ==>
         APIMessage in ts && InstanceOfferingMessage !in ts && DiskOfferingMessage !in ts &&
         exists i :: 0 <= i < |ApiHandlers| && ApiHandlers[i] == r.messageType && r.messageType in ts &&
                     forall j :: 0 <= j < i ==> ApiHandlers[j] !in ts) &&
      (r == Unknown <==>
         InstanceOfferingMessage !in ts && DiskOfferingMessage !in ts &&
         (APIMessage in ts ==> forall i :: 0 <= i < |ApiHandlers| ==> ApiHandlers[i] !in ts))
  {
    FirstMatchIsFirst(ApiHandlers, msg.types);
  }
}
