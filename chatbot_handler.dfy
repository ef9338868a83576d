/**
  The chatbot Lambda's request handler: it dispatches on the `operation`
  field of the decoded request body, and for "create_session" mints a
  session id that is not yet a key of the session table.

  The table is the set of ids it holds when the handler runs, and the UUID
  generator is the sequence of ids it would produce, in order.
*/
module ChatbotHandler {

  /** A decoded JSON value (numbers restricted to integers). */
  datatype Json =
    | JNull
    | JBool(b: bool)
    | JNumber(n: int)
    | JString(s: string)
    | JArray(items: seq<Json>)
    | JObject(fields: map<string, Json>)

  /** The dictionary the handler returns: `{"session_id": ...}` or `{"message": ...}`. */
  datatype Reply = SessionCreated(sessionId: string) | Message(text: string)

  const CreateSession: string := "create_session"
  const NotSupported: string := "Operation not supported"

  /** The body's `operation`, or None (JSON null) when the key is absent. */
  function Operation(body: map<string, Json>): Json
  {
    if "operation" in body then body["operation"] else JNull
  }

  /** Some id the generator yields from position `from` on is not in the table. */
  predicate FreshFrom(table: set<string>, candidates: seq<string>, from: nat)
  {
    exists j :: from <= j < |candidates| && candidates[j] !in table
  }

  /** Position of the first candidate, from `from` on, that the table lacks. */
  function FirstFresh(table: set<string>, candidates: seq<string>, from: nat): (i: nat)
    requires FreshFrom(table, candidates, from)
    ensures from <= i < |candidates| && candidates[i] !in table
    ensures forall j :: from <= j < i ==> candidates[j] in table
    decreases |candidates| - from
  {
    if candidates[from] !in table then from else FirstFresh(table, candidates, from + 1)
  }

  /** The position a fresh candidate follows only taken ones at is the first fresh one. */
  lemma FirstFreshIsUnique(table: set<string>, candidates: seq<string>, i: nat)
    requires i < |candidates| && candidates[i] !in table
    requires forall j :: 0 <= j < i ==> candidates[j] in table
    ensures FreshFrom(table, candidates, 0) && FirstFresh(table, candidates, 0) == i
  {
    assert FreshFrom(table, candidates, 0);
  }

  /** Draw ids until the table lookup finds no item. The loop body always
      runs once, since the initial response already holds an "Item" key. */
  method UniqueSessionId(table: set<string>, candidates: seq<string>)
    returns (sessionId: string, ghost draws: nat)
    requires FreshFrom(table, candidates, 0)
    ensures sessionId !in table
    ensures draws == FirstFresh(table, candidates, 0) + 1
    ensures sessionId == candidates[draws - 1]
    ensures forall j :: 0 <= j < draws - 1 ==> candidates[j] in table
  {
    sessionId := "";
    var itemFound := true;
    var next: nat := 0;
    while itemFound
      invariant itemFound ==> next <= FirstFresh(table, candidates, 0)
      invariant !itemFound ==> next == FirstFresh(table, candidates, 0) + 1
      invariant !itemFound ==> 0 < next <= |candidates| && sessionId == candidates[next - 1]
      decreases |candidates| - next
    {
      sessionId := candidates[next];
      next := next + 1;
      // get_item returns an "Item" exactly when the key is in the table
      itemFound := sessionId in table;
    }
    draws := next;
  }

  method HandleCreateSession(table: set<string>, candidates: seq<string>) returns (reply: Reply)
    requires FreshFrom(table, candidates, 0)
    ensures reply == SessionCreated(candidates[FirstFresh(table, candidates, 0)])
    ensures reply.sessionId !in table
  {
    var sessionId;
    ghost var draws;
    sessionId, draws := UniqueSessionId(table, candidates);
    reply := SessionCreated(sessionId);
  }

  /** The Lambda entry point, on the decoded request body. */
  method Handler(body: map<string, Json>, table: set<string>, candidates: seq<string>)
    returns (reply: Reply)
    requires Operation(body) == JString(CreateSession) ==> FreshFrom(table, candidates, 0)
    ensures reply.SessionCreated? <==> "operation" in body && body["operation"] == JString("create_session")
    ensures reply.SessionCreated? ==>
              reply.sessionId == candidates[FirstFresh(table, candidates, 0)] && reply.sessionId !in table
    ensures reply.Message? ==> reply == Message("Operation not supported")
  {
    var operation := Operation(body);
    if operation == JString(CreateSession) {
      reply := HandleCreateSession(table, candidates);
    } else {
      reply := Message(NotSupported);
    }
  }
}
