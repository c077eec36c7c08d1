/** Splitting a tool's arguments between path, query and body, `src/netcorenoc/api/mcp_tools.py`. */
module ToolArguments {
  import opened Wrappers

  /** What a caller may pass; a JSON null is `Null`. */
  datatype Value = Null | Data(text: string)

  datatype Tool = Tool(pathParams: set<string>, queryParams: set<string>, hasBody: bool)

  type Arguments = map<string, Value>

  /** What is sent in each of the three places; no body is `None`. */
  datatype Sent = Sent(path: Arguments, query: Arguments, body: Option<Arguments>)

  /** `split_arguments`: the path holds exactly the path parameters given, the query exactly the query
      parameters given with a value, and the body, if there is one, exactly what is in neither - a query
      parameter given as null included. Every argument sent keeps its value. */
  function SplitArguments(tool: Tool, arguments: Arguments): (sent: Sent)
    ensures sent.path.Keys == arguments.Keys * tool.pathParams
    ensures forall k :: k in sent.query <==> k in arguments && k in tool.queryParams && arguments[k] != Null
    ensures sent.body == None <==> !tool.hasBody
    ensures tool.hasBody ==> sent.body.value.Keys == arguments.Keys - sent.path.Keys - sent.query.Keys
    ensures forall k :: k in sent.path ==> sent.path[k] == arguments[k]
    ensures forall k :: k in sent.query ==> sent.query[k] == arguments[k]
    ensures tool.hasBody ==> forall k :: k in sent.body.value ==> sent.body.value[k] == arguments[k]
  {
    var path := map k | k in tool.pathParams && k in arguments :: arguments[k];
    var query := map k | k in tool.queryParams && k in arguments && arguments[k] != Null :: arguments[k];
    var rest := map k | k in arguments && k !in path && k !in query :: arguments[k];
    Sent(path, query, if tool.hasBody then Some(rest) else None)
  }

  /** All the arguments that arrive, wherever they were sent. */
  function Arrived(sent: Sent): Arguments {
    sent.path + sent.query + if sent.body == None then map[] else sent.body.value
  }

  predicate HasPlace(tool: Tool, k: string, v: Value) {
    k in tool.pathParams || (k in tool.queryParams && v != Null)
  }

  /** The three places put together are the arguments again if and only if the tool has a body, or there is
      nothing for one: every argument is a path parameter or a query parameter with a value. */
  lemma NothingIsLostExactly(tool: Tool, arguments: Arguments)
    ensures Arrived(SplitArguments(tool, arguments)) == arguments <==>
            tool.hasBody || forall k :: k in arguments ==> HasPlace(tool, k, arguments[k])
  {
    hide SplitArguments;
    var sent := SplitArguments(tool, arguments);
    var arrived := Arrived(sent);
    assert forall k :: k in arrived ==> k in arguments && arrived[k] == arguments[k];
    if tool.hasBody || forall k :: k in arguments ==> HasPlace(tool, k, arguments[k]) {
      assert arrived.Keys == arguments.Keys;
    } else {
      var k :| k in arguments && !HasPlace(tool, k, arguments[k]);
      assert k !in arrived;
    }
  }

  /** A null query parameter of a tool with a body travels in the body. */
  lemma NullQueryGoesToTheBody()
    ensures SplitArguments(Tool({"sid"}, {"limit"}, true), map["sid" := Data("7"), "limit" := Null])
            == Sent(map["sid" := Data("7")], map[], Some(map["limit" := Null]))
  {
    var tool, arguments := Tool({"sid"}, {"limit"}, true), map["sid" := Data("7"), "limit" := Null];
    var sent := SplitArguments(tool, arguments);
    assert sent.query == map[];
    assert sent.path == map["sid" := Data("7")];
    assert sent.body.value == map["limit" := Null];
  }
}
