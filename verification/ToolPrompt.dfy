/** Rewriting a transcript with native tool calls as plain chat. */
module ToolPrompt {
  import opened Wrappers
  import opened ToolCalls

  datatype Message =
    | System(content: Option<string>)
    | Assistant(content: Option<string>, calls: seq<NativeCall>)
    | ToolResult(callId: string, result: string)
    | Other(role: string, content: Option<string>)

  function Lines(parts: seq<string>): string {
    if parts == [] then "" else if |parts| == 1 then parts[0] else parts[0] + "\n" + Lines(parts[1..])
  }

  function Shown(c: Codec, v: Value): string {
    if v.Text? then v.text else c.dumps(v.data)
  }

  function Param(c: Codec, a: Arg): string {
    PARAM_OPEN + a.name + ">" + Shown(c, a.value) + PARAM_CLOSE
  }

  function Params(c: Codec, args: seq<Arg>): seq<string> {
    if args == [] then [] else [Param(c, args[0])] + Params(c, args[1..])
  }

  /** A call's arguments; a text that is not JSON stands for none. */
  function Items(c: Codec, call: NativeCall): seq<Arg> {
    match c.items(if call.arguments == "" then "{}" else call.arguments)
    case Some(args) => args
    case None => []
  }

  function RenderedCall(c: Codec, call: NativeCall): string {
    Lines([FN_OPEN + call.name + ">"] + Params(c, Items(c, call)) + [FN_CLOSE])
  }

  function RenderedCalls(c: Codec, calls: seq<NativeCall>): seq<string> {
    if calls == [] then [] else [RenderedCall(c, calls[0])] + RenderedCalls(c, calls[1..])
  }

  /** The assistant message that stands for prose and the calls after it. */
  function Rendered(c: Codec, prose: string, calls: seq<NativeCall>): string {
    Trim(prose + "\n" + Lines(RenderedCalls(c, calls)))
  }

  method RenderCall(c: Codec, call: NativeCall) returns (text: string)
    ensures text == RenderedCall(c, call)
  {
    var parts := [FN_OPEN + call.name + ">"];
    var todo := Items(c, call);
    while todo != []
      invariant parts + Params(c, todo) == [FN_OPEN + call.name + ">"] + Params(c, Items(c, call))
    {
      ghost var one, rest := [Param(c, todo[0])], Params(c, todo[1..]);
      assert parts + (one + rest) == (parts + one) + rest;
      parts := parts + [Param(c, todo[0])];
      todo := todo[1..];
    }
    assert parts + [] == parts;
    text := Lines(parts + [FN_CLOSE]);
  }

  // ---- The transcript ------------------------------------------------------------------------------

  function Text(content: Option<string>): string {
    if content.Some? then content.value else ""
  }

  function Learned(names: map<string, string>, calls: seq<NativeCall>): map<string, string>
    decreases |calls|
  {
    if calls == [] then names else Learned(names[calls[0].id := calls[0].name], calls[1..])
  }

  function CallsOf(m: Message): seq<NativeCall> {
    if m.Assistant? then m.calls else []
  }

  function AllCalls(messages: seq<Message>): seq<NativeCall> {
    if messages == [] then [] else CallsOf(messages[0]) + AllCalls(messages[1..])
  }

  function Labelled(names: map<string, string>, m: Message): Message
    requires m.ToolResult?
  {
    var name := if m.callId in names then names[m.callId] else "tool";
    Other("user", Some("EXECUTION RESULT of [" + name + "]:\n" + m.result))
  }

  function Rewritten(c: Codec, tools: string, names: map<string, string>, m: Message): Message {
    match m
    case System(content) => System(Some(Text(content) + "\n\n" + tools))
    case Assistant(content, calls) =>
      if calls == [] then m else Assistant(Some(Rendered(c, Text(content), calls)), [])
    case ToolResult(_, _) => Labelled(names, m)
    case Other(_, _) => m
  }

  function Prompt(c: Codec, tools: string, names: map<string, string>, messages: seq<Message>): seq<Message>
    decreases |messages|
  {
    if messages == [] then [] else
    [Rewritten(c, tools, names, messages[0])]
    + Prompt(c, tools, Learned(names, CallsOf(messages[0])), messages[1..])
  }

  method ToPromptMessages(c: Codec, tools: string, messages: seq<Message>) returns (out: seq<Message>)
    ensures out == Prompt(c, tools, map[], messages)
  {
    var names: map<string, string> := map[];
    out := [];
    var todo := messages;
    while todo != []
      invariant out + Prompt(c, tools, names, todo) == Prompt(c, tools, map[], messages)
    {
      var message := todo[0];
      ghost var rest := Prompt(c, tools, Learned(names, CallsOf(message)), todo[1..]);
      ghost var one := Rewritten(c, tools, names, message);
      assert out + ([one] + rest) == (out + [one]) + rest;
      match message {
        case System(content) =>
          out := out + [System(Some(Text(content) + "\n\n" + tools))];
        case Assistant(content, calls) =>
          if calls != [] {
            var rendered: seq<string>;
            rendered, names := RenderAll(c, calls, names);
            out := out + [Assistant(Some(Trim(Text(content) + "\n" + Lines(rendered))), [])];
          } else {
            out := out + [message];
          }
        case ToolResult(id, result) =>
          var name := if id in names then names[id] else "tool";
          out := out + [Other("user", Some("EXECUTION RESULT of [" + name + "]:\n" + result))];
        case Other(_, _) =>
          out := out + [message];
      }
      todo := todo[1..];
    }
  }

  method RenderAll(c: Codec, calls: seq<NativeCall>, known: map<string, string>)
    returns (rendered: seq<string>, names: map<string, string>)
    ensures rendered == RenderedCalls(c, calls) && names == Learned(known, calls)
  {
    rendered, names := [], known;
    var todo := calls;
    while todo != []
      invariant rendered + RenderedCalls(c, todo) == RenderedCalls(c, calls)
      invariant Learned(names, todo) == Learned(known, calls)
    {
      names := names[todo[0].id := todo[0].name];
      var text := RenderCall(c, todo[0]);
      assert rendered + ([text] + RenderedCalls(c, todo[1..])) == (rendered + [text]) + RenderedCalls(c, todo[1..]);
      rendered := rendered + [text];
      todo := todo[1..];
    }
  }

  /** The name of the last call made under an id. */
  predicate LastNamed(calls: seq<NativeCall>, id: string, name: string) {
    exists k :: 0 <= k < |calls| && calls[k].id == id && calls[k].name == name
                && forall j | k < j < |calls| :: calls[j].id != id
  }

  lemma {:induction false} LearnedIsLast(names: map<string, string>, calls: seq<NativeCall>, id: string)
    ensures var after := Learned(names, calls);
            if exists call | call in calls :: call.id == id then id in after && LastNamed(calls, id, after[id])
            else (id in after <==> id in names) && (id in names ==> after[id] == names[id])
    decreases |calls|
  {
    if calls != [] {
      var call, rest := calls[0], calls[1..];
      var next := names[call.id := call.name];
      LearnedIsLast(next, rest, id);
      if exists d | d in rest :: d.id == id {
        var after := Learned(next, rest);
        var k :| 0 <= k < |rest| && rest[k].id == id && rest[k].name == after[id]
          && forall j | k < j < |rest| :: rest[j].id != id;
        assert calls[k + 1].id == id && calls[k + 1].name == after[id];
        assert forall j | k + 1 < j < |calls| :: calls[j] == rest[j - 1];
      } else if call.id == id {
        assert forall j | 0 < j < |calls| :: calls[j] == rest[j - 1] && calls[j] in rest;
        assert calls[0].id == id;
      }
    }
  }

  lemma {:induction false} LearnedConcat(names: map<string, string>, a: seq<NativeCall>, b: seq<NativeCall>)
    ensures Learned(names, a + b) == Learned(Learned(names, a), b)
    decreases |a|
  {
    if a == [] {
      assert a + b == b;
    } else {
      assert (a + b)[1..] == a[1..] + b;
      LearnedConcat(names[a[0].id := a[0].name], a[1..], b);
    }
  }

  lemma {:induction false} PromptAt(c: Codec, tools: string, names: map<string, string>, messages: seq<Message>, i: nat)
    requires i < |messages|
    ensures |Prompt(c, tools, names, messages)| == |messages|
    ensures Prompt(c, tools, names, messages)[i]
            == Rewritten(c, tools, Learned(names, AllCalls(messages[..i])), messages[i])
    decreases |messages|
  {
    var rest, next := messages[1..], Learned(names, CallsOf(messages[0]));
    if i > 0 {
      PromptAt(c, tools, next, rest, i - 1);
      assert messages[..i][1..] == rest[..i - 1];
      LearnedConcat(names, CallsOf(messages[0]), AllCalls(rest[..i - 1]));
    } else if rest != [] {
      PromptAt(c, tools, next, rest, 0);
    }
  }

  /** A result is labelled with the name of the last call made under its id before it. */
  lemma ResultNamesItsCall(c: Codec, tools: string, messages: seq<Message>, i: nat)
    requires i < |messages| && messages[i].ToolResult?
    ensures var out := Prompt(c, tools, map[], messages);
            var id := messages[i].callId;
            var before := AllCalls(messages[..i]);
            && |out| == |messages|
            && exists name ::
                 out[i] == Other("user", Some("EXECUTION RESULT of [" + name + "]:\n" + messages[i].result))
                 && if exists call | call in before :: call.id == id then LastNamed(before, id, name)
                    else name == "tool"
  {
    PromptAt(c, tools, map[], messages, i);
    var before := AllCalls(messages[..i]);
    LearnedIsLast(map[], before, messages[i].callId);
    var names := Learned(map[], before);
    var name := if messages[i].callId in names then names[messages[i].callId] else "tool";
    assert Labelled(names, messages[i])
        == Other("user", Some("EXECUTION RESULT of [" + name + "]:\n" + messages[i].result));
  }
}
