/** What becomes of each message of a transcript, and of what a model reads in it. */
module ToolTranscript {
  import opened Wrappers
  import opened ToolCalls
  import opened ToolPrompt
  import opened ToolRoundTrip

  // ---- Call ids -------------------------------------------------------------------------------------

  predicate Digits(s: string) {
    s != "" && forall i | 0 <= i < |s| :: '0' <= s[i] <= '9'
  }

  function Number(s: string): nat
    requires forall i | 0 <= i < |s| :: '0' <= s[i] <= '9'
  {
    if s == "" then 0 else 10 * Number(s[..|s| - 1]) + (s[|s| - 1] as int - '0' as int)
  }

  /** The index in decimal, without leading zeros. */
  lemma {:induction false} DecimalIs(n: nat)
    ensures Digits(Decimal(n)) && Number(Decimal(n)) == n && (Decimal(n)[0] == '0' ==> n == 0)
  {
    if n >= 10 {
      DecimalIs(n / 10);
      var d := ('0' as int + n % 10) as char;
      assert Decimal(n)[..|Decimal(n)| - 1] == Decimal(n / 10) && Decimal(n)[|Decimal(n)| - 1] == d;
    } else {
      assert Decimal(n)[..0] == "";
    }
  }

  // ---- One message ------------------------------------------------------------------------------------

  /** The items of a call's argument text; none, if it is no JSON object. */
  predicate Given(c: Codec, call: NativeCall, args: seq<Arg>) {
    var items := if call.arguments == "" then c.items("{}") else c.items(call.arguments);
    if items.Some? then args == items.value else args == []
  }

  /** The tool call a model's reply is read as. */
  ghost predicate ReadAs(c: Codec, got: ToolCall, index: nat, call: NativeCall) {
    && (exists d :: got.id == "call_" + d && Digits(d) && Number(d) == index && (d[0] == '0' ==> index == 0))
    && got.name == call.name
    && exists args :: Given(c, call, args) && IsDict(got.arguments, args)
  }

  /** Read by the parser, a text gives back the prose and the calls, in order. */
  ghost predicate GivesBack(c: Codec, text: string, prose: string, calls: seq<NativeCall>) {
    var (said, got) := Parse(c, Some(text));
    && said == (if prose == "" then None else Some(prose))
    && |got| == |calls| && forall i | 0 <= i < |calls| :: ReadAs(c, got[i], i, calls[i])
  }

  lemma SameCallReadsAs(c: Codec, index: nat, got: ToolCall, call: NativeCall)
    requires SameCall(c, index, got, call)
    ensures ReadAs(c, got, index, call)
  {
    DecimalIs(index);
    assert got.id == "call_" + Decimal(index);
    assert Given(c, call, Items(c, call));
  }

  lemma RenderedGivesBack(c: Codec, prose: string, calls: seq<NativeCall>)
    requires Faithful(c) && calls != [] && GoodCalls(c, calls) && Trimmed(prose) && !Occurs(FN_OPEN, prose)
    ensures GivesBack(c, Rendered(c, prose, calls), prose, calls)
  {
    RoundTrip(c, prose, calls);
    var got := Parse(c, Some(Rendered(c, prose, calls))).1;
    forall i | 0 <= i < |calls| ensures ReadAs(c, got[i], i, calls[i]) {
      SameCallReadsAs(c, i, got[i], calls[i]);
    }
  }

  function Said(content: Option<string>): string {
    match content
    case Some(text) => text
    case None => ""
  }

  /** Tools are described at the end of the system message; a turn with calls becomes a text without
      native calls that the parser reads as that turn; a result becomes the user's; and any other
      message is passed on as it is. */
  lemma TranscriptExactly(c: Codec, tools: string, messages: seq<Message>, i: nat)
    requires Faithful(c) && i < |messages|
    ensures var out := Prompt(c, tools, map[], messages);
            && |out| == |messages|
            && match messages[i]
               case System(content) => out[i] == System(Some(Said(content) + "\n\n" + tools))
               case Assistant(content, calls) =>
                 if calls == [] then out[i] == messages[i]
                 else exists text ::
                   && out[i] == Assistant(Some(text), [])
                   && (GoodCalls(c, calls) && Trimmed(Said(content)) && !Occurs(FN_OPEN, Said(content))
                       ==> GivesBack(c, text, Said(content), calls))
               case ToolResult(_, _) => out[i].Other? && out[i].role == "user"
               case Other(_, _) => out[i] == messages[i]
  {
    PromptAt(c, tools, map[], messages, i);
    match messages[i]
    case Assistant(content, calls) =>
      if calls != [] && GoodCalls(c, calls) && Trimmed(Said(content)) && !Occurs(FN_OPEN, Said(content)) {
        RenderedGivesBack(c, Said(content), calls);
      }
    case _ =>
  }
}
