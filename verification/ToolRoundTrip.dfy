/** Reading back what was rendered, and repairing a reply cut at the stop word. */
module ToolRoundTrip {
  import opened Wrappers
  import opened ToolCalls
  import opened ToolPrompt

  /** The model's own text, with the stop word put back when a call was left open. */
  function Repaired(text: Option<string>): Option<string> {
    if text.Some? && text.value != "" && Occurs(FN_OPEN, text.value) && !Occurs(FN_CLOSE, text.value)
    then Some(text.value + FN_CLOSE) else text
  }

  method PromptToolReply(c: Codec, reply: Option<string>)
    returns (prose: Option<string>, calls: seq<ToolCall>, end: bool)
    ensures (prose, calls) == Parse(c, Repaired(reply)) && end == (calls == [])
  {
    var text := reply;
    if text.Some? && text.value != "" && Occurs(FN_OPEN, text.value) && !Occurs(FN_CLOSE, text.value) {
      text := Some(text.value + FN_CLOSE);
    }
    prose, calls := ParseCalls(c, text);
    end := calls == [];
  }

  // ---- What can be carried ------------------------------------------------------------------------

  predicate Trimmed(s: string) {
    s == "" || (!IsSpace(s[0]) && !IsSpace(s[|s| - 1]))
  }

  predicate WellNamed(name: string) {
    name != "" && Trimmed(name) && '>' !in name
  }

  /** The value's text survives: it is trimmed, closes no block, and reads back as the value. */
  predicate Carried(c: Codec, v: Value) {
    var text := Shown(c, v);
    && Trimmed(text) && !Occurs(PARAM_CLOSE, text) && !Occurs(FN_CLOSE, text)
    && (v.Text? ==> c.loads(text).None?)
  }

  predicate GoodArg(c: Codec, a: Arg) {
    WellNamed(a.name) && Carried(c, a.value)
  }

  /** The name ends in all but the last character of the close tag. */
  predicate Closes(name: string) {
    Occurs(FN_CLOSE, name + ">")
  }

  predicate GoodArgs(c: Codec, args: seq<Arg>) {
    && (forall a | a in args :: GoodArg(c, a))
    && (forall i, j | 0 <= i < j < |args| :: args[i].name != args[j].name)
  }

  predicate GoodCall(c: Codec, call: NativeCall) {
    && WellNamed(call.name) && GoodArgs(c, Items(c, call))
    && forall a | a in Items(c, call) :: !Closes(a.name)
  }

  ghost predicate GoodCalls(c: Codec, calls: seq<NativeCall>) {
    forall call | call in calls :: GoodCall(c, call)
  }

  /** The dictionary these items make. */
  ghost predicate IsDict(m: map<string, Value>, args: seq<Arg>) {
    && (forall a | a in args :: a.name in m && m[a.name] == a.value)
    && (forall k | k in m :: exists a :: a in args && a.name == k)
  }

  ghost predicate SameCall(c: Codec, index: nat, got: ToolCall, call: NativeCall) {
    got.id == CallId(index) && got.name == call.name && IsDict(got.arguments, Items(c, call))
  }

  /** The calls come back in order, numbered from zero. */
  ghost predicate SameCalls(c: Codec, got: seq<ToolCall>, calls: seq<NativeCall>) {
    && |got| == |calls|
    && forall i | 0 <= i < |calls| :: SameCall(c, i, got[i], calls[i])
  }

  // ---- Trimming ---------------------------------------------------------------------------------

  predicate Blank(s: string) {
    forall ch | ch in s :: IsSpace(ch)
  }

  lemma TrimTrimmed(s: string)
    requires Trimmed(s)
    ensures Trim(s) == s
  {
  }

  lemma {:induction false} TrimRightBlank(s: string, blank: string)
    requires Trimmed(s) && Blank(blank)
    ensures TrimRight(s + blank) == s
    decreases |blank|
  {
    if blank == "" {
      assert s + blank == s;
    } else {
      var t := s + blank;
      assert t[|t| - 1] == blank[|blank| - 1] && blank[|blank| - 1] in blank;
      assert t[..|t| - 1] == s + blank[..|blank| - 1];
      TrimRightBlank(s, blank[..|blank| - 1]);
    }
  }

  lemma {:induction false} TrimBlank(blank: string)
    requires Blank(blank)
    ensures Trim(blank) == ""
    decreases |blank|
  {
    if blank != "" {
      assert blank[0] in blank;
      TrimBlank(blank[1..]);
    }
  }

  lemma TrimTail(s: string, blank: string)
    requires Trimmed(s) && Blank(blank)
    ensures Trim(s + blank) == s
  {
    if s == "" {
      assert s + blank == blank;
      TrimBlank(blank);
    } else {
      assert (s + blank)[0] == s[0];
      TrimRightBlank(s, blank);
    }
  }

  // ---- One block ----------------------------------------------------------------------------------

  /** `<` only in front and no newline. */
  predicate OpenShape(pat: string) {
    pat != "" && pat[0] == '<' && '\n' !in pat && forall k | 0 < k < |pat| :: pat[k] != '<'
  }

  /** And `>` only at the end. */
  predicate CloseShape(pat: string) {
    OpenShape(pat) && forall k | 0 <= k < |pat| - 1 :: pat[k] != '>'
  }

  predicate TagShape(g: Tag) {
    OpenShape(g.open) && CloseShape(g.close)
  }

  lemma FnShape()
    ensures OpenShape(FN_OPEN) && CloseShape(FN_CLOSE)
  {
  }

  lemma ParamShape()
    ensures OpenShape(PARAM_OPEN) && CloseShape(PARAM_CLOSE)
  {
  }

  function Gap(g: Tag): string {
    if g.newline then "\n" else ""
  }

  lemma Cut(a: string, pat: string, rest: string)
    ensures var t := a + pat + rest; t[..|a|] == a && t[|a| + |pat|..] == rest
  {
  }

  lemma BodyMatched(g: Tag, name: string, body: string, rest: string)
    requires TagShape(g) && !Occurs(g.close, body)
    ensures MatchBody(g, name, body + g.close + rest) == Some(Match(Block(name, body), rest))
  {
    FoundAfter(g.close, body, rest);
    Cut(body, g.close, rest);
  }

  lemma NameMatched(g: Tag, name: string, v: string)
    requires name != "" && '>' !in name
    ensures MatchName(g, name + ">" + (Gap(g) + v)) == MatchBody(g, name, SkipNewline(g, Gap(g) + v))
  {
    var u := Gap(g) + v;
    CharAbsent(">", 0, name);
    FoundAfter(">", name, u);
    Cut(name, ">", u);
  }

  lemma GapSkipped(g: Tag, v: string)
    ensures SkipNewline(g, Gap(g) + v) == v
  {
  }

  lemma Stepped(g: Tag, text: string, m: Match)
    requires MatchHere(g, text) == Some(m)
    ensures Blocks(g, text) == [m.block] + Blocks(g, m.rest) && Outside(g, text) == Outside(g, m.rest)
  {
  }

  lemma BlockScanned(g: Tag, name: string, body: string, rest: string)
    requires TagShape(g) && name != "" && '>' !in name && !Occurs(g.close, body)
    ensures var text := g.open + (name + ">" + (Gap(g) + (body + g.close + rest)));
            Blocks(g, text) == [Block(name, body)] + Blocks(g, rest) && Outside(g, text) == Outside(g, rest)
  {
    var v := body + g.close + rest;
    var t := name + ">" + (Gap(g) + v);
    assert (g.open + t)[|g.open|..] == t && g.open <= g.open + t;
    NameMatched(g, name, v);
    GapSkipped(g, v);
    BodyMatched(g, name, body, rest);
    Stepped(g, g.open + t, Match(Block(name, body), rest));
  }

  lemma Passed(g: Tag, text: string)
    requires text != "" && !(g.open <= text)
    ensures Blocks(g, text) == Blocks(g, text[1..]) && Outside(g, text) == [text[0]] + Outside(g, text[1..])
  {
  }

  /** Text in which no block can begin passes through. */
  lemma {:induction false} PlainScanned(g: Tag, a: string, rest: string)
    requires g.open != "" && !Occurs(g.open, a) && Seam(g.open, a, rest)
    ensures Blocks(g, a + rest) == Blocks(g, rest) && Outside(g, a + rest) == a + Outside(g, rest)
    decreases |a|
  {
    if a == "" {
      assert a + rest == rest;
    } else {
      HeadJoins(a, rest);
      HeadJoins(a, Outside(g, rest));
      NoOpening(g, a, rest);
      Passed(g, a + rest);
      PlainScanned(g, a[1..], rest);
    }
  }

  lemma HeadJoins(a: string, b: string)
    requires a != ""
    ensures (a + b)[1..] == a[1..] + b && (a + b)[0] == a[0] && a + b == [a[0]] + (a[1..] + b)
  {
  }

  lemma NoOpening(g: Tag, a: string, rest: string)
    requires a != "" && !Occurs(g.open, a) && Seam(g.open, a, rest)
    ensures !(g.open <= a + rest)
  {
    if g.open <= a + rest {
      StraddlesOrNot(g.open, a, rest);
    }
  }

  lemma NewlineScanned(g: Tag, rest: string)
    requires TagShape(g)
    ensures Blocks(g, "\n" + rest) == Blocks(g, rest) && Outside(g, "\n" + rest) == "\n" + Outside(g, rest)
  {
  }

  // ---- Parameters ---------------------------------------------------------------------------------

  /** What stands between a call's name and its close tag, one parameter to a line. */
  function BodyText(c: Codec, args: seq<Arg>): string {
    if args == [] then "" else Param(c, args[0]) + "\n" + BodyText(c, args[1..])
  }

  lemma {:induction false} JoinedParams(c: Codec, args: seq<Arg>)
    ensures Lines(Params(c, args) + [FN_CLOSE]) == BodyText(c, args) + FN_CLOSE
  {
    if args == [] {
      assert Params(c, args) + [FN_CLOSE] == [FN_CLOSE];
    } else {
      var parts := Params(c, args) + [FN_CLOSE];
      assert parts[1..] == Params(c, args[1..]) + [FN_CLOSE] && parts[0] == Param(c, args[0]);
      JoinedParams(c, args[1..]);
    }
  }

  /** A call's text up to its close tag. */
  function OpenCall(c: Codec, call: NativeCall): string {
    FN_OPEN + call.name + ">" + "\n" + BodyText(c, Items(c, call))
  }

  lemma CallText(c: Codec, call: NativeCall)
    ensures RenderedCall(c, call) == OpenCall(c, call) + FN_CLOSE
  {
    var head := FN_OPEN + call.name + ">";
    var rest := Params(c, Items(c, call)) + [FN_CLOSE];
    var parts := [head] + Params(c, Items(c, call)) + [FN_CLOSE];
    assert parts == [head] + rest && parts[1..] == rest && |rest| > 0;
    JoinedParams(c, Items(c, call));
  }

  /** A pattern with a character the first part lacks can only be in the second. */
  lemma NoneBehind(pat: string, k: nat, a: string, b: string)
    requires k < |pat| && pat[k] !in a && !Occurs(pat, b) && Seam(pat, a, b)
    ensures !Occurs(pat, a + b)
  {
    CharAbsent(pat, k, a);
    NoneAcross(pat, a, b);
  }

  lemma NoneBefore(pat: string, k: nat, a: string, b: string)
    requires k < |pat| && pat[k] !in b && !Occurs(pat, a) && Seam(pat, a, b)
    ensures !Occurs(pat, a + b)
  {
    CharAbsent(pat, k, b);
    NoneAcross(pat, a, b);
  }

  lemma ParamHasNoClose(name: string, v: string)
    requires !Occurs(FN_CLOSE, name + ">") && !Occurs(FN_CLOSE, v)
    ensures !Occurs(FN_CLOSE, PARAM_OPEN + name + ">" + v + PARAM_CLOSE)
  {
    FnShape();
    var named := name + ">";
    assert PARAM_OPEN[|PARAM_OPEN| - 1] == '=' && FN_CLOSE[1] == '/' && FN_CLOSE[2] == 'f';
    NoneBehind(FN_CLOSE, 1, PARAM_OPEN, named);
    var head := PARAM_OPEN + named;
    assert PARAM_OPEN + name + ">" == head && head[|head| - 1] == '>';
    NoneAcross(FN_CLOSE, head, v);
    NoneBefore(FN_CLOSE, 2, head + v, PARAM_CLOSE);
  }

  lemma {:induction false} BodyHasNoClose(c: Codec, args: seq<Arg>)
    requires forall a | a in args :: !Closes(a.name) && !Occurs(FN_CLOSE, Shown(c, a.value))
    ensures !Occurs(FN_CLOSE, BodyText(c, args))
  {
    if args != [] {
      FnShape();
      var a, rest := args[0], BodyText(c, args[1..]);
      BodyHasNoClose(c, args[1..]);
      ParamHasNoClose(a.name, Shown(c, a.value));
      CharAbsent(FN_CLOSE, 0, "\n");
      NoneAcross(FN_CLOSE, Param(c, a), "\n");
      NoneAcross(FN_CLOSE, Param(c, a) + "\n", rest);
    }
  }

  function ParamBlocks(c: Codec, args: seq<Arg>): seq<Block> {
    if args == [] then [] else [Block(args[0].name, Shown(c, args[0].value))] + ParamBlocks(c, args[1..])
  }

  lemma Regroup(a: string, b: string, c: string, d: string, e: string, f: string)
    ensures a + b + c + d + e + f == a + (b + c + (d + e + f))
  {
  }

  lemma ParamScanned(name: string, v: string, rest: string)
    requires name != "" && '>' !in name && !Occurs(PARAM_CLOSE, v)
    ensures Blocks(PARAMETER, PARAM_OPEN + name + ">" + v + PARAM_CLOSE + rest)
            == [Block(name, v)] + Blocks(PARAMETER, rest)
  {
    ParamShape();
    Regroup(PARAM_OPEN, name, ">", v, PARAM_CLOSE, rest);
    BlockScanned(PARAMETER, name, v, rest);
    var tail := v + PARAM_CLOSE + rest;
    assert Gap(PARAMETER) + tail == tail;
  }

  lemma BodyRegroup(a: string, b: string, c: string, d: string)
    ensures a + b + c + d == a + (b + (c + d))
  {
  }

  lemma BlocksRegroup(a: seq<Block>, b: seq<Block>, c: seq<Block>)
    ensures a + (b + c) == a + b + c
  {
  }

  /** An argument's line. */
  lemma OneScanned(c: Codec, a: Arg, more: string)
    requires GoodArg(c, a)
    ensures Blocks(PARAMETER, Param(c, a) + ("\n" + more))
            == [Block(a.name, Shown(c, a.value))] + Blocks(PARAMETER, more)
  {
    ParamScanned(a.name, Shown(c, a.value), "\n" + more);
    ParamShape();
    NewlineScanned(PARAMETER, more);
  }

  lemma {:induction false} BodyScanned(c: Codec, args: seq<Arg>, rest: string)
    requires forall a | a in args :: GoodArg(c, a)
    ensures Blocks(PARAMETER, BodyText(c, args) + rest) == ParamBlocks(c, args) + Blocks(PARAMETER, rest)
  {
    if args == [] {
      assert BodyText(c, args) + rest == rest;
    } else {
      BodyScanned(c, args[1..], rest);
      BodyRegroup(Param(c, args[0]), "\n", BodyText(c, args[1..]), rest);
      OneScanned(c, args[0], BodyText(c, args[1..]) + rest);
      BlocksRegroup([Block(args[0].name, Shown(c, args[0].value))], ParamBlocks(c, args[1..]), Blocks(PARAMETER, rest));
    }
  }

  lemma {:induction false} GatheredKeeps(c: Codec, args: seq<Arg>, m: map<string, Value>, k: string)
    requires forall a | a in args :: GoodArg(c, a) && a.name != k
    ensures var got := Gather(c, ParamBlocks(c, args), m);
            (k in got <==> k in m) && (k in m ==> got[k] == m[k])
    decreases |args|
  {
    if args != [] {
      assert GoodArg(c, args[0]);
      TrimTrimmed(args[0].name);
      GatheredKeeps(c, args[1..], m[args[0].name := Coerce(c, Trim(Shown(c, args[0].value)))], k);
    }
  }

  lemma CarriedBack(c: Codec, v: Value)
    requires Faithful(c) && Carried(c, v)
    ensures Coerce(c, Trim(Shown(c, v))) == v
  {
  }

  lemma RestGood(c: Codec, args: seq<Arg>)
    requires GoodArgs(c, args) && args != []
    ensures GoodArg(c, args[0]) && GoodArgs(c, args[1..])
    ensures forall b | b in args[1..] :: GoodArg(c, b) && b.name != args[0].name
  {
    var rest := args[1..];
    forall i, j | 0 <= i < j < |rest| ensures rest[i].name != rest[j].name {
      assert rest[i] == args[i + 1] && rest[j] == args[j + 1];
    }
    forall b | b in rest ensures b.name != args[0].name {
      var j :| 0 <= j < |rest| && rest[j] == b;
      assert args[j + 1] == b;
    }
  }

  lemma {:induction false} GatheredIsDict(c: Codec, args: seq<Arg>, m: map<string, Value>)
    requires Faithful(c) && GoodArgs(c, args)
    ensures var got := Gather(c, ParamBlocks(c, args), m);
            && (forall a | a in args :: a.name in got && got[a.name] == a.value)
            && (forall k | k in got :: k in m || exists a :: a in args && a.name == k)
    decreases |args|
  {
    if args != [] {
      var a, rest := args[0], args[1..];
      RestGood(c, args);
      TrimTrimmed(a.name);
      CarriedBack(c, a.value);
      var next := m[a.name := a.value];
      GatheredIsDict(c, rest, next);
      GatheredKeeps(c, rest, next, a.name);
    }
  }

  lemma ArgumentsReadBack(c: Codec, args: seq<Arg>)
    requires Faithful(c) && GoodArgs(c, args)
    ensures IsDict(Gather(c, Blocks(PARAMETER, BodyText(c, args)), map[]), args)
  {
    BodyScanned(c, args, "");
    assert BodyText(c, args) + "" == BodyText(c, args);
    assert Blocks(PARAMETER, "") == [];
    assert ParamBlocks(c, args) + [] == ParamBlocks(c, args);
    GatheredIsDict(c, args, map[]);
  }

  // ---- Calls --------------------------------------------------------------------------------------

  function FnBlocks(c: Codec, calls: seq<NativeCall>): seq<Block> {
    if calls == [] then [] else [Block(calls[0].name, BodyText(c, Items(c, calls[0])))] + FnBlocks(c, calls[1..])
  }

  lemma FnScanned(name: string, body: string, rest: string)
    requires name != "" && '>' !in name && !Occurs(FN_CLOSE, body)
    ensures var text := FN_OPEN + name + ">" + "\n" + body + FN_CLOSE + rest;
            && Blocks(FUNCTION, text) == [Block(name, body)] + Blocks(FUNCTION, rest)
            && Outside(FUNCTION, text) == Outside(FUNCTION, rest)
  {
    FnShape();
    BlockScanned(FUNCTION, name, body, rest);
    RegroupGap(FN_OPEN, name, ">", "\n", body, FN_CLOSE, rest);
  }

  lemma RegroupGap(a: string, b: string, c: string, d: string, e: string, f: string, g: string)
    ensures a + b + c + d + e + f + g == a + (b + c + (d + (e + f + g)))
  {
  }

  lemma CallScanned(c: Codec, call: NativeCall, rest: string)
    requires GoodCall(c, call)
    ensures var text := RenderedCall(c, call) + rest;
            && Blocks(FUNCTION, text) == [Block(call.name, BodyText(c, Items(c, call)))] + Blocks(FUNCTION, rest)
            && Outside(FUNCTION, text) == Outside(FUNCTION, rest)
  {
    var body := BodyText(c, Items(c, call));
    CallText(c, call);
    assert forall a | a in Items(c, call) :: GoodArg(c, a);
    BodyHasNoClose(c, Items(c, call));
    FnScanned(call.name, body, rest);
  }

  /** The text after the first call. */
  function AfterFirst(c: Codec, calls: seq<NativeCall>): string
    requires calls != []
  {
    if |calls| == 1 then "" else "\n" + Lines(RenderedCalls(c, calls[1..]))
  }

  lemma FirstLine(c: Codec, calls: seq<NativeCall>)
    requires calls != []
    ensures Lines(RenderedCalls(c, calls)) == RenderedCall(c, calls[0]) + AfterFirst(c, calls)
  {
  }

  lemma {:induction false} CallsScanned(c: Codec, calls: seq<NativeCall>)
    requires calls != [] && GoodCalls(c, calls)
    ensures var text := Lines(RenderedCalls(c, calls));
            Blocks(FUNCTION, text) == FnBlocks(c, calls) && Blank(Outside(FUNCTION, text))
  {
    assert GoodCall(c, calls[0]);
    FirstLine(c, calls);
    CallScanned(c, calls[0], AfterFirst(c, calls));
    if |calls| > 1 {
      FnShape();
      NewlineScanned(FUNCTION, Lines(RenderedCalls(c, calls[1..])));
      CallsScanned(c, calls[1..]);
    } else {
      assert Blocks(FUNCTION, "") == [] && FnBlocks(c, calls[1..]) == [];
    }
  }

  lemma {:induction false} ReadCallsAt(c: Codec, from: nat, blocks: seq<Block>, i: nat)
    requires i < |blocks|
    ensures |ReadCalls(c, from, blocks)| == |blocks|
    ensures ReadCalls(c, from, blocks)[i] == ReadCall(c, from + i, blocks[i])
    decreases |blocks|
  {
    if i > 0 {
      ReadCallsAt(c, from + 1, blocks[1..], i - 1);
    } else if |blocks| > 1 {
      ReadCallsAt(c, from + 1, blocks[1..], 0);
    }
  }

  lemma {:induction false} FnBlocksAt(c: Codec, calls: seq<NativeCall>, i: nat)
    requires i < |calls|
    ensures |FnBlocks(c, calls)| == |calls|
    ensures FnBlocks(c, calls)[i] == Block(calls[i].name, BodyText(c, Items(c, calls[i])))
  {
    if i > 0 {
      FnBlocksAt(c, calls[1..], i - 1);
    } else if |calls| > 1 {
      FnBlocksAt(c, calls[1..], 0);
    }
  }

  lemma OneReadBack(c: Codec, index: nat, call: NativeCall)
    requires Faithful(c) && GoodCall(c, call)
    ensures SameCall(c, index, ReadCall(c, index, Block(call.name, BodyText(c, Items(c, call)))), call)
  {
    TrimTrimmed(call.name);
    ArgumentsReadBack(c, Items(c, call));
  }

  lemma BlockReadBack(c: Codec, blocks: seq<Block>, i: nat, call: NativeCall)
    requires Faithful(c) && GoodCall(c, call)
    requires i < |blocks| && blocks[i] == Block(call.name, BodyText(c, Items(c, call)))
    ensures |ReadCalls(c, 0, blocks)| == |blocks| && SameCall(c, i, ReadCalls(c, 0, blocks)[i], call)
  {
    ReadCallsAt(c, 0, blocks, i);
    OneReadBack(c, i, call);
  }

  lemma CallReadBack(c: Codec, calls: seq<NativeCall>, i: nat)
    requires Faithful(c) && i < |calls| && GoodCall(c, calls[i])
    ensures |FnBlocks(c, calls)| == |calls| == |ReadCalls(c, 0, FnBlocks(c, calls))|
    ensures SameCall(c, i, ReadCalls(c, 0, FnBlocks(c, calls))[i], calls[i])
  {
    FnBlocksAt(c, calls, i);
    BlockReadBack(c, FnBlocks(c, calls), i, calls[i]);
  }

  lemma CallsReadBack(c: Codec, calls: seq<NativeCall>)
    requires Faithful(c) && GoodCalls(c, calls) && calls != []
    ensures SameCalls(c, ReadCalls(c, 0, FnBlocks(c, calls)), calls)
  {
    assert GoodCall(c, calls[0]);
    CallReadBack(c, calls, 0);
    var got := ReadCalls(c, 0, FnBlocks(c, calls));
    forall i | 0 <= i < |calls|
      ensures SameCall(c, i, got[i], calls[i])
    {
      assert GoodCall(c, calls[i]);
      CallReadBack(c, calls, i);
    }
  }

  // ---- Messages -------------------------------------------------------------------------------------

  function Lead(prose: string): string {
    if prose == "" then "" else prose + "\n"
  }

  lemma {:induction false} CallsText(c: Codec, calls: seq<NativeCall>)
    requires calls != []
    ensures var text := Lines(RenderedCalls(c, calls));
            text != "" && text[0] == '<' && text[|text| - 1] == '>'
  {
    CallEnds(c, calls[0]);
    FirstLine(c, calls);
    if |calls| > 1 {
      CallsText(c, calls[1..]);
      EndsOf(RenderedCall(c, calls[0]), AfterFirst(c, calls));
    } else {
      assert RenderedCall(c, calls[0]) + "" == RenderedCall(c, calls[0]);
    }
  }

  lemma CallEnds(c: Codec, call: NativeCall)
    ensures var text := RenderedCall(c, call); text != "" && text[0] == '<' && text[|text| - 1] == '>'
  {
    CallText(c, call);
    assert OpenCall(c, call)[0] == FN_OPEN[0] == '<' && FN_CLOSE[|FN_CLOSE| - 1] == '>';
    EndsOf(OpenCall(c, call), FN_CLOSE);
  }

  lemma EndsOf(a: string, b: string)
    requires a != "" && b != ""
    ensures (a + b)[0] == a[0] && (a + b)[|a + b| - 1] == b[|b| - 1]
  {
  }

  lemma MessageText(c: Codec, prose: string, calls: seq<NativeCall>)
    requires Trimmed(prose) && calls != []
    ensures Rendered(c, prose, calls) == Lead(prose) + Lines(RenderedCalls(c, calls))
  {
    var text := Lines(RenderedCalls(c, calls));
    CallsText(c, calls);
    if prose == "" {
      assert ("" + "\n" + text)[1..] == text && ("" + "\n" + text)[0] == '\n';
      assert Trimmed(text);
      TrimTrimmed(text);
      assert TrimLeft("" + "\n" + text) == TrimLeft(text);
    } else {
      TrimTrimmed(prose + "\n" + text);
    }
  }

  lemma LeadScanned(prose: string, text: string)
    requires !Occurs(FN_OPEN, prose) && text != "" && text[0] == '<'
    ensures Blocks(FUNCTION, Lead(prose) + text) == Blocks(FUNCTION, text)
    ensures Outside(FUNCTION, Lead(prose) + text) == Lead(prose) + Outside(FUNCTION, text)
  {
    FnShape();
    if prose == "" {
      assert Lead(prose) + text == text;
    } else {
      NoneBefore(FN_OPEN, 0, prose, "\n");
      PlainScanned(FUNCTION, prose + "\n", text);
    }
  }

  lemma ProseLeft(prose: string, outside: string)
    requires Trimmed(prose) && Blank(outside)
    ensures Trim(Lead(prose) + outside) == prose
  {
    if prose == "" {
      assert Lead(prose) + outside == outside;
      TrimBlank(outside);
    } else {
      assert Lead(prose) + outside == prose + ("\n" + outside);
      TrimTail(prose, "\n" + outside);
    }
  }

  lemma MessageScanned(c: Codec, prose: string, calls: seq<NativeCall>)
    requires calls != [] && GoodCalls(c, calls) && Trimmed(prose) && !Occurs(FN_OPEN, prose)
    ensures var text := Rendered(c, prose, calls);
            text != "" && Blocks(FUNCTION, text) == FnBlocks(c, calls) && Trim(Outside(FUNCTION, text)) == prose
  {
    var text := Lines(RenderedCalls(c, calls));
    MessageText(c, prose, calls);
    CallsText(c, calls);
    CallsScanned(c, calls);
    LeadScanned(prose, text);
    ProseLeft(prose, Outside(FUNCTION, text));
  }

  /** What a transcript's assistant turn becomes in the prompt reads back as that turn: its prose,
      and its calls in order with their arguments. */
  lemma RoundTrip(c: Codec, prose: string, calls: seq<NativeCall>)
    requires Faithful(c) && calls != [] && GoodCalls(c, calls)
    requires Trimmed(prose) && !Occurs(FN_OPEN, prose)
    ensures var got := Parse(c, Some(Rendered(c, prose, calls)));
            got.0 == (if prose == "" then None else Some(prose)) && SameCalls(c, got.1, calls)
  {
    MessageScanned(c, prose, calls);
    CallsReadBack(c, calls);
  }

  // ---- The stop word --------------------------------------------------------------------------------

  /** What the provider returns: the text up to the stop word. */
  function Stopped(text: string): string {
    match Find(FN_CLOSE, text)
    case Some(i) => FindIsFirst(FN_CLOSE, text); text[..i]
    case None => text
  }

  lemma OpenHasNoClose(name: string, body: string)
    requires !Closes(name) && !Occurs(FN_CLOSE, body)
    ensures !Occurs(FN_CLOSE, FN_OPEN + name + ">" + "\n" + body)
  {
    FnShape();
    assert FN_OPEN[|FN_OPEN| - 1] == '=' && FN_CLOSE[1] == '/';
    NoneBehind(FN_CLOSE, 1, FN_OPEN, name + ">");
    NoneBehind(FN_CLOSE, 0, "\n", body);
    var head, tail := FN_OPEN + (name + ">"), "\n" + body;
    NoneAcross(FN_CLOSE, head, tail);
    assert FN_OPEN + name + ">" + "\n" + body == head + tail;
  }

  lemma LeadHasNoClose(prose: string, open: string)
    requires !Occurs(FN_CLOSE, prose) && !Occurs(FN_CLOSE, open) && open != "" && open[0] == '<'
    ensures !Occurs(FN_CLOSE, Lead(prose) + open)
  {
    FnShape();
    if prose != "" {
      NoneBefore(FN_CLOSE, 0, prose, "\n");
      NoneAcross(FN_CLOSE, Lead(prose), open);
    } else {
      assert Lead(prose) + open == open;
    }
  }

  /** A reply stopped at its first close tag, with the tag put back, is its prose and exactly its
      first call. */
  lemma StopWordKeepsFirstCall(c: Codec, prose: string, calls: seq<NativeCall>)
    requires Faithful(c) && calls != [] && GoodCalls(c, calls) && !Closes(calls[0].name)
    requires Trimmed(prose) && !Occurs(FN_OPEN, prose) && !Occurs(FN_CLOSE, prose)
    ensures var got := Parse(c, Repaired(Some(Stopped(Rendered(c, prose, calls)))));
            got.0 == (if prose == "" then None else Some(prose)) && SameCalls(c, got.1, [calls[0]])
  {
    var call := calls[0];
    assert GoodCall(c, call);
    var open, rest := Lead(prose) + OpenCall(c, call), AfterFirst(c, calls);
    FirstCallText(c, prose, calls);
    StoppedText(c, prose, call, rest);
    assert Stopped(open + FN_CLOSE + rest) == open;
    FirstCallText(c, prose, [call]);
    assert open + FN_CLOSE + "" == open + FN_CLOSE;
    RoundTrip(c, prose, [call]);
  }

  lemma FirstCallText(c: Codec, prose: string, calls: seq<NativeCall>)
    requires Trimmed(prose) && calls != []
    ensures Rendered(c, prose, calls) == Lead(prose) + OpenCall(c, calls[0]) + FN_CLOSE + AfterFirst(c, calls)
  {
    MessageText(c, prose, calls);
    CallText(c, calls[0]);
    FirstLine(c, calls);
    RegroupTail(Lead(prose), OpenCall(c, calls[0]), FN_CLOSE, AfterFirst(c, calls));
  }

  lemma RegroupTail(a: string, b: string, c: string, d: string)
    ensures a + (b + c + d) == a + b + c + d
  {
  }

  lemma StoppedText(c: Codec, prose: string, call: NativeCall, rest: string)
    requires GoodCall(c, call) && !Closes(call.name) && !Occurs(FN_CLOSE, prose)
    ensures var open := Lead(prose) + OpenCall(c, call);
            && Stopped(open + FN_CLOSE + rest) == open
            && Repaired(Some(open)) == Some(open + FN_CLOSE)
  {
    var body := BodyText(c, Items(c, call));
    BodyHasNoClose(c, Items(c, call));
    OpenHasNoClose(call.name, body);
    assert FN_OPEN[0] == '<';
    LeadHasNoClose(prose, OpenCall(c, call));
    StoppedAt(Lead(prose) + OpenCall(c, call), rest);
    RegroupOpen(Lead(prose), FN_OPEN, call.name, ">", "\n", body);
    FoundInside(FN_OPEN, Lead(prose), call.name + (">" + ("\n" + body)));
  }

  lemma RegroupOpen(a: string, b: string, c: string, d: string, e: string, f: string)
    ensures a + (b + c + d + e + f) == a + b + (c + (d + (e + f)))
  {
  }

  lemma StoppedAt(open: string, rest: string)
    requires !Occurs(FN_CLOSE, open)
    ensures Stopped(open + FN_CLOSE + rest) == open
  {
    FnShape();
    FoundAfter(FN_CLOSE, open, rest);
    Cut(open, FN_CLOSE, rest);
  }
}
