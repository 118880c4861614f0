/** Names the syntax cannot carry: with the closing `>` of their own tag they spell a close tag. */
module ToolLimits {
  import opened Wrappers
  import opened ToolCalls
  import opened ToolPrompt
  import opened ToolRoundTrip

  const ALMOST := "</function"

  /** A pattern that ends in `>` can only be found at the end of a name and its `>`. */
  lemma FoundAtEnd(pat: string, name: string, i: nat)
    requires pat != "" && pat[|pat| - 1] == '>' && '>' !in name
    requires i + |pat| <= |name| + 1 && (name + ">")[i..i + |pat|] == pat
    ensures i + |pat| == |name| + 1 && name[i..] == pat[..|pat| - 1]
  {
    var text, last := name + ">", i + |pat| - 1;
    assert text[i..i + |pat|][|pat| - 1] == text[last];
    assert forall j | 0 <= j < |name| :: text[j] == name[j] && name[j] in name;
    assert last == |name|;
    assert name[i..] == text[i..i + |pat|][..|pat| - 1];
  }

  lemma AlmostClose()
    ensures |FN_CLOSE| == |ALMOST| + 1 && FN_CLOSE[|ALMOST|] == '>' && FN_CLOSE[..|ALMOST|] == ALMOST
    ensures ALMOST + ">" == FN_CLOSE
  {
  }

  /** A name without `>` closes the call exactly by ending in all of the tag but its `>`. */
  lemma ClosingName(name: string)
    requires '>' !in name && Closes(name)
    ensures |ALMOST| <= |name| && name == name[..|name| - |ALMOST|] + ALMOST
  {
    AlmostClose();
    FindIsFirst(FN_CLOSE, name + ">");
    var i := Find(FN_CLOSE, name + ">").value;
    FoundAtEnd(FN_CLOSE, name, i);
    assert name == name[..i] + name[i..];
  }

  /** A name's stem behind an open tag. */
  lemma OpenStem(open: string, name: string, n: nat)
    requires '>' !in open && '>' !in name && n <= |name| && open != "" && open[0] == '<'
    ensures var head := open + name[..n]; '>' !in head && head != "" && head[0] == '<'
  {
    assert forall ch | ch in name[..n] :: ch in name;
  }

  lemma OpensHaveNoGt()
    ensures '>' !in PARAM_OPEN && PARAM_OPEN[0] == '<' && '>' !in FN_OPEN && FN_OPEN[0] == '<' && '>' !in ALMOST
  {
  }

  lemma {:induction false} NoName(g: Tag, text: string)
    requires g.open != "" && '>' !in text
    ensures Blocks(g, text) == []
    decreases |text|
  {
    if text != "" {
      if g.open <= text {
        CharAbsent(">", 0, text[|g.open|..]);
      }
      assert MatchHere(g, text).None?;
      NoName(g, text[1..]);
    }
  }

  lemma NothingAfterName(g: Tag, text: string)
    requires g.close != "" && '>' !in text
    ensures MatchName(g, text + ">").None?
  {
    CharAbsent(">", 0, text);
    FoundAfter(">", text, "");
    assert text + ">" + "" == text + ">";
    Cut(text, ">", "");
    assert SkipNewline(g, "") == "" && Find(g.close, "").None?;
  }

  lemma {:induction false} NoBody(g: Tag, text: string)
    requires g.open != "" && g.close != "" && '>' !in text
    requires forall k | 0 <= k < |g.open| :: g.open[k] != '>'
    ensures Blocks(g, text + ">") == []
    decreases |text|
  {
    var all := text + ">";
    if text != "" && g.open <= all {
      StraddlesOrNot(g.open, text, ">");
      assert all[|g.open|..] == text[|g.open|..] + ">";
      NothingAfterName(g, text[|g.open|..]);
    }
    assert text == "" ==> all[0] != g.open[0];
    assert MatchHere(g, all).None?;
    if text == "" {
      assert all[1..] == "" && Blocks(g, "") == [];
    } else {
      assert all[1..] == text[1..] + ">";
      NoBody(g, text[1..]);
    }
  }

  // ---- A parameter's name -----------------------------------------------------------------------------

  /** The first argument whose name closes the call. */
  predicate FirstCloser(args: seq<Arg>, k: nat) {
    k < |args| && Closes(args[k].name) && forall i | 0 <= i < k :: !Closes(args[i].name)
  }

  function CutBody(c: Codec, args: seq<Arg>, k: nat): string
    requires k < |args| && |args[k].name| >= |ALMOST|
  {
    BodyText(c, args[..k]) + PARAM_OPEN + args[k].name[..|args[k].name| - |ALMOST|]
  }

  lemma {:induction false} BodySplit(c: Codec, args: seq<Arg>, k: nat)
    requires k <= |args|
    ensures BodyText(c, args) == BodyText(c, args[..k]) + BodyText(c, args[k..])
  {
    if k == 0 {
      assert args[k..] == args && args[..k] == [];
    } else {
      BodySplit(c, args[1..], k - 1);
      assert args[..k][1..] == args[1..][..k - 1] && args[1..][k - 1..] == args[k..];
      var p := Param(c, args[0]) + "\n";
      assert p + (BodyText(c, args[1..][..k - 1]) + BodyText(c, args[k..]))
          == p + BodyText(c, args[1..][..k - 1]) + BodyText(c, args[k..]);
    }
  }

  /** The text of such a call closes inside that name. */
  lemma CutText(c: Codec, args: seq<Arg>, k: nat) returns (rest: string)
    requires FirstCloser(args, k) && GoodArgs(c, args)
    ensures |args[k].name| >= |ALMOST|
    ensures BodyText(c, args) == CutBody(c, args, k) + FN_CLOSE + rest
    ensures !Occurs(FN_CLOSE, CutBody(c, args, k))
  {
    var a := args[k];
    assert GoodArg(c, a);
    ClosingName(a.name);
    var stem := a.name[..|a.name| - |ALMOST|];
    var tail := Shown(c, a.value) + PARAM_CLOSE + "\n" + BodyText(c, args[k + 1..]);
    rest := tail;
    BodySplit(c, args, k);
    assert args[k..][1..] == args[k + 1..];
    NamedText(c, a, stem, BodyText(c, args[k + 1..]));
    CutRegroup(BodyText(c, args[..k]), PARAM_OPEN, stem, FN_CLOSE, tail);
    CutHasNoClose(c, args[..k], stem);
  }

  lemma NamedText(c: Codec, a: Arg, stem: string, more: string)
    requires a.name == stem + ALMOST
    ensures Param(c, a) + "\n" + more == PARAM_OPEN + stem + FN_CLOSE + (Shown(c, a.value) + PARAM_CLOSE + "\n" + more)
  {
  }

  lemma CutRegroup(a: string, b: string, c: string, d: string, e: string)
    ensures a + (b + c + d + e) == a + b + c + d + e
  {
  }

  lemma CutHasNoClose(c: Codec, args: seq<Arg>, stem: string)
    requires forall a | a in args :: GoodArg(c, a) && !Closes(a.name)
    requires '>' !in stem
    ensures !Occurs(FN_CLOSE, BodyText(c, args) + PARAM_OPEN + stem)
  {
    FnShape();
    assert forall a | a in args :: GoodArg(c, a);
    BodyHasNoClose(c, args);
    var open := PARAM_OPEN + stem;
    assert FN_CLOSE[10] == '>' && '>' !in open;
    NoneBefore(FN_CLOSE, 10, BodyText(c, args), open) by {
      assert open[0] == '<';
    }
    assert BodyText(c, args) + PARAM_OPEN + stem == BodyText(c, args) + open;
  }

  /** No parameter is found after the ones before the name. */
  lemma CutEnd(name: string, n: nat)
    requires '>' !in name && n <= |name|
    ensures var open := PARAM_OPEN + name[..n];
            Blocks(PARAMETER, open) == [] && '>' !in open && open[0] == '<'
  {
    OpensHaveNoGt();
    OpenStem(PARAM_OPEN, name, n);
    NoName(PARAMETER, PARAM_OPEN + name[..n]);
  }

  lemma CutBlocks(c: Codec, args: seq<Arg>, k: nat)
    requires FirstCloser(args, k) && GoodArgs(c, args) && |args[k].name| >= |ALMOST|
    ensures Blocks(PARAMETER, CutBody(c, args, k)) == ParamBlocks(c, args[..k])
  {
    var name := args[k].name;
    assert GoodArg(c, args[k]);
    CutEnd(name, |name| - |ALMOST|);
    ScannedTo(c, args[..k], PARAM_OPEN + name[..|name| - |ALMOST|]);
    OpenRegroup(BodyText(c, args[..k]), PARAM_OPEN, name[..|name| - |ALMOST|]);
  }

  lemma OpenRegroup(a: string, b: string, c: string)
    ensures a + b + c == a + (b + c)
  {
  }

  lemma ScannedTo(c: Codec, args: seq<Arg>, open: string)
    requires GoodArgs(c, args) && Blocks(PARAMETER, open) == [] && open != "" && open[0] == '<'
    ensures Blocks(PARAMETER, BodyText(c, args) + open) == ParamBlocks(c, args)
  {
    BodyScanned(c, args, open);
    assert ParamBlocks(c, args) + [] == ParamBlocks(c, args);
  }

  /** What is left of the body holds only the parameters before the name. */
  lemma CutArguments(c: Codec, args: seq<Arg>, k: nat)
    requires FirstCloser(args, k) && GoodArgs(c, args) && |args[k].name| >= |ALMOST|
    ensures !IsDict(Gather(c, Blocks(PARAMETER, CutBody(c, args, k)), map[]), args)
  {
    CutBlocks(c, args, k);
    forall b | b in args[..k] ensures GoodArg(c, b) && b.name != args[k].name {
      var i :| 0 <= i < k && args[i] == b;
    }
    GatheredKeeps(c, args[..k], map[], args[k].name);
    assert args[k] in args;
  }

  // ---- Whole messages -----------------------------------------------------------------------------------

  ghost predicate Designed(c: Codec, calls: seq<NativeCall>) {
    forall call | call in calls :: WellNamed(call.name) && GoodArgs(c, Items(c, call))
  }

  predicate NoneCloses(c: Codec, call: NativeCall) {
    forall a | a in Items(c, call) :: !Closes(a.name)
  }

  lemma {:induction false} FirstCloserOf(args: seq<Arg>) returns (k: nat)
    requires exists a :: a in args && Closes(a.name)
    ensures FirstCloser(args, k)
  {
    if Closes(args[0].name) {
      k := 0;
    } else {
      var a :| a in args && Closes(a.name);
      assert a in args[1..];
      k := FirstCloserOf(args[1..]);
      k := k + 1;
    }
  }

  /** The call at a place is read back with other arguments. */
  ghost predicate Broken(c: Codec, calls: seq<NativeCall>, blocks: seq<Block>, i: nat) {
    && i < |calls| && i < |blocks|
    && !IsDict(Gather(c, Blocks(PARAMETER, blocks[i].body), map[]), Items(c, calls[i]))
  }

  lemma BrokenLater(c: Codec, calls: seq<NativeCall>, b: Block, blocks: seq<Block>, i: nat)
    requires calls != [] && Broken(c, calls[1..], blocks, i)
    ensures Broken(c, calls, [b] + blocks, i + 1)
  {
  }

  /** The first call with such a parameter is. */
  lemma {:induction false} FirstBroken(c: Codec, calls: seq<NativeCall>) returns (i: nat)
    requires Designed(c, calls) && exists call :: call in calls && !NoneCloses(c, call)
    ensures Broken(c, calls, Blocks(FUNCTION, Lines(RenderedCalls(c, calls))), i)
  {
    var call := calls[0];
    FirstLine(c, calls);
    assert WellNamed(call.name) && GoodArgs(c, Items(c, call));
    if NoneCloses(c, call) {
      var other :| other in calls && !NoneCloses(c, other);
      assert other in calls[1..];
      var k := FirstBroken(c, calls[1..]);
      SoundCall(c, calls);
      var rest := Blocks(FUNCTION, Lines(RenderedCalls(c, calls[1..])));
      var b :| Blocks(FUNCTION, Lines(RenderedCalls(c, calls))) == [b] + rest;
      BrokenLater(c, calls, b, rest, k);
      i := k + 1;
    } else {
      BrokenCall(c, call, AfterFirst(c, calls));
      i := 0;
    }
  }

  lemma SoundCall(c: Codec, calls: seq<NativeCall>)
    requires |calls| > 1 && GoodCall(c, calls[0])
    ensures var rest := Blocks(FUNCTION, Lines(RenderedCalls(c, calls[1..])));
            exists b :: Blocks(FUNCTION, Lines(RenderedCalls(c, calls))) == [b] + rest
  {
    FirstLine(c, calls);
    CallScanned(c, calls[0], AfterFirst(c, calls));
    FnShape();
    NewlineScanned(FUNCTION, Lines(RenderedCalls(c, calls[1..])));
  }

  lemma BrokenCall(c: Codec, call: NativeCall, after: string)
    requires WellNamed(call.name) && GoodArgs(c, Items(c, call)) && !NoneCloses(c, call)
    ensures var blocks := Blocks(FUNCTION, RenderedCall(c, call) + after);
            blocks != [] && !IsDict(Gather(c, Blocks(PARAMETER, blocks[0].body), map[]), Items(c, call))
  {
    var args := Items(c, call);
    var k := FirstCloserOf(args);
    var rest := CutText(c, args, k);
    CutArguments(c, args, k);
    CallText(c, call);
    var body := CutBody(c, args, k);
    FnScanned(call.name, body, rest + FN_CLOSE + after);
    BrokenRegroup(FN_OPEN + call.name + ">" + "\n", body, FN_CLOSE, rest, FN_CLOSE, after);
  }

  lemma BrokenRegroup(a: string, b: string, c: string, d: string, e: string, f: string)
    ensures a + (b + c + d) + e + f == a + b + c + (d + e + f)
  {
  }

  /** For prose and calls the syntax is designed for, the round trip holds exactly when no
      parameter's name closes the call. */
  lemma RoundTripExactly(c: Codec, prose: string, calls: seq<NativeCall>)
    requires Faithful(c) && calls != [] && Designed(c, calls) && Trimmed(prose) && !Occurs(FN_OPEN, prose)
    ensures var got := Parse(c, Some(Rendered(c, prose, calls)));
            (got.0 == (if prose == "" then None else Some(prose)) && SameCalls(c, got.1, calls))
            <==> forall call | call in calls :: NoneCloses(c, call)
  {
    if forall call | call in calls :: NoneCloses(c, call) {
      assert GoodCalls(c, calls);
      RoundTrip(c, prose, calls);
    } else {
      var i := FirstBroken(c, calls);
      var text := Lines(RenderedCalls(c, calls));
      MessageText(c, prose, calls);
      CallsText(c, calls);
      LeadScanned(prose, text);
      var blocks := Blocks(FUNCTION, text);
      ReadCallsAt(c, 0, blocks, i);
    }
  }

  /** And a stopped reply yields its first call exactly when that call's own name does not close it. */
  lemma StopWordExactly(c: Codec, prose: string, calls: seq<NativeCall>)
    requires Faithful(c) && calls != [] && GoodCalls(c, calls)
    requires Trimmed(prose) && !Occurs(FN_OPEN, prose) && !Occurs(FN_CLOSE, prose)
    ensures var got := Parse(c, Repaired(Some(Stopped(Rendered(c, prose, calls)))));
            (got.0 == (if prose == "" then None else Some(prose)) && SameCalls(c, got.1, [calls[0]]))
            <==> !Closes(calls[0].name)
  {
    if Closes(calls[0].name) {
      assert GoodCall(c, calls[0]);
      StoppedInName(c, prose, calls);
    } else {
      StopWordKeepsFirstCall(c, prose, calls);
    }
  }

  lemma NameText(c: Codec, prose: string, calls: seq<NativeCall>, stem: string) returns (tail: string)
    requires calls != [] && Trimmed(prose) && calls[0].name == stem + ALMOST
    ensures Rendered(c, prose, calls) == Lead(prose) + (FN_OPEN + stem) + FN_CLOSE + tail
  {
    var body := BodyText(c, Items(c, calls[0]));
    tail := "\n" + body + FN_CLOSE + AfterFirst(c, calls);
    FirstCallText(c, prose, calls);
    StemRegroup(Lead(prose), FN_OPEN, stem, ALMOST, ">", "\n", body, FN_CLOSE, AfterFirst(c, calls));
    assert ALMOST + ">" == FN_CLOSE;
  }

  lemma StemStopped(prose: string, name: string, n: nat, tail: string)
    requires '>' !in name && n <= |name| && !Occurs(FN_CLOSE, prose)
    ensures var open := Lead(prose) + (FN_OPEN + name[..n]);
            Stopped(open + FN_CLOSE + tail) == open && Repaired(Some(open)) == Some(open + FN_CLOSE)
  {
    var head := FN_OPEN + name[..n];
    OpensHaveNoGt();
    OpenStem(FN_OPEN, name, n);
    AlmostClose();
    CharAbsent(FN_CLOSE, |ALMOST|, head);
    LeadHasNoClose(prose, head);
    StoppedAt(Lead(prose) + head, tail);
    FoundInside(FN_OPEN, Lead(prose), name[..n]);
    assert Lead(prose) + head == Lead(prose) + FN_OPEN + name[..n];
  }

  lemma StoppedInName(c: Codec, prose: string, calls: seq<NativeCall>)
    requires calls != [] && WellNamed(calls[0].name) && Closes(calls[0].name)
    requires Trimmed(prose) && !Occurs(FN_OPEN, prose) && !Occurs(FN_CLOSE, prose)
    ensures Parse(c, Repaired(Some(Stopped(Rendered(c, prose, calls))))).1 == []
  {
    var name := calls[0].name;
    ClosingName(name);
    var n := |name| - |ALMOST|;
    var tail := NameText(c, prose, calls, name[..n]);
    StemStopped(prose, name, n, tail);
    NoCallInName(prose, name, n);
  }

  lemma StemRegroup(a: string, b: string, c: string, d: string, e: string, f: string, g: string, h: string, i: string)
    ensures a + (b + (c + d) + e + f + g) + h + i == a + (b + c) + (d + e) + (f + g + h + i)
  {
  }

  lemma NoCallInName(prose: string, name: string, n: nat)
    requires '>' !in name && n <= |name| && !Occurs(FN_OPEN, prose)
    ensures Blocks(FUNCTION, Lead(prose) + (FN_OPEN + name[..n]) + FN_CLOSE) == []
  {
    var inner := FN_OPEN + name[..n] + ALMOST;
    OpensHaveNoGt();
    OpenStem(FN_OPEN, name, n);
    NoBody(FUNCTION, inner);
    assert (inner + ">")[0] == '<';
    LeadScanned(prose, inner + ">");
    EndRegroup(Lead(prose), FN_OPEN, name[..n], ALMOST, ">");
    AlmostClose();
  }

  lemma EndRegroup(a: string, b: string, c: string, d: string, e: string)
    ensures a + (b + c) + (d + e) == a + (b + c + d + e)
  {
  }

  // ---- Such a name ----------------------------------------------------------------------------------------

  const NAME := "f</function"

  lemma NameCloses()
    ensures WellNamed(NAME) && Closes(NAME)
  {
    assert NAME[0] == 'f' && NAME[|NAME| - 1] == 'n';
    assert NAME + ">" == "f" + FN_CLOSE + "";
    FoundInside(FN_CLOSE, "f", "");
  }

  /** A call with a text argument of that name is not read back. */
  lemma ParameterNameEndsTheCall(c: Codec, call: NativeCall)
    requires Faithful(c) && c.loads("x").None?
    requires call.name == "f" && Items(c, call) == [Arg(NAME, Text("x"))]
    ensures var got := Parse(c, Some(Rendered(c, "", [call]))); !(got.0 == None && SameCalls(c, got.1, [call]))
  {
    NameCloses();
    ShortText();
    assert GoodArg(c, Arg(NAME, Text("x"))) && WellNamed("f");
    assert Designed(c, [call]) && call in [call] && Items(c, call)[0] in Items(c, call) && !NoneCloses(c, call);
    assert Find(FN_OPEN, "").None?;
    RoundTripExactly(c, "", [call]);
  }

  lemma ShortText()
    ensures Trimmed("x") && !Occurs(PARAM_CLOSE, "x") && !Occurs(FN_CLOSE, "x")
  {
    CharAbsent(PARAM_CLOSE, 0, "x");
    CharAbsent(FN_CLOSE, 0, "x");
  }

  /** A call of that name, without arguments, is read back from the whole reply and lost from the
      stopped one. */
  lemma CallNameStopsEarly(c: Codec, call: NativeCall)
    requires Faithful(c) && call.name == NAME && Items(c, call) == []
    ensures SameCalls(c, Parse(c, Some(Rendered(c, "", [call]))).1, [call])
    ensures Parse(c, Repaired(Some(Stopped(Rendered(c, "", [call]))))).1 == []
  {
    NameCloses();
    assert GoodCall(c, call) && GoodCalls(c, [call]);
    assert Find(FN_OPEN, "").None? && Find(FN_CLOSE, "").None?;
    RoundTrip(c, "", [call]);
    StoppedInName(c, "", [call]);
  }
}
