/** Values the syntax cannot carry. */
module ToolValues {
  import opened Wrappers
  import opened ToolCalls
  import opened ToolPrompt
  import opened ToolRoundTrip
  import opened ToolLimits

  ghost predicate Part(x: string, text: string) {
    exists a, b :: text == a + x + b
  }

  lemma PartIs(a: string, x: string, b: string)
    ensures Part(x, a + x + b)
  {
  }

  lemma PartOfPart(x: string, q: string, text: string)
    requires Part(x, q) && Part(q, text)
    ensures Part(x, text)
  {
    var a, b :| text == a + q + b;
    var d, e :| q == d + x + e;
    assert text == (a + d) + x + (e + b);
  }

  lemma PartBounds(x: string, text: string)
    requires Part(x, text)
    ensures |x| <= |text|
  {
  }

  /** What JSON is taken to be: its texts are trimmed, a string nowhere holds a JSON text of itself,
      and no proper part of a text with tags in it is JSON for the same value. */
  ghost predicate NoPartIsWhole(c: Codec) {
    && (forall d :: Trimmed(c.dumps(d)))
    && (forall t, x | Part(x, t) :: c.loads(x) != Some(Text(t)))
    && (forall d, x | Part(x, c.dumps(d)) && x != c.dumps(d) && !Untagged(c.dumps(d)) :: c.loads(x) != Some(Json(d)))
  }

  /** The text closes no block. */
  predicate Untagged(text: string) {
    !Occurs(PARAM_CLOSE, text) && !Occurs(FN_CLOSE, text)
  }

  lemma {:induction false} TrimIsPart(s: string)
    ensures Part(Trim(s), s) && (Trim(s) == s ==> Trimmed(s))
  {
    LeftIsPart(s);
    RightIsPart(TrimLeft(s));
    PartOfPart(Trim(s), TrimLeft(s), s);
  }

  lemma {:induction false} LeftIsPart(s: string)
    ensures Part(TrimLeft(s), s) && |TrimLeft(s)| <= |s|
    ensures s != "" && IsSpace(s[0]) ==> |TrimLeft(s)| < |s|
  {
    if s != "" && IsSpace(s[0]) {
      LeftIsPart(s[1..]);
      assert s == [s[0]] + s[1..] + "";
      PartIs([s[0]], s[1..], "");
      PartOfPart(TrimLeft(s), s[1..], s);
    } else {
      assert s == "" + s + "";
      PartIs("", s, "");
    }
  }

  lemma {:induction false} RightIsPart(s: string)
    ensures Part(TrimRight(s), s) && |TrimRight(s)| <= |s|
    ensures s != "" && IsSpace(s[|s| - 1]) ==> |TrimRight(s)| < |s|
    decreases |s|
  {
    if s != "" && IsSpace(s[|s| - 1]) {
      var front := s[..|s| - 1];
      RightIsPart(front);
      assert s == "" + front + [s[|s| - 1]];
      PartIs("", front, [s[|s| - 1]]);
      PartOfPart(TrimRight(s), front, s);
    } else {
      assert s == "" + s + "";
      PartIs("", s, "");
    }
  }

  // ---- What one block gives back ----------------------------------------------------------------------

  /** Read whole, a value's text gives it back only when the value is carried. */
  lemma WholeGivesBack(c: Codec, v: Value)
    requires Faithful(c) && NoPartIsWhole(c) && Untagged(Shown(c, v)) && !Carried(c, v)
    ensures Coerce(c, Trim(Shown(c, v))) != v
  {
    TrimIsPart(Shown(c, v));
  }

  /** A shorter part of it never does, when it holds a tag. */
  lemma PartGivesNothing(c: Codec, v: Value, x: string)
    requires NoPartIsWhole(c) && !Untagged(Shown(c, v)) && Part(x, Shown(c, v)) && |x| < |Shown(c, v)|
    ensures Coerce(c, Trim(x)) != v
  {
    TrimIsPart(x);
    PartBounds(Trim(x), x);
    PartOfPart(Trim(x), x, Shown(c, v));
  }

  lemma {:induction false} GatherConcat(c: Codec, a: seq<Block>, b: seq<Block>, m: map<string, Value>)
    ensures Gather(c, a + b, m) == Gather(c, b, Gather(c, a, m))
    decreases |a|
  {
    if a == [] {
      assert a + b == b;
    } else {
      assert (a + b)[1..] == a[1..] + b;
      GatherConcat(c, a[1..], b, m[Trim(a[0].name) := Coerce(c, Trim(a[0].body))]);
    }
  }

  /** No block of the name reads as the value. */
  ghost predicate NoneGives(c: Codec, blocks: seq<Block>, a: Arg) {
    forall b | b in blocks && Trim(b.name) == a.name :: Coerce(c, Trim(b.body)) != a.value
  }

  lemma {:induction false} NotGathered(c: Codec, blocks: seq<Block>, m: map<string, Value>, a: Arg)
    requires NoneGives(c, blocks, a) && (a.name in m ==> m[a.name] != a.value)
    ensures var got := Gather(c, blocks, m); a.name in got ==> got[a.name] != a.value
    decreases |blocks|
  {
    if blocks != [] {
      assert blocks[0] in blocks;
      NotGathered(c, blocks[1..], m[Trim(blocks[0].name) := Coerce(c, Trim(blocks[0].body))], a);
    }
  }

  // ---- What is left of a text behind its first close -----------------------------------------------------

  predicate ClosesParameter(name: string) {
    Occurs(PARAM_CLOSE, name + ">")
  }

  /** Names that spell no close tag. */
  predicate PlainName(name: string) {
    WellNamed(name) && !Closes(name) && !ClosesParameter(name)
  }

  /** Arguments read back, none of them under this name. */
  ghost predicate Others(c: Codec, args: seq<Arg>, name: string) {
    forall a | a in args :: PlainName(a.name) && a.name != name && Carried(c, a.value)
  }

  /** Every block of the name has a body within the text. */
  ghost predicate Within(blocks: seq<Block>, name: string, text: string) {
    forall b | b in blocks && Trim(b.name) == name :: Part(b.body, text)
  }

  lemma WithinMore(blocks: seq<Block>, name: string, q: string, text: string)
    requires Within(blocks, name, q) && Part(q, text)
    ensures Within(blocks, name, text)
  {
    forall b | b in blocks && Trim(b.name) == name ensures Part(b.body, text) {
      PartOfPart(b.body, q, text);
    }
  }

  lemma WithinCons(b: Block, blocks: seq<Block>, name: string, text: string)
    requires Within(blocks, name, text) && (Trim(b.name) == name ==> Part(b.body, text))
    ensures Within([b] + blocks, name, text)
  {
  }

  lemma OthersScanned(c: Codec, args: seq<Arg>, name: string, text: string)
    requires Others(c, args, name)
    ensures forall b | b in Blocks(PARAMETER, "\n" + BodyText(c, args)) :: Trim(b.name) != name
    ensures Within(Blocks(PARAMETER, "\n" + BodyText(c, args)), name, text)
  {
    ParamShape();
    NewlineScanned(PARAMETER, BodyText(c, args));
    assert forall a | a in args :: GoodArg(c, a);
    BodyScanned(c, args, "");
    assert BodyText(c, args) + "" == BodyText(c, args) && Blocks(PARAMETER, "") == [];
    OtherBlocks(c, args, name);
    assert ParamBlocks(c, args) + [] == ParamBlocks(c, args);
  }

  lemma {:induction false} OtherBlocks(c: Codec, args: seq<Arg>, name: string)
    requires Others(c, args, name)
    ensures forall b | b in ParamBlocks(c, args) :: Trim(b.name) != name
  {
    if args != [] {
      assert args[0] in args;
      TrimTrimmed(args[0].name);
      OtherBlocks(c, args[1..], name);
    }
  }

  /** What follows a value's text: its own close, and the other arguments. */
  function Behind(c: Codec, args: seq<Arg>): string {
    PARAM_CLOSE + ("\n" + BodyText(c, args))
  }

  /** No match starts here, so the scan goes one character on. */
  lemma GoesOn(g: Tag, text: string)
    requires text != "" && MatchHere(g, text).None?
    ensures Blocks(g, text) == Blocks(g, text[1..])
  {
  }

  lemma AtItsClose(c: Codec, args: seq<Arg>, name: string, text: string)
    requires Others(c, args, name)
    ensures Within(Blocks(PARAMETER, Behind(c, args)), name, text)
  {
    ParamShape();
    assert PARAM_OPEN[10] == '=' && '=' !in PARAM_CLOSE;
    CharAbsent(PARAM_OPEN, 10, PARAM_CLOSE);
    PlainScanned(PARAMETER, PARAM_CLOSE, "\n" + BodyText(c, args));
    OthersScanned(c, args, name, text);
  }

  /** Before its first place a pattern does not occur. */
  lemma {:induction false} NotBefore(pat: string, text: string, i: nat)
    requires pat != "" && Find(pat, text) == Some(i) && i <= |text|
    ensures !Occurs(pat, text[..i])
  {
    if i > 0 {
      NotBefore(pat, text[1..], i - 1);
      assert text[..i][1..] == text[1..][..i - 1];
      assert pat <= text[..i] ==> pat <= text;
    }
  }

  lemma SplitAt(pat: string, q: string) returns (a: string, r: string)
    requires pat != "" && Occurs(pat, q)
    ensures q == a + pat + r && !Occurs(pat, a)
  {
    var i := Find(pat, q).value;
    FindIsFirst(pat, q);
    NotBefore(pat, q, i);
    a, r := q[..i], q[i + |pat|..];
  }

  lemma PartBehind(q: string, a: string, b: string, r: string)
    requires q == a + b + r && b != ""
    ensures Part(a, q) && Part(r, q) && |r| < |q|
  {
    assert q == "" + a + (b + r);
    assert q == (a + b) + r + "";
  }

  lemma MovesBehind(a: string, b: string, r: string, z: string)
    ensures a + b + r + z == a + b + (r + z)
  {
  }

  /** A body that closes within the text. */
  lemma EndsInside(name: string, q: string, z: string) returns (m: Match, r: string)
    requires Occurs(PARAM_CLOSE, q)
    ensures MatchBody(PARAMETER, name, q + z) == Some(m) && m.block.name == name && m.rest == r + z
    ensures Part(m.block.body, q) && Part(r, q) && |r| < |q|
  {
    ParamShape();
    var a;
    a, r := SplitAt(PARAM_CLOSE, q);
    MovesBehind(a, PARAM_CLOSE, r, z);
    BodyMatched(PARAMETER, name, a, r + z);
    PartBehind(q, a, PARAM_CLOSE, r);
    m := Match(Block(name, a), r + z);
  }

  /** Or at the text's own close. */
  lemma EndsAtClose(name: string, q: string, more: string)
    requires !Occurs(PARAM_CLOSE, q)
    ensures MatchBody(PARAMETER, name, q + (PARAM_CLOSE + more)) == Some(Match(Block(name, q), more))
  {
    ParamShape();
    assert q + (PARAM_CLOSE + more) == q + PARAM_CLOSE + more;
    BodyMatched(PARAMETER, name, q, more);
  }

  /** A name that runs on over the close tag is not one of ours. */
  lemma RunsOver(q: string, name: string)
    requires PlainName(name)
    ensures Trim(q + PARAM_CLOSE[..|PARAM_CLOSE| - 1]) != name
  {
    var almost := PARAM_CLOSE[..|PARAM_CLOSE| - 1];
    TrimLeftEnds(q, almost);
    var r :| TrimLeft(q + almost) == r + almost;
    assert !IsSpace((r + almost)[|r + almost| - 1]) && TrimRight(r + almost) == r + almost;
    assert r + almost + ">" == r + PARAM_CLOSE + "";
    FoundInside(PARAM_CLOSE, r, "");
  }

  lemma {:induction false} TrimLeftEnds(q: string, end: string)
    requires end != "" && !IsSpace(end[0])
    ensures exists r :: TrimLeft(q + end) == r + end
  {
    if q == "" {
      assert q + end == "" + end;
    } else if IsSpace(q[0]) {
      assert (q + end)[1..] == q[1..] + end;
      TrimLeftEnds(q[1..], end);
    } else {
      assert TrimLeft(q + end) == q + end;
    }
  }

  lemma NameSplit(n: string, r: string)
    requires n != "" && '>' !in n
    ensures MatchName(PARAMETER, n + ">" + r) == MatchBody(PARAMETER, n, r)
  {
    NameMatched(PARAMETER, n, r);
    assert Gap(PARAMETER) + r == r;
  }

  lemma ClosingSplit(q: string, more: string)
    ensures q + (PARAM_CLOSE + more) == q + PARAM_CLOSE[..|PARAM_CLOSE| - 1] + ">" + more
  {
  }

  lemma OverBody(q: string, more: string)
    requires '>' !in q
    ensures var long := q + PARAM_CLOSE[..|PARAM_CLOSE| - 1];
            MatchName(PARAMETER, q + (PARAM_CLOSE + more)) == MatchBody(PARAMETER, long, more)
  {
    ClosingSplit(q, more);
    assert '>' !in PARAM_CLOSE[..|PARAM_CLOSE| - 1];
    NameSplit(q + PARAM_CLOSE[..|PARAM_CLOSE| - 1], more);
  }

  lemma NothingToSwallow(c: Codec, args: seq<Arg>, name: string)
    requires MatchBody(PARAMETER, name, "\n" + BodyText(c, args)).Some?
    ensures args != []
  {
    CharAbsent(PARAM_CLOSE, 0, "\n");
    assert args == [] ==> "\n" + BodyText(c, args) == "\n";
  }

  /** The block whose name does, and what comes after it. */
  lemma NameRunsOver(c: Codec, args: seq<Arg>, q: string, name: string, text: string, m: Match)
    requires Others(c, args, name) && PlainName(name) && '>' !in q
    requires MatchName(PARAMETER, q + Behind(c, args)) == Some(m)
    ensures Within([m.block] + Blocks(PARAMETER, m.rest), name, text)
  {
    var long := q + PARAM_CLOSE[..|PARAM_CLOSE| - 1];
    OverBody(q, "\n" + BodyText(c, args));
    NothingToSwallow(c, args, long);
    assert args[0] in args;
    SwallowsOne(c, args, long);
    RunsOver(q, name);
    OthersScanned(c, args[1..], name, text);
    WithinCons(m.block, Blocks(PARAMETER, m.rest), name, text);
  }

  lemma Opening(c: Codec, args: seq<Arg>)
    requires args != []
    ensures "\n" + BodyText(c, args)
            == "\n" + PARAM_OPEN + args[0].name + ">" + Shown(c, args[0].value)
               + (PARAM_CLOSE + ("\n" + BodyText(c, args[1..])))
  {
    OpeningRegroup("\n", PARAM_OPEN, args[0].name, ">", Shown(c, args[0].value), PARAM_CLOSE, BodyText(c, args[1..]));
  }

  lemma OpeningRegroup(l: string, a: string, b: string, c: string, d: string, e: string, f: string)
    ensures l + (a + b + c + d + e + l + f) == l + a + b + c + d + (e + (l + f))
  {
  }

  lemma SwallowsOne(c: Codec, args: seq<Arg>, name: string)
    requires args != [] && PlainName(args[0].name) && Carried(c, args[0].value)
    ensures var m := MatchBody(PARAMETER, name, "\n" + BodyText(c, args));
            m.Some? && m.value.block.name == name && m.value.rest == "\n" + BodyText(c, args[1..])
  {
    var a := args[0];
    Opening(c, args);
    OpeningHasNoClose(a.name, Shown(c, a.value));
    EndsAtClose(name, "\n" + PARAM_OPEN + a.name + ">" + Shown(c, a.value), "\n" + BodyText(c, args[1..]));
  }

  lemma OpeningHasNoClose(name: string, v: string)
    requires !ClosesParameter(name) && !Occurs(PARAM_CLOSE, v)
    ensures !Occurs(PARAM_CLOSE, "\n" + PARAM_OPEN + name + ">" + v)
  {
    ParamShape();
    var named := name + ">";
    assert PARAM_OPEN[|PARAM_OPEN| - 1] == '=' && PARAM_CLOSE[1] == '/';
    NoneBehind(PARAM_CLOSE, 1, PARAM_OPEN, named);
    var head := PARAM_OPEN + named;
    NoneAcross(PARAM_CLOSE, head, v);
    NoneBehind(PARAM_CLOSE, 0, "\n", head + v);
    assert "\n" + PARAM_OPEN + name + ">" + v == "\n" + (head + v);
  }

  /** Whatever is scanned out of the rest of a text, the blocks of its argument's name lie in it. */
  lemma {:induction false} RestScanned(c: Codec, args: seq<Arg>, q: string, name: string)
    requires Others(c, args, name) && PlainName(name)
    ensures Within(Blocks(PARAMETER, q + Behind(c, args)), name, q)
    decreases |q|, 1
  {
    if q == "" {
      assert q + Behind(c, args) == Behind(c, args);
      AtItsClose(c, args, name, q);
    } else if MatchHere(PARAMETER, q + Behind(c, args)).None? {
      RestScanned(c, args, q[1..], name);
      NextScanned(q, Behind(c, args));
      WithinMore(Blocks(PARAMETER, q[1..] + Behind(c, args)), name, q[1..], q);
    } else {
      var m := MatchHere(PARAMETER, q + Behind(c, args)).value;
      var inner := OpensHere(q, Behind(c, args), m);
      if '>' in inner {
        NameEnds(c, args, q, inner, name, m);
      } else {
        NameRunsOver(c, args, inner, name, q, m);
      }
    }
  }

  lemma NextScanned(q: string, z: string)
    requires q != "" && MatchHere(PARAMETER, q + z).None?
    ensures Blocks(PARAMETER, q + z) == Blocks(PARAMETER, q[1..] + z) && Part(q[1..], q)
  {
    GoesOn(PARAMETER, q + z);
    TailJoins(q, z);
  }

  lemma TailJoins(q: string, z: string)
    requires q != ""
    ensures (q + z)[1..] == q[1..] + z && Part(q[1..], q)
  {
    assert q == [q[0]] + q[1..] + "";
  }

  lemma OpensHere(q: string, z: string, m: Match) returns (inner: string)
    requires q != "" && z != "" && z[0] == '<' && MatchHere(PARAMETER, q + z) == Some(m)
    ensures q == PARAM_OPEN + inner && MatchName(PARAMETER, inner + z) == Some(m)
    ensures Blocks(PARAMETER, q + z) == [m.block] + Blocks(PARAMETER, m.rest)
  {
    ParamShape();
    StraddlesOrNot(PARAM_OPEN, q, z);
    inner := q[|PARAM_OPEN|..];
    assert (q + z)[|PARAM_OPEN|..] == inner + z;
    Stepped(PARAMETER, q + z, m);
  }

  lemma NameEnds(c: Codec, args: seq<Arg>, q: string, inner: string, name: string, m: Match)
    requires Others(c, args, name) && PlainName(name) && '>' in inner && q == PARAM_OPEN + inner
    requires MatchName(PARAMETER, inner + Behind(c, args)) == Some(m)
    ensures Within([m.block] + Blocks(PARAMETER, m.rest), name, q)
    decreases |q|, 0
  {
    var z := Behind(c, args);
    var n, r := NameIn(inner, z, m);
    PartBehind(inner, n, ">", r);
    PartBehind(q, "", PARAM_OPEN, inner);
    PartOfPart(r, inner, q);
    if Occurs(PARAM_CLOSE, r) {
      var k, p := EndsInside(n, r, z);
      RestScanned(c, args, p, name);
      PartOfPart(p, r, q);
      PartOfPart(m.block.body, r, q);
      WithinMore(Blocks(PARAMETER, m.rest), name, p, q);
    } else {
      EndsAtClose(n, r, "\n" + BodyText(c, args));
      OthersScanned(c, args, name, q);
    }
    WithinCons(m.block, Blocks(PARAMETER, m.rest), name, q);
  }

  lemma NoEmptyName(text: string)
    ensures MatchName(PARAMETER, ">" + text).None?
  {
    assert ">" <= ">" + text;
  }

  /** The name that ends within the text. */
  lemma NameIn(inner: string, z: string, m: Match) returns (n: string, r: string)
    requires '>' in inner && MatchName(PARAMETER, inner + z) == Some(m)
    ensures inner == n + ">" + r && MatchBody(PARAMETER, n, r + z) == Some(m)
  {
    n, r := FirstGt(inner);
    MovesBehind(n, ">", r, z);
    NoEmptyName(r + z);
    assert n == "" ==> n + ">" + (r + z) == ">" + (r + z);
    NameSplit(n, r + z);
  }

  lemma {:induction false} FirstGt(text: string) returns (n: string, r: string)
    requires '>' in text
    ensures text == n + ">" + r && '>' !in n
  {
    if text[0] == '>' {
      n, r := "", text[1..];
    } else {
      n, r := FirstGt(text[1..]);
      n := [text[0]] + n;
    }
  }

  lemma {:induction false} AnyBlocks(g: Tag, text: string)
    ensures forall b | b in Blocks(g, text) :: Part(b.body, text)
    decreases |text|
  {
    if text != "" {
      match MatchHere(g, text)
      case Some(m) =>
        MatchIsPart(g, text, m);
        AnyBlocks(g, m.rest);
        forall b | b in Blocks(g, m.rest) ensures Part(b.body, text) {
          PartOfPart(b.body, m.rest, text);
        }
      case None =>
        AnyBlocks(g, text[1..]);
        assert text == [text[0]] + text[1..] + "";
        forall b | b in Blocks(g, text[1..]) ensures Part(b.body, text) {
          PartOfPart(b.body, text[1..], text);
        }
    }
  }

  lemma BodyShape(g: Tag, name: string, u: string, m: Match)
    requires MatchBody(g, name, u) == Some(m)
    ensures u == m.block.body + g.close + m.rest
  {
    FindIsFirst(g.close, u);
  }

  lemma NameCut(g: Tag, inner: string) returns (name: string, tail: string)
    requires MatchName(g, inner).Some?
    ensures inner == name + ">" + tail && MatchName(g, inner) == MatchBody(g, name, SkipNewline(g, tail))
    ensures name != "" && Find(">", inner) == Some(|name|)
  {
    FindIsFirst(">", inner);
    var n := Find(">", inner).value;
    name, tail := inner[..n], inner[n + 1..];
  }

  lemma NameShape(g: Tag, inner: string, m: Match) returns (front: string)
    requires MatchName(g, inner) == Some(m)
    ensures inner == front + (m.block.body + g.close + m.rest)
  {
    var name, tail := NameCut(g, inner);
    BodyShape(g, name, SkipNewline(g, tail), m);
    var gap := SkipsAtMostOne(g, tail);
    Joined(inner, name + ">", tail, gap, SkipNewline(g, tail));
    front := name + ">" + gap;
  }

  lemma MatchShape(g: Tag, text: string, m: Match) returns (front: string)
    requires MatchHere(g, text) == Some(m)
    ensures text == front + (m.block.body + g.close + m.rest)
  {
    var inner := text[|g.open|..];
    front := NameShape(g, inner, m);
    Joined(text, g.open, inner, front, m.block.body + g.close + m.rest);
    front := g.open + front;
  }

  lemma SkipsAtMostOne(g: Tag, text: string) returns (gap: string)
    ensures text == gap + SkipNewline(g, text)
  {
    gap := if SkipNewline(g, text) == text then "" else text[..1];
  }

  lemma Joined(text: string, head: string, tail: string, gap: string, u: string)
    requires text == head + tail && tail == gap + u
    ensures text == head + gap + u
  {
  }

  lemma ShapeRegroup(front: string, body: string, close: string, rest: string)
    ensures var text := front + (body + close + rest);
            text == front + body + (close + rest) && text == (front + body + close) + rest + ""
            && text == (front + body) + close + rest
  {
  }

  lemma MatchIsPart(g: Tag, text: string, m: Match)
    requires MatchHere(g, text) == Some(m)
    ensures Part(m.block.body, text) && Part(m.rest, text)
  {
    var front := MatchShape(g, text, m);
    ShapeRegroup(front, m.block.body, g.close, m.rest);
  }

  lemma {:induction false} NoClose(g: Tag, text: string)
    requires !Occurs(g.close, text)
    ensures Blocks(g, text) == []
    decreases |text|
  {
    if text != "" {
      if MatchHere(g, text).Some? {
        CloseStands(g, text);
      } else {
        TailHasNone(g.close, text);
        NoClose(g, text[1..]);
      }
    }
  }

  lemma TailHasNone(pat: string, text: string)
    requires text != "" && !Occurs(pat, text)
    ensures !Occurs(pat, text[1..])
  {
  }

  /** Where a block ends, its close occurs. */
  lemma CloseStands(g: Tag, text: string)
    requires MatchHere(g, text).Some?
    ensures Occurs(g.close, text)
  {
    var m := MatchHere(g, text).value;
    var front := MatchShape(g, text, m);
    ShapeRegroup(front, m.block.body, g.close, m.rest);
    FoundInside(g.close, front + m.block.body, m.rest);
  }

  // ---- One argument -----------------------------------------------------------------------------------

  /** The only argument whose value is not carried. */
  ghost predicate OnlyFlaw(c: Codec, args: seq<Arg>, k: nat) {
    && k < |args| && !Carried(c, args[k].value)
    && (forall a | a in args :: PlainName(a.name))
    && (forall i, j | 0 <= i < j < |args| :: args[i].name != args[j].name)
    && forall i | 0 <= i < |args| && i != k :: Carried(c, args[i].value)
  }

  lemma BesidesFlaw(c: Codec, args: seq<Arg>, k: nat)
    requires OnlyFlaw(c, args, k)
    ensures PlainName(args[k].name) && Others(c, args[..k], args[k].name) && Others(c, args[k + 1..], args[k].name)
  {
    forall a | a in args[..k] ensures PlainName(a.name) && a.name != args[k].name && Carried(c, a.value) {
      var i :| 0 <= i < k && args[i] == a;
    }
    forall a | a in args[k + 1..] ensures PlainName(a.name) && a.name != args[k].name && Carried(c, a.value) {
      var i :| 0 <= i < |args| - k - 1 && args[k + 1..][i] == a;
      assert args[k + 1 + i] == a;
    }
  }

  /** The text of an argument from its opening on. */
  function Opened(name: string, text: string): string {
    PARAM_OPEN + name + ">" + text
  }

  /** What the parser takes for the body of the call. */
  function SeenBody(c: Codec, args: seq<Arg>, k: nat): string
    requires k < |args|
  {
    var text := Shown(c, args[k].value);
    BodyText(c, args[..k])
    + if Occurs(FN_CLOSE, text) then Opened(args[k].name, UpTo(FN_CLOSE, text))
      else Opened(args[k].name, text + Behind(c, args[k + 1..]))
  }

  function UpTo(pat: string, text: string): string {
    match Find(pat, text)
    case Some(i) => FindIsFirst(pat, text); text[..i]
    case None => text
  }

  lemma OpenedSplit(name: string, a: string, b: string, r: string)
    ensures Opened(name, a + b + r) == PARAM_OPEN + name + ">" + a + b + r
  {
  }

  /** The first block ends in the text, which holds a tag. */
  lemma CutGives(c: Codec, a: Arg, q: string, r: string, blocks: seq<Block>)
    requires NoPartIsWhole(c) && PlainName(a.name) && !Untagged(Shown(c, a.value))
    requires Part(q, Shown(c, a.value)) && Part(r, Shown(c, a.value))
    requires |q| < |Shown(c, a.value)| && |r| < |Shown(c, a.value)| && Within(blocks, a.name, r)
    ensures NoneGives(c, [Block(a.name, q)] + blocks, a)
  {
    TrimTrimmed(a.name);
    var all := [Block(a.name, q)] + blocks;
    forall b | b in all && Trim(b.name) == a.name ensures Coerce(c, Trim(b.body)) != a.value {
      if b in blocks {
        PartBounds(b.body, r);
        PartOfPart(b.body, r, Shown(c, a.value));
      }
      PartGivesNothing(c, a.value, b.body);
    }
  }

  lemma UpToSplits(pat: string, text: string) returns (rest: string)
    requires pat != "" && Occurs(pat, text)
    ensures text == UpTo(pat, text) + pat + rest && !Occurs(pat, UpTo(pat, text))
  {
    var i := Find(pat, text).value;
    FindIsFirst(pat, text);
    NotBefore(pat, text, i);
    rest := text[i + |pat|..];
  }

  /** A call tag in the text cuts the call short. */
  lemma CallTagLoses(c: Codec, a: Arg)
    requires NoPartIsWhole(c) && PlainName(a.name) && Occurs(FN_CLOSE, Shown(c, a.value))
    ensures NoneGives(c, Blocks(PARAMETER, Opened(a.name, UpTo(FN_CLOSE, Shown(c, a.value)))), a)
  {
    ParamShape();
    var text := Shown(c, a.value);
    var p := UpTo(FN_CLOSE, text);
    var more := UpToSplits(FN_CLOSE, text);
    PartBehind(text, p, FN_CLOSE, more);
    if Occurs(PARAM_CLOSE, p) {
      var q, r := SplitAt(PARAM_CLOSE, p);
      OpenedSplit(a.name, q, PARAM_CLOSE, r);
      ParamScanned(a.name, q, r);
      PartBehind(p, q, PARAM_CLOSE, r);
      PartOfPart(q, p, text);
      PartOfPart(r, p, text);
      AnyBlocks(PARAMETER, r);
      CutGives(c, a, q, r, Blocks(PARAMETER, r));
    } else {
      OpenedHasNoClose(a.name, p);
      NoClose(PARAMETER, Opened(a.name, p));
    }
  }

  lemma OpenedHasNoClose(name: string, v: string)
    requires !ClosesParameter(name) && !Occurs(PARAM_CLOSE, v)
    ensures !Occurs(PARAM_CLOSE, Opened(name, v))
  {
    OpeningHasNoClose(name, v);
    assert ("\n" + PARAM_OPEN + name + ">" + v)[1..] == Opened(name, v);
  }

  /** A parameter tag in it cuts the value short. */
  lemma ParameterTagLoses(c: Codec, a: Arg, rest: seq<Arg>)
    requires NoPartIsWhole(c) && PlainName(a.name) && Others(c, rest, a.name)
    requires Occurs(PARAM_CLOSE, Shown(c, a.value))
    ensures NoneGives(c, Blocks(PARAMETER, Opened(a.name, Shown(c, a.value) + Behind(c, rest))), a)
  {
    ParamShape();
    var text := Shown(c, a.value);
    var q, r := SplitAt(PARAM_CLOSE, text);
    MovesBehind(q, PARAM_CLOSE, r, Behind(c, rest));
    OpenedSplit(a.name, q, PARAM_CLOSE, r + Behind(c, rest));
    ParamScanned(a.name, q, r + Behind(c, rest));
    PartBehind(text, q, PARAM_CLOSE, r);
    RestScanned(c, rest, r, a.name);
    CutGives(c, a, q, r, Blocks(PARAMETER, r + Behind(c, rest)));
  }

  /** A text without tags is read whole, and gives another value. */
  lemma PlainTextLoses(c: Codec, a: Arg, rest: seq<Arg>)
    requires Faithful(c) && NoPartIsWhole(c) && PlainName(a.name) && Others(c, rest, a.name)
    requires Untagged(Shown(c, a.value)) && !Carried(c, a.value)
    ensures NoneGives(c, Blocks(PARAMETER, Opened(a.name, Shown(c, a.value) + Behind(c, rest))), a)
  {
    ParamShape();
    var text, more := Shown(c, a.value), "\n" + BodyText(c, rest);
    assert text + (PARAM_CLOSE + more) == text + PARAM_CLOSE + more;
    OpenedSplit(a.name, text, PARAM_CLOSE, more);
    ParamScanned(a.name, text, more);
    OthersScanned(c, rest, a.name, "");
    WholeGivesBack(c, a.value);
    OnlyBlock(c, a, Blocks(PARAMETER, more));
  }

  lemma OnlyBlock(c: Codec, a: Arg, blocks: seq<Block>)
    requires Coerce(c, Trim(Shown(c, a.value))) != a.value && forall b | b in blocks :: Trim(b.name) != a.name
    ensures NoneGives(c, [Block(a.name, Shown(c, a.value))] + blocks, a)
  {
  }

  /** The one value that is not carried does not come back. */
  lemma FlawIsLost(c: Codec, args: seq<Arg>, k: nat)
    requires Faithful(c) && NoPartIsWhole(c) && OnlyFlaw(c, args, k)
    ensures !IsDict(Gather(c, Blocks(PARAMETER, SeenBody(c, args, k)), map[]), args)
  {
    var a, rest := args[k], args[k + 1..];
    var text := Shown(c, a.value);
    var seen := if Occurs(FN_CLOSE, text) then Opened(a.name, UpTo(FN_CLOSE, text))
                else Opened(a.name, text + Behind(c, rest));
    BesidesFlaw(c, args, k);
    if Occurs(FN_CLOSE, text) {
      CallTagLoses(c, a);
    } else if Occurs(PARAM_CLOSE, text) {
      ParameterTagLoses(c, a, rest);
    } else {
      PlainTextLoses(c, a, rest);
    }
    NotInDict(c, args, k, seen);
  }

  lemma NotInDict(c: Codec, args: seq<Arg>, k: nat, seen: string)
    requires k < |args| && Others(c, args[..k], args[k].name) && NoneGives(c, Blocks(PARAMETER, seen), args[k])
    ensures !IsDict(Gather(c, Blocks(PARAMETER, BodyText(c, args[..k]) + seen), map[]), args)
  {
    assert forall a | a in args[..k] :: GoodArg(c, a);
    BodyScanned(c, args[..k], seen);
    GatherConcat(c, ParamBlocks(c, args[..k]), Blocks(PARAMETER, seen), map[]);
    GatheredKeeps(c, args[..k], map[], args[k].name);
    NotGathered(c, Blocks(PARAMETER, seen), Gather(c, ParamBlocks(c, args[..k]), map[]), args[k]);
    assert args[k] in args;
  }

  // ---- Calls and messages -----------------------------------------------------------------------------

  ghost predicate AllCarried(c: Codec, call: NativeCall) {
    forall a | a in Items(c, call) :: Carried(c, a.value)
  }

  /** Plain names, and all values carried but at most one. */
  ghost predicate OneFlawAtMost(c: Codec, call: NativeCall) {
    && WellNamed(call.name) && (forall a | a in Items(c, call) :: PlainName(a.name))
    && (forall i, j | 0 <= i < j < |Items(c, call)| :: Items(c, call)[i].name != Items(c, call)[j].name)
    && (AllCarried(c, call) || exists k :: OnlyFlaw(c, Items(c, call), k))
  }

  lemma BodyAt(c: Codec, args: seq<Arg>, k: nat)
    requires k < |args|
    ensures BodyText(c, args)
            == BodyText(c, args[..k]) + Opened(args[k].name, Shown(c, args[k].value) + Behind(c, args[k + 1..]))
  {
    BodySplit(c, args, k);
    assert args[k..][1..] == args[k + 1..];
    var head, text, more := PARAM_OPEN + args[k].name + ">", Shown(c, args[k].value), BodyText(c, args[k + 1..]);
    ArgRegroup(head, text, PARAM_CLOSE, "\n", more);
  }

  lemma ArgRegroup(a: string, b: string, c: string, d: string, e: string)
    ensures a + b + c + d + e == a + (b + (c + (d + e)))
  {
  }

  /** A call's text up to the first place where its close tag stands. */
  lemma SeenText(c: Codec, args: seq<Arg>, k: nat) returns (rest: string)
    requires OnlyFlaw(c, args, k)
    ensures BodyText(c, args) + FN_CLOSE == SeenBody(c, args, k) + FN_CLOSE + rest
    ensures !Occurs(FN_CLOSE, SeenBody(c, args, k))
  {
    var text := Shown(c, args[k].value);
    BodyAt(c, args, k);
    if Occurs(FN_CLOSE, text) {
      var more := UpToSplits(FN_CLOSE, text);
      var head := PARAM_OPEN + args[k].name + ">";
      rest := more + Behind(c, args[k + 1..]) + FN_CLOSE;
      SeenRegroup(BodyText(c, args[..k]), head, UpTo(FN_CLOSE, text), FN_CLOSE, more, Behind(c, args[k + 1..]));
      SeenHasNoClose(c, args, k);
    } else {
      rest := "";
      forall a | a in args ensures !Closes(a.name) && !Occurs(FN_CLOSE, Shown(c, a.value)) {
        var i :| 0 <= i < |args| && args[i] == a;
        assert i != k ==> Carried(c, args[i].value);
      }
      BodyHasNoClose(c, args);
    }
  }

  lemma SeenRegroup(a: string, b: string, c: string, d: string, e: string, f: string)
    ensures a + (b + (c + d + e + f)) + d == a + (b + c) + d + (e + f + d)
  {
  }

  lemma SeenHasNoClose(c: Codec, args: seq<Arg>, k: nat)
    requires OnlyFlaw(c, args, k) && Occurs(FN_CLOSE, Shown(c, args[k].value))
    ensures !Occurs(FN_CLOSE, SeenBody(c, args, k))
  {
    FnShape();
    var p := UpTo(FN_CLOSE, Shown(c, args[k].value));
    var more := UpToSplits(FN_CLOSE, Shown(c, args[k].value));
    BesidesFlaw(c, args, k);
    BodyHasNoClose(c, args[..k]);
    OpenedHasNoCall(args[k].name, p);
    assert Opened(args[k].name, p)[0] == '<';
    NoneAcross(FN_CLOSE, BodyText(c, args[..k]), Opened(args[k].name, p));
  }

  lemma OpenedHasNoCall(name: string, v: string)
    requires !Closes(name) && !Occurs(FN_CLOSE, v)
    ensures !Occurs(FN_CLOSE, Opened(name, v))
  {
    FnShape();
    var named := name + ">";
    assert PARAM_OPEN[|PARAM_OPEN| - 1] == '=' && FN_CLOSE[1] == '/';
    NoneBehind(FN_CLOSE, 1, PARAM_OPEN, named);
    var head := PARAM_OPEN + named;
    NoneAcross(FN_CLOSE, head, v);
    assert head + v == Opened(name, v);
  }

  lemma LostCall(c: Codec, call: NativeCall, after: string)
    requires Faithful(c) && NoPartIsWhole(c) && OneFlawAtMost(c, call) && !AllCarried(c, call)
    ensures var blocks := Blocks(FUNCTION, RenderedCall(c, call) + after);
            blocks != [] && !IsDict(Gather(c, Blocks(PARAMETER, blocks[0].body), map[]), Items(c, call))
  {
    var args := Items(c, call);
    var k :| OnlyFlaw(c, args, k);
    var rest := SeenText(c, args, k);
    FlawIsLost(c, args, k);
    CallText(c, call);
    FnScanned(call.name, SeenBody(c, args, k), rest + after);
    LostRegroup(FN_OPEN + call.name + ">" + "\n", BodyText(c, args), SeenBody(c, args, k), FN_CLOSE, rest, after);
  }

  lemma LostRegroup(a: string, b: string, s: string, d: string, e: string, f: string)
    requires b + d == s + d + e
    ensures a + b + d + f == a + s + d + (e + f)
  {
    assert a + b + d + f == a + (b + d) + f;
  }

  lemma CarriedIsGood(c: Codec, call: NativeCall)
    requires OneFlawAtMost(c, call) && AllCarried(c, call)
    ensures GoodCall(c, call)
  {
  }

  lemma LostLater(c: Codec, calls: seq<NativeCall>, k: nat)
    requires |calls| > 1 && OneFlawAtMost(c, calls[0]) && AllCarried(c, calls[0])
    requires Broken(c, calls[1..], Blocks(FUNCTION, Lines(RenderedCalls(c, calls[1..]))), k)
    ensures Broken(c, calls, Blocks(FUNCTION, Lines(RenderedCalls(c, calls))), k + 1)
  {
    CarriedIsGood(c, calls[0]);
    SoundCall(c, calls);
    var rest := Blocks(FUNCTION, Lines(RenderedCalls(c, calls[1..])));
    var b :| Blocks(FUNCTION, Lines(RenderedCalls(c, calls))) == [b] + rest;
    BrokenLater(c, calls, b, rest, k);
  }

  lemma {:induction false} FirstLost(c: Codec, calls: seq<NativeCall>) returns (i: nat)
    requires Faithful(c) && NoPartIsWhole(c) && forall call | call in calls :: OneFlawAtMost(c, call)
    requires exists call :: call in calls && !AllCarried(c, call)
    ensures Broken(c, calls, Blocks(FUNCTION, Lines(RenderedCalls(c, calls))), i)
  {
    var call := calls[0];
    FirstLine(c, calls);
    if AllCarried(c, call) {
      var other :| other in calls && !AllCarried(c, other);
      assert other in calls[1..];
      i := FirstLost(c, calls[1..]);
      LostLater(c, calls, i);
      i := i + 1;
    } else {
      LostCall(c, call, AfterFirst(c, calls));
      i := 0;
    }
  }

  /** For calls with plain names, each with at most one value that may not be carried, the round
      trip holds exactly when every value is: its text is trimmed and closes no block, and a string
      is not itself JSON. */
  lemma ValuesExactly(c: Codec, prose: string, calls: seq<NativeCall>)
    requires Faithful(c) && NoPartIsWhole(c) && calls != [] && forall call | call in calls :: OneFlawAtMost(c, call)
    requires Trimmed(prose) && !Occurs(FN_OPEN, prose)
    ensures var got := Parse(c, Some(Rendered(c, prose, calls)));
            (got.0 == (if prose == "" then None else Some(prose)) && SameCalls(c, got.1, calls))
            <==> forall call | call in calls :: AllCarried(c, call)
  {
    if forall call | call in calls :: AllCarried(c, call) {
      forall call | call in calls ensures GoodCall(c, call) {
        CarriedIsGood(c, call);
      }
      RoundTrip(c, prose, calls);
    } else {
      var i := FirstLost(c, calls);
      var text := Lines(RenderedCalls(c, calls));
      MessageText(c, prose, calls);
      CallsText(c, calls);
      LeadScanned(prose, text);
      ReadCallsAt(c, 0, Blocks(FUNCTION, text), i);
    }
  }

  // ---- One of each kind ---------------------------------------------------------------------------------

  /** Texts that hold a tag, that are not trimmed, and a string that is JSON. */
  lemma NotCarried(c: Codec)
    ensures !Carried(c, Text("a</parameter>b")) && !Carried(c, Text("a</function>b")) && !Carried(c, Text(" a"))
    ensures c.loads("5").Some? ==> !Carried(c, Text("5"))
  {
    FoundInside(PARAM_CLOSE, "a", "b");
    FoundInside(FN_CLOSE, "a", "b");
    assert "a" + PARAM_CLOSE + "b" == "a</parameter>b" && "a" + FN_CLOSE + "b" == "a</function>b";
  }

  /** A call with one such argument does not come back. */
  lemma LostValues(c: Codec, call: NativeCall, text: string)
    requires Faithful(c) && NoPartIsWhole(c) && c.loads("5").Some?
    requires text in {"a</parameter>b", "a</function>b", " a", "5"}
    requires call.name == "f" && Items(c, call) == [Arg("x", Text(text))]
    ensures var got := Parse(c, Some(Rendered(c, "", [call]))); !(got.0 == None && SameCalls(c, got.1, [call]))
  {
    NotCarried(c);
    PlainX();
    assert Items(c, call)[0] in Items(c, call) && OnlyFlaw(c, Items(c, call), 0);
    assert call in [call] && !AllCarried(c, call) && OneFlawAtMost(c, call);
    assert Find(FN_OPEN, "").None?;
    ValuesExactly(c, "", [call]);
  }

  lemma PlainX()
    ensures PlainName("x") && WellNamed("f")
  {
    assert "x" + ">" == "x>" && '<' !in "x>";
    CharAbsent(FN_CLOSE, 0, "x>");
    CharAbsent(PARAM_CLOSE, 0, "x>");
  }
}
