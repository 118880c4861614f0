/** What the parser finds in any text at all. */
module ToolMatches {
  import opened Wrappers
  import opened ToolCalls
  import opened ToolRoundTrip
  import opened ToolValues
  import ToolTranscript

  // ---- One match ------------------------------------------------------------------------------------------

  /** The pattern stands here. */
  predicate StandsAt(pat: string, text: string, i: int) {
    0 <= i <= |text| && pat <= text[i..]
  }

  /** A tag's name up to the first `>`, a newline a call may have after it, and a body up to the
      first close. */
  ghost predicate IsMatch(g: Tag, text: string, m: Match) {
    && m.block.name != "" && '>' !in m.block.name && FirstClose(g, m)
    && exists tail :: text == g.open + m.block.name + ">" + tail && BodyIn(g, tail, m)
  }

  /** No close stands within the body. */
  predicate FirstClose(g: Tag, m: Match) {
    forall i | 0 <= i < |m.block.body| :: !StandsAt(g.close, m.block.body + g.close + m.rest, i)
  }

  predicate BodyIn(g: Tag, tail: string, m: Match) {
    tail == (if g.newline && "\n" <= tail then "\n" else "") + (m.block.body + g.close + m.rest)
  }

  lemma FirstPlace(pat: string, text: string, i: nat)
    requires StandsAt(pat, text, i) && forall j | 0 <= j < i :: !StandsAt(pat, text, j)
    ensures Find(pat, text) == Some(i)
  {
    FindIsFirst(pat, text);
    if Find(pat, text).Some? {
      assert StandsAt(pat, text, Find(pat, text).value);
    }
  }

  /** A match is found exactly where one stands. */
  lemma MatchExactly(g: Tag, text: string, m: Match)
    ensures MatchHere(g, text) == Some(m) <==> IsMatch(g, text, m)
  {
    if MatchHere(g, text) == Some(m) {
      FoundIsMatch(g, text, m);
    }
    if IsMatch(g, text, m) {
      MatchIsFound(g, text, m);
    }
  }

  lemma NameIsCut(g: Tag, inner: string) returns (name: string, tail: string)
    requires MatchName(g, inner).Some?
    ensures inner == name + ">" + tail && name != "" && '>' !in name
    ensures MatchName(g, inner) == MatchBody(g, name, SkipNewline(g, tail))
  {
    name, tail := NameCut(g, inner);
    NameHasNoGt(inner);
    assert inner[..|name|] == name;
  }

  lemma NameHasNoGt(inner: string)
    requires Find(">", inner).Some?
    ensures Find(">", inner).value < |inner| && '>' !in inner[..Find(">", inner).value]
  {
    FindIsFirst(">", inner);
    var n := Find(">", inner).value;
    forall i | 0 <= i < n ensures inner[i] != '>' {
      assert !(">" <= inner[i..]);
    }
  }

  lemma NameIsMatched(g: Tag, name: string, tail: string)
    requires name != "" && '>' !in name
    ensures MatchName(g, name + ">" + tail) == MatchBody(g, name, SkipNewline(g, tail))
  {
    CharAbsent(">", 0, name);
    FoundAfter(">", name, tail);
    Cut(name, ">", tail);
  }

  lemma BodyExactly(g: Tag, name: string, u: string, m: Match)
    ensures MatchBody(g, name, u) == Some(m)
            <==> m.block.name == name && u == m.block.body + g.close + m.rest && FirstClose(g, m)
  {
    if m.block.name == name && u == m.block.body + g.close + m.rest && FirstClose(g, m) {
      CloseIsFirst(g, m);
      Cut(m.block.body, g.close, m.rest);
    } else if MatchBody(g, name, u) == Some(m) {
      BodyShape(g, name, u, m);
      FindIsFirst(g.close, u);
    }
  }

  lemma CloseIsFirst(g: Tag, m: Match)
    requires FirstClose(g, m)
    ensures Find(g.close, m.block.body + g.close + m.rest) == Some(|m.block.body|)
  {
    var u, n := m.block.body + g.close + m.rest, |m.block.body|;
    assert u[n..] == g.close + m.rest && StandsAt(g.close, u, n);
    FirstPlace(g.close, u, n);
  }

  lemma GapExactly(g: Tag, tail: string, m: Match)
    ensures BodyIn(g, tail, m) <==> SkipNewline(g, tail) == m.block.body + g.close + m.rest
  {
    var u := m.block.body + g.close + m.rest;
    if g.newline && "\n" <= tail {
      assert tail == "\n" + tail[1..] && SkipNewline(g, tail) == tail[1..];
    } else {
      assert "" + u == u;
    }
  }

  lemma FoundIsMatch(g: Tag, text: string, m: Match)
    requires MatchHere(g, text) == Some(m)
    ensures IsMatch(g, text, m)
  {
    var inner := text[|g.open|..];
    var name, tail := NameIsCut(g, inner);
    BodyExactly(g, name, SkipNewline(g, tail), m);
    GapExactly(g, tail, m);
    MatchJoins(g.open, inner, name, tail, text);
  }

  lemma MatchJoins(open: string, inner: string, name: string, tail: string, text: string)
    requires open <= text && inner == text[|open|..] && inner == name + ">" + tail
    ensures text == open + name + ">" + tail
  {
    assert text == open + inner;
  }

  lemma MatchIsFound(g: Tag, text: string, m: Match)
    requires IsMatch(g, text, m)
    ensures MatchHere(g, text) == Some(m)
  {
    var tail :| text == g.open + m.block.name + ">" + tail && BodyIn(g, tail, m);
    GapExactly(g, tail, m);
    BodyExactly(g, m.block.name, SkipNewline(g, tail), m);
    NameIsMatched(g, m.block.name, tail);
    OpensText(g.open, m.block.name, tail);
  }

  lemma OpensText(open: string, name: string, tail: string)
    ensures var text := open + name + ">" + tail; open <= text && text[|open|..] == name + ">" + tail
  {
    assert open + name + ">" + tail == open + (name + ">" + tail);
  }

  // ---- A whole text -----------------------------------------------------------------------------------------

  /** No match stands anywhere in the text. */
  ghost predicate NoneStands(g: Tag, text: string) {
    forall i, m | 0 <= i <= |text| :: !IsMatch(g, text[i..], m)
  }

  /** The first match, and what stands before it. */
  ghost predicate FirstMatch(g: Tag, text: string, i: nat, m: Match) {
    && i <= |text| && IsMatch(g, text[i..], m)
    && forall j, k | 0 <= j < i :: !IsMatch(g, text[j..], k)
  }

  lemma EmptyHasNoMatch(g: Tag, m: Match)
    ensures !IsMatch(g, "", m)
  {
    assert MatchName(g, "").None? && MatchHere(g, "").None?;
    MatchExactly(g, "", m);
  }

  /** The scan takes the first match, leaves what stands before it outside, and goes on behind it. */
  ghost predicate Scanned(g: Tag, text: string) {
    || (NoneStands(g, text) && Blocks(g, text) == [] && Outside(g, text) == text)
    || exists i: nat, m :: ScannedAt(g, text, i, m)
  }

  ghost predicate ScannedAt(g: Tag, text: string, i: nat, m: Match) {
    && FirstMatch(g, text, i, m) && |m.rest| < |text|
    && Blocks(g, text) == [m.block] + Blocks(g, m.rest) && Outside(g, text) == text[..i] + Outside(g, m.rest)
  }

  lemma {:induction false} ScanExactly(g: Tag, text: string)
    ensures Scanned(g, text)
    decreases |text|
  {
    if text == "" {
      forall i, m | 0 <= i <= |text| ensures !IsMatch(g, text[i..], m) {
        EmptyHasNoMatch(g, m);
        assert text[i..] == "";
      }
    } else {
      match MatchHere(g, text)
      case Some(m) =>
        MatchExactly(g, text, m);
        Stepped(g, text, m);
        assert text[0..] == text && text[..0] == "";
        assert text[..0] + Outside(g, m.rest) == Outside(g, m.rest);
        assert ScannedAt(g, text, 0, m);
      case None =>
        ScanExactly(g, text[1..]);
        NoneHere(g, text);
    }
  }

  lemma NoneHere(g: Tag, text: string)
    requires text != "" && MatchHere(g, text).None? && Scanned(g, text[1..])
    ensures Scanned(g, text)
  {
    forall m ensures !IsMatch(g, text[0..], m) {
      MatchExactly(g, text, m);
      assert text[0..] == text;
    }
    if i: nat, m :| ScannedAt(g, text[1..], i, m) {
      MatchLater(g, text, i, m);
    } else {
      forall j, m | 0 <= j <= |text| ensures !IsMatch(g, text[j..], m) {
        assert j > 0 ==> text[j..] == text[1..][j - 1..];
      }
      assert [text[0]] + text[1..] == text;
    }
  }

  lemma MatchLater(g: Tag, text: string, i: nat, m: Match)
    requires text != "" && MatchHere(g, text).None? && ScannedAt(g, text[1..], i, m)
    requires forall k :: !IsMatch(g, text[0..], k)
    ensures ScannedAt(g, text, i + 1, m)
  {
    forall j, k | 0 <= j < i + 1 ensures !IsMatch(g, text[j..], k) {
      assert j > 0 ==> text[j..] == text[1..][j - 1..];
    }
    assert text[i + 1..] == text[1..][i..];
    assert text[..i + 1] == [text[0]] + text[1..][..i];
    HeadIsOutside(g, text);
    OutsideRegroup(text[0], text[1..][..i], Outside(g, m.rest));
  }

  lemma HeadIsOutside(g: Tag, text: string)
    requires text != "" && MatchHere(g, text).None?
    ensures Outside(g, text) == [text[0]] + Outside(g, text[1..]) && Blocks(g, text) == Blocks(g, text[1..])
  {
  }

  lemma OutsideRegroup(ch: char, a: string, b: string)
    ensures [ch] + (a + b) == [ch] + a + b
  {
  }

  // ---- A whole reply ----------------------------------------------------------------------------------------

  /** The characters that count as blank. */
  const SPACES := "\t\n\U{b}\U{c}\r\U{1c}\U{1d}\U{1e}\U{1f} \U{85}\U{a0}\U{1680}\U{2000}\U{2001}\U{2002}\U{2003}"
               + "\U{2004}\U{2005}\U{2006}\U{2007}\U{2008}\U{2009}\U{200a}\U{2028}\U{2029}\U{202f}\U{205f}\U{3000}"

  lemma SpacesAre(ch: char)
    ensures IsSpace(ch) <==> ch in SPACES
  {
  }

  /** What is left between blanks. */
  lemma TrimExactly(s: string)
    ensures exists a, b :: s == a + Trim(s) + b && Blank(a) && Blank(b) && Trimmed(Trim(s))
  {
    var a := LeftBlank(s);
    var b := RightBlank(TrimLeft(s));
    assert s == a + Trim(s) + b;
    TrimIsPart(TrimLeft(s));
  }

  lemma {:induction false} LeftBlank(s: string) returns (a: string)
    ensures s == a + TrimLeft(s) && Blank(a) && (TrimLeft(s) != "" ==> !IsSpace(TrimLeft(s)[0]))
  {
    a := "";
    if s != "" && IsSpace(s[0]) {
      a := LeftBlank(s[1..]);
      a := [s[0]] + a;
    }
  }

  lemma {:induction false} RightBlank(s: string) returns (b: string)
    ensures s == TrimRight(s) + b && Blank(b) && (TrimRight(s) != "" ==> !IsSpace(TrimRight(s)[|TrimRight(s)| - 1]))
    ensures TrimRight(s) <= s
    decreases |s|
  {
    b := "";
    if s != "" && IsSpace(s[|s| - 1]) {
      b := RightBlank(s[..|s| - 1]);
      b := b + [s[|s| - 1]];
    }
  }

  /** The last block of a name. */
  ghost predicate LastOf(blocks: seq<Block>, i: nat, name: string) {
    i < |blocks| && Trim(blocks[i].name) == name && forall j | i < j < |blocks| :: Trim(blocks[j].name) != name
  }

  ghost predicate AnyOf(blocks: seq<Block>, name: string) {
    exists i: nat :: LastOf(blocks, i, name)
  }

  /** JSON where it is JSON, else the text itself. */
  predicate Decoded(c: Codec, text: string, v: Value) {
    match c.loads(text)
    case Some(w) => v == w
    case None => v == Text(text)
  }

  lemma {:induction false} GatherExactly(c: Codec, blocks: seq<Block>, m: map<string, Value>, name: string)
    ensures var got := Gather(c, blocks, m);
            if AnyOf(blocks, name)
            then name in got && forall i: nat | LastOf(blocks, i, name) :: Decoded(c, Trim(blocks[i].body), got[name])
            else (name in got <==> name in m) && (name in m ==> got[name] == m[name])
    decreases |blocks|
  {
    if blocks != [] {
      var next := m[Trim(blocks[0].name) := Coerce(c, Trim(blocks[0].body))];
      GatherExactly(c, blocks[1..], next, name);
      if AnyOf(blocks[1..], name) {
        var i: nat :| LastOf(blocks[1..], i, name);
        LastLater(blocks, i + 1, name);
      } else {
        NoLast(blocks[1..], name);
        FirstOnly(blocks, name);
      }
      forall i: nat | 0 < i < |blocks| ensures LastOf(blocks, i, name) <==> LastOf(blocks[1..], i - 1, name) {
        LastLater(blocks, i, name);
      }
      forall i: nat | LastOf(blocks, i, name)
        ensures name in Gather(c, blocks, m) && Decoded(c, Trim(blocks[i].body), Gather(c, blocks, m)[name])
      {
        if i > 0 {
          LastLater(blocks, i, name);
          assert blocks[i] == blocks[1..][i - 1];
        }
      }
    }
  }

  lemma FirstOnly(blocks: seq<Block>, name: string)
    requires blocks != [] && forall j | 0 <= j < |blocks[1..]| :: Trim(blocks[1..][j].name) != name
    ensures LastOf(blocks, 0, name) <==> Trim(blocks[0].name) == name
    ensures forall i: nat :: 0 < i ==> !LastOf(blocks, i, name)
  {
    assert forall j | 0 < j < |blocks| :: blocks[j] == blocks[1..][j - 1];
  }

  lemma LastLater(blocks: seq<Block>, i: nat, name: string)
    requires 0 < i < |blocks|
    ensures LastOf(blocks, i, name) <==> LastOf(blocks[1..], i - 1, name)
    ensures LastOf(blocks, i, name) ==> !LastOf(blocks, 0, name)
  {
    assert forall j | 0 < j < |blocks| :: blocks[j] == blocks[1..][j - 1];
    assert forall j | 0 <= j < |blocks| - 1 :: blocks[1..][j] == blocks[j + 1];
  }

  lemma {:induction false} NoLast(blocks: seq<Block>, name: string)
    requires forall i: nat :: !LastOf(blocks, i, name)
    ensures forall j | 0 <= j < |blocks| :: Trim(blocks[j].name) != name
    decreases |blocks|
  {
    if blocks != [] {
      var n := |blocks| - 1;
      var front := blocks[..n];
      assert !LastOf(blocks, n, name);
      forall i: nat ensures !LastOf(front, i, name) {
        if LastOf(front, i, name) {
          assert LastOf(blocks, i, name);
        }
      }
      NoLast(front, name);
      assert forall j | 0 <= j < n :: blocks[j] == front[j];
    }
  }

  /** A reply with text: its calls are the blocks found, in order, each under its trimmed name with
      the last value given for each parameter; its prose is what is left outside them, trimmed, or
      none. A missing or empty reply comes back as it is. */
  lemma ReplyExactly(c: Codec, reply: string, i: nat)
    requires reply != "" && i < |Blocks(FUNCTION, reply)|
    ensures var blocks, calls := Blocks(FUNCTION, reply), Parse(c, Some(reply)).1;
            && |calls| == |blocks| && calls[i].name == Trim(blocks[i].name)
            && (exists d :: calls[i].id == "call_" + d && ToolTranscript.Digits(d) && ToolTranscript.Number(d) == i)
            && forall name ::
                 var params := Blocks(PARAMETER, blocks[i].body);
                 if AnyOf(params, name)
                 then name in calls[i].arguments
                      && forall k: nat | LastOf(params, k, name) ::
                           Decoded(c, Trim(params[k].body), calls[i].arguments[name])
                 else name !in calls[i].arguments
  {
    var blocks := Blocks(FUNCTION, reply);
    ReadCallsAt(c, 0, blocks, i);
    ToolTranscript.DecimalIs(i);
    forall name {
      GatherExactly(c, Blocks(PARAMETER, blocks[i].body), map[], name);
    }
  }

  lemma ProseExactly(c: Codec, reply: Option<string>)
    ensures reply == None || reply == Some("") ==> Parse(c, reply) == (reply, [])
    ensures reply.Some? && reply.value != "" ==>
              var left := Trim(Outside(FUNCTION, reply.value));
              Parse(c, reply).0 == if left == "" then None else Some(left)
  {
  }

  // ---- The stop word put back ----------------------------------------------------------------------------------

  lemma OccursIsPart(pat: string, text: string)
    ensures Occurs(pat, text) <==> Part(pat, text)
  {
    if Occurs(pat, text) {
      FoundIsPart(pat, text);
    }
    if a, b :| text == a + pat + b {
      FoundInside(pat, a, b);
    }
  }

  lemma FoundIsPart(pat: string, text: string)
    requires Occurs(pat, text)
    ensures Part(pat, text)
  {
    FindIsFirst(pat, text);
    var i := Find(pat, text).value;
    PartAt(text, text[..i], pat, text[i + |pat|..]);
  }

  lemma PartAt(text: string, a: string, pat: string, b: string)
    requires |text| == |a| + |pat| + |b| && text[..|a|] == a && text[|a|..|a| + |pat|] == pat
    requires text[|a| + |pat|..] == b
    ensures Part(pat, text)
  {
    assert text == a + pat + b;
  }

  /** The close tag is put back exactly on a reply that opens a call and closes none. */
  lemma RepairedExactly(reply: Option<string>)
    ensures Repaired(reply)
            == if reply.Some? && Part("<function=", reply.value) && !Part("</function>", reply.value)
               then Some(reply.value + "</function>") else reply
  {
    if reply.Some? {
      OccursIsPart(FN_OPEN, reply.value);
      OccursIsPart(FN_CLOSE, reply.value);
      if reply.value == "" {
        PartIsNothing();
      }
    }
  }

  lemma PartIsNothing()
    ensures !Part("<function=", "")
  {
  }
}
