/** Tool calls written into a prompt as text, and read back out of a reply. */
module ToolCalls {
  import opened Wrappers

  /** A JSON value other than a string. */
  type Data(==, !new)

  datatype Value = Text(text: string) | Json(data: Data)

  datatype Arg = Arg(name: string, value: Value)

  /** A call as the transcript holds it: its arguments are a JSON text. */
  datatype NativeCall = NativeCall(id: string, name: string, arguments: string)

  datatype ToolCall = ToolCall(id: string, name: string, arguments: map<string, Value>)

  /** The JSON library: values, and objects as their items in order. */
  datatype Codec = Codec(
    loads: string -> Option<Value>,
    dumps: Data -> string,
    items: string -> Option<seq<Arg>>)

  ghost predicate Faithful(c: Codec) {
    forall d :: c.loads(c.dumps(d)) == Some(Json(d))
  }

  const FN_OPEN := "<function="
  const FN_CLOSE := "</function>"
  const PARAM_OPEN := "<parameter="
  const PARAM_CLOSE := "</parameter>"

  // ---- Searching ----------------------------------------------------------------------------------

  function Find(pat: string, text: string): Option<nat> {
    if pat <= text then Some(0)
    else if text == "" then None
    else match Find(pat, text[1..])
      case Some(i) => Some(i + 1)
      case None => None
  }

  predicate Occurs(pat: string, text: string) {
    Find(pat, text).Some?
  }

  lemma {:induction false} FindIsFirst(pat: string, text: string)
    ensures match Find(pat, text)
            case Some(i) => i + |pat| <= |text| && text[i..i + |pat|] == pat
                            && forall j | 0 <= j < i :: !(pat <= text[j..])
            case None => forall j | 0 <= j <= |text| :: !(pat <= text[j..])
  {
    if pat <= text {
      assert text[0..|pat|] == pat;
    } else if text != "" {
      FindIsFirst(pat, text[1..]);
      forall j | 1 <= j <= |text| ensures text[j..] == text[1..][j - 1..] {
      }
      if Find(pat, text[1..]).Some? {
        var i := Find(pat, text[1..]).value;
        assert text[i + 1..i + 1 + |pat|] == text[1..][i..i + |pat|];
        forall j | 0 <= j < i + 1 ensures !(pat <= text[j..]) {
          if j > 0 {
            assert text[j..] == text[1..][j - 1..];
          } else {
            assert text[0..] == text;
          }
        }
      } else {
        forall j | 0 <= j <= |text| ensures !(pat <= text[j..]) {
          if j > 0 {
            assert text[j..] == text[1..][j - 1..];
          } else {
            assert text[0..] == text;
          }
        }
      }
    }
  }

  /** The pattern cannot straddle the place where two texts meet. */
  predicate Seam(pat: string, a: string, b: string) {
    a != "" && b != "" ==> forall k | 0 < k < |pat| :: pat[k - 1] == a[|a| - 1] ==> pat[k] != b[0]
  }

  lemma {:induction false} NoneAcross(pat: string, a: string, b: string)
    requires pat != "" && !Occurs(pat, a) && !Occurs(pat, b) && Seam(pat, a, b)
    ensures !Occurs(pat, a + b)
  {
    if a == "" {
      assert a + b == b;
    } else {
      assert (a + b)[1..] == a[1..] + b;
      if pat <= a + b {
        StraddlesOrNot(pat, a, b);
      }
      NoneAcross(pat, a[1..], b);
    }
  }

  lemma StraddlesOrNot(pat: string, a: string, b: string)
    requires a != "" && pat <= a + b
    ensures pat <= a || !Seam(pat, a, b)
  {
    var k := |a|;
    if |pat| <= k {
      assert pat == (a + b)[..|pat|] == a[..|pat|];
    } else {
      assert pat[k - 1] == (a + b)[k - 1] && pat[k] == (a + b)[k] == b[0];
    }
  }

  /** A close tag is found at the end of a text that does not contain it. */
  lemma {:induction false} FoundAfter(pat: string, a: string, rest: string)
    requires pat != "" && !Occurs(pat, a) && Seam(pat, a, pat)
    ensures Find(pat, a + pat + rest) == Some(|a|)
  {
    if a == "" {
      assert pat <= a + pat + rest;
    } else {
      assert (a + pat + rest)[1..] == a[1..] + pat + rest;
      assert a + (pat + rest) == a + pat + rest;
      assert Seam(pat, a, pat + rest);
      if pat <= a + (pat + rest) {
        StraddlesOrNot(pat, a, pat + rest);
      }
      FoundAfter(pat, a[1..], rest);
    }
  }

  lemma {:induction false} FoundInside(pat: string, a: string, rest: string)
    ensures Occurs(pat, a + pat + rest)
  {
    if a == "" {
      assert pat <= a + pat + rest;
    } else {
      assert (a + pat + rest)[1..] == a[1..] + pat + rest;
      FoundInside(pat, a[1..], rest);
    }
  }

  /** A pattern with a character the text lacks does not occur in it. */
  lemma {:induction false} CharAbsent(pat: string, k: nat, text: string)
    requires k < |pat| && pat[k] !in text
    ensures !Occurs(pat, text)
  {
    if text != "" {
      assert k < |text| ==> text[k] in text;
      CharAbsent(pat, k, text[1..]);
    }
  }

  // ---- The two expressions --------------------------------------------------------------------------

  /** `open([^>]+)>(.*?)close`, with an optional newline after the name. */
  datatype Tag = Tag(open: string, close: string, newline: bool)

  const FUNCTION := Tag(FN_OPEN, FN_CLOSE, true)
  const PARAMETER := Tag(PARAM_OPEN, PARAM_CLOSE, false)

  datatype Block = Block(name: string, body: string)

  datatype Match = Match(block: Block, rest: string)

  /** The match starting here, if any. */
  function MatchHere(g: Tag, text: string): (r: Option<Match>)
    ensures r.Some? ==> |r.value.rest| < |text|
  {
    if g.open <= text then MatchName(g, text[|g.open|..]) else None
  }

  /** The name runs to the first `>`. */
  function MatchName(g: Tag, text: string): (r: Option<Match>)
    ensures r.Some? ==> |r.value.rest| < |text|
  {
    match Find(">", text)
    case None => None
    case Some(n) =>
      FindIsFirst(">", text);
      if n == 0 then None else MatchBody(g, text[..n], SkipNewline(g, text[n + 1..]))
  }

  function SkipNewline(g: Tag, text: string): string {
    if g.newline && text != "" && text[0] == '\n' then text[1..] else text
  }

  /** The body runs to the first close. */
  function MatchBody(g: Tag, name: string, text: string): (r: Option<Match>)
    ensures r.Some? ==> |r.value.rest| <= |text|
  {
    match Find(g.close, text)
    case None => None
    case Some(c) =>
      FindIsFirst(g.close, text);
      Some(Match(Block(name, text[..c]), text[c + |g.close|..]))
  }

  /** Every match from left to right, and the text outside them. */
  function Outside(g: Tag, text: string): string
    decreases |text|
  {
    if text == "" then "" else
    match MatchHere(g, text)
    case Some(m) => Outside(g, m.rest)
    case None => [text[0]] + Outside(g, text[1..])
  }

  function Blocks(g: Tag, text: string): seq<Block>
    decreases |text|
  {
    if text == "" then [] else
    match MatchHere(g, text)
    case Some(m) => [m.block] + Blocks(g, m.rest)
    case None => Blocks(g, text[1..])
  }

  // ---- Reading --------------------------------------------------------------------------------------

  /** What `str.strip` removes. */
  predicate IsSpace(c: char) {
    || c == ' ' || ('\t' <= c <= '\r') || ('\U{1c}' <= c <= '\U{1f}') || c == '\U{85}' || c == '\U{a0}'
    || c == '\U{1680}' || ('\U{2000}' <= c <= '\U{200a}') || c == '\U{2028}' || c == '\U{2029}'
    || c == '\U{202f}' || c == '\U{205f}' || c == '\U{3000}'
  }

  function TrimLeft(s: string): string {
    if s != "" && IsSpace(s[0]) then TrimLeft(s[1..]) else s
  }

  function TrimRight(s: string): string {
    if s != "" && IsSpace(s[|s| - 1]) then TrimRight(s[..|s| - 1]) else s
  }

  function Trim(s: string): string {
    TrimRight(TrimLeft(s))
  }

  function Coerce(c: Codec, text: string): Value {
    match c.loads(text)
    case Some(v) => v
    case None => Text(text)
  }

  /** A later parameter of the same name replaces an earlier one. */
  function Gather(c: Codec, blocks: seq<Block>, arguments: map<string, Value>): map<string, Value> {
    if blocks == [] then arguments
    else Gather(c, blocks[1..], arguments[Trim(blocks[0].name) := Coerce(c, Trim(blocks[0].body))])
  }

  function Decimal(n: nat): string {
    if n < 10 then [('0' as int + n) as char] else Decimal(n / 10) + [('0' as int + n % 10) as char]
  }

  function CallId(index: nat): string {
    "call_" + Decimal(index)
  }

  function ReadCall(c: Codec, index: nat, b: Block): ToolCall {
    ToolCall(CallId(index), Trim(b.name), Gather(c, Blocks(PARAMETER, b.body), map[]))
  }

  function ReadCalls(c: Codec, from: nat, blocks: seq<Block>): seq<ToolCall>
    decreases |blocks|
  {
    if blocks == [] then [] else [ReadCall(c, from, blocks[0])] + ReadCalls(c, from + 1, blocks[1..])
  }

  function Parse(c: Codec, text: Option<string>): (Option<string>, seq<ToolCall>) {
    if text == None || text == Some("") then (text, []) else
    var prose := Trim(Outside(FUNCTION, text.value));
    (if prose == "" then None else Some(prose), ReadCalls(c, 0, Blocks(FUNCTION, text.value)))
  }

  /** One argument per parameter block. */
  method ReadArguments(c: Codec, body: string) returns (arguments: map<string, Value>)
    ensures arguments == Gather(c, Blocks(PARAMETER, body), map[])
  {
    arguments := map[];
    var todo := body;
    while todo != ""
      invariant Gather(c, Blocks(PARAMETER, todo), arguments) == Gather(c, Blocks(PARAMETER, body), map[])
      decreases |todo|
    {
      match MatchHere(PARAMETER, todo)
      case Some(m) =>
        assert Blocks(PARAMETER, todo)[1..] == Blocks(PARAMETER, m.rest);
        arguments := arguments[Trim(m.block.name) := Coerce(c, Trim(m.block.body))];
        todo := m.rest;
      case None =>
        todo := todo[1..];
    }
  }

  method ParseCalls(c: Codec, text: Option<string>) returns (prose: Option<string>, calls: seq<ToolCall>)
    ensures (prose, calls) == Parse(c, text)
  {
    if text == None || text == Some("") {
      return text, [];
    }
    var outside: string;
    outside, calls := ScanCalls(c, text.value);
    var stripped := Trim(outside);
    prose := if stripped == "" then None else Some(stripped);
  }

  /** One pass over the text: the calls in order, and the text with their blocks removed. */
  method ScanCalls(c: Codec, text: string) returns (outside: string, calls: seq<ToolCall>)
    ensures outside == Outside(FUNCTION, text) && calls == ReadCalls(c, 0, Blocks(FUNCTION, text))
  {
    outside, calls := "", [];
    var todo := text;
    while todo != ""
      invariant outside + Outside(FUNCTION, todo) == Outside(FUNCTION, text)
      invariant calls + ReadCalls(c, |calls|, Blocks(FUNCTION, todo)) == ReadCalls(c, 0, Blocks(FUNCTION, text))
      decreases |todo|
    {
      match MatchHere(FUNCTION, todo)
      case Some(m) =>
        var arguments := ReadArguments(c, m.block.body);
        ghost var later := ReadCalls(c, |calls| + 1, Blocks(FUNCTION, m.rest));
        var call := ToolCall(CallId(|calls|), Trim(m.block.name), arguments);
        assert Blocks(FUNCTION, todo)[1..] == Blocks(FUNCTION, m.rest);
        assert ReadCalls(c, |calls|, Blocks(FUNCTION, todo)) == [call] + later;
        assert calls + ([call] + later) == (calls + [call]) + later;
        calls := calls + [call];
        todo := m.rest;
      case None =>
        ghost var later := Outside(FUNCTION, todo[1..]);
        assert outside + ([todo[0]] + later) == (outside + [todo[0]]) + later;
        outside := outside + [todo[0]];
        todo := todo[1..];
    }
  }
}
