/** The snapshot's payload as JSON inside a script element. */
module SnapshotJson {
  import opened Wrappers

  /** A payload value; a finite number by its JSON text. */
  datatype Value =
    | Null
    | Bool(b: bool)
    | Num(text: string)
    | NonFinite                          // NaN or an infinity
    | Str(s: string)
    | Arr(items: seq<Value>)
    | Obj(members: seq<Member>)

  datatype Member = Member(key: string, value: Value)

  // ---- Numbers ------------------------------------------------------------------------------------

  predicate IsDigit(c: char) {
    '0' <= c <= '9'
  }

  predicate Digits(s: string) {
    s != "" && forall c | c in s :: IsDigit(c)
  }

  /** Where a character first appears, or the length. */
  function UpTo(s: string, stops: string): (i: nat)
    ensures i <= |s|
  {
    if s == "" || s[0] in stops then 0 else 1 + UpTo(s[1..], stops)
  }

  /** Section 6 of RFC 8259. */
  predicate IsNumber(text: string) {
    var t := if text != "" && text[0] == '-' then text[1..] else text;
    var e := UpTo(t, "eE");
    var mantissa := t[..e];
    var dot := UpTo(mantissa, ".");
    var whole := mantissa[..dot];
    && Digits(whole) && (whole[0] != '0' || |whole| == 1)
    && (dot < |mantissa| ==> Digits(mantissa[dot + 1..]))
    && (e < |t| ==> IsExponent(t[e + 1..]))
  }

  predicate IsExponent(t: string) {
    Digits(if t != "" && (t[0] == '+' || t[0] == '-') then t[1..] else t)
  }

  predicate NumberChar(c: char) {
    IsDigit(c) || c == '-' || c == '+' || c == '.' || c == 'e' || c == 'E'
  }

  // ---- Writing --------------------------------------------------------------------------------------

  /** `_finite`. */
  function Finite(v: Value): Value {
    match v
    case NonFinite => Null
    case Arr(items) => Arr(FiniteItems(items))
    case Obj(members) => Obj(FiniteMembers(members))
    case _ => v
  }

  function FiniteItems(items: seq<Value>): seq<Value> {
    if items == [] then [] else [Finite(items[0])] + FiniteItems(items[1..])
  }

  function FiniteMembers(members: seq<Member>): seq<Member> {
    if members == [] then []
    else [Member(members[0].key, Finite(members[0].value))] + FiniteMembers(members[1..])
  }

  function HexDigit(n: nat): char
    requires n < 16
  {
    if n < 10 then '0' + n as char else 'a' + (n - 10) as char
  }

  /** How a string's character is written, other letters than ASCII staying as they are. */
  function EscapeChar(c: char): (r: string)
    ensures r != ""
  {
    if c == '"' then "\\\""
    else if c == '\\' then "\\\\"
    else if c == '\n' then "\\n"
    else if c == '\r' then "\\r"
    else if c == '\t' then "\\t"
    else if c == '\U{8}' then "\\b"
    else if c == '\U{c}' then "\\f"
    else if c < ' ' then "\\u00" + [HexDigit(c as int / 16), HexDigit(c as int % 16)]
    else [c]
  }

  function Escaped(s: string): string {
    if s == "" then "" else EscapeChar(s[0]) + Escaped(s[1..])
  }

  /** `json.dumps` without ASCII escaping; a number JSON does not have is refused. */
  function Dumps(v: Value): Option<string> {
    match v
    case Null => Some("null")
    case Bool(b) => Some(if b then "true" else "false")
    case Num(text) => Some(text)
    case NonFinite => None
    case Str(s) => Some("\"" + Escaped(s) + "\"")
    case Arr(items) => if items == [] then Some("[]") else Wrap("[", DumpItems(items), "]")
    case Obj(members) => if members == [] then Some("{}") else Wrap("{", DumpMembers(members), "}")
  }

  function Wrap(open: string, inner: Option<string>, close: string): Option<string> {
    match inner
    case Some(text) => Some(open + text + close)
    case None => None
  }

  function Both(a: Option<string>, gap: string, b: Option<string>): Option<string> {
    if a.Some? && b.Some? then Some(a.value + gap + b.value) else None
  }

  function DumpItems(items: seq<Value>): Option<string>
    requires items != []
  {
    if |items| == 1 then Dumps(items[0]) else Both(Dumps(items[0]), ", ", DumpItems(items[1..]))
  }

  function DumpMember(m: Member): Option<string> {
    Wrap("\"" + Escaped(m.key) + "\"" + ": ", Dumps(m.value), "")
  }

  function DumpMembers(members: seq<Member>): Option<string>
    requires members != []
  {
    if |members| == 1 then DumpMember(members[0])
    else Both(DumpMember(members[0]), ", ", DumpMembers(members[1..]))
  }

  /** The characters a script element must not hold raw. */
  predicate Unsafe(c: char) {
    c == '<' || c == '>' || c == '&' || c == '\U{2028}' || c == '\U{2029}'
  }

  /** `_SCRIPT_ESCAPES`. */
  function ScriptChar(c: char): (r: string)
    ensures r != ""
  {
    if c == '<' then "\\u003c"
    else if c == '>' then "\\u003e"
    else if c == '&' then "\\u0026"
    else if c == '\U{2028}' then "\\u2028"
    else if c == '\U{2029}' then "\\u2029"
    else [c]
  }

  function Translate(s: string): string {
    if s == "" then "" else ScriptChar(s[0]) + Translate(s[1..])
  }

  /** The data a snapshot page carries. */
  function Render(payload: Value): Option<string> {
    match Dumps(Finite(payload))
    case Some(text) => Some(Translate(text))
    case None => None
  }

  // ---- Reading ----------------------------------------------------------------------------------------

  /** Section 2 of RFC 8259. */
  function SkipSpace(s: string): (r: string)
    ensures |r| <= |s|
  {
    if s != "" && (s[0] == ' ' || s[0] == '\t' || s[0] == '\n' || s[0] == '\r') then SkipSpace(s[1..]) else s
  }

  function HexValue(c: char): Option<nat> {
    if '0' <= c <= '9' then Some((c - '0') as nat)
    else if 'a' <= c <= 'f' then Some(10 + (c - 'a') as nat)
    else if 'A' <= c <= 'F' then Some(10 + (c - 'A') as nat)
    else None
  }

  function Hex4(s: string): Option<nat>
    requires |s| == 4
  {
    match (HexValue(s[0]), HexValue(s[1]), HexValue(s[2]), HexValue(s[3]))
    case (Some(a), Some(b), Some(c), Some(d)) => Some(a * 4096 + b * 256 + c * 16 + d)
    case _ => None
  }

  function Unescape(c: char): Option<char> {
    match c
    case '"' => Some('"')
    case '\\' => Some('\\')
    case '/' => Some('/')
    case 'b' => Some('\U{8}')
    case 'f' => Some('\U{c}')
    case 'n' => Some('\n')
    case 'r' => Some('\r')
    case 't' => Some('\t')
    case _ => None
  }

  /** The first character of a string's inside, and what follows it. Section 7 of RFC 8259. */
  function ParseChar(s: string): (r: Option<(char, string)>)
    requires s != "" && s[0] != '"'
    ensures r.Some? ==> |r.value.1| < |s|
  {
    if s[0] < ' ' then None
    else if s[0] != '\\' then Some((s[0], s[1..]))
    else if |s| < 2 then None
    else if s[1] != 'u' then
      match Unescape(s[1])
      case Some(c) => Some((c, s[2..]))
      case None => None
    else if |s| < 6 then None
    else
      match Hex4(s[2..6])
      case Some(n) => if n < 0xD800 || 0xE000 <= n < 0x10000 then Some((n as char, s[6..])) else None
      case None => None
  }

  /** A string's inside up to its closing quote. */
  function ParseChars(s: string): (r: Option<(string, string)>)
    ensures r.Some? ==> |r.value.1| < |s|
    decreases |s|
  {
    if s == "" then None
    else if s[0] == '"' then Some(("", s[1..]))
    else match ParseChar(s)
      case None => None
      case Some((c, rest)) =>
        match ParseChars(rest)
        case None => None
        case Some((cs, more)) => Some(([c] + cs, more))
  }

  function NumberRun(s: string): (n: nat)
    ensures n <= |s|
  {
    if s == "" || !NumberChar(s[0]) then 0 else 1 + NumberRun(s[1..])
  }

  function ParseNumber(s: string): (r: Option<(Value, string)>)
    ensures r.Some? ==> |r.value.1| < |s|
  {
    var n := NumberRun(s);
    if n > 0 && IsNumber(s[..n]) then Some((Num(s[..n]), s[n..])) else None
  }

  function ParseWord(s: string): (r: Option<(Value, string)>)
    ensures r.Some? ==> |r.value.1| < |s|
  {
    if "null" <= s then Some((Null, s[4..]))
    else if "true" <= s then Some((Bool(true), s[4..]))
    else if "false" <= s then Some((Bool(false), s[5..]))
    else ParseNumber(s)
  }

  function ParseValue(s: string): (r: Option<(Value, string)>)
    ensures r.Some? ==> |r.value.1| < |s|
    decreases |s|, 2
  {
    var t := SkipSpace(s);
    if t == "" then None else ParseHere(t)
  }

  function ParseHere(t: string): (r: Option<(Value, string)>)
    requires t != ""
    ensures r.Some? ==> |r.value.1| < |t|
    decreases |t|, 1
  {
    if t[0] == '"' then
      match ParseChars(t[1..])
      case Some((s, rest)) => Some((Str(s), rest))
      case None => None
    else if t[0] == '[' then
      var u := SkipSpace(t[1..]);
      if u != "" && u[0] == ']' then Some((Arr([]), u[1..]))
      else match ParseItems(t[1..])
        case Some((items, rest)) => Some((Arr(items), rest))
        case None => None
    else if t[0] == '{' then
      var u := SkipSpace(t[1..]);
      if u != "" && u[0] == '}' then Some((Obj([]), u[1..]))
      else match ParseMembers(t[1..])
        case Some((members, rest)) => Some((Obj(members), rest))
        case None => None
    else ParseWord(t)
  }

  function ParseItems(s: string): (r: Option<(seq<Value>, string)>)
    ensures r.Some? ==> |r.value.1| < |s|
    decreases |s|, 3
  {
    match ParseValue(s)
    case None => None
    case Some((item, rest)) =>
      var u := SkipSpace(rest);
      if u != "" && u[0] == ']' then Some(([item], u[1..]))
      else if u != "" && u[0] == ',' then
        match ParseItems(u[1..])
        case Some((items, more)) => Some(([item] + items, more))
        case None => None
      else None
  }

  /** A member's key and the text after its colon. */
  function ParseKey(s: string): (r: Option<(string, string)>)
    ensures r.Some? ==> |r.value.1| < |s|
  {
    var t := SkipSpace(s);
    if t == "" || t[0] != '"' then None
    else match ParseChars(t[1..])
      case None => None
      case Some((key, rest)) =>
        var u := SkipSpace(rest);
        if u != "" && u[0] == ':' then Some((key, u[1..])) else None
  }

  function ParseMembers(s: string): (r: Option<(seq<Member>, string)>)
    ensures r.Some? ==> |r.value.1| < |s|
    decreases |s|, 3
  {
    match ParseKey(s)
    case None => None
    case Some((key, text)) =>
      match ParseValue(text)
      case None => None
      case Some((value, rest)) =>
        var u := SkipSpace(rest);
        if u != "" && u[0] == '}' then Some(([Member(key, value)], u[1..]))
        else if u != "" && u[0] == ',' then
          match ParseMembers(u[1..])
          case Some((members, more)) => Some(([Member(key, value)] + members, more))
          case None => None
        else None
  }

  /** A whole JSON text. */
  function Decode(text: string): Option<Value> {
    match ParseValue(text)
    case Some((v, rest)) => if SkipSpace(rest) == "" then Some(v) else None
    case None => None
  }
}
