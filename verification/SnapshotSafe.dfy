/** The snapshot's data is safe inside a script element and decodes to the payload. */
module SnapshotSafe {
  import opened Wrappers
  import opened SnapshotJson

  // ---- Nothing unsafe is left ------------------------------------------------------------------------

  predicate Safe(s: string) {
    forall c | c in s :: !Unsafe(c)
  }

  lemma {:induction false} TranslateIsSafe(s: string)
    ensures Safe(Translate(s))
  {
    if s != "" {
      TranslateIsSafe(s[1..]);
      ScriptCharIsSafe(s[0]);
    }
  }

  lemma ScriptCharIsSafe(c: char)
    ensures Safe(ScriptChar(c))
  {
  }

  lemma Regroup(a: string, b: string, c: string)
    ensures a + b + c == a + (b + c)
  {
  }

  lemma {:induction false} TranslateConcat(a: string, b: string)
    ensures Translate(a + b) == Translate(a) + Translate(b)
  {
    if a == "" {
      assert a + b == b;
    } else {
      assert (a + b)[1..] == a[1..] + b;
      TranslateConcat(a[1..], b);
      Regroup(ScriptChar(a[0]), Translate(a[1..]), Translate(b));
    }
  }

  lemma {:induction false} TranslateSafe(s: string)
    requires Safe(s)
    ensures Translate(s) == s
  {
    if s != "" {
      assert s[0] in s && forall c | c in s[1..] :: c in s;
      TranslateSafe(s[1..]);
    }
  }

  /** Text between two safe pieces. */
  lemma TranslateWrap(open: string, text: string, close: string)
    requires Safe(open) && Safe(close)
    ensures Translate(open + text + close) == open + Translate(text) + close
  {
    TranslateConcat(open + text, close);
    TranslateConcat(open, text);
    TranslateSafe(open);
    TranslateSafe(close);
  }

  // ---- Strings --------------------------------------------------------------------------------------

  /** How a string's character stands in the page. */
  function PageChar(c: char): (r: string)
    ensures r != ""
  {
    Translate(EscapeChar(c))
  }

  lemma PageCharIs(c: char)
    ensures PageChar(c) == if Unsafe(c) then ScriptChar(c) else EscapeChar(c)
  {
    if Unsafe(c) {
      assert EscapeChar(c) == [c] && [c][1..] == "";
      assert ScriptChar(c) + "" == ScriptChar(c);
    } else {
      TranslateSafe(EscapeChar(c));
    }
  }

  lemma ScriptCharParsed(c: char, rest: string)
    requires Unsafe(c)
    ensures var t := ScriptChar(c) + rest; t[0] == '\\' && ParseChar(t) == Some((c, rest))
  {
  }

  lemma ControlCharParsed(c: char, rest: string)
    requires c < ' '
    ensures var t := "\\u00" + [HexDigit(c as int / 16), HexDigit(c as int % 16)] + rest;
            ParseChar(t) == Some((c, rest))
  {
  }

  lemma PlainCharParsed(c: char, rest: string)
    requires !Unsafe(c)
    ensures var t := EscapeChar(c) + rest; t[0] != '"' && ParseChar(t) == Some((c, rest))
  {
    var t := EscapeChar(c) + rest;
    if |EscapeChar(c)| == 6 {
      ControlCharParsed(c, rest);
    } else if |EscapeChar(c)| == 2 {
      assert t[2..] == rest;
    } else {
      assert t[1..] == rest;
    }
  }

  lemma CharParsed(c: char, rest: string)
    ensures var t := PageChar(c) + rest; t[0] != '"' && ParseChar(t) == Some((c, rest))
  {
    PageCharIs(c);
    if Unsafe(c) {
      ScriptCharParsed(c, rest);
    } else {
      PlainCharParsed(c, rest);
    }
  }

  /** A string's inside reads back whatever backslashes and escapes it holds. */
  lemma {:induction false} CharsParsed(s: string, rest: string)
    ensures ParseChars(Translate(Escaped(s)) + ("\"" + rest)) == Some((s, rest))
  {
    if s == "" {
      assert Translate(Escaped(s)) + ("\"" + rest) == "\"" + rest;
      assert ("\"" + rest)[1..] == rest;
    } else {
      var more := Translate(Escaped(s[1..])) + ("\"" + rest);
      EscapedText(s, "\"" + rest);
      CharParsed(s[0], more);
      CharsParsed(s[1..], rest);
      CharThenChars(PageChar(s[0]) + more, s[0], more);
      assert [s[0]] + s[1..] == s;
    }
  }

  lemma EscapedText(s: string, rest: string)
    requires s != ""
    ensures Translate(Escaped(s)) + rest == PageChar(s[0]) + (Translate(Escaped(s[1..])) + rest)
  {
    TranslateConcat(EscapeChar(s[0]), Escaped(s[1..]));
    Regroup(PageChar(s[0]), Translate(Escaped(s[1..])), rest);
  }

  lemma CharThenChars(t: string, c: char, more: string)
    requires t != "" && t[0] != '"' && ParseChar(t) == Some((c, more)) && ParseChars(more).Some?
    ensures ParseChars(t) == Some(([c] + ParseChars(more).value.0, ParseChars(more).value.1))
  {
  }

  // ---- Numbers ----------------------------------------------------------------------------------------

  predicate NumberChars(s: string) {
    forall c | c in s :: NumberChar(c)
  }

  lemma {:induction false} UpToStops(s: string, stops: string)
    ensures UpTo(s, stops) < |s| ==> s[UpTo(s, stops)] in stops
  {
    if s != "" && s[0] !in stops {
      UpToStops(s[1..], stops);
    }
  }

  /** Splitting at a stop character. */
  lemma SplitChars(s: string, stops: string)
    requires forall c | c in stops :: NumberChar(c)
    requires var i := UpTo(s, stops); NumberChars(s[..i]) && (i < |s| ==> NumberChars(s[i + 1..]))
    ensures NumberChars(s)
  {
  }

  lemma NumberHasNumberChars(text: string)
    requires IsNumber(text)
    ensures text != "" && NumberChars(text)
  {
    var t := if text != "" && text[0] == '-' then text[1..] else text;
    var e := UpTo(t, "eE");
    var mantissa := t[..e];
    SplitChars(mantissa, ".");
    if e < |t| {
      ExponentChars(t[e + 1..]);
    }
    SplitChars(t, "eE");
    assert text == t || text == ['-'] + t;
  }

  lemma ExponentChars(t: string)
    requires IsExponent(t)
    ensures NumberChars(t)
  {
  }

  /** The characters of a number do not run on. */
  predicate Ends(rest: string) {
    rest == "" || !NumberChar(rest[0])
  }

  lemma {:induction false} RunIsNumber(text: string, rest: string)
    requires NumberChars(text) && Ends(rest)
    ensures NumberRun(text + rest) == |text|
  {
    if text == "" {
      assert text + rest == rest;
    } else {
      assert (text + rest)[1..] == text[1..] + rest && text[0] in text;
      assert forall c | c in text[1..] :: c in text;
      RunIsNumber(text[1..], rest);
    }
  }

  lemma NumberParsed(text: string, rest: string)
    requires IsNumber(text) && Ends(rest)
    ensures ReadsAs(text, Num(text), rest)
  {
    NumberHasNumberChars(text);
    RunIsNumber(text, rest);
    assert text[0] in text;
    NumberRead(text, rest);
  }

  lemma NumberRead(text: string, rest: string)
    requires IsNumber(text) && text != "" && NumberChar(text[0]) && NumberRun(text + rest) == |text|
    ensures ReadsAs(text, Num(text), rest)
  {
    var t := text + rest;
    assert t[..|text|] == text && t[|text|..] == rest && t[0] == text[0];
    assert ParseWord(t) == ParseNumber(t);
  }

  // ---- Values -------------------------------------------------------------------------------------------

  /** Every finite number has a JSON text. */
  predicate Representable(v: Value) {
    match v
    case Num(text) => IsNumber(text)
    case Arr(items) => forall i | 0 <= i < |items| :: Representable(items[i])
    case Obj(members) => forall i | 0 <= i < |members| :: Representable(members[i].value)
    case _ => true
  }

  /** What can stand before a value's text is skipped, and its first character begins it. */
  predicate Starts(t: string) {
    t != "" && SkipSpace(t) == t && t[0] != ']' && t[0] != '}' && t[0] != ','
  }

  /** A text that reads as a value up to what follows it. */
  predicate ReadsAs(d: string, v: Value, rest: string) {
    Starts(d) && ParseHere(d + rest) == Some((v, rest))
  }

  lemma StartsMore(t: string, rest: string)
    requires Starts(t)
    ensures Starts(t + rest) && ParseValue(t + rest) == ParseHere(t + rest)
    ensures ParseValue(" " + (t + rest)) == ParseHere(t + rest)
  {
  }

  lemma WordParsed(v: Value, rest: string)
    requires v.Null? || v.Bool?
    ensures ReadsAs(Dumps(v).value, v, rest)
  {
    var d := Dumps(v).value;
    assert d <= d + rest && (d + rest)[|d|..] == rest && (d + rest)[0] == d[0];
    assert d == "true" ==> !("null" <= d + rest);
    assert d == "false" ==> !("null" <= d + rest) && !("true" <= d + rest);
  }

  lemma StringParsed(s: string, rest: string)
    ensures ReadsAs("\"" + Translate(Escaped(s)) + "\"", Str(s), rest)
  {
    CharsParsed(s, rest);
    QuotedText(Translate(Escaped(s)), rest);
  }

  lemma QuotedText(inside: string, rest: string)
    ensures var d := "\"" + inside + "\"";
            Starts(d) && (d + rest)[0] == '"' && (d + rest)[1..] == inside + ("\"" + rest)
  {
  }

  lemma LeafParsed(v: Value, rest: string)
    requires Representable(v) && !v.NonFinite? && !v.Arr? && !v.Obj? && Ends(rest)
    ensures ReadsAs(Translate(Dumps(v).value), v, rest)
  {
    match v
    case Null => TranslateSafe("null"); WordParsed(v, rest);
    case Bool(b) => TranslateSafe("true"); TranslateSafe("false"); WordParsed(v, rest);
    case Num(text) =>
      NumberHasNumberChars(text);
      TranslateSafe(text);
      NumberParsed(text, rest);
    case Str(s) =>
      TranslateWrap("\"", Escaped(s), "\"");
      StringParsed(s, rest);
  }

  lemma {:induction false} ValueParsed(v: Value, rest: string)
    requires Representable(v) && Dumps(v).Some? && Ends(rest)
    ensures ReadsAs(Translate(Dumps(v).value), v, rest)
    decreases v
  {
    match v
    case Arr(items) =>
      EmptyArrayParsed(rest);
      if items != [] {
        ItemsParsed(items, rest);
        ArrayParsed(items, DumpItems(items).value, rest);
      }
    case Obj(members) =>
      EmptyObjectParsed(rest);
      if members != [] {
        MembersParsed(members, rest);
        ObjectParsed(members, DumpMembers(members).value, rest);
      }
    case _ => LeafParsed(v, rest);
  }

  lemma EmptyArrayParsed(rest: string)
    ensures ReadsAs(Translate("[]"), Arr([]), rest)
  {
  }

  lemma EmptyObjectParsed(rest: string)
    ensures ReadsAs(Translate("{}"), Obj([]), rest)
  {
  }

  /** The text of elements reads as them. */
  predicate ReadsItems(d: string, items: seq<Value>, rest: string) {
    Starts(d) && ParseItems(d + ("]" + rest)) == Some((items, rest))
  }

  lemma ArrayParsed(items: seq<Value>, text: string, rest: string)
    requires ReadsItems(Translate(text), items, rest)
    ensures ReadsAs(Translate("[" + text + "]"), Arr(items), rest)
  {
    TranslateWrap("[", text, "]");
    ArrayRead(items, Translate(text), rest);
  }

  lemma ArrayRead(items: seq<Value>, inner: string, rest: string)
    requires ReadsItems(inner, items, rest)
    ensures ReadsAs("[" + inner + "]", Arr(items), rest)
  {
    Regroup("[" + inner, "]", rest);
    Regroup("[", inner, "]" + rest);
    var tail := inner + ("]" + rest);
    assert ("[" + tail)[1..] == tail && tail[0] == inner[0];
  }

  lemma ObjectParsed(members: seq<Member>, text: string, rest: string)
    requires ReadsMembers(Translate(text), members, rest)
    ensures ReadsAs(Translate("{" + text + "}"), Obj(members), rest)
  {
    TranslateWrap("{", text, "}");
    ObjectRead(members, Translate(text), rest);
  }

  lemma ObjectRead(members: seq<Member>, inner: string, rest: string)
    requires ReadsMembers(inner, members, rest)
    ensures ReadsAs("{" + inner + "}", Obj(members), rest)
  {
    Regroup("{" + inner, "}", rest);
    Regroup("{", inner, "}" + rest);
    var tail := inner + ("}" + rest);
    assert ("{" + tail)[1..] == tail && tail[0] == inner[0];
  }

  lemma LastItem(first: string, item: Value, rest: string)
    requires ReadsAs(first, item, "]" + rest)
    ensures ReadsItems(first, [item], rest)
  {
  }

  lemma MoreItems(first: string, item: Value, more: string, items: seq<Value>, rest: string)
    requires ReadsAs(first, item, "," + (" " + (more + ("]" + rest)))) && ReadsItems(more, items, rest)
    ensures ReadsItems(first + ", " + more, [item] + items, rest)
  {
    var tail := " " + (more + ("]" + rest));
    StartsMore(first, "," + tail);
    assert ("," + tail)[1..] == tail;
    ItemsSpace(more, "]" + rest);
    JoinRegroup(first, more, "]" + rest);
    JoinStarts(first, more);
  }

  lemma ItemsSpace(inner: string, rest: string)
    requires Starts(inner)
    ensures ParseItems(" " + (inner + rest)) == ParseItems(inner + rest)
  {
  }

  lemma {:induction false} ItemsParsed(items: seq<Value>, rest: string)
    requires items != [] && DumpItems(items).Some?
    requires forall i | 0 <= i < |items| :: Representable(items[i])
    ensures ReadsItems(Translate(DumpItems(items).value), items, rest)
    decreases items
  {
    var first := Translate(Dumps(items[0]).value);
    if |items| == 1 {
      ValueParsed(items[0], "]" + rest);
      LastItem(first, items[0], rest);
      assert items == [items[0]];
    } else {
      TranslateJoin(Dumps(items[0]).value, DumpItems(items[1..]).value);
      ItemsParsed(items[1..], rest);
      var more := Translate(DumpItems(items[1..]).value);
      ValueParsed(items[0], "," + (" " + (more + ("]" + rest))));
      MoreItems(first, items[0], more, items[1..], rest);
      assert [items[0]] + items[1..] == items;
    }
  }

  lemma JoinStarts(first: string, more: string)
    requires Starts(first)
    ensures Starts(first + ", " + more)
  {
  }

  lemma TranslateJoin(a: string, b: string)
    ensures Translate(a + ", " + b) == Translate(a) + ", " + Translate(b)
  {
    TranslateConcat(a + ", ", b);
    TranslateConcat(a, ", ");
    TranslateSafe(", ");
  }

  lemma JoinRegroup(a: string, b: string, c: string)
    ensures a + ", " + b + c == a + ("," + (" " + (b + c)))
  {
  }

  // ---- Members --------------------------------------------------------------------------------------------

  function KeyText(key: string): string {
    "\"" + Translate(Escaped(key)) + "\"" + ": "
  }

  lemma MemberText(m: Member)
    requires DumpMember(m).Some?
    ensures Translate(DumpMember(m).value) == KeyText(m.key) + Translate(Dumps(m.value).value)
  {
    var head := "\"" + Escaped(m.key) + "\"" + ": ";
    var text := Dumps(m.value).value;
    TranslateConcat(head + text, "");
    TranslateConcat(head, text);
    TranslateWrap("\"", Escaped(m.key), "\"");
    TranslateConcat("\"" + Escaped(m.key) + "\"", ": ");
    TranslateSafe(": ");
    assert Translate("") == "" && Translate(head + text) + "" == Translate(head + text);
  }

  lemma KeyParsed(key: string, text: string)
    ensures ParseKey(KeyText(key) + text) == Some((key, " " + text))
  {
    var t := KeyText(key) + text;
    CharsParsed(key, ": " + text);
    KeyRegroup(Translate(Escaped(key)), text);
    KeyEnds(t, key, ": " + text);
    assert (": " + text)[1..] == " " + text;
  }

  lemma KeyEnds(t: string, key: string, rest: string)
    requires t != "" && t[0] == '"' && ParseChars(t[1..]) == Some((key, rest)) && rest != "" && rest[0] == ':'
    ensures ParseKey(t) == Some((key, rest[1..]))
  {
    assert SkipSpace(t) == t && SkipSpace(rest) == rest;
  }

  lemma KeyRegroup(inside: string, text: string)
    ensures ("\"" + inside + "\"" + ": " + text)[1..] == inside + ("\"" + (": " + text))
  {
  }

  lemma KeyStarts(key: string, text: string)
    ensures Starts(KeyText(key) + text)
    ensures ParseKey(" " + (KeyText(key) + text)) == ParseKey(KeyText(key) + text)
  {
  }

  /** A member's text reads as its key and then its value, with or without a space before it. */
  predicate Reads(t: string, m: Member, after: string) {
    ParseKey(t).Some? && ParseKey(t).value.0 == m.key && ParseValue(ParseKey(t).value.1) == Some((m.value, after))
  }

  lemma KeyThenValue(m: Member, d: string, after: string)
    requires ReadsAs(d, m.value, after)
    ensures Reads(KeyText(m.key) + (d + after), m, after)
    ensures Reads(" " + (KeyText(m.key) + (d + after)), m, after)
  {
    StartsMore(d, after);
    KeyParsed(m.key, d + after);
    KeyStarts(m.key, d + after);
  }

  lemma LastMember(t: string, m: Member, rest: string)
    requires Reads(t, m, "}" + rest)
    ensures ParseMembers(t) == Some(([m], rest))
  {
  }

  lemma MoreMembers(t: string, m: Member, tail: string, members: seq<Member>, rest: string)
    requires Reads(t, m, "," + tail) && ParseMembers(tail) == Some((members, rest))
    ensures ParseMembers(t) == Some(([m] + members, rest))
  {
    assert ("," + tail)[1..] == tail;
  }

  /** The text of members reads as them, with or without a space before it. */
  predicate ReadsMembers(d: string, members: seq<Member>, rest: string) {
    && Starts(d)
    && ParseMembers(d + ("}" + rest)) == Some((members, rest))
    && ParseMembers(" " + (d + ("}" + rest))) == Some((members, rest))
  }

  lemma OneMember(m: Member, d: string, rest: string)
    requires ReadsAs(d, m.value, "}" + rest)
    ensures ReadsMembers(KeyText(m.key) + d, [m], rest)
  {
    var t := KeyText(m.key) + (d + ("}" + rest));
    KeyThenValue(m, d, "}" + rest);
    LastMember(t, m, rest);
    LastMember(" " + t, m, rest);
    Regroup(KeyText(m.key), d, "}" + rest);
    KeyStarts(m.key, d);
  }

  lemma JoinedMembers(m: Member, d: string, more: string, members: seq<Member>, rest: string)
    requires ReadsMembers(more, members, rest) && ReadsAs(d, m.value, "," + (" " + (more + ("}" + rest))))
    ensures ReadsMembers(KeyText(m.key) + d + ", " + more, [m] + members, rest)
  {
    var tail := " " + (more + ("}" + rest));
    var t := KeyText(m.key) + (d + ("," + tail));
    KeyThenValue(m, d, "," + tail);
    MoreMembers(t, m, tail, members, rest);
    MoreMembers(" " + t, m, tail, members, rest);
    Regroup(KeyText(m.key), d, "," + tail);
    JoinRegroup(KeyText(m.key) + d, more, "}" + rest);
    KeyStarts(m.key, d);
    JoinStarts(KeyText(m.key) + d, more);
  }

  lemma MembersText(members: seq<Member>)
    requires members != [] && DumpMembers(members).Some?
    ensures Dumps(members[0].value).Some?
    ensures var m := members[0];
            var first := KeyText(m.key) + Translate(Dumps(m.value).value);
            Translate(DumpMembers(members).value)
            == if |members| == 1 then first else first + ", " + Translate(DumpMembers(members[1..]).value)
  {
    MemberText(members[0]);
    if |members| > 1 {
      TranslateJoin(DumpMember(members[0]).value, DumpMembers(members[1..]).value);
    }
  }

  lemma OnlyMember(members: seq<Member>, rest: string)
    requires |members| == 1 && DumpMembers(members).Some? && Dumps(members[0].value).Some?
    requires ReadsAs(Translate(Dumps(members[0].value).value), members[0].value, "}" + rest)
    ensures ReadsMembers(Translate(DumpMembers(members).value), members, rest)
  {
    MembersText(members);
    OneMember(members[0], Translate(Dumps(members[0].value).value), rest);
    assert members == [members[0]];
  }

  lemma FirstMember(members: seq<Member>, text: string, d: string, more: string, rest: string)
    requires |members| > 1 && text == KeyText(members[0].key) + d + ", " + more
    requires ReadsMembers(more, members[1..], rest)
    requires ReadsAs(d, members[0].value, "," + (" " + (more + ("}" + rest))))
    ensures ReadsMembers(text, members, rest)
  {
    JoinedMembers(members[0], d, more, members[1..], rest);
    assert [members[0]] + members[1..] == members;
  }

  lemma {:induction false} MembersParsed(members: seq<Member>, rest: string)
    requires members != [] && DumpMembers(members).Some?
    requires forall i | 0 <= i < |members| :: Representable(members[i].value)
    ensures ReadsMembers(Translate(DumpMembers(members).value), members, rest)
    decreases members
  {
    MembersText(members);
    if |members| == 1 {
      ValueParsed(members[0].value, "}" + rest);
      OnlyMember(members, rest);
    } else {
      MembersParsed(members[1..], rest);
      var more := Translate(DumpMembers(members[1..]).value);
      ValueParsed(members[0].value, "," + (" " + (more + ("}" + rest))));
      FirstMember(members, Translate(DumpMembers(members).value), Translate(Dumps(members[0].value).value), more, rest);
    }
  }

  // ---- The page -------------------------------------------------------------------------------------------

  /** No NaN and no infinity anywhere. */
  predicate AllFinite(v: Value) {
    match v
    case NonFinite => false
    case Arr(items) => forall i | 0 <= i < |items| :: AllFinite(items[i])
    case Obj(members) => forall i | 0 <= i < |members| :: AllFinite(members[i].value)
    case _ => true
  }

  lemma {:induction false} FiniteIsFinite(v: Value)
    ensures AllFinite(Finite(v)) && (Representable(v) ==> Representable(Finite(v)))
    ensures AllFinite(v) ==> Finite(v) == v
    decreases v
  {
    match v
    case Arr(items) =>
      forall i | 0 <= i < |items|
        ensures |FiniteItems(items)| == |items| && FiniteItems(items)[i] == Finite(items[i])
      {
        FiniteItemAt(items, i);
      }
      forall i | 0 <= i < |items| { FiniteIsFinite(items[i]); }
    case Obj(members) =>
      forall i | 0 <= i < |members|
        ensures |FiniteMembers(members)| == |members|
        ensures FiniteMembers(members)[i] == Member(members[i].key, Finite(members[i].value))
      {
        FiniteMemberAt(members, i);
      }
      forall i | 0 <= i < |members| { FiniteIsFinite(members[i].value); }
    case _ =>
  }

  lemma {:induction false} FiniteItemAt(items: seq<Value>, i: nat)
    requires i < |items|
    ensures |FiniteItems(items)| == |items| && FiniteItems(items)[i] == Finite(items[i])
  {
    if |items| > 1 {
      FiniteItemAt(items[1..], if i > 0 then i - 1 else 0);
    }
  }

  lemma {:induction false} FiniteMemberAt(members: seq<Member>, i: nat)
    requires i < |members|
    ensures |FiniteMembers(members)| == |members|
    ensures FiniteMembers(members)[i] == Member(members[i].key, Finite(members[i].value))
  {
    if |members| > 1 {
      FiniteMemberAt(members[1..], if i > 0 then i - 1 else 0);
    }
  }

  /** JSON can write a value exactly when all of it is finite. */
  lemma {:induction false} DumpedExactlyWhenFinite(v: Value)
    ensures Dumps(v).Some? <==> AllFinite(v)
    decreases v
  {
    match v
    case Arr(items) => if items != [] { ItemsDumped(items); }
    case Obj(members) => if members != [] { MembersDumped(members); }
    case _ =>
  }

  lemma {:induction false} ItemsDumped(items: seq<Value>)
    requires items != []
    ensures DumpItems(items).Some? <==> forall i | 0 <= i < |items| :: AllFinite(items[i])
    decreases items
  {
    DumpedExactlyWhenFinite(items[0]);
    if |items| > 1 {
      ItemsDumped(items[1..]);
      assert forall i | 1 <= i < |items| :: items[i] == items[1..][i - 1];
    }
  }

  lemma {:induction false} MembersDumped(members: seq<Member>)
    requires members != []
    ensures DumpMembers(members).Some? <==> forall i | 0 <= i < |members| :: AllFinite(members[i].value)
    decreases members
  {
    DumpedExactlyWhenFinite(members[0].value);
    if |members| > 1 {
      MembersDumped(members[1..]);
      assert forall i | 1 <= i < |members| :: members[i] == members[1..][i - 1];
    }
  }

  /** Every payload is written, in text that holds no unsafe character and that decodes to the
      payload with each non-finite number as null. */
  lemma RenderIsSafeAndFaithful(payload: Value)
    requires Representable(payload)
    ensures Render(payload).Some? && Safe(Render(payload).value)
    ensures Decode(Render(payload).value) == Some(Finite(payload))
  {
    var v := Finite(payload);
    FiniteIsFinite(payload);
    DumpedExactlyWhenFinite(v);
    var text := Translate(Dumps(v).value);
    TranslateIsSafe(Dumps(v).value);
    ValueParsed(v, "");
    StartsMore(text, "");
    assert text + "" == text;
  }

  // ---- What the page reads ----------------------------------------------------------------------------------

  /** The same value, but for null exactly where there was a number JSON does not have. */
  predicate ReadsBack(v: Value, w: Value) {
    match v
    case NonFinite => w.Null?
    case Arr(items) => w.Arr? && |w.items| == |items| && forall i | 0 <= i < |items| :: ReadsBack(items[i], w.items[i])
    case Obj(members) =>
      && w.Obj? && |w.members| == |members|
      && forall i | 0 <= i < |members| ::
           w.members[i].key == members[i].key && ReadsBack(members[i].value, w.members[i].value)
    case _ => w == v
  }

  lemma {:induction false} FiniteReadsBack(v: Value)
    ensures ReadsBack(v, Finite(v))
    decreases v
  {
    match v
    case Arr(items) =>
      forall i | 0 <= i < |items|
        ensures |FiniteItems(items)| == |items| && ReadsBack(items[i], FiniteItems(items)[i])
      {
        FiniteItemAt(items, i);
        FiniteReadsBack(items[i]);
      }
    case Obj(members) =>
      forall i | 0 <= i < |members|
        ensures |FiniteMembers(members)| == |members| && FiniteMembers(members)[i].key == members[i].key
        ensures ReadsBack(members[i].value, FiniteMembers(members)[i].value)
      {
        FiniteMemberAt(members, i);
        FiniteReadsBack(members[i].value);
      }
    case _ =>
  }

  /** Every payload is written, in text without any of the five characters; and what the page parses
      from it is the payload, item by item and key by key, with null exactly for a number that JSON
      does not have. */
  lemma PageReadsThePayload(payload: Value)
    requires Representable(payload)
    ensures Render(payload).Some?
    ensures forall ch | ch in Render(payload).value ::
              ch != '<' && ch != '>' && ch != '&' && ch != '\U{2028}' && ch != '\U{2029}'
    ensures exists w :: Decode(Render(payload).value) == Some(w) && ReadsBack(payload, w)
  {
    RenderIsSafeAndFaithful(payload);
    FiniteReadsBack(payload);
  }
}
