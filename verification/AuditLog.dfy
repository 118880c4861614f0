/** The hash-chained audit log: resuming it from its tail, appending, and verifying it. */
module AuditLog {
  import opened Wrappers

  type Event(==, !new)

  /** What a record's field holds, as the chain looks at it. */
  datatype Field = Missing | Int(value: int) | Text(text: string) | OtherValue

  datatype Parsed = NotJson | NotObject | Object(seqNo: Field, prev: Field)

  /** SHA-256 in hexadecimal, the hash slot before the first record, the JSON parser, and a
      chained record's line. */
  datatype Codec = Codec(
    genesis: string,
    hash: string -> string,
    parse: string -> Parsed,
    render: (Event, int, string) -> string)

  ghost predicate Faithful(c: Codec) {
    && (forall x, y | c.hash(x) == c.hash(y) :: x == y)
    && (forall x :: c.hash(x) != c.genesis)
    && (forall e, n, p :: c.parse(c.render(e, n, p)) == Object(Int(n), Text(p)))
    && (forall e, n, p :: c.render(e, n, p) != "" && '\n' !in c.render(e, n, p))
  }

  function Sha(c: Codec, text: string): string {
    c.hash(text)
  }

  function Read(c: Codec, line: string): Parsed {
    c.parse(line)
  }

  // ---- Lines ----------------------------------------------------------------------------------------

  function FirstLine(text: string): string {
    if text == "" || text[0] == '\n' then "" else [text[0]] + FirstLine(text[1..])
  }

  function AfterLine(text: string): (rest: string)
    ensures text != "" ==> |rest| < |text|
  {
    if text == "" then "" else if text[0] == '\n' then text[1..] else AfterLine(text[1..])
  }

  /** The lines that are not empty. */
  function Lines(text: string): seq<string>
    decreases |text|
  {
    if text == "" then [] else
    (if FirstLine(text) == "" then [] else [FirstLine(text)]) + Lines(AfterLine(text))
  }

  lemma {:induction false} SplitConcat(a: string, b: string)
    ensures FirstLine(a + "\n" + b) == FirstLine(a)
    ensures AfterLine(a + "\n" + b) == if '\n' in a then AfterLine(a) + "\n" + b else b
  {
    if a != "" {
      assert (a + "\n" + b)[1..] == a[1..] + "\n" + b;
      SplitConcat(a[1..], b);
    }
  }

  lemma {:induction false} OnlyLine(a: string)
    requires '\n' !in a
    ensures FirstLine(a) == a && AfterLine(a) == ""
  {
    if a != "" {
      assert a[0] in a;
      OnlyLine(a[1..]);
    }
  }

  lemma {:induction false} Rejoined(text: string)
    requires '\n' in text
    ensures text == FirstLine(text) + "\n" + AfterLine(text)
  {
    if text[0] != '\n' {
      Rejoined(text[1..]);
    }
  }

  /** Joining texts at a line break joins their lines. */
  lemma {:induction false} LinesConcat(a: string, b: string)
    ensures Lines(a + "\n" + b) == Lines(a) + Lines(b)
    decreases |a|
  {
    SplitConcat(a, b);
    if '\n' in a {
      LinesConcat(AfterLine(a), b);
    } else {
      OnlyLine(a);
      assert Lines("") == [];
    }
  }

  lemma OneLine(line: string)
    requires line != "" && '\n' !in line
    ensures Lines(line) == [line]
  {
    OnlyLine(line);
    assert Lines("") == [];
  }

  // ---- Resuming -------------------------------------------------------------------------------------

  /** The number of the last record that carries one. */
  function LastSeq(c: Codec, lines: seq<string>): Option<int> {
    if lines == [] then None else
    match Read(c, lines[|lines| - 1])
    case Object(Int(n), _) => Some(n)
    case _ => LastSeq(c, lines[..|lines| - 1])
  }

  function Resume(c: Codec, lines: seq<string>): Option<(int, string)>
    requires lines != []
  {
    match LastSeq(c, lines)
    case Some(n) => Some((n + 1, Sha(c, lines[|lines| - 1])))
    case None => None
  }

  /** Where a chain goes on, from all its lines. */
  function FullState(c: Codec, lines: seq<string>): (int, string) {
    if lines == [] then (0, c.genesis) else
    match Resume(c, lines)
    case Some(state) => state
    case None => (|lines|, Sha(c, lines[|lines| - 1]))
  }

  method ResumeState(c: Codec, lines: seq<string>) returns (r: Option<(int, string)>)
    requires lines != []
    ensures r == Resume(c, lines)
  {
    var prev := Sha(c, lines[|lines| - 1]);
    var todo := lines;
    while todo != []
      invariant LastSeq(c, todo) == LastSeq(c, lines)
    {
      match Read(c, todo[|todo| - 1]) {
        case Object(Int(n), _) =>
          return Some((n + 1, prev));
        case _ =>
      }
      todo := todo[..|todo| - 1];
    }
    return None;
  }

  /** What a window of the last characters shows: a fragment of a line at its front is dropped. */
  function Tail(text: string, block: nat): string {
    if |text| > block then AfterLine(text[|text| - block..]) else text
  }

  /** Resuming from at most the last `block` characters first. */
  method TailState(c: Codec, file: Option<string>, block: nat) returns (state: (int, string))
    ensures state == FullState(c, if file.Some? then Lines(file.value) else [])
  {
    if file.None? || file.value == "" {
      return (0, c.genesis);
    }
    var text := file.value;
    var tailLines := Lines(Tail(text, block));
    ghost var front := TailIsEnd(text, block);
    if tailLines != [] {
      var resumed := ResumeState(c, tailLines);
      if resumed.Some? {
        ResumeEnd(c, front, tailLines);
        return resumed.value;
      }
    }
    var lines := Lines(text);
    if lines == [] {
      return (0, c.genesis);
    }
    var all := ResumeState(c, lines);
    return if all.Some? then all.value else (|lines|, Sha(c, lines[|lines| - 1]));
  }

  /** The window's lines are the last lines of the file. */
  lemma TailIsEnd(text: string, block: nat) returns (front: seq<string>)
    ensures Lines(text) == front + Lines(Tail(text, block))
  {
    front := [];
    if |text| > block {
      var outside, window := text[..|text| - block], text[|text| - block..];
      assert text == outside + window;
      front := WindowIsEnd(outside, window);
    }
  }

  lemma WindowIsEnd(outside: string, window: string) returns (front: seq<string>)
    ensures Lines(outside + window) == front + Lines(AfterLine(window))
  {
    if '\n' in window {
      Rejoined(window);
      var kept := outside + FirstLine(window);
      assert outside + window == kept + "\n" + AfterLine(window);
      LinesConcat(kept, AfterLine(window));
      front := Lines(kept);
    } else {
      OnlyLine(window);
      front := Lines(outside + window);
    }
  }

  /** A number found in the end of a log is the log's last. */
  lemma {:induction false} ResumeEnd(c: Codec, front: seq<string>, end: seq<string>)
    requires end != [] && Resume(c, end).Some?
    ensures Resume(c, front + end) == Resume(c, end)
  {
    LastSeqEnd(c, front, end);
    assert (front + end)[|front + end| - 1] == end[|end| - 1];
  }

  lemma {:induction false} LastSeqEnd(c: Codec, front: seq<string>, end: seq<string>)
    requires LastSeq(c, end).Some?
    ensures LastSeq(c, front + end) == LastSeq(c, end)
    decreases |end|
  {
    var all := front + end;
    assert all[|all| - 1] == end[|end| - 1];
    assert all[..|all| - 1] == front + end[..|end| - 1];
    if !(Read(c, end[|end| - 1]).Object? && Read(c, end[|end| - 1]).seqNo.Int?) {
      LastSeqEnd(c, front, end[..|end| - 1]);
    }
  }

  // ---- A valid chain ----------------------------------------------------------------------------------

  predicate IsChained(c: Codec, line: string) {
    var p := Read(c, line);
    p.Object? && (!p.seqNo.Missing? || !p.prev.Missing?)
  }

  /** A record of a legacy log: JSON without chain fields. */
  predicate Legacy(c: Codec, line: string) {
    !Read(c, line).NotJson? && !IsChained(c, line)
  }

  /** The line before line `i`. */
  function Prev(lines: seq<string>, i: nat): Option<string>
    requires i <= |lines|
  {
    if i == 0 then None else Some(lines[i - 1])
  }

  /** The hash a record must carry: that of the line before it. */
  function HashOf(c: Codec, prev: Option<string>): string {
    if prev.Some? then Sha(c, prev.value) else c.genesis
  }

  predicate Linked(c: Codec, prev: Option<string>, line: string) {
    var p := Read(c, line);
    p.Object? && p.seqNo.Int? && p.prev == Text(HashOf(c, prev))
  }

  predicate Follows(c: Codec, prev: Option<string>, line: string) {
    prev.Some? && match (Read(c, prev.value), Read(c, line))
      case (Object(Int(m), _), Object(Int(n), _)) => n == m + 1
      case _ => false
  }

  /** Before line `k` the log is legacy; from there each record names its predecessor, and each
      after the first counts up by one. */
  predicate LineOk(c: Codec, k: nat, i: nat, prev: Option<string>, line: string) {
    if i < k then Legacy(c, line) else Linked(c, prev, line) && (i > k ==> Follows(c, prev, line))
  }

  ghost predicate ChainFrom(c: Codec, lines: seq<string>, k: nat) {
    k <= |lines| && forall i | 0 <= i < |lines| :: LineOk(c, k, i, Prev(lines, i), lines[i])
  }

  ghost predicate ChainOk(c: Codec, lines: seq<string>) {
    exists k :: ChainFrom(c, lines, k)
  }

  /** Dropping the newest records leaves a valid chain. */
  lemma ChainPrefix(c: Codec, lines: seq<string>, k: nat, n: nat)
    requires ChainFrom(c, lines, k) && n <= |lines|
    ensures ChainFrom(c, lines[..n], if k < n then k else n)
  {
  }

  // ---- Verifying -------------------------------------------------------------------------------------

  datatype Fault = NotValidJson | EndsEarly | Incomplete | SequenceNotInteger | HashMismatch | SequenceGap

  datatype Report = Report(ok: bool, records: nat, chained: nat, head: Option<string>, error: Option<Fault>)

  /** `_check_link`. */
  function CheckLink(p: Parsed, previous: string, prevSeq: Option<int>): Option<Fault>
    requires p.Object?
  {
    if p.seqNo.Missing? || p.prev.Missing? then Some(Incomplete)
    else if !p.seqNo.Int? then Some(SequenceNotInteger)
    else if p.prev != Text(previous) then Some(HashMismatch)
    else if prevSeq.Some? && p.seqNo.value != prevSeq.value + 1 then Some(SequenceGap)
    else None
  }

  function SeqOf(c: Codec, line: Option<string>): Option<int> {
    if line.None? then None else
    match Read(c, line.value)
    case Object(Int(n), _) => Some(n)
    case _ => None
  }

  /** What is wrong with a line after the one before it, if anything. */
  function FaultAt(c: Codec, prev: Option<string>, line: string): Option<Fault> {
    if Read(c, line).NotJson? then Some(NotValidJson)
    else if prev.Some? && IsChained(c, prev.value) && !IsChained(c, line) then Some(EndsEarly)
    else if IsChained(c, line) then CheckLink(Read(c, line), HashOf(c, prev), SeqOf(c, prev))
    else None
  }

  /** No fault means the line carries on from the one before it: the chain, or the legacy run. */
  lemma FaultFree(c: Codec, k: nat, n: nat, prev: Option<string>, line: string)
    requires k <= n && (prev.Some? <==> n > 0)
    requires n > 0 ==> if k < n then IsChained(c, prev.value) && SeqOf(c, prev).Some? else Legacy(c, prev.value)
    ensures FaultAt(c, prev, line).None?
            <==> LineOk(c, k, n, prev, line) || (k == n && LineOk(c, n + 1, n, prev, line))
    ensures LineOk(c, k, n, prev, line) ==> IsChained(c, line)
  {
  }

  lemma LastIsChained(c: Codec, lines: seq<string>, k: nat)
    requires ChainFrom(c, lines, k) && lines != []
    ensures var prev := lines[|lines| - 1];
            if k < |lines| then IsChained(c, prev) && SeqOf(c, Some(prev)).Some? else Legacy(c, prev)
  {
  }

  lemma Extends(c: Codec, lines: seq<string>, line: string, k: nat, m: nat)
    requires ChainFrom(c, lines, k) && (m == k || (m == |lines| + 1 && k == |lines|))
    ensures ChainFrom(c, lines + [line], m) <==> LineOk(c, m, |lines|, Prev(lines, |lines|), line)
  {
    var all, n := lines + [line], |lines|;
    forall i | 0 <= i < n ensures LineOk(c, m, i, Prev(all, i), all[i]) {
      assert LineOk(c, k, i, Prev(lines, i), lines[i]);
      assert Prev(all, i) == Prev(lines, i);
    }
    assert Prev(all, n) == Prev(lines, n) && all[n] == line;
  }

  lemma KindAt(c: Codec, lines: seq<string>, k: nat, i: nat)
    requires ChainFrom(c, lines, k) && i < |lines|
    ensures Legacy(c, lines[i]) <==> i < k
  {
  }

  /** The legacy run of a longer log is that of the shorter, or the whole of it. */
  lemma SplitKept(c: Codec, lines: seq<string>, line: string, k: nat, m: nat)
    requires ChainFrom(c, lines, k) && ChainFrom(c, lines + [line], m)
    ensures m == k || (m == |lines| + 1 && k == |lines|)
  {
    if k < |lines| {
      KindAt(c, lines, k, k);
      KindAt(c, lines + [line], m, k);
    }
    if m < |lines| {
      KindAt(c, lines, k, m);
      KindAt(c, lines + [line], m, m);
    }
  }

  /** A line extends a valid chain exactly when no fault is found in it. */
  lemma ChainSnoc(c: Codec, lines: seq<string>, line: string, k: nat)
    requires ChainFrom(c, lines, k)
    ensures ChainOk(c, lines + [line]) <==> FaultAt(c, Prev(lines, |lines|), line).None?
    ensures FaultAt(c, Prev(lines, |lines|), line).None?
            ==> ChainFrom(c, lines + [line], if IsChained(c, line) then k else k + 1)
  {
    if lines != [] {
      LastIsChained(c, lines, k);
    }
    FaultFree(c, k, |lines|, Prev(lines, |lines|), line);
    Extends(c, lines, line, k, k);
    if k == |lines| {
      Extends(c, lines, line, k, k + 1);
    }
    if m :| ChainFrom(c, lines + [line], m) {
      SplitKept(c, lines, line, k, m);
    }
  }

  /** The verifier's variables: all it remembers of the lines it has read. */
  datatype Walk = Walk(previous: string, prevSeq: Option<int>, records: nat, chained: nat, seenChained: bool,
                       head: Option<string>)

  /** The variables after reading a valid chain. */
  ghost predicate Tracks(c: Codec, w: Walk, seen: seq<string>, legacy: nat) {
    && ChainFrom(c, seen, legacy)
    && w.records == |seen| && w.chained == |seen| - legacy
    && Remembers(c, w, Prev(seen, |seen|))
  }

  predicate Remembers(c: Codec, w: Walk, prev: Option<string>) {
    && w.previous == HashOf(c, prev) && w.prevSeq == SeqOf(c, prev)
    && (w.seenChained <==> prev.Some? && IsChained(c, prev.value))
    && w.head == if prev.None? then None else Some(Sha(c, prev.value))
  }

  /** The checks on one line, in the order they are made. */
  method CheckLine(c: Codec, line: string, w: Walk, ghost prev: Option<string>)
    returns (error: Option<Fault>, isChained: bool)
    requires Remembers(c, w, prev)
    ensures error == FaultAt(c, prev, line) && isChained == IsChained(c, line)
  {
    var record := Read(c, line);
    isChained := record.Object? && (!record.seqNo.Missing? || !record.prev.Missing?);
    if record.NotJson? {
      error := Some(NotValidJson);
    } else if w.seenChained && !isChained {
      error := Some(EndsEarly);
    } else if isChained {
      error := CheckLink(record, w.previous, w.prevSeq);
    } else {
      error := None;
    }
  }

  function Advanced(c: Codec, w: Walk, line: string): Walk {
    var previous := Sha(c, line);
    if IsChained(c, line)
    then Walk(previous, SeqOf(c, Some(line)), w.records + 1, w.chained + 1, true, Some(previous))
    else w.(previous := previous, records := w.records + 1, head := Some(previous))
  }

  lemma AdvanceTracks(c: Codec, w: Walk, seen: seq<string>, legacy: nat, line: string)
    requires Tracks(c, w, seen, legacy) && FaultAt(c, Prev(seen, |seen|), line).None?
    ensures Tracks(c, Advanced(c, w, line), seen + [line], if IsChained(c, line) then legacy else legacy + 1)
  {
    ChainSnoc(c, seen, line, legacy);
    assert Prev(seen + [line], |seen| + 1) == Some(line);
    if seen != [] {
      LastIsChained(c, seen, legacy);
    }
  }

  /** How many lines were found valid. */
  function ValidLines(report: Report): nat {
    if report.error.Some? && report.records > 0 then report.records - 1 else report.records
  }

  /** How a report describes a log: the valid lines before it stopped, their chained records, the
      fault it stopped at, and the hash of the last line it read. */
  ghost predicate Describes(c: Codec, report: Report, lines: seq<string>) {
    var n := ValidLines(report);
    && report.records <= |lines| && report.chained <= n && ChainFrom(c, lines[..n], n - report.chained)
    && (if report.error.None? then n == |lines|
        else n < report.records && report.error == FaultAt(c, Prev(lines, n), lines[n]))
    && report.head == if report.records == 0 then None else Some(Sha(c, lines[report.records - 1]))
  }

  lemma StopDescribes(c: Codec, w: Walk, seen: seq<string>, legacy: nat, line: string, rest: seq<string>)
    requires Tracks(c, w, seen, legacy) && FaultAt(c, Prev(seen, |seen|), line).Some?
    ensures var lines := seen + [line] + rest;
            Verdict(c, StopReport(c, w, line, FaultAt(c, Prev(seen, |seen|), line)), lines)
  {
    var lines := seen + [line] + rest;
    assert lines[..|seen|] == seen && lines[|seen|] == line && Prev(lines, |seen|) == Prev(seen, |seen|);
    ChainSnoc(c, seen, line, legacy);
    assert lines[..|seen| + 1] == seen + [line];
    if m :| ChainFrom(c, lines, m) {
      ChainPrefix(c, lines, m, |seen| + 1);
    }
  }

  function StopReport(c: Codec, w: Walk, line: string, fault: Option<Fault>): Report {
    Report(false, w.records + 1, w.chained, Some(Sha(c, line)), fault)
  }

  lemma TakeLine(seen: seq<string>, todo: string)
    requires todo != "" && FirstLine(todo) != ""
    ensures seen + Lines(todo) == seen + [FirstLine(todo)] + Lines(AfterLine(todo))
  {
  }

  lemma EndDescribes(c: Codec, w: Walk, lines: seq<string>, legacy: nat)
    requires Tracks(c, w, lines, legacy)
    ensures Verdict(c, Report(true, w.records, w.chained, w.head, None), lines)
  {
    assert lines[..|lines|] == lines;
  }

  /** Accepted exactly when valid; otherwise stopped at the first line that is not. */
  ghost predicate Verdict(c: Codec, report: Report, lines: seq<string>) {
    && (report.ok <==> ChainOk(c, lines))
    && (report.ok <==> report.error.None?)
    && Describes(c, report, lines)
  }

  /** Reads the file line by line and stops at the first fault. It accepts exactly the valid
      chains; on any other, everything before the line it stopped at was valid. */
  method VerifyChain(c: Codec, file: Option<string>) returns (report: Report)
    ensures Verdict(c, report, if file.Some? then Lines(file.value) else [])
  {
    var w := Walk(c.genesis, None, 0, 0, false, None);
    assert Tracks(c, w, [], 0);
    if file.None? {
      EndDescribes(c, w, [], 0);
      return Report(true, 0, 0, None, None);
    }
    report := VerifyText(c, file.value, w);
  }

  method VerifyText(c: Codec, text: string, start: Walk) returns (report: Report)
    requires Tracks(c, start, [], 0)
    ensures Verdict(c, report, Lines(text))
  {
    var w, todo := start, text;
    ghost var seen: seq<string>, legacy: nat := [], 0;
    while todo != ""
      invariant seen + Lines(todo) == Lines(text) && Tracks(c, w, seen, legacy)
      decreases |todo|
    {
      var line := FirstLine(todo);
      if line != "" {
        TakeLine(seen, todo);
        var error, isChained := CheckLine(c, line, w, Prev(seen, |seen|));
        if error.Some? {
          StopDescribes(c, w, seen, legacy, line, Lines(AfterLine(todo)));
          return StopReport(c, w, line, error);
        }
        AdvanceTracks(c, w, seen, legacy, line);
        w := Advanced(c, w, line);
        legacy := if isChained then legacy else legacy + 1;
        seen := seen + [line];
      }
      todo := AfterLine(todo);
    }
    assert seen + [] == seen;
    EndDescribes(c, w, seen, legacy);
    return Report(true, w.records, w.chained, w.head, None);
  }
}
