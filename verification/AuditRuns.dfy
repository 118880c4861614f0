/** Writing the audit log across restarts, and what its head hash proves. */
module AuditRuns {
  import opened Wrappers
  import opened AuditLog

  /** A log and the two values its sink keeps. */
  datatype Log = Log(text: string, next: int, prev: string)

  function Record(c: Codec, log: Log, e: Event): Log {
    var line := c.render(e, log.next, log.prev);
    Log(log.text + line + "\n", log.next + 1, Sha(c, line))
  }

  function Resumed(c: Codec, text: string): Log {
    Log(text, FullState(c, Lines(text)).0, FullState(c, Lines(text)).1)
  }

  class Disk {
    var file: Option<string>

    constructor (file: Option<string>)
      ensures this.file == file
    {
      this.file := file;
    }
  }

  class ChainedSink {
    const codec: Codec
    const disk: Disk
    var next: int
    var prev: string

    function View(): Log
      reads this, disk
    {
      Log(if disk.file.Some? then disk.file.value else "", next, prev)
    }

    /** A sink opened on a log goes on from all its lines, however few it looks at. */
    constructor (codec: Codec, disk: Disk, block: nat)
      ensures this.disk == disk && this.codec == codec
      ensures View() == Resumed(codec, if disk.file.Some? then disk.file.value else "")
    {
      this.codec := codec;
      this.disk := disk;
      var state := TailState(codec, disk.file, block);
      next, prev := state.0, state.1;
      assert Lines("") == [];
    }

    method Append(e: Event)
      modifies this, disk
      ensures View() == Record(codec, old(View()), e) && disk.file.Some?
    {
      var line := codec.render(e, next, prev);
      disk.file := Some((if disk.file.Some? then disk.file.value else "") + line + "\n");
      next, prev := next + 1, Sha(codec, line);
    }
  }

  // ---- Appending ------------------------------------------------------------------------------------

  /** Empty, or ending in a line break. */
  predicate Ended(text: string) {
    text == "" || text[|text| - 1] == '\n'
  }

  lemma LinesAfterEnd(text: string, more: string)
    requires Ended(text)
    ensures Lines(text + more) == Lines(text) + Lines(more)
  {
    if text == "" {
      assert text + more == more && Lines("") == [];
    } else {
      var front := text[..|text| - 1];
      assert text == front + "\n";
      LinesBreak(front);
      LinesConcat(front, more);
    }
  }

  lemma LinesBreak(text: string)
    ensures Lines(text + "\n") == Lines(text)
  {
    LinesConcat(text, "");
    assert text + "\n" + "" == text + "\n";
    assert Lines("") == [];
  }

  lemma LinesEnded(text: string, line: string)
    requires Ended(text) && line != "" && '\n' !in line
    ensures Lines(text + line + "\n") == Lines(text) + [line]
    ensures Lines(text + line) == Lines(text) + [line]
  {
    LinesAfterEnd(text, line);
    LinesBreak(text + line);
    OneLine(line);
  }

  lemma {:induction false} LastLine(text: string) returns (front: string, line: string)
    requires !Ended(text)
    ensures text == front + line && Ended(front) && line != "" && '\n' !in line
    decreases |text|
  {
    if '\n' in text {
      Rejoined(text);
      var head, rest := FirstLine(text) + "\n", AfterLine(text);
      assert text == head + rest;
      assert head + "" == head && head[|head| - 1] == '\n';
      var inner, last := LastLine(rest);
      front, line := head + inner, last;
      assert inner == "" ==> front == head;
    } else {
      front, line := "", text;
    }
  }

  /** One more record: numbered and linked after the last, the legacy run unchanged. */
  lemma RecordExtends(c: Codec, lines: seq<string>, e: Event, k: nat)
    requires Faithful(c) && ChainFrom(c, lines, k)
    ensures var (n, p) := FullState(c, lines);
            var line := c.render(e, n, p);
            && ChainFrom(c, lines + [line], k)
            && FullState(c, lines + [line]) == (n + 1, Sha(c, line))
  {
    var (n, p) := FullState(c, lines);
    var line := c.render(e, n, p);
    assert Read(c, line) == Object(Int(n), Text(p));
    if lines != [] {
      StateOfLast(c, lines, k);
    }
    assert p == HashOf(c, Prev(lines, |lines|));
    assert LineOk(c, k, |lines|, Prev(lines, |lines|), line);
    Extends(c, lines, line, k, k);
    assert (lines + [line])[|lines|] == line;
  }

  /** On a valid log the state is that of its last line. */
  lemma StateOfLast(c: Codec, lines: seq<string>, k: nat)
    requires ChainFrom(c, lines, k) && lines != []
    ensures FullState(c, lines).1 == Sha(c, lines[|lines| - 1])
    ensures k < |lines| ==> SeqOf(c, Some(lines[|lines| - 1])) == Some(FullState(c, lines).0 - 1)
  {
  }

  datatype Act = Restart(block: nat) | Write(event: Event)

  function Writes(acts: seq<Act>): nat {
    if acts == [] then 0 else (if acts[0].Write? then 1 else 0) + Writes(acts[1..])
  }

  function Run(c: Codec, log: Log, acts: seq<Act>): Log
    decreases |acts|
  {
    if acts == [] then log else
    Run(c, if acts[0].Write? then Record(c, log, acts[0].event) else Resumed(c, log.text), acts[1..])
  }

  /** A log that verifies, read to its end by the sink that writes it. */
  ghost predicate Sound(c: Codec, log: Log, k: nat) {
    Ended(log.text) && ChainFrom(c, Lines(log.text), k) && log == Resumed(c, log.text)
  }

  lemma WriteKeepsSound(c: Codec, log: Log, e: Event, k: nat)
    requires Faithful(c) && Sound(c, log, k)
    ensures Sound(c, Record(c, log, e), k)
    ensures |Lines(Record(c, log, e).text)| == |Lines(log.text)| + 1
    ensures Lines(log.text) <= Lines(Record(c, log, e).text)
  {
    var line := c.render(e, log.next, log.prev);
    LinesEnded(log.text, line);
    RecordExtends(c, Lines(log.text), e, k);
  }

  /** Any number of records, across any restarts: the log verifies, keeps every line it had, and
      its chained part has grown by exactly that number. */
  lemma {:induction false} RunsVerify(c: Codec, log: Log, acts: seq<Act>, k: nat)
    requires Faithful(c) && Sound(c, log, k)
    ensures var after := Run(c, log, acts);
            && Sound(c, after, k)
            && Lines(log.text) <= Lines(after.text)
            && |Lines(after.text)| == |Lines(log.text)| + Writes(acts)
    decreases |acts|
  {
    if acts != [] {
      if acts[0].Write? {
        WriteKeepsSound(c, log, acts[0].event, k);
        RunsVerify(c, Record(c, log, acts[0].event), acts[1..], k);
      } else {
        RunsVerify(c, log, acts[1..], k);
      }
    }
  }

  /** JSON texts do not continue into a second one on the same line. */
  ghost predicate NoGlue(c: Codec) {
    forall line, e, n, p :: line != "" && !Read(c, line).NotJson? ==> Read(c, line + c.render(e, n, p)).NotJson?
  }

  /** A record keeps a valid log valid exactly when the log is empty or ends in a line break; after
      an unfinished line it is written onto that line. */
  lemma RecordKeepsChainExactly(c: Codec, text: string, e: Event)
    requires Faithful(c) && NoGlue(c) && ChainOk(c, Lines(text))
    ensures ChainOk(c, Lines(Record(c, Resumed(c, text), e).text)) <==> Ended(text)
  {
    var k :| ChainFrom(c, Lines(text), k);
    var log := Resumed(c, text);
    if Ended(text) {
      WriteKeepsSound(c, log, e, k);
    } else {
      var front, line := LastLine(text);
      LinesEnded(front, line);
      assert Lines(text)[|Lines(front)|] == line;
      KindAt(c, Lines(text), k, |Lines(front)|);
      assert LineOk(c, k, |Lines(front)|, Prev(Lines(text), |Lines(front)|), line);
      Glued(c, front, line, c.render(e, log.next, log.prev));
    }
  }

  /** One record written whole but for its line break: a valid log, until the next record. */
  lemma UnfinishedLineBreaks(c: Codec, e: Event)
    requires Faithful(c) && NoGlue(c)
    ensures var text := c.render(e, 0, c.genesis);
            ChainOk(c, Lines(text)) && !ChainOk(c, Lines(Record(c, Resumed(c, text), e).text))
  {
    var text := c.render(e, 0, c.genesis);
    OneLine(text);
    RecordExtends(c, [], e, 0);
    assert [] + [text] == [text];
    assert text[|text| - 1] in text;
    RecordKeepsChainExactly(c, text, e);
  }

  lemma Glued(c: Codec, front: string, line: string, record: string)
    requires Ended(front) && line != "" && '\n' !in line && '\n' !in record
    requires Read(c, line + record).NotJson?
    ensures !ChainOk(c, Lines(front + line + record + "\n"))
  {
    var both := line + record;
    LinesEnded(front, both);
    assert front + line + record == front + both;
    NotJsonBreaks(c, Lines(front) + [both], |Lines(front)|);
  }

  lemma NotJsonBreaks(c: Codec, lines: seq<string>, i: nat)
    requires i < |lines| && Read(c, lines[i]).NotJson?
    ensures !ChainOk(c, lines)
  {
  }

  // ---- Tamper evidence -------------------------------------------------------------------------------

  /** The same chained records after the same last legacy line, if there is one. */
  predicate SameRecords(a: seq<string>, j: nat, b: seq<string>, k: nat)
    requires j <= |a| && k <= |b|
  {
    a[j..] == b[k..] && Prev(a, j) == Prev(b, k)
  }

  /** Two valid logs have the same head exactly when their chained records are the same, after
      the same last legacy line. */
  lemma SameHeadExactly(c: Codec, a: seq<string>, j: nat, b: seq<string>, k: nat)
    requires Faithful(c) && a != [] && b != [] && ChainFrom(c, a, j) && ChainFrom(c, b, k)
    ensures Sha(c, a[|a| - 1]) == Sha(c, b[|b| - 1]) <==> SameRecords(a, j, b, k)
  {
    if Sha(c, a[|a| - 1]) == Sha(c, b[|b| - 1]) {
      SameHead(c, a, j, b, k);
    }
    if SameRecords(a, j, b, k) {
      LastOfRecords(a, j);
      LastOfRecords(b, k);
    }
  }

  lemma {:induction false} SameHead(c: Codec, a: seq<string>, j: nat, b: seq<string>, k: nat)
    requires Faithful(c) && a != [] && b != [] && ChainFrom(c, a, j) && ChainFrom(c, b, k)
    requires Sha(c, a[|a| - 1]) == Sha(c, b[|b| - 1])
    ensures SameRecords(a, j, b, k)
    decreases |a|
  {
    SameLast(c, a, j, b, k);
    if j < |a| && |a| > 1 {
      var a' := OneBack(c, a, j);
      var b' := OneBack(c, b, k);
      SameHead(c, a', j, b', k);
      OneMoreRecord(a, a', j, b, b', k);
    } else {
      SameEnd(a, j, b, k);
    }
  }

  /** Two logs of one line, or two legacy runs. */
  lemma SameEnd(a: seq<string>, j: nat, b: seq<string>, k: nat)
    requires a != [] && b != [] && j <= |a| && k <= |b| && a[|a| - 1] == b[|b| - 1]
    requires (|a| == 1 && |b| == 1 && j == 0 && k == 0) || (j == |a| && k == |b|)
    ensures SameRecords(a, j, b, k)
  {
  }

  /** Logs of one head have one last line, chained in both or in neither. */
  lemma SameLast(c: Codec, a: seq<string>, j: nat, b: seq<string>, k: nat)
    requires Faithful(c) && a != [] && b != [] && ChainFrom(c, a, j) && ChainFrom(c, b, k)
    requires Sha(c, a[|a| - 1]) == Sha(c, b[|b| - 1])
    ensures a[|a| - 1] == b[|b| - 1] && (j < |a| <==> k < |b|)
    ensures j < |a| ==> (|a| > 1 <==> |b| > 1) && Prev(a, |a| - 1) == Prev(b, |b| - 1)
  {
    KindAt(c, a, j, |a| - 1);
    KindAt(c, b, k, |b| - 1);
    if j < |a| {
      SamePredecessor(c, a, j, b, k);
    }
  }

  lemma OneBack(c: Codec, a: seq<string>, j: nat) returns (a': seq<string>)
    requires ChainFrom(c, a, j) && |a| > 1 && j < |a|
    ensures a == a' + [a[|a| - 1]] && a' != [] && ChainFrom(c, a', j)
    ensures Prev(a, |a| - 1) == Some(a'[|a'| - 1])
  {
    a' := a[..|a| - 1];
    ChainPrefix(c, a, j, |a| - 1);
  }

  lemma OneMoreRecord(a: seq<string>, a': seq<string>, j: nat, b: seq<string>, b': seq<string>, k: nat)
    requires j < |a| && k < |b| && a == a' + [a[|a| - 1]] && b == b' + [a[|a| - 1]]
    requires SameRecords(a', j, b', k)
    ensures SameRecords(a, j, b, k)
  {
  }

  lemma LastOfRecords(a: seq<string>, j: nat)
    requires a != [] && j <= |a|
    ensures Some(a[|a| - 1]) == if a[j..] == [] then Prev(a, j) else Some(a[j..][|a[j..]| - 1])
  {
  }

  /** The hash a record carries tells what came before it. */
  lemma SamePredecessor(c: Codec, a: seq<string>, j: nat, b: seq<string>, k: nat)
    requires Faithful(c) && a != [] && b != [] && ChainFrom(c, a, j) && ChainFrom(c, b, k)
    requires a[|a| - 1] == b[|b| - 1] && j < |a| && k < |b|
    ensures Prev(a, |a| - 1) == Prev(b, |b| - 1)
  {
  }

  /** Without a legacy run, the head determines the log. */
  lemma SameHeadSameLog(c: Codec, a: seq<string>, b: seq<string>, k: nat)
    requires Faithful(c) && a != [] && b != [] && ChainFrom(c, a, 0) && ChainFrom(c, b, k)
    ensures Sha(c, a[|a| - 1]) == Sha(c, b[|b| - 1]) <==> a == b
  {
    SameHeadExactly(c, a, 0, b, k);
    KindAt(c, a, 0, 0);
    KindAt(c, b, k, 0);
    WholeLog(a, b, k);
  }

  lemma WholeLog(a: seq<string>, b: seq<string>, k: nat)
    requires k <= |b| && b != [] && (a == b ==> k == 0)
    ensures SameRecords(a, 0, b, k) <==> a == b
  {
    assert a[0..] == a && b[0..] == b;
  }

  /** Dropping the newest records leaves a log that verifies, under another head. */
  lemma TruncationChangesHead(c: Codec, a: seq<string>, j: nat, n: nat)
    requires Faithful(c) && ChainFrom(c, a, j) && j < |a| && 0 < n < |a|
    ensures ChainOk(c, a[..n]) && Sha(c, a[n - 1]) != Sha(c, a[|a| - 1])
  {
    ChainPrefix(c, a, j, n);
    var k := if j < n then j else n;
    SameHeadExactly(c, a[..n], k, a, j);
    assert |a[..n][k..]| < |a[j..]|;
  }
}
