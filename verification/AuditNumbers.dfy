/** Which numbers and hashes the records of a log carry, and what is found wrong in a line. */
module AuditNumbers {
  import opened Wrappers
  import opened AuditLog
  import opened AuditRuns

  // ---- Numbers across runs ------------------------------------------------------------------------------

  predicate Carries(c: Codec, line: string, n: int) {
    c.parse(line).Object? && c.parse(line).seqNo == Int(n)
  }

  predicate Unnumbered(c: Codec, line: string) {
    !(c.parse(line).Object? && c.parse(line).seqNo.Int?)
  }

  /** The number after the last one a line carries; with none, the number of lines. */
  ghost predicate GoesOnAt(c: Codec, lines: seq<string>, first: int) {
    || (first == |lines| && forall i | 0 <= i < |lines| :: Unnumbered(c, lines[i]))
    || exists i: nat, n: int :: LastNumbered(c, lines, i, n) && first == n + 1
  }

  ghost predicate LastNumbered(c: Codec, lines: seq<string>, i: nat, n: int) {
    i < |lines| && Carries(c, lines[i], n) && forall j | i < j < |lines| :: Unnumbered(c, lines[j])
  }

  /** The hash of the line before, or the anchor. */
  function HashBefore(c: Codec, lines: seq<string>, i: nat): string
    requires i <= |lines|
  {
    if i == 0 then c.genesis else c.hash(lines[i - 1])
  }

  function Events(acts: seq<Act>): seq<Event> {
    if acts == [] then []
    else (if acts[0].Write? then [acts[0].event] else []) + Events(acts[1..])
  }

  lemma {:induction false} LastSeqIs(c: Codec, lines: seq<string>)
    ensures LastSeq(c, lines).None? ==> forall i | 0 <= i < |lines| :: Unnumbered(c, lines[i])
    ensures LastSeq(c, lines).Some? ==> exists i: nat :: LastNumbered(c, lines, i, LastSeq(c, lines).value)
    decreases |lines|
  {
    if lines != [] {
      var front, m := lines[..|lines| - 1], |lines| - 1;
      if Unnumbered(c, lines[m]) {
        LastSeqIs(c, front);
        UnnumberedLast(c, front, lines[m]);
        assert lines == front + [lines[m]];
      } else {
        assert LastNumbered(c, lines, m, LastSeq(c, lines).value);
      }
    }
  }

  lemma UnnumberedLast(c: Codec, front: seq<string>, line: string)
    requires Unnumbered(c, line)
    ensures LastSeq(c, front + [line]) == LastSeq(c, front)
    ensures forall i: nat, n: int :: LastNumbered(c, front, i, n) ==> LastNumbered(c, front + [line], i, n)
  {
    assert (front + [line])[..|front|] == front;
  }

  /** A sink goes on at the number after the last, and with the hash of the last line. */
  lemma StateIs(c: Codec, lines: seq<string>, first: int)
    requires GoesOnAt(c, lines, first)
    ensures FullState(c, lines) == (first, HashBefore(c, lines, |lines|))
  {
    LastSeqIs(c, lines);
    if i: nat, n: int :| LastNumbered(c, lines, i, n) && first == n + 1 {
      assert !Unnumbered(c, lines[i]);
      var j: nat :| LastNumbered(c, lines, j, LastSeq(c, lines).value);
      assert i == j;
    }
  }

  /** A log read to its end by its sink. */
  ghost predicate ReadToEnd(c: Codec, log: Log, first: int) {
    var lines := Lines(log.text);
    Ended(log.text) && GoesOnAt(c, lines, first) && log.next == first && log.prev == HashBefore(c, lines, |lines|)
  }

  lemma WriteGoesOn(c: Codec, log: Log, e: Event, first: int)
    requires Faithful(c) && ReadToEnd(c, log, first)
    ensures var before, after := Lines(log.text), Lines(Record(c, log, e).text);
            && ReadToEnd(c, Record(c, log, e), first + 1)
            && after == before + [c.render(e, first, HashBefore(c, before, |before|))]
  {
    var before, line := Lines(log.text), c.render(e, log.next, log.prev);
    LinesEnded(log.text, line);
    assert Carries(c, line, first) && LastNumbered(c, before + [line], |before|, first);
  }

  /** The lines a run leaves: those it found, and then one record for each event written, numbered on
      and each holding the hash of the line before it. */
  ghost predicate Grown(c: Codec, before: seq<string>, events: seq<Event>, first: int, after: seq<string>) {
    && |after| == |before| + |events| && after[..|before|] == before
    && forall j | 0 <= j < |events| ::
         && after[|before| + j] == c.render(events[j], first + j, HashBefore(c, after, |before| + j))
         && c.parse(after[|before| + j]) == Object(Int(first + j), Text(HashBefore(c, after, |before| + j)))
  }

  lemma GrownOn(c: Codec, before: seq<string>, e: Event, events: seq<Event>, first: int, after: seq<string>)
    requires Faithful(c)
    requires Grown(c, before + [c.render(e, first, HashBefore(c, before, |before|))], events, first + 1, after)
    ensures Grown(c, before, [e] + events, first, after)
  {
    var line := c.render(e, first, HashBefore(c, before, |before|));
    assert after[..|before| + 1] == before + [line];
    assert after[..|before|] == (before + [line])[..|before|] == before && after[|before|] == line;
    assert HashBefore(c, after, |before|) == HashBefore(c, before, |before|);
    forall j | 0 <= j < |[e] + events|
      ensures after[|before| + j] == c.render(([e] + events)[j], first + j, HashBefore(c, after, |before| + j))
      ensures c.parse(after[|before| + j]) == Object(Int(first + j), Text(HashBefore(c, after, |before| + j)))
    {
      if j > 0 {
        assert after[|before + [line]| + (j - 1)] == after[|before| + j] && ([e] + events)[j] == events[j - 1];
      }
    }
  }

  lemma WriteGrows(c: Codec, log: Log, e: Event, events: seq<Event>, first: int, after: seq<string>)
    requires Faithful(c) && ReadToEnd(c, log, first)
    requires Grown(c, Lines(Record(c, log, e).text), events, first + 1, after)
    ensures Grown(c, Lines(log.text), [e] + events, first, after)
  {
    WriteGoesOn(c, log, e, first);
    GrownOn(c, Lines(log.text), e, events, first, after);
  }

  lemma RestartStays(c: Codec, log: Log, first: int)
    requires ReadToEnd(c, log, first)
    ensures Resumed(c, log.text) == log
  {
    StateIs(c, Lines(log.text), first);
  }

  lemma RunOnce(c: Codec, log: Log, acts: seq<Act>)
    requires acts != []
    ensures Run(c, log, acts)
            == Run(c, if acts[0].Write? then Record(c, log, acts[0].event) else Resumed(c, log.text), acts[1..])
    ensures Events(acts) == (if acts[0].Write? then [acts[0].event] else []) + Events(acts[1..])
  {
  }

  function NextLog(c: Codec, log: Log, act: Act): Log {
    if act.Write? then Record(c, log, act.event) else Resumed(c, log.text)
  }

  lemma ActGoesOn(c: Codec, log: Log, act: Act, first: int)
    requires Faithful(c) && ReadToEnd(c, log, first)
    ensures ReadToEnd(c, NextLog(c, log, act), if act.Write? then first + 1 else first)
  {
    if act.Write? {
      WriteGoesOn(c, log, act.event, first);
    } else {
      RestartStays(c, log, first);
    }
  }

  lemma ActGrows(c: Codec, log: Log, acts: seq<Act>, first: int)
    requires Faithful(c) && ReadToEnd(c, log, first) && acts != []
    requires var next := NextLog(c, log, acts[0]);
             Grown(c, Lines(next.text), Events(acts[1..]), if acts[0].Write? then first + 1 else first,
                   Lines(Run(c, next, acts[1..]).text))
    ensures Grown(c, Lines(log.text), Events(acts), first, Lines(Run(c, log, acts).text))
  {
    RunOnce(c, log, acts);
    if acts[0].Write? {
      WriteGrows(c, log, acts[0].event, Events(acts[1..]), first, Lines(Run(c, log, acts).text));
    } else {
      RestartStays(c, log, first);
      assert [] + Events(acts[1..]) == Events(acts[1..]);
    }
  }

  lemma {:induction false} RunGrows(c: Codec, log: Log, acts: seq<Act>, first: int)
    requires Faithful(c) && ReadToEnd(c, log, first)
    ensures Grown(c, Lines(log.text), Events(acts), first, Lines(Run(c, log, acts).text))
    decreases |acts|
  {
    if acts != [] {
      ActGoesOn(c, log, acts[0], first);
      RunGrows(c, NextLog(c, log, acts[0]), acts[1..], if acts[0].Write? then first + 1 else first);
      ActGrows(c, log, acts, first);
    }
  }

  /** A sink opened on a log that is empty or ends in a line break, and opened again any number of
      times, writes its events in order, each under the next number and with the hash of the line
      before it. From an empty log the numbers start at 0, after lines without numbers at how many
      there are, and otherwise after the last. */
  lemma RecordsAreNumberedOn(c: Codec, log: Log, acts: seq<Act>, first: int)
    requires Faithful(c) && Ended(log.text) && acts != [] && acts[0].Restart?
    requires GoesOnAt(c, Lines(log.text), first)
    ensures Grown(c, Lines(log.text), Events(acts), first, Lines(Run(c, log, acts).text))
    ensures log.text == "" ==> first == 0
  {
    StateIs(c, Lines(log.text), first);
    RunGrows(c, Resumed(c, log.text), acts[1..], first);
    assert Events(acts) == Events(acts[1..]) && Lines("") == [];
  }

  // ---- What a valid chain holds --------------------------------------------------------------------------

  predicate NoChainFields(c: Codec, line: string) {
    match c.parse(line)
    case NotJson => false
    case NotObject => true
    case Object(seqNo, prev) => seqNo.Missing? && prev.Missing?
  }

  /** First lines without chain fields, then records numbered one by one, each with the hash of the
      line before it. */
  ghost predicate Chains(c: Codec, lines: seq<string>, k: nat, first: int) {
    && k <= |lines| && (forall i | 0 <= i < k :: NoChainFields(c, lines[i]))
    && forall i | k <= i < |lines| :: c.parse(lines[i]) == Object(Int(first + (i - k)), Text(HashBefore(c, lines, i)))
  }

  /** A chain is valid exactly when its lines read so. */
  lemma ChainExactly(c: Codec, lines: seq<string>)
    ensures ChainOk(c, lines) <==> exists k: nat, first: int :: Chains(c, lines, k, first)
  {
    if k: nat :| ChainFrom(c, lines, k) {
      var first := ChainCounts(c, lines, k);
    }
    if k: nat, first: int :| Chains(c, lines, k, first) {
      ChainsIsValid(c, lines, k, first);
    }
  }

  lemma ChainCounts(c: Codec, lines: seq<string>, k: nat) returns (first: int)
    requires ChainFrom(c, lines, k)
    ensures Chains(c, lines, k, first)
  {
    first := 0;
    if k < |lines| {
      first := FirstCounts(c, lines, k);
      ChainCountsOn(c, lines, k);
      forall i | k <= i < |lines|
        ensures c.parse(lines[i]) == Object(Int(first + (i - k)), Text(HashBefore(c, lines, i)))
      {
        CountsUp(c, lines, k, first, i);
      }
    }
    forall i | 0 <= i < k ensures NoChainFields(c, lines[i]) {
      assert LineOk(c, k, i, Prev(lines, i), lines[i]);
    }
  }

  lemma FirstCounts(c: Codec, lines: seq<string>, k: nat) returns (first: int)
    requires ChainFrom(c, lines, k) && k < |lines|
    ensures c.parse(lines[k]) == Object(Int(first), Text(HashBefore(c, lines, k)))
  {
    assert LineOk(c, k, k, Prev(lines, k), lines[k]);
    first := c.parse(lines[k]).seqNo.value;
  }

  /** The line is numbered one up from the line before, and holds its hash. */
  predicate CountsOn(c: Codec, lines: seq<string>, i: nat)
    requires 0 < i < |lines|
  {
    && c.parse(lines[i - 1]).Object? && c.parse(lines[i - 1]).seqNo.Int?
    && c.parse(lines[i]) == Object(Int(c.parse(lines[i - 1]).seqNo.value + 1), Text(HashBefore(c, lines, i)))
  }

  ghost predicate AllCountOn(c: Codec, lines: seq<string>, k: nat) {
    forall i | k < i < |lines| :: CountsOn(c, lines, i)
  }

  lemma ChainCountsOn(c: Codec, lines: seq<string>, k: nat)
    requires ChainFrom(c, lines, k)
    ensures AllCountOn(c, lines, k)
  {
    forall i | k < i < |lines| ensures CountsOn(c, lines, i) {
      assert LineOk(c, k, i, Prev(lines, i), lines[i]);
    }
  }

  lemma {:induction false} CountsUp(c: Codec, lines: seq<string>, k: nat, first: int, i: nat)
    requires AllCountOn(c, lines, k) && k <= i < |lines|
    requires c.parse(lines[k]) == Object(Int(first), Text(HashBefore(c, lines, k)))
    ensures c.parse(lines[i]) == Object(Int(first + (i - k)), Text(HashBefore(c, lines, i)))
    decreases i
  {
    if i > k {
      CountsUp(c, lines, k, first, i - 1);
      assert CountsOn(c, lines, i);
    }
  }

  lemma ChainsIsValid(c: Codec, lines: seq<string>, k: nat, first: int)
    requires Chains(c, lines, k, first)
    ensures ChainFrom(c, lines, k)
  {
    forall i | 0 <= i < |lines| ensures LineOk(c, k, i, Prev(lines, i), lines[i]) {
      if i > k {
        assert c.parse(lines[i - 1]) == Object(Int(first + (i - 1 - k)), Text(HashBefore(c, lines, i - 1)));
      }
    }
  }

  // ---- What is found wrong in a line -----------------------------------------------------------------------

  /** The fault of a line, by what it holds and what the line before it held. */
  lemma FaultExactly(c: Codec, lines: seq<string>, i: nat)
    requires i < |lines|
    ensures var fault, p := FaultAt(c, Prev(lines, i), lines[i]), c.parse(lines[i]);
            var bare := NoChainFields(c, lines[i]);
            var whole := p.Object? && !p.seqNo.Missing? && !p.prev.Missing?;
            var linked := whole && p.prev == Text(HashBefore(c, lines, i));
            var before := if i == 0 then NotObject else c.parse(lines[i - 1]);
            var counted := before.Object? && before.seqNo.Int?;
            && (fault == Some(NotValidJson) <==> p.NotJson?)
            && (fault == Some(EndsEarly) <==>
                  bare && i > 0 && before.Object? && (!before.seqNo.Missing? || !before.prev.Missing?))
            && (fault == Some(Incomplete) <==> p.Object? && !bare && !whole)
            && (fault == Some(SequenceNotInteger) <==> whole && !p.seqNo.Int?)
            && (fault == Some(HashMismatch) <==> whole && p.seqNo.Int? && !linked)
            && (fault == Some(SequenceGap) <==>
                  linked && p.seqNo.Int? && counted && p.seqNo.value != before.seqNo.value + 1)
  {
  }
}
