/** What the verbs do, said of the objects' own forms: the repo's, the app's, and the one each mark
    of the state file was taken from. */
module SyncForms {
  import opened Wrappers
  import opened ConfigSync
  import opened SyncEffect
  import opened SyncRuns
  import Ordering

  /** What a mark was taken from: a body's compared form, or the text of its file. */
  datatype Memory = Memory(body: Body, text: bool)

  function MarkOf(c: Codec, k: Key, m: Memory): string {
    if m.text then "v1:" + c.sha(c.serialize(k.surface, m.body)) else c.sha(c.canonical(k, m.body))
  }

  /** A file of an older version holds bare digests of texts. */
  ghost predicate Recalls(c: Codec, f: StateFile, memory: map<Key, Memory>) {
    match f
    case Absent => memory == map[]
    case Stored(version, table) =>
      && table.Keys == memory.Keys
      && forall k | k in table ::
           if version == 2 then table[k] == MarkOf(c, k, memory[k])
           else memory[k].text && table[k] == c.sha(c.serialize(k.surface, memory[k].body))
  }

  predicate Differ(c: Codec, k: Key, a: Body, b: Body) {
    c.canonical(k, a) != c.canonical(k, b)
  }

  /** The body is no longer the one the mark was taken from. */
  predicate Moved(c: Codec, k: Key, body: Body, m: Memory) {
    if m.text then c.serialize(k.surface, body) != c.serialize(k.surface, m.body) else Differ(c, k, body, m.body)
  }

  lemma MarksRead(c: Codec, f: StateFile, memory: map<Key, Memory>, k: Key)
    requires Recalls(c, f, memory)
    ensures k in ReadState(f) <==> k in memory
    ensures k in memory ==> ReadState(f)[k] == MarkOf(c, k, memory[k])
  {
  }

  lemma MarkTells(c: Codec, k: Key, m: Memory, body: Body)
    requires Faithful(c)
    ensures m.text <==> IsLegacy(MarkOf(c, k, m))
    ensures m.text ==> MarkOf(c, k, m)[|LEGACY|..] == c.sha(c.serialize(k.surface, m.body))
    ensures !Moved(c, k, body, m) <==> MarkOf(c, k, m) == if m.text then LEGACY + V1Fingerprint(c, k, body)
                                                         else Fingerprint(c, k, body)
  {
    var mark := MarkOf(c, k, m);
    assert LEGACY == "v1:" && (IsLegacy(mark) ==> mark[0] == 'v');
    if m.text {
      assert mark[|LEGACY|..] == c.sha(c.serialize(k.surface, m.body));
      assert (LEGACY + V1Fingerprint(c, k, body))[|LEGACY|..] == V1Fingerprint(c, k, body);
    }
  }

  /** An action by which of the three forms agree. */
  predicate ActsBy(c: Codec, k: Key, body: Body, app: map<Key, Body>, m: Option<Memory>, action: Action) {
    && (action == Create <==> k !in app)
    && (k in app ==>
          && (action == Unchanged <==> !Differ(c, k, body, app[k]))
          && (action == Drift <==> Differ(c, k, body, app[k]) && m.Some? && !Moved(c, k, body, m.value))
          && (action == Update <==>
                Differ(c, k, body, app[k]) && (m.None? || !Moved(c, k, app[k], m.value)))
          && (action == Conflict <==>
                && Differ(c, k, body, app[k]) && m.Some?
                && Moved(c, k, body, m.value) && Moved(c, k, app[k], m.value)))
  }

  function MemoryOf(memory: map<Key, Memory>, k: Key): Option<Memory> {
    if k in memory then Some(memory[k]) else None
  }

  lemma UnmarkedAction(c: Codec, k: Key, body: Body, app: map<Key, Body>, base: Baseline)
    requires Faithful(c) && k !in base
    ensures ActsBy(c, k, body, app, None, ActionFor(c, k, body, app, base))
  {
  }

  lemma CurrentAction(c: Codec, k: Key, body: Body, app: map<Key, Body>, base: Baseline, m: Memory)
    requires Faithful(c) && k in base && base[k] == MarkOf(c, k, m) && !m.text
    ensures ActsBy(c, k, body, app, Some(m), ActionFor(c, k, body, app, base))
  {
    MarkTells(c, k, m, body);
    if k in app {
      MarkTells(c, k, m, app[k]);
    }
  }

  lemma LegacyAction(c: Codec, k: Key, body: Body, app: map<Key, Body>, base: Baseline, m: Memory)
    requires Faithful(c) && k in base && base[k] == MarkOf(c, k, m) && m.text
    ensures ActsBy(c, k, body, app, Some(m), ActionFor(c, k, body, app, base))
  {
    MarkTells(c, k, m, body);
    if k in app {
      MarkTells(c, k, m, app[k]);
      if V1Fingerprint(c, k, body) == V1Fingerprint(c, k, app[k]) {
        SameTextSameForm(c, k, body, app[k]);
      }
    }
  }

  /** An object here and there is unchanged, drifted, updated or in conflict exactly by which of the
      three forms agree; with no mark, a difference is the repo's update. */
  lemma ActionExactly(c: Codec, k: Key, body: Body, app: map<Key, Body>, f: StateFile, memory: map<Key, Memory>)
    requires Faithful(c) && Recalls(c, f, memory)
    ensures ActsBy(c, k, body, app, MemoryOf(memory, k), ActionFor(c, k, body, app, ReadState(f)))
  {
    MarksRead(c, f, memory, k);
    if k !in memory {
      UnmarkedAction(c, k, body, app, ReadState(f));
    } else if memory[k].text {
      LegacyAction(c, k, body, app, ReadState(f), memory[k]);
    } else {
      CurrentAction(c, k, body, app, ReadState(f), memory[k]);
    }
  }

  // ---- sync ---------------------------------------------------------------------------------------------

  predicate Chosen(w: World, o: Options, k: Key) {
    k in w.files && k.surface in o.surfaces
  }

  predicate ParsesAt(c: Codec, w: World, k: Key) {
    k in w.files && c.deserialize(k.surface, w.files[k]).Some?
  }

  function BodyAt(c: Codec, w: World, k: Key): Body
    requires ParsesAt(c, w, k)
  {
    c.deserialize(k.surface, w.files[k]).value
  }

  ghost predicate AllParse(c: Codec, w: World, surfaces: seq<string>) {
    forall k | k in w.files && k.surface in surfaces :: ParsesAt(c, w, k)
  }

  /** Edited here and in the app since the mark was taken, and not to the same form. */
  predicate BothMoved(c: Codec, w: World, o: Options, memory: map<Key, Memory>, k: Key) {
    && Chosen(w, o, k) && ParsesAt(c, w, k) && k in w.app && k in memory
    && Differ(c, k, BodyAt(c, w, k), w.app[k])
    && Moved(c, k, BodyAt(c, w, k), memory[k]) && Moved(c, k, w.app[k], memory[k])
  }

  lemma LocalIs(c: Codec, w: World, o: Options, k: Key)
    ensures var local := Local(c, w.files, o.surfaces);
            && (k in local <==> Chosen(w, o, k) && ParsesAt(c, w, k))
            && (k in local ==> local[k] == BodyAt(c, w, k))
  {
  }

  /** A sync is refused, and changes nothing, exactly when a chosen file does not parse or, without
      force, some chosen object has moved on both sides. */
  lemma RefusedExactly(c: Codec, env: Listing, w: World, o: Options, memory: map<Key, Memory>)
    requires Faithful(c) && Recalls(c, w.state, memory)
    ensures var (next, r) := Sync(c, env, w, o);
            && (r == Failure(Malformed) <==> !AllParse(c, w, o.surfaces))
            && (r == Failure(Conflicts) <==>
                  AllParse(c, w, o.surfaces) && !o.force && exists k :: BothMoved(c, w, o, memory, k))
            && (r.Failure? ==> next == w)
  {
    var local, base := Local(c, w.files, o.surfaces), ReadState(w.state);
    assert Parses(c, w.files, o.surfaces) <==> AllParse(c, w, o.surfaces);
    if AllParse(c, w, o.surfaces) {
      if HasConflict(c, local, w.app, base) {
        var k :| k in local && ActionFor(c, k, local[k], w.app, base) == Conflict;
        LocalIs(c, w, o, k);
        ActionExactly(c, k, local[k], w.app, w.state, memory);
        assert BothMoved(c, w, o, memory, k);
      }
      if k :| BothMoved(c, w, o, memory, k) {
        LocalIs(c, w, o, k);
        ActionExactly(c, k, local[k], w.app, w.state, memory);
        assert HasConflict(c, local, w.app, base);
      }
    }
  }

  /** Missing in the app, or different there and not merely edited there. */
  predicate ToPush(c: Codec, w: World, o: Options, memory: map<Key, Memory>, k: Key) {
    && Chosen(w, o, k) && ParsesAt(c, w, k)
    && (k !in w.app
        || (&& Differ(c, k, BodyAt(c, w, k), w.app[k])
            && (k in memory ==> Moved(c, k, BodyAt(c, w, k), memory[k]))))
  }

  /** In the app only, of a chosen surface the repo has a folder for. */
  predicate ToDelete(w: World, o: Options, k: Key) {
    o.prune && k.surface in o.surfaces && k.surface in w.folders && k in w.app && k !in w.files
  }

  lemma PushesIs(c: Codec, w: World, o: Options, memory: map<Key, Memory>, k: Key)
    requires Faithful(c) && Recalls(c, w.state, memory) && AllParse(c, w, o.surfaces) && k.surface in o.surfaces
    ensures var local := Local(c, w.files, o.surfaces);
            && (Pushes(c, k, local, w.app, ReadState(w.state)) <==> ToPush(c, w, o, memory, k))
            && (Prunes(w, o, k, local) <==> ToDelete(w, o, k))
  {
    var local := Local(c, w.files, o.surfaces);
    LocalIs(c, w, o, k);
    if k in local {
      ActionExactly(c, k, local[k], w.app, w.state, memory);
    }
  }

  predicate Due(c: Codec, w: World, o: Options, memory: map<Key, Memory>, ch: Change) {
    || (ToPush(c, w, o, memory, ch.key) && ch.action == if ch.key in w.app then Update else Create)
    || (ToDelete(w, o, ch.key) && ch.action == Delete)
  }

  /** A sync that goes through reports exactly the pushes and deletions due, leaves in the app the
      pushed bodies as the app stores them, and touches no file. */
  lemma SyncExactly(c: Codec, env: Listing, w: World, o: Options, memory: map<Key, Memory>, k: Key)
    requires Faithful(c) && Recalls(c, w.state, memory) && ListsWorld(env, w)
    requires Sync(c, env, w, o).1.Success?
    ensures var (next, r) := Sync(c, env, w, o);
            && next.files == w.files && next.folders == w.folders
            && (forall action :: Change(k, action) in r.value <==> Due(c, w, o, memory, Change(k, action)))
            && if ToPush(c, w, o, memory, k) then k in next.app && next.app[k] == c.stored(k, BodyAt(c, w, k))
               else if ToDelete(w, o, k) then k !in next.app
               else SameAt(next.app, w.app, k)
  {
    var local := Local(c, w.files, o.surfaces);
    assert Parses(c, w.files, o.surfaces) ==> AllParse(c, w, o.surfaces);
    LocalIs(c, w, o, k);
    SyncedApp(c, env, w, o, k);
    if k.surface in o.surfaces {
      PushesIs(c, w, o, memory, k);
    }
    ReportedExactly(c, env, w, o, memory, k);
  }

  lemma ReportedExactly(c: Codec, env: Listing, w: World, o: Options, memory: map<Key, Memory>, k: Key)
    requires Faithful(c) && Recalls(c, w.state, memory) && ListsWorld(env, w) && AllParse(c, w, o.surfaces)
    ensures forall action ::
              Change(k, action) in SyncChanges(c, env, w, Local(c, w.files, o.surfaces), o.surfaces, o.prune)
              <==> Due(c, w, o, memory, Change(k, action))
  {
    var local := Local(c, w.files, o.surfaces);
    if k.surface in o.surfaces {
      PushesIs(c, w, o, memory, k);
    }
    forall action
      ensures Change(k, action) in SyncChanges(c, env, w, local, o.surfaces, o.prune)
              <==> Due(c, w, o, memory, Change(k, action))
    {
      SyncChangesExactly(c, env, w, o, local, o.surfaces, Change(k, action));
    }
  }

  /** On one surface every push comes before every deletion. */
  lemma PushesComeFirst(c: Codec, env: Listing, s: string, local: map<Key, Body>, remote: map<Key, Body>,
                        base: Baseline, prunes: bool)
    ensures exists pushes: seq<Change>, deletes: seq<Change> ::
              && SurfaceChanges(c, env, s, local, remote, base, prunes) == pushes + deletes
              && (forall ch | ch in pushes :: ch.action != Delete) && (forall ch | ch in deletes :: ch.action == Delete)
  {
    var order := Ordering.Peel(ReferencesOf(c, s, local), env.files(s));
    var pushes := SurfacePushes(c, s, local, remote, base, order);
    var deletes := if prunes then SurfaceDeletes(s, local, env.ids(s)) else [];
    forall ch | ch in pushes ensures ch.action != Delete {
      SurfacePushesExactly(c, s, local, remote, base, order, ch);
    }
    forall ch | ch in deletes ensures ch.action == Delete {
      SurfaceDeletesExactly(s, local, env.ids(s), ch);
    }
    assert SurfaceChanges(c, env, s, local, remote, base, prunes) == pushes + deletes;
  }

  // ---- The record -------------------------------------------------------------------------------------

  /** The state file holds, by form, what the app holds of the chosen surfaces, and of the others
      nothing, or after a run of a subset what it held before. */
  ghost predicate Recorded(c: Codec, before: StateFile, after: StateFile, app: map<Key, Body>,
                           surfaces: seq<string>, subset: bool) {
    && after.Stored? && after.version == 2
    && forall k: Key ::
         if k.surface in surfaces
         then (k in after.table <==> k in app) && (k in app ==> after.table[k] == c.sha(c.canonical(k, app[k])))
         else if subset && before.Stored? && k in before.table
         then k in after.table
              && after.table[k] == (if before.version == 2 then "" else "v1:") + before.table[k]
         else k !in after.table
  }

  lemma RecordIs(c: Codec, w: World, surfaces: seq<string>, subset: bool)
    ensures Recorded(c, w.state, Record(c, w, surfaces, subset).state, w.app, surfaces, subset)
  {
    forall k: Key | w.state.Stored? && k in w.state.table
      ensures ReadState(w.state)[k] == (if w.state.version == 2 then "" else "v1:") + w.state.table[k]
    {
      assert "" + w.state.table[k] == w.state.table[k];
    }
  }

  /** A sync records what it leaves in the app, unless it had nothing to do. */
  lemma SyncRecords(c: Codec, env: Listing, w: World, o: Options)
    requires Sync(c, env, w, o).1.Success?
    ensures var (next, r) := Sync(c, env, w, o);
            if r.value == [] then next == w else Recorded(c, w.state, next.state, next.app, o.surfaces, o.subset)
  {
    var r := Sync(c, env, w, o).1;
    if r.value != [] {
      var mid := w.(app := Apply(c, Local(c, w.files, o.surfaces), w.app, r.value));
      RecordIs(c, mid, o.surfaces, o.subset);
    }
  }

  // ---- pull -------------------------------------------------------------------------------------------

  predicate Known(f: StateFile, k: Key) {
    f.Stored? && k in f.table
  }

  lemma {:induction false} PullFolders(c: Codec, w: World, surfaces: seq<string>)
    requires PullFiles(c, w, surfaces).1
    ensures PullFiles(c, w, surfaces).0.folders == w.folders + set s | s in surfaces
    decreases |surfaces|
  {
    if surfaces != [] {
      var made := w.(folders := w.folders + {surfaces[0]});
      assert surfaces == [surfaces[0]] + surfaces[1..];
      PullFolders(c, PullSurface(c, made, surfaces[0]), surfaces[1..]);
    }
  }

  /** A pull writes every chosen app object, drops a chosen file exactly when the app has no such
      object and the record knew it, and leaves every other file; then it records the app. */
  lemma PullExactly(c: Codec, w: World, surfaces: seq<string>, subset: bool, k: Key)
    requires Pull(c, w, surfaces, subset).1.Success?
    ensures var next := Pull(c, w, surfaces, subset).0;
            && next.app == w.app && next.folders == w.folders + (set s | s in surfaces)
            && Recorded(c, w.state, next.state, w.app, surfaces, subset)
            && if k.surface in surfaces && k in w.app
               then k in next.files && next.files[k] == c.serialize(k.surface, w.app[k])
               else if k.surface in surfaces && Known(w.state, k) then k !in next.files
               else (k in next.files <==> k in w.files) && (k in w.files ==> next.files[k] == w.files[k])
  {
    PulledFile(c, w, surfaces, k);
    PullFolders(c, w, surfaces);
    RecordIs(c, PullFiles(c, w, surfaces).0, surfaces, subset);
  }

  /** A pull stops exactly at a chosen file that does not parse; the record is then as it was. */
  lemma PullFailsExactly(c: Codec, w: World, surfaces: seq<string>, subset: bool)
    requires Faithful(c)
    ensures var (next, r) := Pull(c, w, surfaces, subset);
            && (r.Success? <==> AllParse(c, w, surfaces))
            && (r.Failure? ==> r.error == Malformed && next.app == w.app && next.state == w.state)
  {
    PullParses(c, w, surfaces);
    PullKeepsState(c, w, surfaces);
  }

  lemma {:induction false} PullParses(c: Codec, w: World, surfaces: seq<string>)
    requires Faithful(c)
    ensures PullFiles(c, w, surfaces).1 <==> AllParse(c, w, surfaces)
    decreases |surfaces|
  {
    if surfaces != [] {
      var s := surfaces[0];
      var made := w.(folders := w.folders + {s});
      var next := PullSurface(c, made, s);
      assert surfaces[..1] == [s] && surfaces == [s] + surfaces[1..];
      PullParses(c, next, surfaces[1..]);
      SurfaceParses(c, made, s, surfaces[1..]);
      assert Parses(c, w.files, [s]) <==> AllParse(c, w, [s]);
      assert AllParse(c, w, surfaces) <==> AllParse(c, w, [s]) && AllParse(c, w, surfaces[1..]) by {
        if AllParse(c, w, [s]) && AllParse(c, w, surfaces[1..]) {
          forall k | k in w.files && k.surface in surfaces ensures ParsesAt(c, w, k) {
            assert k.surface in [s] || k.surface in surfaces[1..];
          }
        }
        assert forall k: Key :: k.surface in [s] || k.surface in surfaces[1..] ==> k.surface in surfaces;
      }
    }
  }

  /** Pulling a surface that parses leaves the parsing of the others as it was. */
  lemma SurfaceParses(c: Codec, w: World, s: string, rest: seq<string>)
    requires Faithful(c)
    ensures AllParse(c, w, [s]) ==> (AllParse(c, PullSurface(c, w, s), rest) <==> AllParse(c, w, rest))
  {
    var next := PullSurface(c, w, s);
    if AllParse(c, w, [s]) {
      forall k: Key | k.surface in rest
        ensures k.surface != s ==> (k in next.files <==> k in w.files) && (k in w.files ==> next.files[k] == w.files[k])
        ensures k.surface == s && k in next.files ==> ParsesAt(c, next, k)
        ensures k.surface == s && k in w.files ==> ParsesAt(c, w, k)
      {
        assert k.surface == s ==> k.surface in [s];
      }
    }
  }
}
