/** Properties of one sync, of a sync after a sync or a pull, and of whole runs. */
module SyncRuns {
  import opened ConfigSync
  import opened SyncEffect
  import Ordering

  // ---- Convergence ---------------------------------------------------------------------

  /** Something only the app changed: a sync leaves it alone. */
  predicate HasDrift(c: Codec, w: World, o: Options) {
    var local := Local(c, w.files, o.surfaces);
    exists k | k in local :: ActionFor(c, k, local[k], w.app, ReadState(w.state)) == Drift
  }

  lemma RecordedMark(c: Codec, w: World, surfaces: seq<string>, subset: bool, k: Key)
    requires Faithful(c) && k.surface in surfaces
    ensures var base := ReadState(Record(c, w, surfaces, subset).state);
            && (k in base <==> k in w.app)
            && (k in w.app ==> base[k] == Fingerprint(c, k, w.app[k]) && !IsLegacy(base[k]))
  {
  }

  /** How one object looks to the sync that follows. */
  predicate LooksAfter(c: Codec, w: World, next: World, o: Options, k: Key) {
    var local := Local(c, w.files, o.surfaces);
    && !Prunes(next, o, k, local)
    && (k in local ==>
          ActionFor(c, k, local[k], next.app, ReadState(next.state)) ==
          if ActionFor(c, k, local[k], w.app, ReadState(w.state)) == Drift then Update else Unchanged)
  }

  lemma SecondLook(c: Codec, env: Listing, w: World, o: Options, k: Key)
    requires Faithful(c) && ListsWorld(env, w) && k.surface in o.surfaces
    requires var (_, r) := Sync(c, env, w, o); r.Success? && r.value != []
    ensures var next := Sync(c, env, w, o).0;
            next.files == w.files && next.folders == w.folders && LooksAfter(c, w, next, o, k)
  {
    SyncedApp(c, env, w, o, k);
    var local := Local(c, w.files, o.surfaces);
    var mid := w.(app := Apply(c, local, w.app, SyncChanges(c, env, w, local, o.surfaces, o.prune)));
    RecordedMark(c, mid, o.surfaces, o.subset, k);
    assert Sync(c, env, w, o).0 == Record(c, mid, o.surfaces, o.subset);
    if k in local {
      assert c.canonical(k, c.stored(k, local[k])) == c.canonical(k, local[k]);
    }
  }

  lemma QuietExactlyWithoutDrift(c: Codec, env: Listing, w: World, next: World, o: Options)
    requires ListsWorld(env, next) && next.files == w.files
    requires forall k: Key | k.surface in o.surfaces :: LooksAfter(c, w, next, o, k)
    ensures var local := Local(c, w.files, o.surfaces);
            && !HasConflict(c, local, next.app, ReadState(next.state))
            && (SyncChanges(c, env, next, local, o.surfaces, o.prune) == [] <==> !HasDrift(c, w, o))
  {
    var local := Local(c, w.files, o.surfaces);
    NothingToApply(c, env, next, o);
    forall k | k in local ensures LooksAfter(c, w, next, o, k) {
      assert k.surface in o.surfaces;
    }
  }

  /** The sync right after a sync never refuses, and applies nothing exactly when the
      first applied nothing or had no drift to skip: recording a baseline absorbs the
      skipped drift, and the second sync then pushes over it. */
  lemma SecondSyncIsQuietExactly(c: Codec, first: Listing, second: Listing, w: World, o: Options)
    requires Faithful(c) && ListsWorld(first, w)
    requires ListsWorld(second, Sync(c, first, w, o).0)
    requires Sync(c, first, w, o).1.Success?
    ensures var (next, done) := Sync(c, first, w, o);
            var again := Sync(c, second, next, o).1;
            && again.Success?
            && (again.value == [] <==> done.value == [] || !HasDrift(c, w, o))
  {
    var (next, done) := Sync(c, first, w, o);
    if done.value == [] {
      NothingToApply(c, first, w, o);
      NothingToApply(c, second, w, o);
    } else {
      assert next.files == w.files;
      forall k: Key | k.surface in o.surfaces ensures LooksAfter(c, w, next, o, k) {
        SecondLook(c, first, w, o, k);
      }
      QuietExactlyWithoutDrift(c, second, w, next, o);
    }
  }

  /** The lost edit: an app change a sync skipped as drift, with anything else applied, is
      overwritten by the next sync although nobody touched the repo's copy. */
  lemma SkippedDriftIsThenOverwritten(c: Codec, first: Listing, second: Listing, w: World, o: Options, k: Key)
    requires Faithful(c) && ListsWorld(first, w)
    requires ListsWorld(second, Sync(c, first, w, o).0)
    requires Sync(c, first, w, o).1.Success? && Sync(c, first, w, o).1.value != []
    requires var local := Local(c, w.files, o.surfaces);
             k in local && ActionFor(c, k, local[k], w.app, ReadState(w.state)) == Drift
    ensures var (next, _) := Sync(c, first, w, o);
            var (last, again) := Sync(c, second, next, o);
            && k in w.app && k in next.app && next.app[k] == w.app[k]
            && again.Success? && Change(k, Update) in again.value
            && k in last.app
            && c.canonical(k, last.app[k]) != c.canonical(k, w.app[k])
  {
    var (next, _) := Sync(c, first, w, o);
    var local := Local(c, w.files, o.surfaces);
    SecondSyncIsQuietExactly(c, first, second, w, o);
    SyncedApp(c, first, w, o, k);
    SecondLook(c, first, w, o, k);
    SyncedApp(c, second, next, o, k);
    SyncChangesExactly(c, second, next, o, local, o.surfaces, Change(k, Update));
    assert c.canonical(k, c.stored(k, local[k])) == c.canonical(k, local[k]);
  }

  lemma PlainMark(c: Codec, k: Key, b: Body)
    requires Faithful(c)
    ensures !IsLegacy(Fingerprint(c, k, b))
  {
  }

  lemma DriftWorldActions(c: Codec, kd: Key, ke: Key, d0: Body, d1: Body, e0: Body, e1: Body)
    requires Faithful(c) && kd != ke && kd.surface == ke.surface
    requires c.canonical(kd, d0) != c.canonical(kd, d1) && c.canonical(ke, e0) != c.canonical(ke, e1)
    ensures var w := DriftWorld(c, kd, ke, d0, d1, e0, e1);
            var local := Local(c, w.files, [kd.surface]);
            && local.Keys == {kd, ke}
            && Parses(c, w.files, [kd.surface])
            && ActionFor(c, kd, local[kd], w.app, ReadState(w.state)) == Drift
            && ActionFor(c, ke, local[ke], w.app, ReadState(w.state)) == Update
  {
    PlainMark(c, kd, d0);
    PlainMark(c, ke, e0);
    var w := DriftWorld(c, kd, ke, d0, d1, e0, e1);
    var base := ReadState(w.state);
    assert base[kd] == Fingerprint(c, kd, d0) && base[ke] == Fingerprint(c, ke, e0);
  }

  /** Such a first sync exists for any two objects that can differ: one edited in the app
      only, the other in the repo only. */
  lemma DriftBesideAnEdit(c: Codec, env: Listing, kd: Key, ke: Key, d0: Body, d1: Body, e0: Body, e1: Body)
    requires Faithful(c) && kd != ke && kd.surface == ke.surface
    requires c.canonical(kd, d0) != c.canonical(kd, d1) && c.canonical(ke, e0) != c.canonical(ke, e1)
    requires ListsWorld(env, DriftWorld(c, kd, ke, d0, d1, e0, e1))
    ensures var w := DriftWorld(c, kd, ke, d0, d1, e0, e1);
            var o, local := Plain([kd.surface], false), Local(c, w.files, [kd.surface]);
            && kd in local && ActionFor(c, kd, local[kd], w.app, ReadState(w.state)) == Drift
            && Sync(c, env, w, o).1.Success? && Sync(c, env, w, o).1.value != []
  {
    DriftWorldActions(c, kd, ke, d0, d1, e0, e1);
    var w := DriftWorld(c, kd, ke, d0, d1, e0, e1);
    var o, local := Plain([kd.surface], false), Local(c, w.files, [kd.surface]);
    PushIsReported(c, env, w, o, ke);
  }

  /** A sync with something to push, and nothing in conflict, reports it. */
  lemma PushIsReported(c: Codec, env: Listing, w: World, o: Options, k: Key)
    requires ListsWorld(env, w) && Parses(c, w.files, o.surfaces) && k.surface in o.surfaces
    requires var local := Local(c, w.files, o.surfaces);
             && Pushes(c, k, local, w.app, ReadState(w.state))
             && !HasConflict(c, local, w.app, ReadState(w.state))
    ensures Sync(c, env, w, o).1.Success? && Sync(c, env, w, o).1.value != []
  {
    NothingToApply(c, env, w, o);
  }

  /** The app moved one object on, the repo the other. */
  function DriftWorld(c: Codec, kd: Key, ke: Key, d0: Body, d1: Body, e0: Body, e1: Body): World {
    World(map[kd := d1, ke := e0],
          map[kd := c.serialize(kd.surface, d0), ke := c.serialize(ke.surface, e1)],
          {kd.surface},
          WriteState(map[kd := Fingerprint(c, kd, d0), ke := Fingerprint(c, ke, e0)]))
  }

  /** A sync as anyone runs it by default: no force, no prune. */
  function Plain(surfaces: seq<string>, subset: bool): Options {
    Options(surfaces, subset, false, false)
  }

  // ---- pull, then plan --------------------------------------------------------------------

  lemma {:induction false} PulledFile(c: Codec, w: World, surfaces: seq<string>, k: Key)
    requires PullFiles(c, w, surfaces).1
    ensures var after := PullFiles(c, w, surfaces).0;
            && after.app == w.app && after.state == w.state
            && if k.surface in surfaces && k in w.app then
                 k in after.files && after.files[k] == c.serialize(k.surface, w.app[k])
               else if k.surface in surfaces && k in ReadState(w.state) then k !in after.files
               else (k in after.files <==> k in w.files) && (k in w.files ==> after.files[k] == w.files[k])
    decreases |surfaces|
  {
    if surfaces != [] {
      var made := w.(folders := w.folders + {surfaces[0]});
      assert surfaces == [surfaces[0]] + surfaces[1..];
      PulledFile(c, PullSurface(c, made, surfaces[0]), surfaces[1..], k);
    }
  }

  lemma {:induction false} PulledFilesParse(c: Codec, w: World, surfaces: seq<string>, k: Key)
    requires Faithful(c) && PullFiles(c, w, surfaces).1 && k.surface in surfaces
    requires k in PullFiles(c, w, surfaces).0.files
    ensures c.deserialize(k.surface, PullFiles(c, w, surfaces).0.files[k]).Some?
    decreases |surfaces|
  {
    var made := w.(folders := w.folders + {surfaces[0]});
    var next := PullSurface(c, made, surfaces[0]);
    assert surfaces == [surfaces[0]] + surfaces[1..];
    if k.surface in surfaces[1..] {
      PulledFilesParse(c, next, surfaces[1..], k);
    } else {
      PulledFile(c, next, surfaces[1..], k);
      assert k.surface == surfaces[0] && surfaces[..1] == [surfaces[0]];
      assert k in next.files;
      if k !in w.app {
        assert k in w.files;
      }
    }
  }

  /** After a pull the plan finds every app object unchanged and anything else only to
      create; there is nothing to delete, pruning or not. */
  lemma PlanAfterPull(c: Codec, w: World, surfaces: seq<string>, subset: bool, k: Key)
    requires Faithful(c) && Pull(c, w, surfaces, subset).1.Success? && k.surface in surfaces
    ensures var next := Pull(c, w, surfaces, subset).0;
            var local := Local(c, next.files, surfaces);
            && next.app == w.app && Parses(c, next.files, surfaces)
            && (k in next.app ==> k in local)
            && (k in local ==>
                  ActionFor(c, k, local[k], next.app, ReadState(next.state)) ==
                  if k in next.app then Unchanged else Create)
  {
    var pulled := PullFiles(c, w, surfaces).0;
    PulledFile(c, w, surfaces, k);
    forall j | j in pulled.files && j.surface in surfaces
      ensures c.deserialize(j.surface, pulled.files[j]).Some?
    {
      PulledFilesParse(c, w, surfaces, j);
    }
  }

  // ---- References at each push ----------------------------------------------------------------

  /** At every push, whatever the pushed body refers to in its own surface of the repo is
      in the app already. */
  ghost predicate PushesFindReferences(c: Codec, local: map<Key, Body>, app: map<Key, Body>,
                                       changes: seq<Change>)
    decreases |changes|
  {
    changes == [] ||
    (&& (changes[0].action != Delete ==> FindsReferences(c, local, app, changes[0].key))
     && PushesFindReferences(c, local, ApplyOne(c, local, app, changes[0]), changes[1..]))
  }

  ghost predicate FindsReferences(c: Codec, local: map<Key, Body>, app: map<Key, Body>, k: Key) {
    k in local ==>
      forall r | r in c.references(k.surface, local[k]) && r != k.name && Key(k.surface, r) in local ::
        Key(k.surface, r) in app
  }

  lemma {:induction false} FindAcrossJoin(c: Codec, local: map<Key, Body>, app: map<Key, Body>,
                                          a: seq<Change>, b: seq<Change>)
    requires PushesFindReferences(c, local, app, a)
    requires PushesFindReferences(c, local, Apply(c, local, app, a), b)
    ensures PushesFindReferences(c, local, app, a + b)
    ensures Apply(c, local, app, a + b) == Apply(c, local, Apply(c, local, app, a), b)
    decreases |a|
  {
    if a == [] {
      assert a + b == b;
    } else {
      assert (a + b)[1..] == a[1..] + b;
      FindAcrossJoin(c, local, ApplyOne(c, local, app, a[0]), a[1..], b);
    }
  }

  /** The pushes from position i on, when everything before it is in the app. */
  lemma {:induction false} PushesFromFind(c: Codec, s: string, local: map<Key, Body>, remote: map<Key, Body>,
                                          base: Baseline, order: seq<string>, i: nat, app: map<Key, Body>)
    requires i <= |order| && forall n | n in order :: Key(s, n) in local
    requires Ordering.RefersBackwards(ReferencesOf(c, s, local), order, {})
    requires forall n | Key(s, n) in local :: n in order
    requires forall j | 0 <= j < i :: Key(s, order[j]) in app
    requires forall k: Key | k in remote && k.surface == s :: k in app
    ensures PushesFindReferences(c, local, app, SurfacePushes(c, s, local, remote, base, order[i..]))
    decreases |order| - i
  {
    if i < |order| {
      var k := Key(s, order[i]);
      assert order[i..][1..] == order[i + 1..];
      var rest := SurfacePushes(c, s, local, remote, base, order[i + 1..]);
      if Pushes(c, k, local, remote, base) {
        var ch := Change(k, PushAction(k, remote));
        forall r | r in c.references(s, local[k]) && r != k.name && Key(s, r) in local ensures Key(s, r) in app {
          var j :| 0 <= j < |order| && order[j] == r;
          assert r in ReferencesOf(c, s, local)(order[i]);
        }
        PushesFromFind(c, s, local, remote, base, order, i + 1, ApplyOne(c, local, app, ch));
        assert SurfacePushes(c, s, local, remote, base, order[i..]) == [ch] + rest;
        assert ([ch] + rest)[1..] == rest;
      } else {
        assert k in remote;
        PushesFromFind(c, s, local, remote, base, order, i + 1, app);
        assert SurfacePushes(c, s, local, remote, base, order[i..]) == rest;
      }
    }
  }

  lemma {:induction false} DeletesFind(c: Codec, s: string, local: map<Key, Body>, ids: seq<string>,
                                       app: map<Key, Body>)
    ensures PushesFindReferences(c, local, app, SurfaceDeletes(s, local, ids))
  {
    if ids != [] {
      var rest := SurfaceDeletes(s, local, ids[1..]);
      var ch := Change(Key(s, ids[0]), Delete);
      if Key(s, ids[0]) in local {
        assert SurfaceDeletes(s, local, ids) == rest;
        DeletesFind(c, s, local, ids[1..], app);
      } else {
        assert SurfaceDeletes(s, local, ids) == [ch] + rest;
        assert ([ch] + rest)[1..] == rest;
        DeletesFind(c, s, local, ids[1..], ApplyOne(c, local, app, ch));
      }
    }
  }

  lemma {:induction false} SyncFindsReferences(c: Codec, env: Listing, w: World, o: Options,
                                               surfaces: seq<string>, app: map<Key, Body>)
    requires ListsWorld(env, w) && Ordering.Distinct(surfaces) && Parses(c, w.files, o.surfaces)
    requires forall s | s in surfaces :: s in o.surfaces
    requires var local := Local(c, w.files, o.surfaces);
             forall s | s in surfaces ::
               Ordering.Acyclic(ReferencesOf(c, s, local), Ordering.Names(env.files(s)))
    requires forall k: Key | k in w.app && k.surface in surfaces :: k in app
    ensures var local := Local(c, w.files, o.surfaces);
            PushesFindReferences(c, local, app, SyncChanges(c, env, w, local, surfaces, o.prune))
    decreases |surfaces|
  {
    if surfaces != [] {
      var s, local := surfaces[0], Local(c, w.files, o.surfaces);
      var base := ReadState(w.state);
      var here := SurfaceChanges(c, env, s, local, w.app, base, o.prune && s in w.folders);
      SurfaceFindsReferences(c, env, w, o, s, app);
      var next := Apply(c, local, app, here);
      assert s !in surfaces[1..];
      forall k: Key | k in w.app && k.surface in surfaces[1..] ensures k in next {
        if Touches(here, k) {
          var ch :| ch in here && ch.key == k;
          SurfaceChangesExactly(c, env, w, o, local, s, ch);
        }
        ApplyUntouched(c, local, app, here, k);
      }
      SyncFindsReferences(c, env, w, o, surfaces[1..], next);
      FindAcrossJoin(c, local, app, here, SyncChanges(c, env, w, local, surfaces[1..], o.prune));
    }
  }

  lemma SurfaceFindsReferences(c: Codec, env: Listing, w: World, o: Options, s: string, app: map<Key, Body>)
    requires ListsWorld(env, w) && s in o.surfaces && Parses(c, w.files, o.surfaces)
    requires Ordering.Acyclic(ReferencesOf(c, s, Local(c, w.files, o.surfaces)), Ordering.Names(env.files(s)))
    requires forall k: Key | k in w.app && k.surface == s :: k in app
    ensures var local := Local(c, w.files, o.surfaces);
            PushesFindReferences(c, local, app,
              SurfaceChanges(c, env, s, local, w.app, ReadState(w.state), o.prune && s in w.folders))
  {
    var local, base := Local(c, w.files, o.surfaces), ReadState(w.state);
    var refs := ReferencesOf(c, s, local);
    var order := Ordering.Peel(refs, env.files(s));
    Ordering.AcyclicExactlyWhenServed(refs, env.files(s));
    Ordering.OrderedPermutes(refs, env.files(s));
    assert Lists(env.files(s), s, w.files);
    assert forall n :: n in order <==> n in Ordering.Names(order);
    assert forall n :: n in env.files(s) <==> n in Ordering.Names(env.files(s));
    PushesFromFind(c, s, local, w.app, base, order, 0, app);
    assert order[0..] == order;
    var pushes := SurfacePushes(c, s, local, w.app, base, order);
    var deletes := if o.prune && s in w.folders then SurfaceDeletes(s, local, env.ids(s)) else [];
    DeletesFind(c, s, local, env.ids(s), Apply(c, local, app, pushes));
    FindAcrossJoin(c, local, app, pushes, deletes);
  }

  // ---- Whole runs -----------------------------------------------------------------------------

  /** A world with its history: what the app held when each baseline entry was recorded. */
  datatype Traced = Traced(w: World, seen: map<Key, Body>)

  datatype Step =
    | AppPut(k: Key, body: Body)
    | AppDrop(k: Key)
    | FileWrite(k: Key, text: string)
    | FileDrop(k: Key)
    | DoPull(surfaces: seq<string>, subset: bool)
    | DoSync(env: Listing, surfaces: seq<string>, subset: bool)

  function SeenNow(t: Traced, w: World, surfaces: seq<string>, subset: bool): map<Key, Body> {
    (if subset then Off(t.seen, surfaces) else map[]) + On(w.app, surfaces)
  }

  function Next(c: Codec, t: Traced, step: Step): Traced {
    match step
    case AppPut(k, body) => t.(w := t.w.(app := t.w.app[k := body]))
    case AppDrop(k) => t.(w := t.w.(app := t.w.app - {k}))
    case FileWrite(k, text) => t.(w := t.w.(files := t.w.files[k := text]))
    case FileDrop(k) => t.(w := t.w.(files := t.w.files - {k}))
    case DoPull(surfaces, subset) =>
      var (w, r) := Pull(c, t.w, surfaces, subset);
      Traced(w, if r.Success? then SeenNow(t, w, surfaces, subset) else t.seen)
    case DoSync(env, surfaces, subset) =>
      var (w, r) := Sync(c, env, t.w, Plain(surfaces, subset));
      Traced(w, if r.Success? && r.value != [] then SeenNow(t, w, surfaces, subset) else t.seen)
  }

  function Run(c: Codec, t: Traced, steps: seq<Step>): Traced
    decreases |steps|
  {
    if steps == [] then t else Run(c, Next(c, t, steps[0]), steps[1..])
  }

  /** A mark is the digest of a body, in the current form or in the legacy one. */
  predicate Marks(c: Codec, k: Key, mark: string, body: Body) {
    mark == Fingerprint(c, k, body) || mark == LEGACY + V1Fingerprint(c, k, body)
  }

  /** Every baseline entry digests what the app held when it was recorded. */
  ghost predicate TracksSeen(c: Codec, t: Traced) {
    forall k | k in ReadState(t.w.state) :: k in t.seen && Marks(c, k, ReadState(t.w.state)[k], t.seen[k])
  }

  lemma RecordTracks(c: Codec, t: Traced, w: World, surfaces: seq<string>, subset: bool)
    requires TracksSeen(c, t) && w.state == t.w.state
    ensures TracksSeen(c, Traced(Record(c, w, surfaces, subset), SeenNow(t, w, surfaces, subset)))
  {
  }

  lemma {:induction false} PullKeepsState(c: Codec, w: World, surfaces: seq<string>)
    ensures PullFiles(c, w, surfaces).0.state == w.state && PullFiles(c, w, surfaces).0.app == w.app
    decreases |surfaces|
  {
    if surfaces != [] {
      PullKeepsState(c, PullSurface(c, w.(folders := w.folders + {surfaces[0]}), surfaces[0]), surfaces[1..]);
    }
  }

  lemma PullTracks(c: Codec, t: Traced, surfaces: seq<string>, subset: bool)
    requires TracksSeen(c, t)
    ensures TracksSeen(c, Next(c, t, DoPull(surfaces, subset)))
  {
    var pulled := PullFiles(c, t.w, surfaces).0;
    PullKeepsState(c, t.w, surfaces);
    RecordTracks(c, t, pulled, surfaces, subset);
  }

  lemma SyncTracks(c: Codec, env: Listing, t: Traced, surfaces: seq<string>, subset: bool)
    requires TracksSeen(c, t)
    ensures TracksSeen(c, Next(c, t, DoSync(env, surfaces, subset)))
  {
    var (w, r) := Sync(c, env, t.w, Plain(surfaces, subset));
    if r.Success? && r.value != [] {
      var mid := t.w.(app := Apply(c, Local(c, t.w.files, surfaces), t.w.app, r.value));
      RecordTracks(c, t, mid, surfaces, subset);
    }
  }

  lemma NextTracks(c: Codec, t: Traced, step: Step)
    requires TracksSeen(c, t)
    ensures TracksSeen(c, Next(c, t, step))
  {
    match step {
      case DoPull(surfaces, subset) => PullTracks(c, t, surfaces, subset);
      case DoSync(env, surfaces, subset) => SyncTracks(c, env, t, surfaces, subset);
      case _ =>
    }
  }

  lemma {:induction false} RunTracks(c: Codec, t: Traced, steps: seq<Step>)
    requires TracksSeen(c, t)
    ensures TracksSeen(c, Run(c, t, steps))
    decreases |steps|
  {
    if steps != [] {
      NextTracks(c, t, steps[0]);
      RunTracks(c, Next(c, t, steps[0]), steps[1..]);
    }
  }

  /** In every run, a sync that replaces an app object it has a baseline for replaces the
      very content the app held when that baseline was recorded. */
  lemma OnlyRecordedContentIsReplaced(c: Codec, start: Traced, steps: seq<Step>, env: Listing,
                                      surfaces: seq<string>, subset: bool, k: Key)
    requires Faithful(c) && TracksSeen(c, start)
    requires var t := Run(c, start, steps); ListsWorld(env, t.w)
    requires var r := Sync(c, env, Run(c, start, steps).w, Plain(surfaces, subset)).1;
             r.Success? && Change(k, Update) in r.value
    ensures var t := Run(c, start, steps);
            && k in t.w.app
            && (k in ReadState(t.w.state) ==>
                  k in t.seen && c.canonical(k, t.w.app[k]) == c.canonical(k, t.seen[k]))
  {
    RunTracks(c, start, steps);
    var t := Run(c, start, steps);
    var o := Plain(surfaces, subset);
    var local, base := Local(c, t.w.files, surfaces), ReadState(t.w.state);
    SyncChangesExactly(c, env, t.w, o, local, surfaces, Change(k, Update));
    if k in base {
      UpdateMeansAppStoodStill(c, k, local, t.w.app, base, t.seen[k]);
    }
  }

  lemma UpdateMeansAppStoodStill(c: Codec, k: Key, local: map<Key, Body>, app: map<Key, Body>,
                                 base: Baseline, seen: Body)
    requires Faithful(c) && k in local && k in app && k in base && Marks(c, k, base[k], seen)
    requires ActionFor(c, k, local[k], app, base) == Update
    ensures c.canonical(k, app[k]) == c.canonical(k, seen)
  {
  }

  // ---- Legacy marks -----------------------------------------------------------------------------

  function RecordAll(c: Codec, w: World, subsets: seq<seq<string>>): World
    decreases |subsets|
  {
    if subsets == [] then w else RecordAll(c, Record(c, w, subsets[0], true), subsets[1..])
  }

  /** Recording other surfaces, any number of times, keeps a surface's marks, legacy tag
      included. */
  lemma {:induction false} MarksSurviveSubsetRuns(c: Codec, w: World, subsets: seq<seq<string>>, k: Key)
    requires forall i | 0 <= i < |subsets| :: k.surface !in subsets[i]
    ensures var before, after := ReadState(w.state), ReadState(RecordAll(c, w, subsets).state);
            (k in before <==> k in after) && (k in before ==> after[k] == before[k])
    decreases |subsets|
  {
    if subsets != [] {
      MarksSurviveSubsetRuns(c, Record(c, w, subsets[0], true), subsets[1..], k);
    }
  }
}
