/** The verbs as the program runs them: loops over surfaces and objects that update the
    app, the files and the state file in place, each tied to its specification. */
module Checkouts {
  import opened Wrappers
  import opened ConfigSync
  import opened SyncEffect
  import Ordering

  lemma {:induction false} ApplyStep(c: Codec, local: map<Key, Body>, app: map<Key, Body>,
                                     done: seq<Change>, ch: Change)
    ensures Apply(c, local, app, done + [ch]) == ApplyOne(c, local, Apply(c, local, app, done), ch)
    decreases |done|
  {
    if done == [] {
      assert done + [ch] == [ch];
    } else {
      assert (done + [ch])[1..] == done[1..] + [ch];
      ApplyStep(c, local, ApplyOne(c, local, app, done[0]), done[1..], ch);
    }
  }

  /** One verdict per repo object, in the order given. */
  function Verdicts(c: Codec, s: string, order: seq<string>, local: map<Key, Body>,
                    remote: map<Key, Body>, base: Baseline): seq<Change>
    requires forall n | n in order :: Key(s, n) in local
  {
    if order == [] then []
    else
      var k := Key(s, order[0]);
      [Change(k, ActionFor(c, k, local[k], remote, base))] + Verdicts(c, s, order[1..], local, remote, base)
  }

  lemma {:induction false} VerdictsExactly(c: Codec, s: string, order: seq<string>, local: map<Key, Body>,
                                           remote: map<Key, Body>, base: Baseline, ch: Change)
    requires forall n | n in order :: Key(s, n) in local
    ensures ch in Verdicts(c, s, order, local, remote, base) <==>
            && ch.key.surface == s && ch.key.name in order
            && ch.action == ActionFor(c, ch.key, local[ch.key], remote, base)
  {
    if order != [] {
      assert order == [order[0]] + order[1..];
      VerdictsExactly(c, s, order[1..], local, remote, base, ch);
    }
  }

  /** `classify`: the verdicts, then the app objects a pruning run removes. */
  method Classify(c: Codec, s: string, order: seq<string>, ids: seq<string>, local: map<Key, Body>,
                  remote: map<Key, Body>, base: Baseline, prune: bool)
    returns (changes: seq<Change>)
    requires forall n | n in order :: Key(s, n) in local
    ensures changes == Verdicts(c, s, order, local, remote, base)
                       + if prune then SurfaceDeletes(s, local, ids) else []
  {
    changes := [];
    var todo := order;
    while todo != []
      invariant forall n | n in todo :: Key(s, n) in local
      invariant changes + Verdicts(c, s, todo, local, remote, base) == Verdicts(c, s, order, local, remote, base)
    {
      var k := Key(s, todo[0]);
      changes := changes + [Change(k, ActionFor(c, k, local[k], remote, base))];
      todo := todo[1..];
    }
    if prune {
      changes := AppendDeletes(s, ids, local, changes);
    }
  }

  method AppendDeletes(s: string, ids: seq<string>, local: map<Key, Body>, changes: seq<Change>)
    returns (out: seq<Change>)
    ensures out == changes + SurfaceDeletes(s, local, ids)
  {
    out := changes;
    var todo := ids;
    while todo != []
      invariant out + SurfaceDeletes(s, local, todo) == changes + SurfaceDeletes(s, local, ids)
    {
      if Key(s, todo[0]) !in local {
        out := out + [Change(Key(s, todo[0]), Delete)];
      }
      todo := todo[1..];
    }
  }

  method AnyConflict(changes: seq<Change>) returns (found: bool)
    ensures found <==> exists ch | ch in changes :: ch.action == Conflict
  {
    found := false;
    for i := 0 to |changes|
      invariant found <==> exists ch | ch in changes[..i] :: ch.action == Conflict
    {
      assert changes[..i + 1] == changes[..i] + [changes[i]];
      found := found || changes[i].action == Conflict;
    }
    assert changes[..|changes|] == changes;
  }

  predicate ConflictIn(c: Codec, local: map<Key, Body>, remote: map<Key, Body>, base: Baseline, surfaces: seq<string>) {
    exists k | k in local :: k.surface in surfaces && ActionFor(c, k, local[k], remote, base) == Conflict
  }

  lemma ConflictsClassified(c: Codec, s: string, order: seq<string>, ids: seq<string>, local: map<Key, Body>,
                            remote: map<Key, Body>, base: Baseline, prune: bool)
    requires forall n :: n in order <==> Key(s, n) in local
    ensures var changes := Verdicts(c, s, order, local, remote, base)
                           + if prune then SurfaceDeletes(s, local, ids) else [];
            (exists ch | ch in changes :: ch.action == Conflict) <==> ConflictIn(c, local, remote, base, [s])
  {
    var verdicts := Verdicts(c, s, order, local, remote, base);
    var changes := verdicts + if prune then SurfaceDeletes(s, local, ids) else [];
    if ch :| ch in changes && ch.action == Conflict {
      VerdictsExactly(c, s, order, local, remote, base, ch);
      SurfaceDeletesExactly(s, local, ids, ch);
    }
    if k :| k in local && k.surface in [s] && ActionFor(c, k, local[k], remote, base) == Conflict {
      assert k == Key(s, k.name);
      VerdictsExactly(c, s, order, local, remote, base, Change(k, Conflict));
    }
  }

  /** The order in which a surface's repo objects are gone through. */
  function OrderOf(c: Codec, env: Listing, w: World, o: Options, s: string): seq<string> {
    Ordering.Peel(ReferencesOf(c, s, Local(c, w.files, o.surfaces)), env.files(s))
  }

  lemma OrderIsLocal(c: Codec, env: Listing, w: World, o: Options, s: string)
    requires ListsWorld(env, w) && Parses(c, w.files, o.surfaces) && s in o.surfaces
    ensures forall n :: n in OrderOf(c, env, w, o, s) <==> Key(s, n) in Local(c, w.files, o.surfaces)
  {
    var refs := ReferencesOf(c, s, Local(c, w.files, o.surfaces));
    assert Lists(env.files(s), s, w.files);
    Ordering.OrderedPermutes(refs, env.files(s));
    assert forall n :: n in OrderOf(c, env, w, o, s) <==> n in Ordering.Names(OrderOf(c, env, w, o, s));
    assert forall n :: n in env.files(s) <==> n in Ordering.Names(env.files(s));
  }

  /** What `classify` finds on one of the chosen surfaces. */
  function Classified(c: Codec, env: Listing, w: World, o: Options, s: string): seq<Change>
    requires ListsWorld(env, w) && Parses(c, w.files, o.surfaces) && s in o.surfaces
  {
    var local := Local(c, w.files, o.surfaces);
    OrderIsLocal(c, env, w, o, s);
    Verdicts(c, s, OrderOf(c, env, w, o, s), local, w.app, ReadState(w.state))
    + if o.prune && s in w.folders then SurfaceDeletes(s, local, env.ids(s)) else []
  }

  lemma ClassifiedConflicts(c: Codec, env: Listing, w: World, o: Options, s: string)
    requires ListsWorld(env, w) && Parses(c, w.files, o.surfaces) && s in o.surfaces
    ensures (exists ch | ch in Classified(c, env, w, o, s) :: ch.action == Conflict)
            <==> ConflictIn(c, Local(c, w.files, o.surfaces), w.app, ReadState(w.state), [s])
  {
    OrderIsLocal(c, env, w, o, s);
    ConflictsClassified(c, s, OrderOf(c, env, w, o, s), env.ids(s), Local(c, w.files, o.surfaces), w.app,
                        ReadState(w.state), o.prune && s in w.folders);
  }

  /** A conflict among the changes classified for any one chosen surface refuses the whole sync,
      which then changes nothing; when none is classified on any, it goes through. */
  lemma ConflictRefusesEverything(c: Codec, env: Listing, w: World, o: Options)
    requires ListsWorld(env, w) && Parses(c, w.files, o.surfaces) && !o.force
    ensures if exists s, ch :: s in o.surfaces && ch in Classified(c, env, w, o, s) && ch.action == Conflict
            then ConfigSync.Sync(c, env, w, o) == (w, Failure(Conflicts))
            else ConfigSync.Sync(c, env, w, o).1.Success?
  {
    var local, base := Local(c, w.files, o.surfaces), ReadState(w.state);
    if s, ch :| s in o.surfaces && ch in Classified(c, env, w, o, s) && ch.action == Conflict {
      ClassifiedConflicts(c, env, w, o, s);
      assert HasConflict(c, local, w.app, base);
    } else if HasConflict(c, local, w.app, base) {
      var k :| k in local && ActionFor(c, k, local[k], w.app, base) == Conflict;
      assert k.surface in o.surfaces && k.surface in [k.surface];
      assert ConflictIn(c, local, w.app, base, [k.surface]);
      ClassifiedConflicts(c, env, w, o, k.surface);
      assert false;
    }
  }

  /** The files a pull writes for the first few app objects of a surface. */
  function Written(c: Codec, app: map<Key, Body>, s: string, names: seq<string>): map<Key, string> {
    map k | k in app && k.surface == s && k.name in names :: c.serialize(s, app[k])
  }

  lemma WrittenStep(c: Codec, app: map<Key, Body>, s: string, names: seq<string>, files: map<Key, string>)
    requires names != [] && Key(s, names[0]) in app
    ensures var k := Key(s, names[0]);
            files[k := c.serialize(s, app[k])] + Written(c, app, s, names[1..]) == files + Written(c, app, s, names)
  {
  }

  lemma SyncChangesStep(c: Codec, env: Listing, w: World, local: map<Key, Body>, todo: seq<string>,
                        prune: bool, applied: seq<Change>)
    requires todo != []
    ensures applied + SyncChanges(c, env, w, local, todo, prune)
         == applied + SurfaceChanges(c, env, todo[0], local, w.app, ReadState(w.state), prune && todo[0] in w.folders)
            + SyncChanges(c, env, w, local, todo[1..], prune)
  {
  }

  lemma WriteThenDrop(c: Codec, app: map<Key, Body>, s: string, names: seq<string>,
                      files: map<Key, string>, base: Baseline)
    requires forall n :: n in names <==> Key(s, n) in app
    ensures var after := files + Written(c, app, s, names);
            after - (set k | k in after && k.surface == s && k in base && k !in app)
            == (files - set k | k in files && k.surface == s && k in base && k !in app)
               + map k | k in app && k.surface == s :: c.serialize(s, app[k])
  {
  }

  class Checkout {
    const codec: Codec
    var app: map<Key, Body>
    var files: map<Key, string>
    var folders: set<string>
    var state: StateFile

    constructor (codec: Codec, w: World)
      ensures this.codec == codec && Now() == w
    {
      this.codec := codec;
      app, files, folders, state := w.app, w.files, w.folders, w.state;
    }

    function Now(): World
      reads this
    {
      World(app, files, folders, state)
    }

    method Record(surfaces: seq<string>, subset: bool)
      modifies this`state
      ensures Now() == ConfigSync.Record(codec, old(Now()), surfaces, subset)
    {
      var table := map k | k in app && k.surface in surfaces :: Fingerprint(codec, k, app[k]);
      if subset {
        table := Off(ReadState(state), surfaces) + table;
      }
      state := WriteState(table);
    }

    /** Whether any chosen surface holds a conflict; nothing is written while looking. */
    method FindConflict(env: Listing, o: Options) returns (found: bool)
      requires ListsWorld(env, Now()) && Parses(codec, files, o.surfaces)
      ensures found == HasConflict(codec, Local(codec, files, o.surfaces), app, ReadState(state))
    {
      var local, base := Local(codec, files, o.surfaces), ReadState(state);
      found := false;
      for i := 0 to |o.surfaces|
        invariant found == ConflictIn(codec, local, app, base, o.surfaces[..i])
      {
        var s := o.surfaces[i];
        assert o.surfaces[..i + 1] == o.surfaces[..i] + [s];
        var order := DependencyOrder(env, o, s);
        var changes := Classify(codec, s, order, env.ids(s), local, app, base, o.prune && s in folders);
        ClassifiedConflicts(codec, env, Now(), o, s);
        var here := AnyConflict(changes);
        found := found || here;
      }
      assert o.surfaces[..|o.surfaces|] == o.surfaces;
    }

    /** The surface's repo objects in the order `local` hands them out. */
    method DependencyOrder(env: Listing, o: Options, s: string) returns (order: seq<string>)
      requires ListsWorld(env, Now()) && Parses(codec, files, o.surfaces) && s in o.surfaces
      ensures order == OrderOf(codec, env, Now(), o, s)
      ensures forall n :: n in order <==> Key(s, n) in Local(codec, files, o.surfaces)
    {
      order := Ordering.Ordered(env.files(s), ReferencesOf(codec, s, Local(codec, files, o.surfaces)));
      OrderIsLocal(codec, env, Now(), o, s);
    }

    method Sync(env: Listing, o: Options) returns (r: Result<seq<Change>, Refusal>)
      requires ListsWorld(env, Now())
      modifies this`app, this`state
      ensures (Now(), r) == ConfigSync.Sync(codec, env, old(Now()), o)
      ensures !o.force && Parses(codec, files, o.surfaces)
              && (exists s, ch :: s in o.surfaces && ch in Classified(codec, env, old(Now()), o, s)
                                  && ch.action == Conflict)
              ==> Now() == old(Now()) && r == Failure(Conflicts)
    {
      if Parses(codec, files, o.surfaces) && !o.force {
        ConflictRefusesEverything(codec, env, Now(), o);
      }
      if !Parses(codec, files, o.surfaces) {
        return Failure(Malformed);
      }
      var conflict := FindConflict(env, o);
      if conflict && !o.force {
        return Failure(Conflicts);
      }
      var applied := ApplyAll(env, o);
      if applied != [] {
        Record(o.surfaces, o.subset);
      }
      return Success(applied);
    }

    /** Every chosen surface in turn, compared with the app as it was at the start. */
    method ApplyAll(env: Listing, o: Options) returns (applied: seq<Change>)
      modifies this`app
      ensures var w, local := old(Now()), Local(codec, files, o.surfaces);
              && applied == SyncChanges(codec, env, w, local, o.surfaces, o.prune)
              && Now() == w.(app := Apply(codec, local, w.app, applied))
    {
      ghost var w := Now();
      var local, remote, base := Local(codec, files, o.surfaces), app, ReadState(state);
      applied := [];
      var todo := o.surfaces;
      while todo != []
        invariant app == Apply(codec, local, remote, applied)
        invariant applied + SyncChanges(codec, env, w, local, todo, o.prune)
               == SyncChanges(codec, env, w, local, o.surfaces, o.prune)
      {
        var s := todo[0];
        SyncChangesStep(codec, env, w, local, todo, o.prune, applied);
        applied := SyncSurface(env, s, local, remote, base, o.prune && s in folders, applied);
        todo := todo[1..];
      }
    }

    /** One surface: push in dependency order, then delete what a pruning run removes. */
    method SyncSurface(env: Listing, s: string, local: map<Key, Body>, remote: map<Key, Body>,
                       base: Baseline, prunes: bool, applied: seq<Change>)
      returns (out: seq<Change>)
      requires app == Apply(codec, local, remote, applied)
      modifies this`app
      ensures out == applied + SurfaceChanges(codec, env, s, local, remote, base, prunes)
      ensures app == Apply(codec, local, remote, out)
    {
      var order := Ordering.Ordered(env.files(s), ReferencesOf(codec, s, local));
      out := PushSurface(s, order, local, remote, base, applied);
      ghost var pushes := SurfacePushes(codec, s, local, remote, base, order);
      if prunes {
        out := PruneSurface(s, env.ids(s), local, remote, out);
        assert applied + pushes + SurfaceDeletes(s, local, env.ids(s))
            == applied + (pushes + SurfaceDeletes(s, local, env.ids(s)));
      } else {
        assert applied + (pushes + []) == applied + pushes;
      }
    }

    /** Push, in the given order, what the repo changed. */
    method PushSurface(s: string, order: seq<string>, local: map<Key, Body>, remote: map<Key, Body>,
                       base: Baseline, applied: seq<Change>)
      returns (out: seq<Change>)
      requires app == Apply(codec, local, remote, applied)
      modifies this`app
      ensures out == applied + SurfacePushes(codec, s, local, remote, base, order)
      ensures app == Apply(codec, local, remote, out)
    {
      out := applied;
      var todo := order;
      while todo != []
        invariant out + SurfacePushes(codec, s, local, remote, base, todo)
               == applied + SurfacePushes(codec, s, local, remote, base, order)
        invariant app == Apply(codec, local, remote, out)
      {
        var k := Key(s, todo[0]);
        if Pushes(codec, k, local, remote, base) {
          var ch := Change(k, PushAction(k, remote));
          ApplyStep(codec, local, remote, out, ch);
          app := app[k := codec.stored(k, local[k])];
          out := out + [ch];
        }
        todo := todo[1..];
      }
    }

    /** Delete the app objects the repo does not have. */
    method PruneSurface(s: string, ids: seq<string>, local: map<Key, Body>, remote: map<Key, Body>,
                        applied: seq<Change>)
      returns (out: seq<Change>)
      requires app == Apply(codec, local, remote, applied)
      modifies this`app
      ensures out == applied + SurfaceDeletes(s, local, ids)
      ensures app == Apply(codec, local, remote, out)
    {
      out := applied;
      var todo := ids;
      while todo != []
        invariant out + SurfaceDeletes(s, local, todo) == applied + SurfaceDeletes(s, local, ids)
        invariant app == Apply(codec, local, remote, out)
      {
        var k := Key(s, todo[0]);
        if k !in local {
          ApplyStep(codec, local, remote, out, Change(k, Delete));
          app := app - {k};
          out := out + [Change(k, Delete)];
        }
        todo := todo[1..];
      }
    }

    method Pull(env: Listing, surfaces: seq<string>, subset: bool) returns (r: Result<(), Refusal>)
      requires ListsWorld(env, Now())
      modifies this`files, this`folders, this`state
      ensures (Now(), r) == ConfigSync.Pull(codec, old(Now()), surfaces, subset)
    {
      var todo := surfaces;
      while todo != []
        invariant app == old(app) && state == old(state)
        invariant PullFiles(codec, Now(), todo) == PullFiles(codec, old(Now()), surfaces)
      {
        var s := todo[0];
        folders := folders + {s};
        if !Parses(codec, files, todo[..1]) {
          return Failure(Malformed);
        }
        assert Lists(env.ids(s), s, app);
        PullOne(env.ids(s), s);
        todo := todo[1..];
      }
      Record(surfaces, subset);
      return Success(());
    }

    /** Write every app object of a surface, then drop the files of objects gone upstream. */
    method PullOne(ids: seq<string>, s: string)
      requires Lists(ids, s, app)
      modifies this`files
      ensures Now() == PullSurface(codec, old(Now()), s)
    {
      var base, todo := ReadState(state), ids;
      while todo != []
        invariant forall n | n in todo :: n in ids
        invariant files + Written(codec, app, s, todo) == old(files) + Written(codec, app, s, ids)
      {
        WrittenStep(codec, app, s, todo, files);
        assert todo[0] in ids;
        files := files[Key(s, todo[0]) := codec.serialize(s, app[Key(s, todo[0])])];
        todo := todo[1..];
      }
      WriteThenDrop(codec, app, s, ids, old(files), base);
      assert files == old(files) + Written(codec, app, s, ids);
      files := files - set k | k in files && k.surface == s && k in base && k !in app;
    }
  }
}
