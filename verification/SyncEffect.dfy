/** What one `sync` changes, object by object. */
module SyncEffect {
  import opened ConfigSync
  import Ordering

  // ---- Applying a list of changes ---------------------------------------------------

  predicate Touches(changes: seq<Change>, k: Key) {
    exists ch | ch in changes :: ch.key == k
  }

  ghost predicate SameAt(a: map<Key, Body>, b: map<Key, Body>, k: Key) {
    (k in a <==> k in b) && (k in a && k in b ==> a[k] == b[k])
  }

  lemma {:induction false} ApplyUntouched(c: Codec, local: map<Key, Body>, app: map<Key, Body>,
                                          changes: seq<Change>, k: Key)
    requires !Touches(changes, k)
    ensures SameAt(Apply(c, local, app, changes), app, k)
    decreases |changes|
  {
    if changes != [] {
      assert changes[0] in changes;
      ApplyUntouched(c, local, ApplyOne(c, local, app, changes[0]), changes[1..], k);
    }
  }

  lemma {:induction false} ApplyPushed(c: Codec, local: map<Key, Body>, app: map<Key, Body>,
                                       changes: seq<Change>, k: Key)
    requires Touches(changes, k) && k in local
    requires forall ch | ch in changes && ch.key == k :: ch.action != Delete
    ensures var after := Apply(c, local, app, changes); k in after && after[k] == c.stored(k, local[k])
    decreases |changes|
  {
    var next := ApplyOne(c, local, app, changes[0]);
    assert changes == [changes[0]] + changes[1..];
    assert changes[0] in changes;
    if Touches(changes[1..], k) {
      ApplyPushed(c, local, next, changes[1..], k);
    } else {
      ApplyUntouched(c, local, next, changes[1..], k);
    }
  }

  lemma {:induction false} ApplyDeleted(c: Codec, local: map<Key, Body>, app: map<Key, Body>,
                                        changes: seq<Change>, k: Key)
    requires Touches(changes, k)
    requires forall ch | ch in changes && ch.key == k :: ch.action == Delete
    ensures k !in Apply(c, local, app, changes)
    decreases |changes|
  {
    var next := ApplyOne(c, local, app, changes[0]);
    assert changes == [changes[0]] + changes[1..];
    assert changes[0] in changes;
    if Touches(changes[1..], k) {
      ApplyDeleted(c, local, next, changes[1..], k);
    } else {
      ApplyUntouched(c, local, next, changes[1..], k);
    }
  }

  // ---- Which changes a sync makes ------------------------------------------------------

  lemma {:induction false} SurfacePushesExactly(c: Codec, s: string, local: map<Key, Body>,
                                                remote: map<Key, Body>, base: Baseline,
                                                order: seq<string>, ch: Change)
    ensures ch in SurfacePushes(c, s, local, remote, base, order) <==>
            && ch.key.surface == s && ch.key.name in order
            && Pushes(c, ch.key, local, remote, base) && ch.action == PushAction(ch.key, remote)
  {
    if order != [] {
      assert order == [order[0]] + order[1..];
      SurfacePushesExactly(c, s, local, remote, base, order[1..], ch);
    }
  }

  lemma {:induction false} SurfaceDeletesExactly(s: string, local: map<Key, Body>, ids: seq<string>, ch: Change)
    ensures ch in SurfaceDeletes(s, local, ids) <==>
            ch.key.surface == s && ch.key.name in ids && ch.key !in local && ch.action == Delete
  {
    if ids != [] {
      assert ids == [ids[0]] + ids[1..];
      SurfaceDeletesExactly(s, local, ids[1..], ch);
    }
  }

  predicate Prunes(w: World, o: Options, k: Key, local: map<Key, Body>) {
    o.prune && k.surface in w.folders && k in w.app && k !in local
  }

  predicate Makes(c: Codec, w: World, o: Options, local: map<Key, Body>, ch: Change) {
    || (&& Pushes(c, ch.key, local, w.app, ReadState(w.state))
        && ch.action == PushAction(ch.key, w.app))
    || (Prunes(w, o, ch.key, local) && ch.action == Delete)
  }

  lemma SurfaceChangesExactly(c: Codec, env: Listing, w: World, o: Options, local: map<Key, Body>,
                              s: string, ch: Change)
    requires ListsWorld(env, w)
    requires forall k | k in local :: k in w.files
    ensures ch in SurfaceChanges(c, env, s, local, w.app, ReadState(w.state), o.prune && s in w.folders)
            <==> ch.key.surface == s && Makes(c, w, o, local, ch)
  {
    var refs := ReferencesOf(c, s, local);
    var order := Ordering.Peel(refs, env.files(s));
    Ordering.OrderedPermutes(refs, env.files(s));
    assert ch.key.name in order <==> ch.key.name in Ordering.Names(order);
    assert ch.key.name in env.files(s) <==> ch.key.name in Ordering.Names(env.files(s));
    assert Lists(env.files(s), s, w.files) && Lists(env.ids(s), s, w.app);
    SurfacePushesExactly(c, s, local, w.app, ReadState(w.state), order, ch);
    SurfaceDeletesExactly(s, local, env.ids(s), ch);
  }

  lemma {:induction false} SyncChangesExactly(c: Codec, env: Listing, w: World, o: Options,
                                              local: map<Key, Body>, surfaces: seq<string>, ch: Change)
    requires ListsWorld(env, w)
    requires forall k | k in local :: k in w.files
    ensures ch in SyncChanges(c, env, w, local, surfaces, o.prune) <==>
            ch.key.surface in surfaces && Makes(c, w, o, local, ch)
  {
    if surfaces != [] {
      assert surfaces == [surfaces[0]] + surfaces[1..];
      SurfaceChangesExactly(c, env, w, o, local, surfaces[0], ch);
      SyncChangesExactly(c, env, w, o, local, surfaces[1..], ch);
    }
  }

  /** The app after a sync, at every object: pushed, pruned or untouched. */
  lemma SyncedApp(c: Codec, env: Listing, w: World, o: Options, k: Key)
    requires ListsWorld(env, w)
    ensures var local := Local(c, w.files, o.surfaces);
            var after := Apply(c, local, w.app, SyncChanges(c, env, w, local, o.surfaces, o.prune));
            if k.surface !in o.surfaces then SameAt(after, w.app, k)
            else if Pushes(c, k, local, w.app, ReadState(w.state)) then
              k in after && after[k] == c.stored(k, local[k])
            else if Prunes(w, o, k, local) then k !in after
            else SameAt(after, w.app, k)
  {
    var local := Local(c, w.files, o.surfaces);
    var changes := SyncChanges(c, env, w, local, o.surfaces, o.prune);
    forall ch: Change | ch.key == k
      ensures ch in changes <==> k.surface in o.surfaces && Makes(c, w, o, local, ch)
    {
      SyncChangesExactly(c, env, w, o, local, o.surfaces, ch);
    }
    var push, delete := Change(k, PushAction(k, w.app)), Change(k, Delete);
    if k.surface in o.surfaces && Pushes(c, k, local, w.app, ReadState(w.state)) {
      assert push in changes;
      ApplyPushed(c, local, w.app, changes, k);
    } else if k.surface in o.surfaces && Prunes(w, o, k, local) {
      assert delete in changes;
      ApplyDeleted(c, local, w.app, changes, k);
    } else {
      ApplyUntouched(c, local, w.app, changes, k);
    }
  }

  /** A sync reports nothing exactly when there is nothing to push or prune. */
  lemma NothingToApply(c: Codec, env: Listing, w: World, o: Options)
    requires ListsWorld(env, w)
    ensures var local := Local(c, w.files, o.surfaces);
            SyncChanges(c, env, w, local, o.surfaces, o.prune) == [] <==>
            forall k: Key | k.surface in o.surfaces ::
              !Pushes(c, k, local, w.app, ReadState(w.state)) && !Prunes(w, o, k, local)
  {
    var local := Local(c, w.files, o.surfaces);
    var changes := SyncChanges(c, env, w, local, o.surfaces, o.prune);
    if changes != [] {
      SyncChangesExactly(c, env, w, o, local, o.surfaces, changes[0]);
    }
    forall k: Key | k.surface in o.surfaces && changes == []
      ensures !Pushes(c, k, local, w.app, ReadState(w.state)) && !Prunes(w, o, k, local)
    {
      SyncChangesExactly(c, env, w, o, local, o.surfaces, Change(k, PushAction(k, w.app)));
      SyncChangesExactly(c, env, w, o, local, o.surfaces, Change(k, Delete));
    }
  }
}
