/** Three-way sync between a repo, an app and the record of the last pull.

    An object is addressed by its surface and its name. What a `Surface` supplies
    (canonical form, file format, references) and SHA-256 are functions of a `Codec`;
    `Faithful` lists what is expected of them. */
module ConfigSync {
  import opened Wrappers
  import Ordering

  datatype Key = Key(surface: string, name: string)

  /** A parsed object. */
  type Body(==, !new)

  datatype Codec = Codec(
    canonical: (Key, Body) -> string,               // the compared form, as sorted JSON
    serialize: (string, Body) -> string,
    deserialize: (string, string) -> Option<Body>,  // None: the file does not parse
    references: (string, Body) -> set<string>,
    stored: (Key, Body) -> Body,                    // what the app holds after a push
    sha: string -> string)

  const LEGACY: string := "v1:"
  const STATE_VERSION: int := 2

  ghost predicate Faithful(c: Codec) {
    && (forall a, b :: c.sha(a) == c.sha(b) ==> a == b)
    && (forall a :: c.sha(a) != "" && c.sha(a)[0] != 'v')
    && (forall k: Key, b ::
          && c.deserialize(k.surface, c.serialize(k.surface, b)).Some?
          && c.canonical(k, c.deserialize(k.surface, c.serialize(k.surface, b)).value) == c.canonical(k, b))
    && (forall k, b :: c.canonical(k, c.stored(k, b)) == c.canonical(k, b))
  }

  function Fingerprint(c: Codec, k: Key, b: Body): string {
    c.sha(c.canonical(k, b))
  }

  function V1Fingerprint(c: Codec, k: Key, b: Body): string {
    c.sha(c.serialize(k.surface, b))
  }

  /** Two files with one text hold one object. */
  lemma SameTextSameForm(c: Codec, k: Key, a: Body, b: Body)
    requires Faithful(c) && V1Fingerprint(c, k, a) == V1Fingerprint(c, k, b)
    ensures c.canonical(k, a) == c.canonical(k, b)
  {
  }

  // ---- The state file ------------------------------------------------------------

  datatype StateFile = Absent | Stored(version: int, table: map<Key, string>)

  type Baseline = map<Key, string>

  function ReadState(f: StateFile): Baseline {
    match f
    case Absent => map[]
    case Stored(version, table) =>
      map k | k in table :: if version == STATE_VERSION then table[k] else LEGACY + table[k]
  }

  function WriteState(b: Baseline): StateFile {
    Stored(STATE_VERSION, b)
  }

  predicate IsLegacy(mark: string) {
    LEGACY <= mark
  }

  // ---- Comparing three states -----------------------------------------------------

  datatype Action = Create | Update | Delete | Unchanged | Drift | Conflict

  /** The baseline digest of `k`, a v1 mark translated into whichever side kept still. */
  function Was(c: Codec, k: Key, body: Body, there: Body, base: Baseline): Option<string> {
    if k !in base then None
    else if !IsLegacy(base[k]) then Some(base[k])
    else
      var recorded := base[k][|LEGACY|..];
      if V1Fingerprint(c, k, there) == recorded then Some(Fingerprint(c, k, there))
      else if V1Fingerprint(c, k, body) == recorded then Some(Fingerprint(c, k, body))
      else Some("")
  }

  function ActionFor(c: Codec, k: Key, body: Body, remote: map<Key, Body>, base: Baseline): Action {
    if k !in remote then Create
    else
      var here, there := Fingerprint(c, k, body), Fingerprint(c, k, remote[k]);
      var was := Was(c, k, body, remote[k], base);
      if here == there then Unchanged
      else if was.None? then Update
      else if here == was.value then Drift
      else if there == was.value then Update
      else Conflict
  }

  /** A legacy digest of the object last pulled never blames the other side: the answer is
      the one the current digest would give, or a conflict. It is that answer exactly
      unless only one side's raw text, not its form, has moved. */
  lemma LegacyIsConservative(c: Codec, k: Key, body: Body, remote: map<Key, Body>,
                             pulled: Body, v1: Baseline, v2: Baseline)
    requires Faithful(c) && k in v1 && k in v2
    requires v1[k] == LEGACY + V1Fingerprint(c, k, pulled)
    requires v2[k] == Fingerprint(c, k, pulled)
    ensures var before, now := ActionFor(c, k, body, remote, v1), ActionFor(c, k, body, remote, v2);
            && (before == now || before == Conflict)
            && (now in {Drift, Conflict} ==> before != Update)
            && (before == now <==>
                || now in {Create, Unchanged, Conflict}
                || c.serialize(k.surface, remote[k]) == c.serialize(k.surface, pulled)
                || c.serialize(k.surface, body) == c.serialize(k.surface, pulled))
  {
    assert v1[k][|LEGACY|..] == V1Fingerprint(c, k, pulled);
    assert !IsLegacy(v2[k]) by { assert v2[k][0] != 'v' && LEGACY[0] == 'v'; }
    if k in remote {
      if V1Fingerprint(c, k, remote[k]) == V1Fingerprint(c, k, pulled) {
        SameTextSameForm(c, k, remote[k], pulled);
      }
      if V1Fingerprint(c, k, body) == V1Fingerprint(c, k, pulled) {
        SameTextSameForm(c, k, body, pulled);
      }
    }
  }

  // ---- The world a checkout acts on -------------------------------------------------

  datatype World = World(
    app: map<Key, Body>,
    files: map<Key, string>,
    folders: set<string>,
    state: StateFile)

  /** The order in which a surface's files and app objects are listed. */
  datatype Listing = Listing(files: string -> seq<string>, ids: string -> seq<string>)

  ghost predicate Lists<V>(names: seq<string>, surface: string, m: map<Key, V>) {
    && Ordering.Distinct(names)
    && forall n :: n in names <==> Key(surface, n) in m
  }

  ghost predicate ListsWorld(env: Listing, w: World) {
    && (forall s :: Lists(env.files(s), s, w.files))
    && (forall s :: Lists(env.ids(s), s, w.app))
  }

  predicate Parses(c: Codec, files: map<Key, string>, surfaces: seq<string>) {
    forall k | k in files && k.surface in surfaces :: c.deserialize(k.surface, files[k]).Some?
  }

  /** The repo's objects of the chosen surfaces. */
  function Local(c: Codec, files: map<Key, string>, surfaces: seq<string>): map<Key, Body> {
    map k | k in files && k.surface in surfaces && c.deserialize(k.surface, files[k]).Some?
      :: c.deserialize(k.surface, files[k]).value
  }

  function On<V>(m: map<Key, V>, surfaces: seq<string>): map<Key, V> {
    map k | k in m && k.surface in surfaces :: m[k]
  }

  function Off<V>(m: map<Key, V>, surfaces: seq<string>): map<Key, V> {
    map k | k in m && k.surface !in surfaces :: m[k]
  }

  /** The baseline becomes what the app holds; a subset run keeps the other surfaces'. */
  function Record(c: Codec, w: World, surfaces: seq<string>, subset: bool): World {
    var seen := map k | k in w.app && k.surface in surfaces :: Fingerprint(c, k, w.app[k]);
    w.(state := WriteState(if subset then Off(ReadState(w.state), surfaces) + seen else seen))
  }

  // ---- sync ---------------------------------------------------------------------------

  datatype Change = Change(key: Key, action: Action)

  datatype Refusal = Malformed | Conflicts

  /** `sync` skips what is unchanged and what only the app changed. */
  predicate Pushes(c: Codec, k: Key, local: map<Key, Body>, remote: map<Key, Body>, base: Baseline) {
    k in local && ActionFor(c, k, local[k], remote, base) !in {Unchanged, Drift}
  }

  function PushAction(k: Key, remote: map<Key, Body>): Action {
    if k in remote then Update else Create
  }

  function SurfacePushes(c: Codec, s: string, local: map<Key, Body>, remote: map<Key, Body>,
                         base: Baseline, order: seq<string>): seq<Change>
  {
    if order == [] then []
    else
      var k := Key(s, order[0]);
      (if Pushes(c, k, local, remote, base) then [Change(k, PushAction(k, remote))] else [])
      + SurfacePushes(c, s, local, remote, base, order[1..])
  }

  function SurfaceDeletes(s: string, local: map<Key, Body>, ids: seq<string>): seq<Change> {
    if ids == [] then []
    else
      (if Key(s, ids[0]) !in local then [Change(Key(s, ids[0]), Delete)] else [])
      + SurfaceDeletes(s, local, ids[1..])
  }

  function ReferencesOf(c: Codec, s: string, local: map<Key, Body>): Ordering.References {
    n => if Key(s, n) in local then c.references(s, local[Key(s, n)]) else {}
  }

  /** One surface: the pushes in dependency order, then the pruned objects. */
  function SurfaceChanges(c: Codec, env: Listing, s: string, local: map<Key, Body>,
                          remote: map<Key, Body>, base: Baseline, prunes: bool): seq<Change>
  {
    SurfacePushes(c, s, local, remote, base,
                  Ordering.Peel(ReferencesOf(c, s, local), env.files(s)))
    + if prunes then SurfaceDeletes(s, local, env.ids(s)) else []
  }

  function SyncChanges(c: Codec, env: Listing, w: World, local: map<Key, Body>,
                       surfaces: seq<string>, prune: bool): seq<Change>
  {
    if surfaces == [] then []
    else
      SurfaceChanges(c, env, surfaces[0], local, w.app, ReadState(w.state),
                     prune && surfaces[0] in w.folders)
      + SyncChanges(c, env, w, local, surfaces[1..], prune)
  }

  function ApplyOne(c: Codec, local: map<Key, Body>, app: map<Key, Body>, change: Change): map<Key, Body> {
    if change.action == Delete then app - {change.key}
    else if change.key in local then app[change.key := c.stored(change.key, local[change.key])]
    else app
  }

  function Apply(c: Codec, local: map<Key, Body>, app: map<Key, Body>, changes: seq<Change>): map<Key, Body>
    decreases |changes|
  {
    if changes == [] then app
    else Apply(c, local, ApplyOne(c, local, app, changes[0]), changes[1..])
  }

  predicate HasConflict(c: Codec, local: map<Key, Body>, remote: map<Key, Body>, base: Baseline) {
    exists k | k in local :: ActionFor(c, k, local[k], remote, base) == Conflict
  }

  datatype Options = Options(surfaces: seq<string>, subset: bool, prune: bool, force: bool)

  /** The whole verb: the world it leaves and what it reports. */
  function Sync(c: Codec, env: Listing, w: World, o: Options): (World, Result<seq<Change>, Refusal>) {
    if !Parses(c, w.files, o.surfaces) then (w, Failure(Malformed))
    else
      var local := Local(c, w.files, o.surfaces);
      if HasConflict(c, local, w.app, ReadState(w.state)) && !o.force then (w, Failure(Conflicts))
      else
        var applied := SyncChanges(c, env, w, local, o.surfaces, o.prune);
        if applied == [] then (w, Success([]))
        else (Record(c, w.(app := Apply(c, local, w.app, applied)), o.surfaces, o.subset), Success(applied))
  }

  // ---- pull ---------------------------------------------------------------------------

  /** Every app object is written; a file is dropped only when the baseline knew it. */
  function PullSurface(c: Codec, w: World, s: string): World {
    var gone := set k | k in w.files && k.surface == s && k in ReadState(w.state) && k !in w.app;
    w.(files := (w.files - gone) + map k | k in w.app && k.surface == s :: c.serialize(s, w.app[k]))
  }

  /** Surface by surface; a file that does not parse stops the pull where it stands. */
  function PullFiles(c: Codec, w: World, surfaces: seq<string>): (World, bool)
    decreases |surfaces|
  {
    if surfaces == [] then (w, true)
    else
      var made := w.(folders := w.folders + {surfaces[0]});
      if !Parses(c, w.files, surfaces[..1]) then (made, false)
      else PullFiles(c, PullSurface(c, made, surfaces[0]), surfaces[1..])
  }

  function Pull(c: Codec, w: World, surfaces: seq<string>, subset: bool): (World, Result<(), Refusal>) {
    var (pulled, ok) := PullFiles(c, w, surfaces);
    if ok then (Record(c, pulled, surfaces, subset), Success(())) else (pulled, Failure(Malformed))
  }
}
