/** What a module's statements mean, and when its slice keeps that.

    A statement reads names and either fails, which stops the module, or gives each name it binds
    a value made from what it read. A value may also look names up later, whenever it is used: a
    function's body does, and so may anything made from a function. What a name stands for is
    therefore its value and, as they stand then, the values of all the names it may come to look
    up. */
module SliceMeaning {
  import opened Wrappers
  import opened Slicer

  // ---- What a statement reads, and when -------------------------------------------------------------

  /** The names an expression reads, at once or later. */
  function Reads(e: Expr): set<string> {
    match e
    case Name(id) => {id}
    case Attribute(value, _) => Reads(value)
    case Call(func, args) => Reads(func) + AllReads(args)
    case Tuple(elts) => AllReads(elts)
    case Starred(value) => Reads(value)
    case Subscript(value, index) => Reads(value) + Reads(index)
    case Named(_, value) => Reads(value)
    case Form(parts, locals) => AllReads(parts) - locals
    case Deferred(parts, locals) => AllReads(parts) - locals
  }

  function AllReads(es: seq<Expr>): set<string> {
    set e, n | e in es && n in Reads(e) :: n
  }

  /** The names it reads as it is evaluated. */
  function Now(e: Expr): set<string> {
    match e
    case Name(id) => {id}
    case Attribute(value, _) => Now(value)
    case Call(func, args) => Now(func) + AllNow(args)
    case Tuple(elts) => AllNow(elts)
    case Starred(value) => Now(value)
    case Subscript(value, index) => Now(value) + Now(index)
    case Named(_, value) => Now(value)
    case Form(parts, locals) => AllNow(parts) - locals
    case Deferred(_, _) => {}
  }

  function AllNow(es: seq<Expr>): set<string> {
    set e, n | e in es && n in Now(e) :: n
  }

  /** The names its value looks up when it is used. */
  function Later(e: Expr): set<string> {
    match e
    case Name(_) => {}
    case Attribute(value, _) => Later(value)
    case Call(func, args) => Later(func) + AllLater(args)
    case Tuple(elts) => AllLater(elts)
    case Starred(value) => Later(value)
    case Subscript(value, index) => Later(value) + Later(index)
    case Named(_, value) => Later(value)
    case Form(parts, locals) => AllLater(parts) - locals
    case Deferred(parts, locals) => AllReads(parts) - locals
  }

  function AllLater(es: seq<Expr>): set<string> {
    set e, n | e in es && n in Later(e) :: n
  }

  /** The names an assignment to a target rebinds. Writing into an object changes what the name
      at its root stands for. */
  function TargetBinds(t: Expr): set<string> {
    match t
    case Name(id) => {id}
    case Tuple(elts) => AllTargetBinds(elts)
    case Starred(value) => TargetBinds(value)
    case Attribute(value, _) => TargetBinds(value)
    case Subscript(value, _) => TargetBinds(value)
    case _ => {}
  }

  function AllTargetBinds(ts: seq<Expr>): set<string> {
    set t, n | t in ts && n in TargetBinds(t) :: n
  }

  function TargetNow(t: Expr): set<string> {
    match t
    case Name(_) => {}
    case Tuple(elts) => AllTargetNow(elts)
    case Starred(value) => TargetNow(value)
    case _ => Now(t)
  }

  function AllTargetNow(ts: seq<Expr>): set<string> {
    set t, n | t in ts && n in TargetNow(t) :: n
  }

  /** The names an expression itself binds as it is evaluated. */
  function Walrus(e: Expr): set<string> {
    match e
    case Name(_) => {}
    case Attribute(value, _) => Walrus(value)
    case Call(func, args) => Walrus(func) + AllWalrus(args)
    case Tuple(elts) => AllWalrus(elts)
    case Starred(value) => Walrus(value)
    case Subscript(value, index) => Walrus(value) + Walrus(index)
    case Named(id, value) => {id} + Walrus(value)
    case Form(parts, _) => AllWalrus(parts)
    case Deferred(_, _) => {}
  }

  function AllWalrus(es: seq<Expr>): set<string> {
    set e, n | e in es && n in Walrus(e) :: n
  }

  // ---- Imports --------------------------------------------------------------------------------------

  /** What an import loads into a package is kept under the package's path and a dot, which is
      no identifier: importing `a.b.c` adds to what `a` and `a.b` hold. */
  function Packages(path: string): set<string> {
    set i | 0 <= i < |path| && path[i] == '.' :: path[..i + 1]
  }

  predicate Dotted(n: string) {
    '.' in n
  }

  /** The module an alias imports. */
  function PathOf(s: Stmt, a: Alias): string {
    if s.ImportFrom? then s.origin + "." + a.name else a.name
  }

  /** The module the name it binds stands for: without `as`, a dotted import binds the package. */
  function HandleOf(s: Stmt, a: Alias): string {
    if s.Import? && !(a.asname.Some? && a.asname.value != "") then Root(a.name) else PathOf(s, a)
  }

  function Imported(s: Stmt): seq<Alias> {
    if s.Import? || s.ImportFrom? then s.aliases else []
  }

  function Loaded(s: Stmt): set<string> {
    set a, p | a in Imported(s) && p in Packages(PathOf(s, a)) :: p
  }

  /** A name bound to a module looks up what that module holds. */
  function Handles(s: Stmt, n: string): set<string> {
    set a | a in Imported(s) && n in AliasNames([a]) :: HandleOf(s, a) + "."
  }

  // ---- Statements -----------------------------------------------------------------------------------

  function Binds(s: Stmt): set<string> {
    match s
    case Import(_, aliases) => AliasNames(aliases) + Loaded(s)
    case ImportFrom(_, _, aliases) => AliasNames(aliases) + Loaded(s)
    case Def(_, name, decorators, header, _, _) => {name} + AllWalrus(decorators) + AllWalrus(header)
    case Class(_, name, decorators, header, _) => {name} + AllWalrus(decorators) + AllWalrus(header)
    case Assign(_, targets, value) => AllTargetBinds(targets) + AllWalrus(targets) + Walrus(value)
    case AnnAssign(_, target, annotation, given) =>
      Walrus(annotation) + if given.Some? then TargetBinds(target) + Walrus(target) + Walrus(given.value) else {}
    case Other(_, binds, _, _) => binds
  }

  /** What a statement reads as it runs, and may fail on. */
  function Needs(s: Stmt): set<string> {
    match s
    case Import(_, _) => {}
    case ImportFrom(_, _, _) => {}
    case Assign(_, targets, value) => AllTargetNow(targets) + Now(value)
    case AnnAssign(_, target, annotation, given) =>
      Now(annotation) + if given.Some? then TargetNow(target) + Now(given.value) else {}
    case Def(_, _, decorators, header, _, _) => AllNow(decorators) + AllNow(header)
    case Class(_, _, decorators, header, body) => AllNow(decorators) + AllNow(header) + Now(body)
    case Other(_, _, loads, _) => loads
  }

  /** What the value it gives a name is made from; an import adds to what the package holds. */
  function NowOf(s: Stmt, n: string): set<string> {
    if s.Import? || s.ImportFrom? then {n} * Loaded(s) else Needs(s)
  }

  /** What that value looks up later by itself. */
  function LaterOf(s: Stmt, n: string): set<string> {
    match s
    case Import(_, _) => Handles(s, n)
    case ImportFrom(_, _, _) => Handles(s, n)
    case Assign(_, targets, value) => AllLater(targets) + Later(value)
    case AnnAssign(_, target, annotation, given) =>
      Later(target) + Later(annotation) + if given.Some? then Later(given.value) else {}
    case Def(_, _, decorators, header, code, locals) =>
      AllLater(decorators) + AllLater(header) + (AllReads(code) - locals)
    case Class(_, _, decorators, header, body) => AllLater(decorators) + AllLater(header) + Later(body)
    case Other(_, _, _, looks) => looks
  }

  // ---- Looking names up -----------------------------------------------------------------------------

  /** For each name, the names its value may look up. */
  type Looks = map<string, set<string>>

  function LooksOf(late: Looks, n: string): set<string> {
    if n in late then late[n] else {}
  }

  function Looked(late: Looks, names: set<string>): set<string> {
    set k, x | k in names && x in LooksOf(late, k) :: x
  }

  function Anywhere(late: Looks): set<string> {
    set k, x | k in late && x in late[k] :: x
  }

  /** All that using these names may come to look up. */
  function Reach(late: Looks, names: set<string>): set<string>
    decreases |Anywhere(late) - names|
  {
    var more := names + Looked(late, names);
    if more == names then names else
    GrowthIsBounded(late, names);
    Reach(late, more)
  }

  lemma GrowthIsBounded(late: Looks, names: set<string>)
    requires names + Looked(late, names) != names
    ensures |Anywhere(late) - (names + Looked(late, names))| < |Anywhere(late) - names|
  {
    var x :| x in Looked(late, names) && x !in names;
    var k :| k in names && x in LooksOf(late, k);
    assert x in Anywhere(late);
    Fewer(Anywhere(late) - (names + Looked(late, names)), Anywhere(late) - names, x);
  }

  lemma Fewer(a: set<string>, b: set<string>, x: string)
    requires a <= b && x in b && x !in a
    ensures |a| < |b|
  {
    assert a <= b - {x};
    Within(a, b - {x});
  }

  lemma {:induction false} Within(a: set<string>, b: set<string>)
    requires a <= b
    ensures |a| <= |b|
    decreases a
  {
    if x :| x in a {
      Within(a - {x}, b - {x});
    }
  }

  lemma {:induction false} ReachIsClosed(late: Looks, names: set<string>)
    ensures names <= Reach(late, names) && Looked(late, Reach(late, names)) <= Reach(late, names)
    decreases |Anywhere(late) - names|
  {
    var more := names + Looked(late, names);
    if more != names {
      GrowthIsBounded(late, names);
      ReachIsClosed(late, more);
    }
  }

  lemma {:induction false} ReachIsLeast(late: Looks, names: set<string>, all: set<string>)
    requires names <= all && Looked(late, all) <= all
    ensures Reach(late, names) <= all
    decreases |Anywhere(late) - names|
  {
    var more := names + Looked(late, names);
    if more != names {
      GrowthIsBounded(late, names);
      forall x | x in Looked(late, names) ensures x in all {
        assert x in Looked(late, all);
      }
      ReachIsLeast(late, more, all);
    }
  }

  /** What is reached depends only on what is reached. */
  lemma ReachAlike(a: Looks, b: Looks, names: set<string>)
    requires forall n | n in Reach(a, names) :: LooksOf(a, n) == LooksOf(b, n)
    ensures Reach(b, names) == Reach(a, names)
  {
    var r := Reach(a, names);
    ReachIsClosed(a, names);
    LookedAlike(a, b, r);
    ReachIsLeast(b, names, r);
    var q := Reach(b, names);
    ReachIsClosed(b, names);
    LookedAlike(a, b, q);
    ReachIsLeast(a, names, q);
  }

  lemma LookedAlike(a: Looks, b: Looks, names: set<string>)
    requires forall n | n in names :: LooksOf(a, n) == LooksOf(b, n)
    ensures Looked(a, names) == Looked(b, names)
  {
  }

  /** A name reached is asked for, or something reached looks it up. */
  lemma ReachedHow(late: Looks, names: set<string>, x: string)
    requires x in Reach(late, names) && x !in names
    ensures exists k :: k in Reach(late, names) && x in LooksOf(late, k)
  {
    var r := Reach(late, names);
    ReachIsClosed(late, names);
    var all := names + Looked(late, r);
    assert Looked(late, all) <= Looked(late, r);
    ReachIsLeast(late, names, all);
  }

  // ---- Running --------------------------------------------------------------------------------------

  /** What each statement gives each name it binds, from what that is made from; on what readings
      it fails; and what each feature import binds. */
  datatype Interp<!Val> = Interp(
    value: (Stmt, string, map<string, Val>) -> Val,
    fails: (Stmt, map<string, Val>) -> bool,
    feature: string -> Val)

  datatype Env<Val> = Env(vals: map<string, Val>, late: Looks)

  function Restrict<Val>(vals: map<string, Val>, names: set<string>): map<string, Val> {
    map n | n in vals && n in names :: vals[n]
  }

  /** What the value a statement gives a name looks up: its own, and all its makings may. */
  function GivenLooks(s: Stmt, late: Looks, n: string): set<string> {
    LaterOf(s, n) + Looked(late, Reach(late, NowOf(s, n)))
  }

  function ExecLooks(s: Stmt, late: Looks): Looks {
    if IsFuture(s) then late else late + map n | n in Binds(s) :: GivenLooks(s, late, n)
  }

  function ExecVals<Val>(m: Interp<Val>, s: Stmt, env: Env<Val>): map<string, Val> {
    if IsFuture(s) then env.vals
    else env.vals + map n | n in Binds(s) :: m.value(s, n, Restrict(env.vals, Reach(env.late, NowOf(s, n))))
  }

  function Exec<Val>(m: Interp<Val>, s: Stmt, env: Env<Val>): Env<Val> {
    Env(ExecVals(m, s, env), ExecLooks(s, env.late))
  }

  /** The statement, decorators apart, fails on what it reads. */
  predicate FailsBare<Val>(m: Interp<Val>, s: Stmt, env: Env<Val>) {
    m.fails(s, Restrict(env.vals, Reach(env.late, Needs(s))))
  }

  /** A definition is first made as it stands without its decorators. */
  predicate Fails<Val>(m: Interp<Val>, s: Stmt, env: Env<Val>) {
    !IsFuture(s) && (FailsBare(m, Bare(s), env) || (Bare(s) != s && FailsBare(m, s, env)))
  }

  predicate RunsThrough<Val>(m: Interp<Val>, body: seq<Stmt>, env: Env<Val>)
    decreases |body|
  {
    body == [] || (!Fails(m, body[0], env) && RunsThrough(m, body[1..], Exec(m, body[0], env)))
  }

  /** What the statements leave, if none fails. */
  function Body<Val>(m: Interp<Val>, body: seq<Stmt>, env: Env<Val>): Env<Val>
    decreases |body|
  {
    if body == [] then env else Body(m, body[1..], Exec(m, body[0], env))
  }

  function FeatureEnv<Val>(m: Interp<Val>, body: seq<Stmt>): map<string, Val> {
    map n | n in Features(body) :: m.feature(n)
  }

  function Start<Val>(m: Interp<Val>, body: seq<Stmt>, given: map<string, Val>): Env<Val> {
    Env(given + FeatureEnv(m, body), map[])
  }

  /** Running a module on names given from outside, unless a statement fails. */
  function Run<Val>(m: Interp<Val>, body: seq<Stmt>, given: map<string, Val>): Option<Env<Val>> {
    var start := Start(m, body, given);
    if RunsThrough(m, body, start) then Some(Body(m, body, start)) else None
  }

  ghost predicate AlikeAt<Val>(a: Env<Val>, b: Env<Val>, n: string) {
    && (n in a.vals <==> n in b.vals) && (n in a.vals ==> a.vals[n] == b.vals[n])
    && LooksOf(a.late, n) == LooksOf(b.late, n)
  }

  ghost predicate Alike<Val>(a: Env<Val>, b: Env<Val>, names: set<string>) {
    forall n | n in names :: AlikeAt(a, b, n)
  }

  /** The wanted names stand for the same: they and all they may come to look up are alike. */
  ghost predicate SameMeaning<Val>(a: Env<Val>, b: Env<Val>, wanted: set<string>) {
    Alike(a, b, Reach(a.late, wanted))
  }

  /** When the first run goes through, so does the second, with the same meaning. */
  ghost predicate FollowsRun<Val>(a: Option<Env<Val>>, b: Option<Env<Val>>, wanted: set<string>) {
    a.Some? ==> b.Some? && SameMeaning(a.value, b.value, wanted)
  }

  // ---- When the slice keeps it ----------------------------------------------------------------------

  /** What a statement's names that matter afterwards are made from. */
  function Makings(s: Stmt, late: Looks, after: set<string>): set<string> {
    set n, x | n in Binds(s) * after && x in Reach(late, NowOf(s, n)) :: x
  }

  /** What a statement of the slice reads as it runs, whether anything it binds matters or not. */
  function ReadsIfKept(s: Stmt, late: Looks, kept: bool): set<string> {
    if kept && !IsFuture(s) then Reach(late, Needs(Bare(s))) else {}
  }

  function MattersAbove(s: Stmt, late: Looks, after: set<string>): set<string> {
    if IsFuture(s) || Binds(s) * after == {} then after else (after - Binds(s)) + Makings(s, late, after)
  }

  function LiveAbove(s: Stmt, late: Looks, after: set<string>, kept: bool): set<string> {
    MattersAbove(s, late, after) + ReadsIfKept(s, late, kept)
  }

  /** The first statement is in the slice. */
  predicate KeepsFirst(body: seq<Stmt>, wanted: set<string>)
    requires body != []
  {
    Keeps(body[0], Wanted(body[1..], wanted))
  }

  /** The names that matter before the statements run, for those of the slice to run through and
      the wanted names to mean what they do. `late` says what may be looked up through the names
      already bound. */
  function Live(body: seq<Stmt>, late: Looks, wanted: set<string>): set<string>
    decreases |body|
  {
    if body == [] then Reach(late, wanted)
    else LiveAbove(body[0], late, Live(body[1..], ExecLooks(body[0], late), wanted), KeepsFirst(body, wanted))
  }

  function LooksAt(body: seq<Stmt>, late: Looks, i: nat): Looks
    requires i <= |body|
    decreases i
  {
    if i == 0 then late else LooksAt(body[1..], ExecLooks(body[0], late), i - 1)
  }

  /** A statement whose effect is needed is left out, or loses its decorators. */
  predicate Lost(body: seq<Stmt>, late: Looks, wanted: set<string>, i: nat)
    requires i < |body|
  {
    var s := body[i];
    && !IsFuture(s)
    && Binds(s) * Live(body[i + 1..], LooksAt(body, late, i + 1), wanted) != {}
    && !(Keeps(s, Wanted(body[i + 1..], wanted)) && Bare(s) == s)
  }

  ghost predicate NoneLost(body: seq<Stmt>, late: Looks, wanted: set<string>) {
    forall i | 0 <= i < |body| :: !Lost(body, late, wanted, i)
  }

  ghost predicate LosesNothing(body: seq<Stmt>, wanted: set<string>) {
    && NoneLost(body, map[], wanted)
    && Live(body, map[], wanted) * Features(body) <= Features(Futures(body, wanted))
  }

  lemma LostInTail(body: seq<Stmt>, late: Looks, wanted: set<string>, i: nat)
    requires body != [] && i + 1 < |body|
    ensures Lost(body, late, wanted, i + 1) == Lost(body[1..], ExecLooks(body[0], late), wanted, i)
  {
    assert body[1..][i + 1..] == body[i + 2..];
  }

  /** The first statement of a module that loses none, and the rest of it. */
  lemma NoneLostSplit(body: seq<Stmt>, late: Looks, wanted: set<string>)
    requires body != [] && NoneLost(body, late, wanted)
    ensures NoneLost(body[1..], ExecLooks(body[0], late), wanted)
    ensures var s, after := body[0], Live(body[1..], ExecLooks(body[0], late), wanted);
            IsFuture(s) || Binds(s) * after == {} || (Keeps(s, Wanted(body[1..], wanted)) && Bare(s) == s)
  {
    forall i | 0 <= i < |body| - 1 ensures !Lost(body[1..], ExecLooks(body[0], late), wanted, i) {
      LostInTail(body, late, wanted, i);
    }
    assert !Lost(body, late, wanted, 0);
    assert LooksAt(body, late, 1) == LooksAt(body[1..], ExecLooks(body[0], late), 0);
  }

  lemma ReachWithin<Val>(a: Env<Val>, b: Env<Val>, s: Stmt, n: string, names: set<string>)
    requires Alike(a, b, names) && Reach(a.late, NowOf(s, n)) <= names
    ensures Reach(b.late, NowOf(s, n)) == Reach(a.late, NowOf(s, n))
    ensures Restrict(a.vals, Reach(a.late, NowOf(s, n))) == Restrict(b.vals, Reach(b.late, NowOf(s, n)))
    ensures GivenLooks(s, a.late, n) == GivenLooks(s, b.late, n)
  {
    ReachAlike(a.late, b.late, NowOf(s, n));
    LookedAlike(a.late, b.late, Reach(a.late, NowOf(s, n)));
  }

  lemma BoundAlike<Val>(m: Interp<Val>, s: Stmt, a: Env<Val>, b: Env<Val>, names: set<string>, n: string)
    requires !IsFuture(s) && n in Binds(s) && Alike(a, b, names) && Reach(a.late, NowOf(s, n)) <= names
    ensures AlikeAt(Exec(m, s, a), Exec(m, s, b), n)
  {
    ReachWithin(a, b, s, n, names);
  }

  lemma UnboundAlike<Val>(m: Interp<Val>, s: Stmt, a: Env<Val>, b: Env<Val>, n: string)
    requires n !in Binds(s) && AlikeAt(a, b, n)
    ensures AlikeAt(Exec(m, s, a), Exec(m, s, b), n)
  {
  }

  lemma ExecAlike<Val>(m: Interp<Val>, s: Stmt, a: Env<Val>, b: Env<Val>, after: set<string>)
    requires !IsFuture(s) && Alike(a, b, (after - Binds(s)) + Makings(s, a.late, after))
    ensures Alike(Exec(m, s, a), Exec(m, s, b), after)
  {
    var names := (after - Binds(s)) + Makings(s, a.late, after);
    forall n | n in after ensures AlikeAt(Exec(m, s, a), Exec(m, s, b), n) {
      if n in Binds(s) {
        assert n in Binds(s) * after;
        assert forall x | x in Reach(a.late, NowOf(s, n)) :: x in Makings(s, a.late, after);
        BoundAlike(m, s, a, b, names, n);
      } else {
        UnboundAlike(m, s, a, b, n);
      }
    }
  }

  lemma DeadExec<Val>(m: Interp<Val>, s: Stmt, a: Env<Val>, b: Env<Val>, after: set<string>)
    requires Binds(s) * after == {} && Alike(a, b, after)
    ensures Alike(Exec(m, s, a), b, after) && Alike(Exec(m, s, a), Exec(m, Bare(s), b), after)
  {
    forall n | n in after ensures AlikeAt(Exec(m, s, a), b, n) && AlikeAt(Exec(m, s, a), Exec(m, Bare(s), b), n) {
      assert n !in Binds(s) * after && Binds(Bare(s)) <= Binds(s);
      UntouchedAt(m, s, a, n);
      UntouchedAt(m, Bare(s), b, n);
    }
  }

  lemma UntouchedAt<Val>(m: Interp<Val>, s: Stmt, a: Env<Val>, n: string)
    requires n !in Binds(s)
    ensures AlikeAt(a, Exec(m, s, a), n)
  {
  }

  lemma StepAlike<Val>(m: Interp<Val>, s: Stmt, a: Env<Val>, b: Env<Val>, after: set<string>, kept: bool)
    requires !IsFuture(s) && (Binds(s) * after != {} ==> kept && Bare(s) == s)
    requires Alike(a, b, MattersAbove(s, a.late, after))
    ensures Alike(Exec(m, s, a), if kept then Exec(m, Bare(s), b) else b, after)
  {
    if Binds(s) * after == {} {
      DeadExec(m, s, a, b, after);
    } else {
      ExecAlike(m, s, a, b, after);
    }
  }

  /** What a statement of the slice fails on, the module's fails on. */
  lemma FailsAlike<Val>(m: Interp<Val>, s: Stmt, a: Env<Val>, b: Env<Val>)
    requires !IsFuture(s) && Alike(a, b, Reach(a.late, Needs(Bare(s)))) && Fails(m, Bare(s), b)
    ensures Fails(m, s, a)
  {
    ReachAlike(a.late, b.late, Needs(Bare(s)));
    var names := Reach(a.late, Needs(Bare(s)));
    assert Restrict(a.vals, names) == Restrict(b.vals, names);
  }

  lemma KeptBody<Val>(m: Interp<Val>, body: seq<Stmt>, wanted: set<string>, env: Env<Val>)
    requires body != []
    ensures var s := body[0];
            Body(m, Kept(body, wanted), env)
            == Body(m, Kept(body[1..], wanted),
                    if KeepsFirst(body, wanted) && !IsFuture(s) then Exec(m, Bare(s), env) else env)
    ensures var s := body[0];
            RunsThrough(m, Kept(body, wanted), env)
            <==> if KeepsFirst(body, wanted) && !IsFuture(s)
                 then !Fails(m, Bare(s), env) && RunsThrough(m, Kept(body[1..], wanted), Exec(m, Bare(s), env))
                 else RunsThrough(m, Kept(body[1..], wanted), env)
  {
    var kept := Kept(body[1..], wanted);
    assert ([Bare(body[0])] + kept)[1..] == kept;
    assert [] + kept == kept;
  }

  /** Environments alike on the live names lead the module and its slice to the same meaning. */
  lemma {:induction false} KeptRunsAlike<Val>(m: Interp<Val>, body: seq<Stmt>, wanted: set<string>,
                                              a: Env<Val>, b: Env<Val>)
    requires NoneLost(body, a.late, wanted) && Alike(a, b, Live(body, a.late, wanted))
    ensures SameMeaning(Body(m, body, a), Body(m, Kept(body, wanted), b), wanted)
    ensures RunsThrough(m, body, a) ==> RunsThrough(m, Kept(body, wanted), b)
    decreases |body|
  {
    if body != [] {
      var s, rest := body[0], body[1..];
      NoneLostSplit(body, a.late, wanted);
      KeptBody(m, body, wanted, b);
      if IsFuture(s) {
        KeptRunsAlike(m, rest, wanted, a, b);
      } else {
        var kept := KeepsFirst(body, wanted);
        StepAlike(m, s, a, b, Live(rest, ExecLooks(s, a.late), wanted), kept);
        KeptRunsAlike(m, rest, wanted, Exec(m, s, a), if kept then Exec(m, Bare(s), b) else b);
        if kept && Fails(m, Bare(s), b) {
          FailsAlike(m, s, a, b);
        }
      }
    }
  }

  lemma {:induction false} FuturesDoNothing<Val>(m: Interp<Val>, futures: seq<Stmt>, body: seq<Stmt>, env: Env<Val>)
    requires forall s | s in futures :: IsFuture(s)
    ensures Body(m, futures + body, env) == Body(m, body, env)
    ensures RunsThrough(m, futures + body, env) == RunsThrough(m, body, env)
  {
    if futures == [] {
      assert futures + body == body;
    } else {
      assert (futures + body)[1..] == futures[1..] + body;
      assert Exec(m, futures[0], env) == env;
      FuturesDoNothing(m, futures[1..], body, env);
    }
  }

  lemma SliceFeatures(body: seq<Stmt>, wanted: set<string>)
    ensures Features(Slice(body, wanted)) == Features(Futures(body, wanted)) <= Features(body)
  {
    KeptHasNoFuture(body, wanted);
  }

  /** When the module runs through, so does the slice, and gives the wanted names the same meaning. */
  lemma SliceKeepsMeaning<Val>(m: Interp<Val>, body: seq<Stmt>, wanted: set<string>, given: map<string, Val>)
    requires LosesNothing(body, wanted)
    ensures FollowsRun(Run(m, body, given), Run(m, Slice(body, wanted), given), wanted)
  {
    SliceFeatures(body, wanted);
    StartsAlike(m, body, Slice(body, wanted), given, given, Live(body, map[], wanted));
    SliceRunsAlike(m, body, wanted, given, given);
  }

  lemma StartsAlike<Val>(m: Interp<Val>, body: seq<Stmt>, slice: seq<Stmt>, a: map<string, Val>, b: map<string, Val>,
                         names: set<string>)
    requires names * Features(body) <= Features(slice) <= Features(body)
    requires forall n | n in names && n !in Features(body) :: (n in a <==> n in b) && (n in a ==> a[n] == b[n])
    ensures Alike(Start(m, body, a), Start(m, slice, b), names)
  {
    forall n | n in names ensures AlikeAt(Start(m, body, a), Start(m, slice, b), n) {
      assert n in Features(body) ==> n in names * Features(body);
    }
  }

  lemma SliceRunsAlike<Val>(m: Interp<Val>, body: seq<Stmt>, wanted: set<string>,
                            a: map<string, Val>, b: map<string, Val>)
    requires NoneLost(body, map[], wanted)
    requires Alike(Start(m, body, a), Start(m, Slice(body, wanted), b), Live(body, map[], wanted))
    ensures FollowsRun(Run(m, body, a), Run(m, Slice(body, wanted), b), wanted)
  {
    KeptHasNoFuture(body, wanted);
    KeptRunsAlike(m, body, wanted, Start(m, body, a), Start(m, Slice(body, wanted), b));
    FuturesDoNothing(m, Futures(body, wanted), Kept(body, wanted), Start(m, Slice(body, wanted), b));
  }

  // ---- And only then ------------------------------------------------------------------------------

  ghost predicate Holds<Val>(vals: map<string, Val>, v: Val, names: set<string>) {
    exists n :: n in names && n in vals && vals[n] == v
  }

  /** One statement, or one feature, produces a mark that spreads through everything made from it. */
  function Marking<Val(==)>(mark: Val, blank: Val, culprit: Option<Stmt>, feature: string): Interp<Val> {
    Interp((s: Stmt, n: string, vals: map<string, Val>) =>
             if culprit == Some(s) || mark in vals.Values then mark else blank,
           (s, vals) => false,
           n => if culprit.None? && n == feature then mark else blank)
  }

  /** The same, but for one statement that fails unless it reads a mark. */
  function Strict<Val(==)>(m: Interp<Val>, mark: Val, stmt: Stmt): Interp<Val> {
    m.(fails := (s: Stmt, vals: map<string, Val>) => s == stmt && mark !in vals.Values)
  }

  lemma MarkSpreads<Val>(mark: Val, blank: Val, culprit: Option<Stmt>, feature: string,
                         s: Stmt, env: Env<Val>, after: set<string>)
    requires !IsFuture(s)
    requires Holds(env.vals, mark, MattersAbove(s, env.late, after)) || (culprit == Some(s) && Binds(s) * after != {})
    ensures Holds(ExecVals(Marking(mark, blank, culprit, feature), s, env), mark, after)
  {
    var m := Marking(mark, blank, culprit, feature);
    if culprit == Some(s) && Binds(s) * after != {} {
      var n :| n in Binds(s) * after;
      assert ExecVals(m, s, env)[n] == mark;
    } else {
      var x :| x in MattersAbove(s, env.late, after) && x in env.vals && env.vals[x] == mark;
      if n :| n in Binds(s) * after && x in Reach(env.late, NowOf(s, n)) {
        MarkIsMade(mark, blank, culprit, feature, s, env, n, x);
      } else {
        assert x in Binds(s) * after ==> Binds(s) * after != {};
        MarkStays(m, s, env, x);
      }
    }
  }

  lemma MarkIsMade<Val>(mark: Val, blank: Val, culprit: Option<Stmt>, feature: string,
                        s: Stmt, env: Env<Val>, n: string, x: string)
    requires !IsFuture(s) && n in Binds(s) && x in Reach(env.late, NowOf(s, n)) && x in env.vals && env.vals[x] == mark
    ensures ExecVals(Marking(mark, blank, culprit, feature), s, env)[n] == mark
  {
    assert Restrict(env.vals, Reach(env.late, NowOf(s, n)))[x] == mark;
  }

  lemma MarkStays<Val>(m: Interp<Val>, s: Stmt, env: Env<Val>, x: string)
    requires x in env.vals && x !in Binds(s)
    ensures x in ExecVals(m, s, env) && ExecVals(m, s, env)[x] == env.vals[x]
  {
  }

  function EnvAt<Val>(m: Interp<Val>, body: seq<Stmt>, env: Env<Val>, k: nat): Env<Val>
    requires k <= |body|
    decreases k
  {
    if k == 0 then env else EnvAt(m, body[1..], Exec(m, body[0], env), k - 1)
  }

  /** The statement is in the slice, and in the module it reads a mark. */
  ghost predicate ReadsMark<Val>(m: Interp<Val>, body: seq<Stmt>, wanted: set<string>, env: Env<Val>,
                                 mark: Val, k: nat)
  {
    && k < |body| && !IsFuture(body[k]) && Keeps(body[k], Wanted(body[k + 1..], wanted))
    && var at := EnvAt(m, body, env, k); Holds(at.vals, mark, Reach(at.late, Needs(Bare(body[k]))))
  }

  /** The mark is read by a statement of the slice, or is in what the wanted names stand for. */
  ghost predicate Arrives<Val>(m: Interp<Val>, body: seq<Stmt>, wanted: set<string>, env: Env<Val>, mark: Val) {
    || (exists k: nat :: ReadsMark(m, body, wanted, env, mark, k))
    || var end := Body(m, body, env); Holds(end.vals, mark, Reach(end.late, wanted))
  }

  lemma ArrivesLater<Val>(m: Interp<Val>, body: seq<Stmt>, wanted: set<string>, env: Env<Val>, mark: Val)
    requires body != [] && Arrives(m, body[1..], wanted, Exec(m, body[0], env), mark)
    ensures Arrives(m, body, wanted, env, mark)
  {
    var rest, next := body[1..], Exec(m, body[0], env);
    if k: nat :| ReadsMark(m, rest, wanted, next, mark, k) {
      assert rest[k] == body[k + 1] && rest[k + 1..] == body[k + 2..];
      assert ReadsMark(m, body, wanted, env, mark, k + 1);
    }
  }

  /** A marked live name does. */
  lemma {:induction false} MarkArrives<Val>(mark: Val, blank: Val, culprit: Option<Stmt>, feature: string,
                                            body: seq<Stmt>, wanted: set<string>, env: Env<Val>)
    requires Holds(env.vals, mark, Live(body, env.late, wanted))
    ensures Arrives(Marking(mark, blank, culprit, feature), body, wanted, env, mark)
    decreases |body|
  {
    if body != [] {
      var m := Marking(mark, blank, culprit, feature);
      var s, after := body[0], Live(body[1..], ExecLooks(body[0], env.late), wanted);
      if Holds(env.vals, mark, ReadsIfKept(s, env.late, KeepsFirst(body, wanted))) {
        assert ReadsMark(m, body, wanted, env, mark, 0);
      } else {
        assert Holds(env.vals, mark, MattersAbove(s, env.late, after));
        if !IsFuture(s) {
          MarkSpreads(mark, blank, culprit, feature, s, env, after);
        }
        MarkArrives(mark, blank, culprit, feature, body[1..], wanted, Exec(m, s, env));
        ArrivesLater(m, body, wanted, env, mark);
      }
    }
  }

  lemma {:induction false} CulpritMarks<Val>(mark: Val, blank: Val, body: seq<Stmt>, wanted: set<string>,
                                             i: nat, env: Env<Val>)
    requires i < |body| && !IsFuture(body[i])
    requires Binds(body[i]) * Live(body[i + 1..], LooksAt(body, env.late, i + 1), wanted) != {}
    ensures Arrives(Marking(mark, blank, Some(body[i]), ""), body, wanted, env, mark)
    decreases i
  {
    var m := Marking(mark, blank, Some(body[i]), "");
    var next := Exec(m, body[0], env);
    if i == 0 {
      assert LooksAt(body, env.late, 1) == LooksAt(body[1..], next.late, 0);
      MarkSpreads(mark, blank, Some(body[0]), "", body[0], env, Live(body[1..], next.late, wanted));
      MarkArrives(mark, blank, Some(body[0]), "", body[1..], wanted, next);
    } else {
      assert body[1..][i..] == body[i + 1..];
      CulpritMarks(mark, blank, body[1..], wanted, i - 1, next);
    }
    ArrivesLater(m, body, wanted, env, mark);
  }

  ghost predicate Clean<Val>(vals: map<string, Val>, mark: Val) {
    forall n | n in vals :: vals[n] != mark
  }

  lemma StaysClean<Val>(mark: Val, blank: Val, culprit: Option<Stmt>, feature: string,
                        m: Interp<Val>, s: Stmt, env: Env<Val>)
    requires mark != blank && Clean(env.vals, mark) && culprit != Some(s)
    requires m.value == Marking(mark, blank, culprit, feature).value
    ensures Clean(Exec(m, s, env).vals, mark)
  {
    assert forall names :: mark !in Restrict(env.vals, names).Values;
  }

  /** Without the culprit nothing is ever marked, so a strict statement fails. */
  lemma {:induction false} NothingMarked<Val>(mark: Val, blank: Val, culprit: Option<Stmt>, feature: string,
                                              m: Interp<Val>, body: seq<Stmt>, env: Env<Val>)
    requires mark != blank && Clean(env.vals, mark) && m.value == Marking(mark, blank, culprit, feature).value
    requires culprit.Some? ==> culprit.value !in body
    ensures Clean(Body(m, body, env).vals, mark)
    ensures forall k | k in body && !IsFuture(k) && Bare(k) == k && m == Strict(m, mark, k) ::
              !RunsThrough(m, body, env)
    decreases |body|
  {
    if body != [] {
      assert culprit != Some(body[0]);
      StaysClean(mark, blank, culprit, feature, m, body[0], env);
      NothingMarked(mark, blank, culprit, feature, m, body[1..], Exec(m, body[0], env));
      assert mark !in Restrict(env.vals, Reach(env.late, Needs(body[0]))).Values;
    }
  }

  ghost predicate DistinctLines(body: seq<Stmt>) {
    forall i, j | 0 <= i < j < |body| :: body[i].line != body[j].line
  }

  lemma {:induction false} SliceLines(body: seq<Stmt>, wanted: set<string>, s: Stmt)
    requires s in Kept(body, wanted)
    ensures exists i :: 0 <= i < |body| && body[i].line == s.line
    decreases |body|
  {
    var rest := body[1..];
    if s in Kept(rest, wanted) {
      SliceLines(rest, wanted, s);
      var i :| 0 <= i < |rest| && rest[i].line == s.line;
      assert body[i + 1].line == s.line;
    } else {
      assert s == Bare(body[0]) && body[0].line == s.line;
    }
  }

  /** A lost statement is nowhere in the slice. */
  lemma {:induction false} LostIsAbsent(body: seq<Stmt>, late: Looks, wanted: set<string>, i: nat)
    requires DistinctLines(body) && i < |body| && Lost(body, late, wanted, i)
    ensures body[i] !in Kept(body, wanted)
    decreases i
  {
    var rest := body[1..];
    forall a, b | 0 <= a < b < |rest| ensures rest[a].line != rest[b].line {
      assert rest[a] == body[a + 1] && rest[b] == body[b + 1];
    }
    forall s | s in Kept(rest, wanted) ensures s.line != body[0].line {
      SliceLines(rest, wanted, s);
      var j :| 0 <= j < |rest| && rest[j].line == s.line;
      assert rest[j] == body[j + 1];
    }
    if i > 0 {
      LostInTail(body, late, wanted, i - 1);
      LostIsAbsent(rest, ExecLooks(body[0], late), wanted, i - 1);
    }
  }

  lemma MarkTellsApart<Val>(a: Env<Val>, b: Env<Val>, mark: Val, wanted: set<string>)
    requires Holds(a.vals, mark, Reach(a.late, wanted)) && Clean(b.vals, mark)
    ensures !SameMeaning(a, b, wanted)
  {
    var n :| n in Reach(a.late, wanted) && n in a.vals && a.vals[n] == mark;
    assert n in b.vals ==> b.vals[n] != mark;
  }

  lemma {:induction false} NeverFails<Val>(m: Interp<Val>, body: seq<Stmt>, env: Env<Val>)
    requires forall s, vals :: !m.fails(s, vals)
    ensures RunsThrough(m, body, env)
    decreases |body|
  {
    if body != [] {
      NeverFails(m, body[1..], Exec(m, body[0], env));
    }
  }

  /** The strict statement stands nowhere among these. */
  lemma {:induction false} StrictPasses<Val>(m: Interp<Val>, mark: Val, stmt: Stmt, body: seq<Stmt>, env: Env<Val>)
    requires forall s | s in body :: s.line != stmt.line
    ensures RunsThrough(Strict(m, mark, stmt), body, env)
    decreases |body|
  {
    if body != [] {
      StrictPasses(m, mark, stmt, body[1..], Exec(Strict(m, mark, stmt), body[0], env));
    }
  }

  /** It reads its mark in the module, which therefore runs through. */
  lemma {:induction false} StrictReads<Val>(m: Interp<Val>, mark: Val, body: seq<Stmt>, env: Env<Val>, k: nat)
    requires DistinctLines(body) && k < |body|
    requires var at := EnvAt(m, body, env, k); Holds(at.vals, mark, Reach(at.late, Needs(Bare(body[k]))))
    ensures RunsThrough(Strict(m, mark, Bare(body[k])), body, env)
    decreases k
  {
    var stmt := Bare(body[k]);
    var o := Strict(m, mark, stmt);
    DistinctTail(body);
    SameValues(m, mark, stmt, body[0], env);
    if k == 0 {
      StrictPasses(m, mark, stmt, body[1..], Exec(o, body[0], env));
      ReadingPasses(m, mark, body[0], env);
    } else {
      assert body[1..][k - 1] == body[k] && body[0].line != body[k].line;
      StrictReads(m, mark, body[1..], Exec(m, body[0], env), k - 1);
    }
  }

  lemma SameValues<Val>(m: Interp<Val>, mark: Val, stmt: Stmt, s: Stmt, env: Env<Val>)
    ensures Exec(Strict(m, mark, stmt), s, env) == Exec(m, s, env)
    ensures s.line != stmt.line ==> !Fails(Strict(m, mark, stmt), s, env)
  {
  }

  lemma DistinctTail(body: seq<Stmt>)
    requires DistinctLines(body) && body != []
    ensures DistinctLines(body[1..]) && forall s | s in body[1..] :: s.line != body[0].line
  {
    var rest := body[1..];
    forall i, j | 0 <= i < j < |rest| ensures rest[i].line != rest[j].line {
      assert rest[i] == body[i + 1] && rest[j] == body[j + 1];
    }
    forall s | s in rest ensures s.line != body[0].line {
      var j :| 0 <= j < |rest| && rest[j] == s;
      assert body[j + 1] == s;
    }
  }

  /** A strict statement that reads its mark does not fail. */
  lemma ReadingPasses<Val>(m: Interp<Val>, mark: Val, s: Stmt, env: Env<Val>)
    requires Holds(env.vals, mark, Reach(env.late, Needs(Bare(s))))
    ensures !Fails(Strict(m, mark, Bare(s)), s, env)
  {
    var n :| n in Reach(env.late, Needs(Bare(s))) && n in env.vals && env.vals[n] == mark;
    assert Restrict(env.vals, Reach(env.late, Needs(Bare(s))))[n] == mark;
  }

  lemma {:induction false} KeptIsIn(body: seq<Stmt>, wanted: set<string>, k: nat)
    requires k < |body| && !IsFuture(body[k]) && Keeps(body[k], Wanted(body[k + 1..], wanted))
    ensures Bare(body[k]) in Kept(body, wanted)
    decreases k
  {
    if k > 0 {
      assert body[1..][k - 1] == body[k] && body[1..][k..] == body[k + 1..];
      KeptIsIn(body[1..], wanted, k - 1);
    }
  }

  /** A mark never made in the slice, and read by one of its statements in the module, stops it. */
  lemma ReadingShows<Val>(mark: Val, blank: Val, culprit: Option<Stmt>, feature: string,
                          body: seq<Stmt>, wanted: set<string>, start: Env<Val>, begin: Env<Val>, k: nat)
    returns (m: Interp<Val>)
    requires mark != blank && DistinctLines(body) && Clean(begin.vals, mark)
    requires ReadsMark(Marking(mark, blank, culprit, feature), body, wanted, start, mark, k)
    requires culprit.Some? ==> culprit.value !in Slice(body, wanted)
    ensures m.feature == Marking(mark, blank, culprit, feature).feature
    ensures RunsThrough(m, body, start) && !RunsThrough(m, Slice(body, wanted), begin)
  {
    StrictReads(Marking(mark, blank, culprit, feature), mark, body, start, k);
    m := Strict(Marking(mark, blank, culprit, feature), mark, Bare(body[k]));
    KeptIsIn(body, wanted, k);
    assert Bare(body[k]) in Slice(body, wanted) && Bare(Bare(body[k])) == Bare(body[k]);
    NothingMarked(mark, blank, culprit, feature, m, Slice(body, wanted), begin);
  }

  lemma StartFeatures<Val>(m: Interp<Val>, o: Interp<Val>, body: seq<Stmt>)
    requires m.feature == o.feature
    ensures Start(m, body, map[]) == Start(o, body, map[])
  {
  }

  lemma StrictlyApart<Val>(m: Interp<Val>, body: seq<Stmt>, slice: seq<Stmt>, wanted: set<string>)
    requires RunsThrough(m, body, Start(m, body, map[])) && !RunsThrough(m, slice, Start(m, slice, map[]))
    ensures !FollowsRun(Run(m, body, map[]), Run(m, slice, map[]), wanted)
  {
  }

  lemma ValuesApart<Val>(m: Interp<Val>, body: seq<Stmt>, slice: seq<Stmt>, wanted: set<string>)
    requires forall s, vals :: !m.fails(s, vals)
    requires !SameMeaning(Body(m, body, Start(m, body, map[])), Body(m, slice, Start(m, slice, map[])), wanted)
    ensures !FollowsRun(Run(m, body, map[]), Run(m, slice, map[]), wanted)
  {
    NeverFails(m, body, Start(m, body, map[]));
  }

  /** A mark that arrives in the module, and is never made in the slice, tells them apart. */
  lemma MarkShows<Val>(mark: Val, blank: Val, culprit: Option<Stmt>, feature: string,
                       body: seq<Stmt>, wanted: set<string>) returns (m: Interp<Val>)
    requires mark != blank && DistinctLines(body)
    requires var m := Marking(mark, blank, culprit, feature);
             && Arrives(m, body, wanted, Start(m, body, map[]), mark)
             && Clean(Start(m, Slice(body, wanted), map[]).vals, mark)
    requires culprit.Some? ==> culprit.value !in Slice(body, wanted)
    ensures !FollowsRun(Run(m, body, map[]), Run(m, Slice(body, wanted), map[]), wanted)
  {
    var base := Marking(mark, blank, culprit, feature);
    var slice := Slice(body, wanted);
    var start, begin := Start(base, body, map[]), Start(base, slice, map[]);
    if k: nat :| ReadsMark(base, body, wanted, start, mark, k) {
      m := ReadingShows(mark, blank, culprit, feature, body, wanted, start, begin, k);
      StartFeatures(m, base, body);
      StartFeatures(m, base, slice);
      StrictlyApart(m, body, slice, wanted);
    } else {
      m := base;
      NothingMarked(mark, blank, culprit, feature, m, slice, begin);
      MarkTellsApart(Body(m, body, start), Body(m, slice, begin), mark, wanted);
      ValuesApart(m, body, slice, wanted);
    }
  }

  lemma LostStatementShows<Val>(mark: Val, blank: Val, body: seq<Stmt>, wanted: set<string>, i: nat)
    returns (m: Interp<Val>)
    requires mark != blank && DistinctLines(body) && i < |body| && Lost(body, map[], wanted, i)
    ensures !FollowsRun(Run(m, body, map[]), Run(m, Slice(body, wanted), map[]), wanted)
  {
    var base := Marking(mark, blank, Some(body[i]), "");
    CulpritMarks(mark, blank, body, wanted, i, Start(base, body, map[]));
    LostIsAbsent(body, map[], wanted, i);
    KeptHasNoFuture(body, wanted);
    m := MarkShows(mark, blank, Some(body[i]), "", body, wanted);
  }

  lemma LostFeatureShows<Val>(mark: Val, blank: Val, body: seq<Stmt>, wanted: set<string>, name: string)
    returns (m: Interp<Val>)
    requires mark != blank && DistinctLines(body) && name in Live(body, map[], wanted) * Features(body)
    requires name !in Features(Futures(body, wanted))
    ensures !FollowsRun(Run(m, body, map[]), Run(m, Slice(body, wanted), map[]), wanted)
  {
    var start := Start(Marking(mark, blank, None, name), body, map[]);
    assert start.vals[name] == mark;
    MarkArrives(mark, blank, None, name, body, wanted, start);
    SliceFeatures(body, wanted);
    m := MarkShows(mark, blank, None, name, body, wanted);
  }

  /** Whatever the statements mean and whatever is given from outside, the slice runs through when
      the module does and gives the wanted names the same meaning, exactly when nothing needed, by
      them or by any statement of the slice, is lost. */
  lemma SliceKeepsMeaningExactly<Val(!new)>(a: Val, b: Val, body: seq<Stmt>, wanted: set<string>)
    requires a != b && DistinctLines(body)
    ensures LosesNothing(body, wanted)
            <==> forall m: Interp<Val>, given: map<string, Val> ::
                   FollowsRun(Run(m, body, given), Run(m, Slice(body, wanted), given), wanted)
  {
    if LosesNothing(body, wanted) {
      forall m: Interp<Val>, given: map<string, Val>
        ensures FollowsRun(Run(m, body, given), Run(m, Slice(body, wanted), given), wanted)
      {
        SliceKeepsMeaning(m, body, wanted, given);
      }
    } else if i :| 0 <= i < |body| && Lost(body, map[], wanted, i) {
      var m := LostStatementShows(a, b, body, wanted, i);
    } else {
      var n :| n in Live(body, map[], wanted) * Features(body) && n !in Features(Futures(body, wanted));
      var m := LostFeatureShows(a, b, body, wanted, n);
    }
  }
}
