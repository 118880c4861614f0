/** What the slicer returns beside the slice, and what it misses. */
module SliceLimits {
  import opened Wrappers
  import opened Slicer
  import opened SliceMeaning

  // ---- The names left over --------------------------------------------------------------------------

  lemma {:induction false} ReadsAreMentions(e: Expr)
    ensures Reads(e) <= Mentions(e) && Now(e) <= Mentions(e) && Later(e) <= Mentions(e)
    ensures TargetNow(e) <= Mentions(e) && TargetBinds(e) <= Mentions(e)
  {
    match e
    case Name(_) =>
    case Attribute(value, _) => ReadsAreMentions(value);
    case Call(func, args) => ReadsAreMentions(func); AllReadsAreMentions(args);
    case Tuple(elts) => AllReadsAreMentions(elts);
    case Starred(value) => ReadsAreMentions(value);
    case Subscript(value, index) => ReadsAreMentions(value); ReadsAreMentions(index);
    case Named(_, value) => ReadsAreMentions(value);
    case Form(parts, _) => AllReadsAreMentions(parts);
    case Deferred(parts, _) => AllReadsAreMentions(parts);
  }

  lemma {:induction false} AllReadsAreMentions(es: seq<Expr>)
    ensures AllReads(es) <= AllMentions(es) && AllNow(es) <= AllMentions(es) && AllLater(es) <= AllMentions(es)
    ensures AllTargetNow(es) <= AllMentions(es) && AllTargetBinds(es) <= AllMentions(es)
  {
    forall e | e in es
      ensures Reads(e) <= Mentions(e) && Now(e) <= Mentions(e) && Later(e) <= Mentions(e)
      ensures TargetNow(e) <= Mentions(e) && TargetBinds(e) <= Mentions(e)
    {
      ReadsAreMentions(e);
    }
  }

  /** What a statement reads at once or later it mentions, unless it is what a package holds. */
  lemma StatementIsCovered(s: Stmt, n: string)
    requires !s.Other?
    ensures BoundNames(s) <= Binds(s) + FreeNames(s)
    ensures Needs(s) <= FreeNames(s)
    ensures forall x | x in NowOf(s, n) || x in LaterOf(s, n) :: x in FreeNames(s) || Dotted(x)
  {
    match s
    case Import(_, _) => ImportIsCovered(s, n);
    case ImportFrom(_, _, _) => ImportIsCovered(s, n);
    case Assign(_, targets, value) =>
      AllReadsAreMentions(targets);
      ReadsAreMentions(value);
      assert forall t | t in targets && t.Name? :: t.id in Mentions(t);
    case AnnAssign(_, target, annotation, given) =>
      ReadsAreMentions(target);
      ReadsAreMentions(annotation);
      if given.Some? { ReadsAreMentions(given.value); }
    case Def(_, _, decorators, header, code, _) =>
      AllReadsAreMentions(decorators);
      AllReadsAreMentions(header);
      AllReadsAreMentions(code);
    case Class(_, _, decorators, header, body) =>
      AllReadsAreMentions(decorators);
      AllReadsAreMentions(header);
      ReadsAreMentions(body);
  }

  lemma ImportIsCovered(s: Stmt, n: string)
    ensures forall x | x in Loaded(s) || x in Handles(s, n) :: Dotted(x)
  {
    forall a, p | a in Imported(s) && p in Packages(PathOf(s, a)) ensures Dotted(p) {
      var path := PathOf(s, a);
      var i :| 0 <= i < |path| && path[i] == '.' && p == path[..i + 1];
      assert p[i] == '.';
    }
    forall a | a in Imported(s) ensures Dotted(HandleOf(s, a) + ".") {
      var path := HandleOf(s, a) + ".";
      assert path[|path| - 1] == '.';
    }
  }

  /** A live name is still wanted, or was imported as a feature, or is what a package holds, or is
      looked up through a live name bound above. */
  predicate Covered(body: seq<Stmt>, late: Looks, wanted: set<string>, live: set<string>, x: string) {
    || x in Wanted(body, wanted) || x in Features(Futures(body, wanted)) || Dotted(x)
    || exists k :: k in live && x in LooksOf(late, k)
  }

  ghost predicate AllCovered(body: seq<Stmt>, late: Looks, wanted: set<string>) {
    forall x | x in Live(body, late, wanted) :: Covered(body, late, wanted, Live(body, late, wanted), x)
  }

  lemma EndIsCovered(late: Looks, wanted: set<string>)
    ensures AllCovered([], late, wanted)
  {
    forall x | x in Live([], late, wanted) ensures Covered([], late, wanted, Live([], late, wanted), x) {
      if x !in wanted {
        ReachedHow(late, wanted, x);
      }
    }
  }

  /** As long as nothing is lost, every live name is covered. */
  lemma {:induction false} WantedCoversLive(body: seq<Stmt>, late: Looks, wanted: set<string>)
    requires NoneLost(body, late, wanted)
    ensures AllCovered(body, late, wanted)
    decreases |body|
  {
    if body == [] {
      EndIsCovered(late, wanted);
    } else {
      NoneLostSplit(body, late, wanted);
      WantedCoversLive(body[1..], ExecLooks(body[0], late), wanted);
      forall x | x in Live(body, late, wanted) ensures Covered(body, late, wanted, Live(body, late, wanted), x) {
        LiveIsCovered(body, late, wanted, x);
      }
    }
  }

  /** Why a name is live above a statement. */
  lemma LiveHow(s: Stmt, late: Looks, after: set<string>, kept: bool, x: string)
    requires x in LiveAbove(s, late, after, kept) && x !in ReadsIfKept(s, late, kept)
    ensures (!IsFuture(s) && x in Makings(s, late, after)) || (x in after && (IsFuture(s) || x !in Binds(s)))
  {
    assert x in after && x in Binds(s) ==> x in Binds(s) * after;
  }

  lemma LiveIsCovered(body: seq<Stmt>, late: Looks, wanted: set<string>, x: string)
    requires body != [] && NoneLost(body, late, wanted) && AllCovered(body[1..], ExecLooks(body[0], late), wanted)
    requires x in Live(body, late, wanted)
    ensures Covered(body, late, wanted, Live(body, late, wanted), x)
  {
    var s, after := body[0], Live(body[1..], ExecLooks(body[0], late), wanted);
    if x in ReadsIfKept(s, late, KeepsFirst(body, wanted)) {
      ReadCovers(body, late, wanted, x);
    } else {
      LiveHow(s, late, after, KeepsFirst(body, wanted), x);
      if !IsFuture(s) && x in Makings(s, late, after) {
        var n :| n in Binds(s) * after && x in Reach(late, NowOf(s, n));
        MadeCovers(body, late, wanted, n, x);
      } else {
        StandCovers(body, late, wanted, x);
      }
    }
  }

  /** A statement of the slice asks for all it reads. */
  lemma ReadCovers(body: seq<Stmt>, late: Looks, wanted: set<string>, x: string)
    requires body != [] && x in ReadsIfKept(body[0], late, KeepsFirst(body, wanted))
    ensures Covered(body, late, wanted, Live(body, late, wanted), x)
  {
    var s := Bare(body[0]);
    StatementIsCovered(s, "");
    if x !in Needs(s) {
      ReachedHow(late, Needs(s), x);
    }
  }

  /** A name the statement does not bind, if wanted below, is wanted above or was a feature. */
  lemma StillWanted(body: seq<Stmt>, wanted: set<string>, x: string)
    requires body != [] && (IsFuture(body[0]) || x !in Binds(body[0]))
    ensures x in Wanted(body[1..], wanted) ==> x in Wanted(body, wanted) || x in Features(Futures(body, wanted))
    ensures Features(Futures(body[1..], wanted)) <= Features(Futures(body, wanted))
  {
    FuturesGrow(body, wanted);
    var s := body[0];
    if !s.Other? && !IsFuture(s) {
      StatementIsCovered(Bare(s), x);
      assert Binds(Bare(s)) <= Binds(s) && BoundNames(Bare(s)) == BoundNames(s);
    }
  }

  /** A live name that the statement does not bind. */
  lemma StandCovers(body: seq<Stmt>, late: Looks, wanted: set<string>, x: string)
    requires body != [] && NoneLost(body, late, wanted) && AllCovered(body[1..], ExecLooks(body[0], late), wanted)
    requires x in Live(body[1..], ExecLooks(body[0], late), wanted) && (IsFuture(body[0]) || x !in Binds(body[0]))
    ensures Covered(body, late, wanted, Live(body, late, wanted), x)
  {
    var s, rest := body[0], body[1..];
    var next := ExecLooks(s, late);
    var live := Live(rest, next, wanted);
    assert Covered(rest, next, wanted, live, x);
    StillWanted(body, wanted, x);
    if k :| k in live && x in LooksOf(next, k) {
      if !IsFuture(s) && k in Binds(s) {
        assert k in Binds(s) * live;
        GivenCovers(body, late, wanted, k, x);
      } else {
        assert k in Live(body, late, wanted) && LooksOf(next, k) == LooksOf(late, k);
      }
    }
  }

  /** A statement that binds a live name is in the slice as it stands. */
  lemma LiveIsKept(body: seq<Stmt>, late: Looks, wanted: set<string>, n: string)
    requires body != [] && NoneLost(body, late, wanted) && !IsFuture(body[0])
    requires n in Binds(body[0]) * Live(body[1..], ExecLooks(body[0], late), wanted)
    ensures KeepsFirst(body, wanted) && Bare(body[0]) == body[0]
    ensures FreeNames(body[0]) <= Wanted(body, wanted)
  {
    NoneLostSplit(body, late, wanted);
  }

  /** What a live name is made from. */
  lemma MadeCovers(body: seq<Stmt>, late: Looks, wanted: set<string>, n: string, x: string)
    requires body != [] && NoneLost(body, late, wanted) && !IsFuture(body[0])
    requires n in Binds(body[0]) * Live(body[1..], ExecLooks(body[0], late), wanted)
    requires x in Reach(late, NowOf(body[0], n))
    ensures x in Live(body, late, wanted) && Covered(body, late, wanted, Live(body, late, wanted), x)
  {
    var s := body[0];
    var after := Live(body[1..], ExecLooks(s, late), wanted);
    LiveIsKept(body, late, wanted, n);
    forall y | y in Reach(late, NowOf(s, n)) ensures y in Makings(s, late, after) && y in Live(body, late, wanted) {
    }
    if x in NowOf(s, n) {
      StatementIsCovered(s, n);
    } else {
      ReachedHow(late, NowOf(s, n), x);
    }
  }

  /** What a live name may look up. */
  lemma GivenCovers(body: seq<Stmt>, late: Looks, wanted: set<string>, n: string, x: string)
    requires body != [] && NoneLost(body, late, wanted) && !IsFuture(body[0])
    requires n in Binds(body[0]) * Live(body[1..], ExecLooks(body[0], late), wanted)
    requires x in GivenLooks(body[0], late, n)
    ensures Covered(body, late, wanted, Live(body, late, wanted), x)
  {
    var s := body[0];
    LiveIsKept(body, late, wanted, n);
    if x in LaterOf(s, n) {
      StatementIsCovered(s, n);
    } else {
      var k :| k in Reach(late, NowOf(s, n)) && x in LooksOf(late, k);
      MadeCovers(body, late, wanted, n, k);
    }
  }

  lemma FuturesGrow(body: seq<Stmt>, wanted: set<string>)
    requires body != []
    ensures var s, rest := body[0], body[1..];
            Features(Futures(body, wanted))
            == Features(Futures(rest, wanted))
               + if Keeps(s, Wanted(rest, wanted)) && IsFuture(s) then BoundNames(s) else {}
  {
  }

  lemma {:induction false} RootIsPlain(name: string)
    ensures !Dotted(Root(name))
  {
    if name != "" && name[0] != '.' {
      RootIsPlain(name[1..]);
    }
  }

  lemma BoundArePlain(s: Stmt)
    requires IsFuture(s)
    ensures forall n | n in BoundNames(s) :: !Dotted(n)
  {
    forall a | a in s.aliases
      ensures !Dotted(Root(if a.asname.Some? && a.asname.value != "" then a.asname.value else a.name))
    {
      RootIsPlain(if a.asname.Some? && a.asname.value != "" then a.asname.value else a.name);
    }
  }

  /** In a module Python accepts, a feature import that matters is always carried, so only
      ordinary statements can be lost. */
  lemma {:induction false} FeaturesAreNeverLost(body: seq<Stmt>, wanted: set<string>)
    requires FuturesFirst(body)
    ensures LosesNothing(body, wanted) <==> NoneLost(body, map[], wanted)
  {
    if body != [] && NoneLost(body, map[], wanted) {
      var s, rest := body[0], body[1..];
      FuturesFirstTail(body);
      if IsFuture(s) || Inert(s) {
        assert ExecLooks(s, map[]) == map[];
        NoneLostSplit(body, map[], wanted);
        FeaturesAreNeverLost(rest, wanted);
        FeatureIsWanted(body, wanted);
      } else {
        NoFutures(body, wanted);
      }
    }
  }

  lemma FeatureIsWanted(body: seq<Stmt>, wanted: set<string>)
    requires body != [] && (IsFuture(body[0]) || Inert(body[0])) && NoneLost(body[1..], map[], wanted)
    requires Live(body[1..], map[], wanted) * Features(body[1..]) <= Features(Futures(body[1..], wanted))
    ensures Live(body, map[], wanted) * Features(body) <= Features(Futures(body, wanted))
  {
    var s, rest := body[0], body[1..];
    assert ExecLooks(s, map[]) == map[] && Live(body, map[], wanted) == Live(rest, map[], wanted);
    FuturesGrow(body, wanted);
    WantedCoversLive(rest, map[], wanted);
    if IsFuture(s) {
      BoundArePlain(s);
    }
    forall x | x in Live(rest, map[], wanted) && x in Features(body) ensures x in Features(Futures(body, wanted)) {
      assert Covered(rest, map[], wanted, Live(rest, map[], wanted), x);
      assert x in Features(rest) || (IsFuture(s) && x in BoundNames(s));
      assert x in Features(rest) ==> x in Live(rest, map[], wanted) * Features(rest);
    }
  }

  /** Whatever the slice needs from outside is among the names returned, but for what packages
      hold already. */
  lemma ReturnedCoversNeeded<Val>(m: Interp<Val>, body: seq<Stmt>, wanted: set<string>,
                                  a: map<string, Val>, b: map<string, Val>)
    requires FuturesFirst(body) && NoneLost(body, map[], wanted)
    requires forall n | n in Wanted(body, wanted) || Dotted(n) :: (n in a <==> n in b) && (n in a ==> a[n] == b[n])
    ensures FollowsRun(Run(m, body, a), Run(m, Slice(body, wanted), b), wanted)
  {
    FeaturesAreNeverLost(body, wanted);
    WantedCoversLive(body, map[], wanted);
    SliceFeatures(body, wanted);
    var live := Live(body, map[], wanted);
    forall n | n in live && n !in Features(body) ensures (n in a <==> n in b) && (n in a ==> a[n] == b[n]) {
      assert Covered(body, map[], wanted, live, n);
    }
    StartsAlike(m, body, Slice(body, wanted), a, b, live);
    SliceRunsAlike(m, body, wanted, a, b);
  }

  // ---- What the slicer misses -----------------------------------------------------------------------

  predicate Ordinary(body: seq<Stmt>) {
    forall s | s in body :: !IsFuture(s)
  }

  /** One statement more in front of a module: what is sliced. */
  lemma FirstSliced(s: Stmt, rest: seq<Stmt>, wanted: set<string>)
    requires !IsFuture(s) && Ordinary(rest)
    ensures var body, above := [s] + rest, Wanted(rest, wanted);
            && Wanted(body, wanted) == WantedAbove(s, above)
            && Slice(body, wanted) == (if Keeps(s, above) then [Bare(s)] else []) + Slice(rest, wanted)
  {
    assert ([s] + rest)[1..] == rest;
    NoFutures([s] + rest, wanted);
    NoFutures(rest, wanted);
  }

  /** And what is live and lost. */
  lemma FirstLost(s: Stmt, rest: seq<Stmt>, late: Looks, wanted: set<string>)
    requires !IsFuture(s)
    ensures var body, after := [s] + rest, Live(rest, ExecLooks(s, late), wanted);
            && Live(body, late, wanted) == LiveAbove(s, late, after, Keeps(s, Wanted(rest, wanted)))
            && (Lost(body, late, wanted, 0)
                <==> Binds(s) * after != {} && !(Keeps(s, Wanted(rest, wanted)) && Bare(s) == s))
  {
    var body := [s] + rest;
    assert body[1..] == rest && body[0] == s;
    assert LooksAt(body, late, 1) == LooksAt(rest, ExecLooks(s, late), 0);
  }

  lemma LaterLost(s: Stmt, rest: seq<Stmt>, late: Looks, wanted: set<string>, i: nat)
    requires i < |rest|
    ensures Lost([s] + rest, late, wanted, i + 1) == Lost(rest, ExecLooks(s, late), wanted, i)
  {
    assert ([s] + rest)[1..] == rest;
    LostInTail([s] + rest, late, wanted, i);
  }

  lemma NoStatement(late: Looks, wanted: set<string>)
    ensures Wanted([], wanted) == wanted && Slice([], wanted) == [] && Live([], late, wanted) == Reach(late, wanted)
    ensures wanted <= Reach(late, wanted)
  {
    ReachIsClosed(late, wanted);
  }

  lemma OnlyStatement(s: Stmt, late: Looks, wanted: set<string>)
    requires !IsFuture(s)
    ensures Wanted([s], wanted) == WantedAbove(s, wanted)
    ensures Slice([s], wanted) == if Keeps(s, wanted) then [Bare(s)] else []
    ensures Live([s], late, wanted) == LiveAbove(s, late, Reach(ExecLooks(s, late), wanted), Keeps(s, wanted))
    ensures Lost([s], late, wanted, 0)
            <==> Binds(s) * Reach(ExecLooks(s, late), wanted) != {} && !(Keeps(s, wanted) && Bare(s) == s)
  {
    FirstSliced(s, [], wanted);
    FirstLost(s, [], late, wanted);
    NoStatement(ExecLooks(s, late), wanted);
    assert [s] + [] == [s];
  }

  /** `x = <constant>`. */
  function Constant(line: nat, x: string): Stmt {
    Assign(line, [Name(x)], Form([], {}))
  }

  lemma ConstantIs(line: nat, x: string)
    ensures var s := Constant(line, x);
            && BoundNames(s) == {x} && Binds(s) == {x} && FreeNames(s) == {x}
            && NowOf(s, x) == {} && LaterOf(s, x) == {}
  {
    var s := Constant(line, x);
    assert Name(x) in s.targets;
    OneTarget(x);
    assert Now(s.value) == {} && Later(s.value) == {} && Mentions(s.value) == {} && Walrus(s.value) == {};
  }

  /** The names returned can be more than those needed: an assignment mentions its own target. */
  lemma AssignmentAsksForItsTarget(x: string, line: nat)
    ensures var body := [Constant(line, x)];
            && Slice(body, {x}) == body && LosesNothing(body, {x})
            && Live(body, map[], {x}) == {} && Wanted(body, {x}) == {x}
  {
    var s := Constant(line, x);
    ConstantIs(line, x);
    NothingLooked(map[], {});
    assert ExecLooks(s, map[]) == map[x := {}];
    NothingLooked(map[x := {}], {x});
    assert x in BoundNames(s) * {x} && x in Binds(s) * {x};
    OnlyStatement(s, map[], {x});
    NoFutures([s], {x});
    assert Makings(s, map[], {x}) == {};
  }

  lemma NothingLooked(late: Looks, names: set<string>)
    requires forall n | n in late :: late[n] == {}
    ensures Reach(late, names) == names && Looked(late, names) == {}
  {
    assert names + {} == names;
  }

  /** A helper's decorator is not copied, so a decorated helper is kept with another meaning. */
  lemma DecoratorIsLost(name: string, d: Expr, line: nat, code: seq<Expr>)
    requires DecoratorName(d) != Some("derivation")
    ensures var s := Def(line, name, [d], [], code, {});
            Slice([s], {name}) == [Def(line, name, [], [], code, {})] && Lost([s], map[], {name}, 0)
  {
    var s := Def(line, name, [d], [], code, {});
    ReachIsClosed(ExecLooks(s, map[]), {name});
    assert name in BoundNames(s) * {name} && name in Binds(s) * Reach(ExecLooks(s, map[]), {name});
    OnlyStatement(s, map[], {name});
  }

  /** A name unpacked from a tuple is not seen as bound, so its statement is dropped. */
  lemma UnpackingIsLost(x: string, line: nat, value: Expr)
    ensures var s := Assign(line, [Tuple([Name(x)])], value);
            Slice([s], {x}) == [] && Lost([s], map[], {x}, 0)
  {
    var s := Assign(line, [Tuple([Name(x)])], value);
    assert BoundNames(s) == {};
    assert Name(x) in [Name(x)] && x in TargetBinds(Name(x)) && x in AllTargetBinds([Name(x)]);
    assert x in TargetBinds(Tuple([Name(x)])) && Tuple([Name(x)]) in s.targets;
    ReachIsClosed(ExecLooks(s, map[]), {x});
    assert x in Binds(s) * Reach(ExecLooks(s, map[]), {x});
    OnlyStatement(s, map[], {x});
  }

  /** Nor is one bound by an augmented assignment or inside a compound statement. */
  lemma CompoundIsLost(x: string, line: nat, loads: set<string>)
    ensures var s := Other(line, {x}, loads, {});
            Slice([s], {x}) == [] && Wanted([s], {x}) == {x} && Lost([s], map[], {x}, 0) && !LosesNothing([s], {x})
  {
    var s := Other(line, {x}, loads, {});
    OnlyStatement(s, map[], {x});
    assert x in Binds(s) * Reach(ExecLooks(s, map[]), {x});
  }

  /** Nor one bound by an assignment expression in a statement that binds something else. */
  lemma WalrusIsLost(x: string, y: string, line: nat, value: Expr)
    requires x != y
    ensures var s := Assign(line, [Name(y)], Named(x, value));
            Slice([s], {x}) == [] && Lost([s], map[], {x}, 0) && !LosesNothing([s], {x})
  {
    var s := Assign(line, [Name(y)], Named(x, value));
    assert forall t | t in s.targets :: t == Name(y);
    assert x in Walrus(s.value) && x !in BoundNames(s);
    ReachIsClosed(ExecLooks(s, map[]), {x});
    assert x in Binds(s) * Reach(ExecLooks(s, map[]), {x});
    OnlyStatement(s, map[], {x});
  }

  /** A function's parameter asks for the module's variable of that name, which nobody needs; what
      that is made from is bound by a compound statement, and its absence stops the slice. */
  lemma UnneededReaderIsLost(np: string, data: string, f: string)
    requires np != data && np != f && data != f
    ensures var s, t := Other(1, {np}, {}, {}), Assign(2, [Name(data)], Call(Name(np), []));
            var u := Def(3, f, [], [], [Name(data)], {data});
            && Slice([s, t, u], {f}) == [t, u] && np in Wanted([s, t, u], {f})
            && Lost([s, t, u], map[], {f}, 0) && !LosesNothing([s, t, u], {f})
  {
    var s, t := Other(1, {np}, {}, {}), Assign(2, [Name(data)], Call(Name(np), []));
    var u := Def(3, f, [], [], [Name(data)], {data});
    CalledIs(2, data, np);
    assert Needs(t) == NowOf(t, data);
    ReaderIs(3, f, data);
    ReaderSliced(s, t, u, np, data, f);
    ReaderLost(s, t, u, np, data, f);
  }

  lemma ReaderIs(line: nat, f: string, data: string)
    ensures var u := Def(line, f, [], [], [Name(data)], {data});
            BoundNames(u) == {f} && FreeNames(u) == {data} && !IsDerivation(u)
  {
    var u := Def(line, f, [], [], [Name(data)], {data});
    assert Name(data) in u.code && data in Mentions(Name(data));
  }

  lemma LastSliced(u: Stmt, f: string, data: string)
    requires u.Def? && u.decorators == [] && BoundNames(u) == {f} && FreeNames(u) == {data}
    ensures Slice([u], {f}) == [u] && Wanted([u], {f}) == {data}
  {
    assert f in BoundNames(u) * {f} && Bare(u) == u;
    OnlyStatement(u, map[], {f});
  }

  lemma ReaderSliced(s: Stmt, t: Stmt, u: Stmt, np: string, data: string, f: string)
    requires s.Other? && t.Assign? && u.Def? && u.decorators == []
    requires BoundNames(u) == {f} && FreeNames(u) == {data} && BoundNames(t) == {data} && FreeNames(t) == {data, np}
    ensures Slice([s, t, u], {f}) == [t, u] && np in Wanted([s, t, u], {f})
  {
    LastSliced(u, f, data);
    assert data in BoundNames(t) * {data};
    FirstSliced(t, [u], {f});
    FirstSliced(s, [t, u], {f});
    assert [t] + [u] == [t, u] && [s] + [t, u] == [s, t, u];
  }

  lemma ReaderLost(s: Stmt, t: Stmt, u: Stmt, np: string, data: string, f: string)
    requires s.Other? && s.binds == {np} && t.Assign? && u.Def? && u.decorators == []
    requires BoundNames(u) == {f} && FreeNames(u) == {data} && BoundNames(t) == {data} && np in Needs(t)
    ensures Lost([s, t, u], map[], {f}, 0)
  {
    ReaderMatters(t, u, ExecLooks(s, map[]), np, data, f);
    FirstLost(s, [t, u], map[], {f});
    assert np in Binds(s) * Live([t, u], ExecLooks(s, map[]), {f});
    assert [s] + [t, u] == [s, t, u];
  }

  lemma ReaderMatters(t: Stmt, u: Stmt, late: Looks, np: string, data: string, f: string)
    requires t.Assign? && u.Def? && u.decorators == [] && BoundNames(u) == {f} && FreeNames(u) == {data}
    requires BoundNames(t) == {data} && np in Needs(t)
    ensures np in Live([t, u], late, {f})
  {
    LastSliced(u, f, data);
    FirstLost(t, [u], late, {f});
    assert data in BoundNames(t) * Wanted([u], {f}) && [t] + [u] == [t, u];
    ReachIsClosed(late, Needs(t));
  }

  /** A helper defined below the function that calls it is reached before anything asks for it, and
      is dropped, although its name is returned. */
  lemma HelperBelowIsLost(top: string, helper: string)
    requires top != helper
    ensures var s, t := Def(1, top, [], [], [Name(helper)], {}), Def(2, helper, [], [], [], {});
            && Slice([s, t], {top}) == [s] && Wanted([s, t], {top}) == {helper}
            && Lost([s, t], map[], {top}, 1) && !LosesNothing([s, t], {top})
  {
    var s, t := Def(1, top, [], [], [Name(helper)], {}), Def(2, helper, [], [], [], {});
    CallerIs(1, top, helper);
    BelowSliced(s, t, top, helper);
    BelowLost(s, t, top, helper);
  }

  lemma BelowSliced(s: Stmt, t: Stmt, top: string, helper: string)
    requires s.Def? && s.decorators == [] && t.Def? && top != helper
    requires BoundNames(s) == {top} && FreeNames(s) == {helper} && BoundNames(t) == {helper}
    ensures Slice([s, t], {top}) == (if IsDerivation(s) then [] else [s])
    ensures !IsDerivation(s) ==> Wanted([s, t], {top}) == {helper}
  {
    assert [s, t] == [s] + [t] && top in BoundNames(s) * {top} && !Keeps(t, {top});
    OnlyStatement(t, map[], {top});
    FirstSliced(s, [t], {top});
  }

  lemma BelowLost(s: Stmt, t: Stmt, top: string, helper: string)
    requires s.Def? && t.Def? && top != helper && Binds(s) == {top} && Binds(t) == {helper} == BoundNames(t)
    requires helper in LaterOf(s, top)
    ensures Lost([s, t], map[], {top}, 1)
  {
    var next := ExecLooks(s, map[]);
    LooksStay(s, t, map[], top, helper);
    ReachOne(ExecLooks(t, next), top, helper);
    assert helper in Binds(t) * Reach(ExecLooks(t, next), {top});
    OnlyStatement(t, next, {top});
    assert [s, t] == [s] + [t] && !Keeps(t, {top});
    LaterLost(s, [t], map[], {top}, 0);
  }

  /** `def name(): ... used ...` */
  lemma CallerIs(line: nat, name: string, used: string)
    ensures var s := Def(line, name, [], [], [Name(used)], {});
            && BoundNames(s) == {name} && FreeNames(s) == {used} && LaterOf(s, name) == {used} && NowOf(s, name) == {}
  {
    var s := Def(line, name, [], [], [Name(used)], {});
    assert Name(used) in s.code && used in Reads(Name(used)) && used in Mentions(Name(used));
  }

  /** What a name looks up is not changed by a statement that binds another. */
  lemma LooksStay(s: Stmt, t: Stmt, late: Looks, n: string, x: string)
    requires !IsFuture(s) && n in Binds(s) && n !in Binds(t) && x in LaterOf(s, n)
    ensures x in LooksOf(ExecLooks(t, ExecLooks(s, late)), n)
  {
    LooksGiven(s, late, n);
    LooksKept(t, ExecLooks(s, late), n);
  }

  lemma LooksGiven(s: Stmt, late: Looks, n: string)
    requires !IsFuture(s) && n in Binds(s)
    ensures LaterOf(s, n) <= LooksOf(ExecLooks(s, late), n)
  {
    assert ExecLooks(s, late)[n] == GivenLooks(s, late, n);
  }

  lemma LooksKept(s: Stmt, late: Looks, n: string)
    requires n !in Binds(s)
    ensures LooksOf(ExecLooks(s, late), n) == LooksOf(late, n)
  {
  }

  lemma ReachOne(late: Looks, n: string, x: string)
    requires x in LooksOf(late, n)
    ensures n in Reach(late, {n}) && x in Reach(late, {n})
  {
    ReachIsClosed(late, {n});
    assert x in Looked(late, Reach(late, {n}));
  }

  /** The same for a variable that a function above reads: it is set below the function, so the
      slice leaves it out even when something made by calling the function is wanted. */
  lemma VariableBelowIsLost(x: string, helper: string, y: string)
    requires x != helper && y != helper && x != y
    ensures var s, t := Def(1, helper, [], [], [Name(y)], {}), Constant(2, y);
            var u := Assign(3, [Name(x)], Call(Name(helper), []));
            Slice([s, t, u], {x}) == [s, u] && Lost([s, t, u], map[], {x}, 1)
  {
    var s, t := Def(1, helper, [], [], [Name(y)], {}), Constant(2, y);
    var u := Assign(3, [Name(x)], Call(Name(helper), []));
    CallerIs(1, helper, y);
    ConstantIs(2, y);
    CalledIs(3, x, helper);
    ThreeSliced(s, t, u, x, helper);
    MiddleLost(s, t, u, x, helper, y);
  }

  lemma MiddleLost(s: Stmt, t: Stmt, u: Stmt, x: string, helper: string, y: string)
    requires !IsFuture(s) && !IsFuture(t) && u.Assign? && x != helper && y != helper && x != y
    requires helper in Binds(s) && y in LaterOf(s, helper) && Binds(t) == {y} && BoundNames(t) == {y}
    requires Binds(u) == {x} && FreeNames(u) == {x, helper} && NowOf(u, x) == {helper}
    ensures Lost([s, t, u], map[], {x}, 1)
  {
    assert [s, t, u] == [s] + ([t] + [u]);
    LooksStay(s, t, map[], helper, y);
    LowerLost(t, u, ExecLooks(s, map[]), x, helper, y);
    LaterLost(s, [t] + [u], map[], {x}, 0);
  }

  lemma LowerLost(t: Stmt, u: Stmt, late: Looks, x: string, helper: string, y: string)
    requires !IsFuture(t) && u.Assign? && y != helper && x != y
    requires y in LooksOf(ExecLooks(t, late), helper) && Binds(t) == {y} && BoundNames(t) == {y}
    requires Binds(u) == {x} && FreeNames(u) == {x, helper} && NowOf(u, x) == {helper}
    ensures Lost([t] + [u], late, {x}, 0)
  {
    UseMatters(u, ExecLooks(t, late), x, helper, y);
    WantedByUse(u, x, helper);
    LostIf(t, [u], late, {x}, y);
  }

  lemma UseMatters(u: Stmt, late: Looks, x: string, helper: string, y: string)
    requires u.Assign? && Binds(u) == {x} && NowOf(u, x) == {helper} && y in LooksOf(late, helper) && x != y
    ensures y in Live([u], late, {x})
  {
    VariableMatters(u, late, ExecLooks(u, late), x, helper, y);
    OnlyStatement(u, late, {x});
  }

  lemma WantedByUse(u: Stmt, x: string, helper: string)
    requires u.Assign? && FreeNames(u) == {x, helper}
    ensures Wanted([u], {x}) <= {x, helper}
  {
    OnlyStatement(u, map[], {x});
  }

  lemma LostIf(s: Stmt, rest: seq<Stmt>, late: Looks, wanted: set<string>, y: string)
    requires !IsFuture(s) && y in Binds(s) && y in Live(rest, ExecLooks(s, late), wanted)
    requires BoundNames(s) * Wanted(rest, wanted) == {}
    ensures Lost([s] + rest, late, wanted, 0)
  {
    FirstLost(s, rest, late, wanted);
    assert y in Binds(s) * Live(rest, ExecLooks(s, late), wanted);
  }

  lemma ThreeSliced(s: Stmt, t: Stmt, u: Stmt, x: string, helper: string)
    requires !IsFuture(s) && !IsFuture(t) && !IsFuture(u) && s.Def? && s.decorators == [] && u.Assign?
    requires BoundNames(s) == {helper} && BoundNames(u) == {x} && FreeNames(u) == {x, helper}
    requires BoundNames(t) * {x, helper} == {}
    ensures Slice([s, t, u], {x}) == [s, u]
  {
    LowerSliced(t, u, x, helper);
    assert helper in BoundNames(s) * {x, helper};
    FirstSliced(s, [t, u], {x});
    assert [s] + [t, u] == [s, t, u] && [s] + [u] == [s, u];
  }

  lemma LowerSliced(t: Stmt, u: Stmt, x: string, helper: string)
    requires !IsFuture(t) && !IsFuture(u) && u.Assign?
    requires BoundNames(u) == {x} && FreeNames(u) == {x, helper} && BoundNames(t) * {x, helper} == {}
    ensures Slice([t, u], {x}) == [u] && Wanted([t, u], {x}) == {x, helper}
  {
    assert x in BoundNames(u) * {x};
    OnlyStatement(u, map[], {x});
    assert WantedAbove(u, {x}) == {x, helper};
    FirstSliced(t, [u], {x});
    assert [t] + [u] == [t, u];
  }

  lemma CalledIs(line: nat, x: string, helper: string)
    ensures var u := Assign(line, [Name(x)], Call(Name(helper), []));
            && BoundNames(u) == {x} && Binds(u) == {x} && FreeNames(u) == {x, helper} && NowOf(u, x) == {helper}
  {
    var u := Assign(line, [Name(x)], Call(Name(helper), []));
    assert Name(x) in u.targets;
    OneTarget(x);
    CallOf(helper);
  }

  lemma OneTarget(x: string)
    ensures var es := [Name(x)];
            && AllMentions(es) == {x} && AllTargetBinds(es) == {x} && AllTargetNow(es) == {}
            && AllWalrus(es) == {} && AllLater(es) == {}
  {
    var es := [Name(x)];
    assert Name(x) in es && x in Mentions(Name(x)) && x in TargetBinds(Name(x));
  }

  lemma CallOf(helper: string)
    ensures var e := Call(Name(helper), []);
            Mentions(e) == {helper} && Now(e) == {helper} && Walrus(e) == {}
  {
    assert AllMentions([]) == {} && AllNow([]) == {} && AllWalrus([]) == {};
  }

  lemma VariableMatters(u: Stmt, late: Looks, end: Looks, x: string, helper: string, y: string)
    requires !IsFuture(u) && Binds(u) == {x} && NowOf(u, x) == {helper} && y in LooksOf(late, helper)
    ensures y in MattersAbove(u, late, Reach(end, {x})) || y == x
  {
    ReachOne(late, helper, y);
    ReachIsClosed(end, {x});
    assert x in Binds(u) * Reach(end, {x});
    assert y in Makings(u, late, Reach(end, {x}));
  }

  /** Two imports of submodules of one package: the later one is taken to replace the earlier, so
      the package of the slice lacks a submodule. */
  lemma EarlierSubmoduleIsLost()
    ensures var s, t := Import(1, [Alias("xml.dom", None)]), Import(2, [Alias("xml.sax", None)]);
            Slice([s, t], {"xml"}) == [t] && Lost([s, t], map[], {"xml"}, 0)
  {
    var s, t := Import(1, [Alias("xml.dom", None)]), Import(2, [Alias("xml.sax", None)]);
    assert "xml.dom" == "xml" + "." + "dom" && "xml.sax" == "xml" + "." + "sax" && "xml." == "xml" + ".";
    PackageImport(s, Alias("xml.dom", None), "xml", "dom");
    PackageImport(t, Alias("xml.sax", None), "xml", "sax");
    SharedSliced(s, t, "xml");
    SharedPackage(s, t, "xml", "xml.");
  }

  lemma SharedSliced(s: Stmt, t: Stmt, root: string)
    requires s.Import? && t.Import? && BoundNames(s) == {root} && BoundNames(t) == {root}
    ensures Slice([s, t], {root}) == [t] && Wanted([t], {root}) == {}
  {
    assert root in BoundNames(t) * {root} && WantedAbove(t, {root}) == {} && [s, t] == [s] + [t];
    OnlyStatement(t, map[], {root});
    FirstSliced(s, [t], {root});
  }

  lemma SharedPackage(s: Stmt, t: Stmt, root: string, held: string)
    requires s.Import? && t.Import? && Wanted([t], {root}) == {}
    requires held in Binds(s) && held in Binds(t) && held in NowOf(t, held)
    requires root in Binds(t) && held in LaterOf(t, root)
    ensures Lost([s, t], map[], {root}, 0)
  {
    PackageMatters(t, ExecLooks(s, map[]), root, held);
    assert held in Binds(s) * Live([t], ExecLooks(s, map[]), {root});
    FirstLost(s, [t], map[], {root});
    assert [s, t] == [s] + [t];
  }

  lemma PackageMatters(t: Stmt, late: Looks, root: string, held: string)
    requires t.Import? && held in Binds(t) && held in NowOf(t, held) && root in Binds(t) && held in LaterOf(t, root)
    ensures held in Live([t], late, {root})
  {
    var end := ExecLooks(t, late);
    LooksGiven(t, late, root);
    ReachOne(end, root, held);
    ReachIsClosed(late, NowOf(t, held));
    assert held in Binds(t) * Reach(end, {root});
    assert held in Makings(t, late, Reach(end, {root}));
    OnlyStatement(t, late, {root});
  }

  /** `import root.rest` */
  lemma PackageImport(s: Stmt, a: Alias, root: string, rest: string)
    requires s.Import? && s.aliases == [a] && a.asname.None? && a.name == root + "." + rest && !Dotted(root)
    ensures var held := root + ".";
            && BoundNames(s) == {root} && held in Binds(s) && root in Binds(s)
            && held in NowOf(s, held) && held in LaterOf(s, root)
  {
    var held := root + ".";
    RootOf(root, rest);
    assert a in s.aliases && a in [a] && AliasNames([a]) == {root} && AliasNames(s.aliases) == {root};
    assert a.name[|root|] == '.' && a.name[..|root| + 1] == held;
    assert held in Packages(PathOf(s, a)) && held in Loaded(s);
    assert HandleOf(s, a) + "." == held && held in Handles(s, root);
  }

  lemma {:induction false} RootOf(root: string, rest: string)
    requires !Dotted(root)
    ensures Root(root + "." + rest) == root
  {
    if root != "" {
      assert (root + "." + rest)[1..] == root[1..] + "." + rest;
      RootOf(root[1..], rest);
    }
  }
}
