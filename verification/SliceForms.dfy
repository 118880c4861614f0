/** What the slicer sees in a statement, node by node, and the order of what it returns. */
module SliceForms {
  import opened Slicer

  // ---- Names mentioned ------------------------------------------------------------------------------------

  /** The node is the expression or somewhere inside it. */
  predicate Inside(x: Expr, e: Expr)
    decreases e, 1
  {
    x == e || InsidePart(x, e)
  }

  predicate InsidePart(x: Expr, e: Expr)
    decreases e, 0
  {
    match e
    case Name(_) => false
    case Attribute(value, _) => Inside(x, value)
    case Call(func, args) => Inside(x, func) || InsideAny(x, args)
    case Tuple(elts) => InsideAny(x, elts)
    case Starred(value) => Inside(x, value)
    case Subscript(value, index) => Inside(x, value) || Inside(x, index)
    case Named(_, value) => Inside(x, value)
    case Form(parts, _) => InsideAny(x, parts)
    case Deferred(parts, _) => InsideAny(x, parts)
  }

  predicate InsideAny(x: Expr, es: seq<Expr>)
    decreases es, 0
  {
    exists i :: 0 <= i < |es| && Inside(x, es[i])
  }

  /** A name node, a walrus target or an attribute. */
  predicate Says(x: Expr, n: string) {
    x == Name(n) || (x.Attribute? && x.attr == n) || (x.Named? && x.id == n)
  }

  ghost predicate SaidInside(e: Expr, n: string) {
    exists x :: Inside(x, e) && Says(x, n)
  }

  ghost predicate SaidInsideAny(es: seq<Expr>, n: string) {
    exists x :: InsideAny(x, es) && Says(x, n)
  }

  /** Said by the node itself, or inside a part of it. */
  lemma SaidHow(e: Expr, n: string)
    ensures SaidInside(e, n) <==> Says(e, n) || SaidInParts(e, n)
  {
    if SaidInside(e, n) {
      var x :| Inside(x, e) && Says(x, n);
      if x != e {
        assert InsidePart(x, e);
      }
    }
    if Says(e, n) {
      assert Inside(e, e);
    }
    if SaidInParts(e, n) {
      var x := PartThatSays(e, n);
      assert Inside(x, e);
    }
  }

  lemma PartThatSays(e: Expr, n: string) returns (x: Expr)
    requires SaidInParts(e, n)
    ensures InsidePart(x, e) && Says(x, n)
  {
    match e
    case Name(_) => assert false;
    case Attribute(value, _) => x :| Inside(x, value) && Says(x, n);
    case Call(func, args) => x :| (Inside(x, func) || InsideAny(x, args)) && Says(x, n);
    case Tuple(elts) => x :| InsideAny(x, elts) && Says(x, n);
    case Starred(value) => x :| Inside(x, value) && Says(x, n);
    case Subscript(value, index) => x :| (Inside(x, value) || Inside(x, index)) && Says(x, n);
    case Named(_, value) => x :| Inside(x, value) && Says(x, n);
    case Form(parts, _) => x :| InsideAny(x, parts) && Says(x, n);
    case Deferred(parts, _) => x :| InsideAny(x, parts) && Says(x, n);
  }

  ghost predicate SaidInParts(e: Expr, n: string) {
    match e
    case Name(_) => false
    case Attribute(value, _) => SaidInside(value, n)
    case Call(func, args) => SaidInside(func, n) || SaidInsideAny(args, n)
    case Tuple(elts) => SaidInsideAny(elts, n)
    case Starred(value) => SaidInside(value, n)
    case Subscript(value, index) => SaidInside(value, n) || SaidInside(index, n)
    case Named(_, value) => SaidInside(value, n)
    case Form(parts, _) => SaidInsideAny(parts, n)
    case Deferred(parts, _) => SaidInsideAny(parts, n)
  }

  /** A name is mentioned exactly when some node says it. */
  lemma {:induction false} MentionsExactly(e: Expr, n: string)
    ensures n in Mentions(e) <==> SaidInside(e, n)
    decreases e
  {
    SaidHow(e, n);
    match e
    case Name(_) =>
    case Attribute(value, _) => MentionsExactly(value, n);
    case Call(func, args) => MentionsExactly(func, n); AnyMentions(args, n);
    case Tuple(elts) => AnyMentions(elts, n);
    case Starred(value) => MentionsExactly(value, n);
    case Subscript(value, index) => MentionsExactly(value, n); MentionsExactly(index, n);
    case Named(_, value) => MentionsExactly(value, n);
    case Form(parts, _) => AnyMentions(parts, n);
    case Deferred(parts, _) => AnyMentions(parts, n);
  }

  lemma {:induction false} AnyMentions(es: seq<Expr>, n: string)
    ensures n in AllMentions(es) <==> SaidInsideAny(es, n)
    decreases es
  {
    forall i | 0 <= i < |es| ensures n in Mentions(es[i]) <==> SaidInside(es[i], n) {
      MentionsExactly(es[i], n);
    }
    if n in AllMentions(es) {
      var e :| e in es && n in Mentions(e);
      var i :| 0 <= i < |es| && es[i] == e;
      var x :| Inside(x, es[i]) && Says(x, n);
      assert InsideAny(x, es);
    }
    if SaidInsideAny(es, n) {
      var x :| InsideAny(x, es) && Says(x, n);
      var i :| 0 <= i < |es| && Inside(x, es[i]);
      assert SaidInside(es[i], n) && es[i] in es;
    }
  }

  /** The expressions of a statement of the kinds that are carried. */
  function ExprsOf(s: Stmt): seq<Expr> {
    match s
    case Assign(_, targets, value) => targets + [value]
    case AnnAssign(_, target, annotation, given) =>
      [target, annotation] + if given.Some? then [given.value] else []
    case Def(_, _, decorators, header, code, _) => decorators + header + code
    case Class(_, _, decorators, header, body) => decorators + header + [body]
    case _ => []
  }

  lemma AllMentionsConcat(a: seq<Expr>, b: seq<Expr>)
    ensures AllMentions(a + b) == AllMentions(a) + AllMentions(b)
  {
  }

  lemma OneMention(e: Expr)
    ensures AllMentions([e]) == Mentions(e)
  {
    assert e in [e];
  }

  /** A fragment's names are those that some node of it says. */
  lemma FreeNamesExactly(s: Stmt, n: string)
    requires !s.Other?
    ensures n in FreeNames(s) <==> SaidInsideAny(ExprsOf(s), n)
  {
    AnyMentions(ExprsOf(s), n);
    match s
    case Import(_, _) =>
    case ImportFrom(_, _, _) =>
    case Assign(_, targets, value) => AllMentionsConcat(targets, [value]); OneMention(value);
    case AnnAssign(_, target, annotation, given) =>
      AllMentionsConcat([target], [annotation]);
      assert [target] + [annotation] == [target, annotation];
      AllMentionsConcat([target, annotation], if given.Some? then [given.value] else []);
      OneMention(target);
      OneMention(annotation);
      if given.Some? { OneMention(given.value); }
    case Def(_, _, decorators, header, code, _) =>
      AllMentionsConcat(decorators, header);
      AllMentionsConcat(decorators + header, code);
    case Class(_, _, decorators, header, body) =>
      AllMentionsConcat(decorators, header);
      AllMentionsConcat(decorators + header, [body]);
      OneMention(body);
  }

  // ---- Names bound ------------------------------------------------------------------------------------------

  /** What stands before the first dot. */
  predicate IsRoot(n: string, name: string) {
    n <= name && '.' !in n && (|n| == |name| || name[|n|] == '.')
  }

  lemma {:induction false} RootExactly(name: string, n: string)
    ensures Root(name) == n <==> IsRoot(n, name)
  {
    if name != "" && name[0] != '.' {
      RootExactly(name[1..], if n == "" then "" else n[1..]);
      if n != "" {
        assert n == [n[0]] + n[1..] && name == [name[0]] + name[1..];
      }
    } else {
      NoRoot(name, n);
    }
  }

  lemma NoRoot(name: string, n: string)
    requires name == "" || name[0] == '.'
    ensures IsRoot(n, name) <==> n == ""
  {
    assert n != "" ==> n[0] in n && (n <= name ==> name != "" && n[0] == name[0]);
  }

  /** The names the slicer takes a statement to bind: an import's `as` name, or else the root of the
      module's; what is defined; and each target that is a bare name. */
  lemma BoundNamesExactly(s: Stmt, n: string)
    ensures n in BoundNames(s) <==>
              match s
              case Import(_, aliases) => exists a :: a in aliases && BindsAlias(a, n)
              case ImportFrom(_, _, aliases) => exists a :: a in aliases && BindsAlias(a, n)
              case Def(_, name, _, _, _, _) => n == name
              case Class(_, name, _, _, _) => n == name
              case Assign(_, targets, _) => Name(n) in targets
              case AnnAssign(_, target, _, _) => target == Name(n)
              case Other(_, _, _, _) => false
  {
    forall a: Alias ensures BindsAlias(a, n) <==> Root(Given(a)) == n {
      RootExactly(Given(a), n);
    }
  }

  function Given(a: Alias): string {
    if a.asname.Some? && a.asname.value != "" then a.asname.value else a.name
  }

  predicate BindsAlias(a: Alias, n: string) {
    match a.asname
    case Some(name) => if name != "" then IsRoot(n, name) else IsRoot(n, a.name)
    case None => IsRoot(n, a.name)
  }

  /** A derivation is a function under a decorator named so, bare, called, or an attribute. */
  lemma DerivationExactly(s: Stmt)
    ensures IsDerivation(s) <==>
              && s.Def?
              && exists d :: d in s.decorators &&
                   (IsNamed(d, "derivation") || (d.Call? && IsNamed(d.func, "derivation")))
  {
  }

  predicate IsNamed(e: Expr, n: string) {
    e == Name(n) || (e.Attribute? && e.attr == n)
  }

  // ---- The order of the slice ---------------------------------------------------------------------------------

  ghost predicate Ascending(p: seq<Stmt>) {
    forall i, j | 0 <= i < j < |p| :: p[i].line < p[j].line
  }

  ghost predicate Descending(p: seq<Stmt>) {
    forall i, j | 0 <= i < j < |p| :: p[i].line > p[j].line
  }

  lemma AscendingTail(body: seq<Stmt>)
    requires body != [] && Ascending(body)
    ensures Ascending(body[1..]) && forall b | b in body[1..] :: body[0].line < b.line
  {
    var rest := body[1..];
    forall i, j | 0 <= i < j < |rest| ensures rest[i].line < rest[j].line {
      assert rest[i] == body[i + 1] && rest[j] == body[j + 1];
    }
    forall b | b in rest ensures body[0].line < b.line {
      var i :| 0 <= i < |rest| && rest[i] == b;
      assert body[i + 1] == b;
    }
  }

  lemma {:induction false} FuturesInOrder(body: seq<Stmt>, wanted: set<string>)
    requires Ascending(body)
    ensures Descending(Futures(body, wanted)) && forall s | s in Futures(body, wanted) :: IsFuture(s) && s in body
  {
    if body != [] {
      AscendingTail(body);
      FuturesInOrder(body[1..], wanted);
      AppendsDown(Futures(body[1..], wanted), body[0]);
    }
  }

  lemma AppendsDown(p: seq<Stmt>, s: Stmt)
    requires Descending(p) && forall b | b in p :: s.line < b.line
    ensures Descending(p + [s])
  {
  }

  /** The copy of a statement of the module, never of a derivation or of a kind that is not carried. */
  ghost predicate FromBody(s: Stmt, body: seq<Stmt>) {
    exists b :: b in body && s == Bare(b) && !IsDerivation(b) && !b.Other?
  }

  lemma {:induction false} KeptInOrder(body: seq<Stmt>, wanted: set<string>)
    requires Ascending(body)
    ensures Ascending(Kept(body, wanted))
    ensures forall s | s in Kept(body, wanted) :: !IsFuture(s) && FromBody(s, body)
  {
    if body != [] {
      AscendingTail(body);
      KeptInOrder(body[1..], wanted);
      KeptMore(body, Kept(body[1..], wanted));
      assert KeepsIt(body, wanted) ==> FromBody(Bare(body[0]), body);
      PrependsUp(Bare(body[0]), Kept(body[1..], wanted));
      KeptCons(body, wanted);
    }
  }

  lemma KeptMore(body: seq<Stmt>, rest: seq<Stmt>)
    requires body != [] && (forall b | b in body[1..] :: body[0].line < b.line)
    requires forall s | s in rest :: FromBody(s, body[1..])
    ensures forall s | s in rest :: FromBody(s, body) && body[0].line < s.line
    ensures !IsDerivation(body[0]) && !body[0].Other? ==> FromBody(Bare(body[0]), body)
  {
    forall s | s in rest ensures FromBody(s, body) && body[0].line < s.line {
      var b :| b in body[1..] && s == Bare(b) && !IsDerivation(b) && !b.Other?;
      assert b in body;
    }
    assert body[0] in body;
  }

  lemma KeptCons(body: seq<Stmt>, wanted: set<string>)
    requires body != []
    ensures if KeepsIt(body, wanted) then Kept(body, wanted) == [Bare(body[0])] + Kept(body[1..], wanted)
            else Kept(body, wanted) == Kept(body[1..], wanted)
  {
  }

  predicate KeepsIt(body: seq<Stmt>, wanted: set<string>)
    requires body != []
  {
    Keeps(body[0], Wanted(body[1..], wanted)) && !IsFuture(body[0])
  }

  lemma PrependsUp(s: Stmt, p: seq<Stmt>)
    requires Ascending(p) && forall b | b in p :: s.line < b.line
    ensures Ascending([s] + p)
  {
  }

  /** First the feature imports, the last of the module first; then the rest, as the module has them. */
  lemma SliceInOrder(body: seq<Stmt>, wanted: set<string>)
    requires Ascending(body)
    ensures exists futures, kept ::
              && Slice(body, wanted) == futures + kept && Descending(futures) && Ascending(kept)
              && (forall s | s in futures :: IsFuture(s) && s in body)
              && (forall s | s in kept :: !IsFuture(s) && FromBody(s, body))
  {
    FuturesInOrder(body, wanted);
    KeptInOrder(body, wanted);
    assert Slice(body, wanted) == Futures(body, wanted) + Kept(body, wanted);
  }

  /** A definition is carried without its decorators, anything else as it stands. */
  lemma BareExactly(s: Stmt)
    ensures match s
            case Def(line, name, _, header, code, locals) => Bare(s) == Def(line, name, [], header, code, locals)
            case Class(line, name, _, header, body) => Bare(s) == Class(line, name, [], header, body)
            case _ => Bare(s) == s
  {
  }
}
