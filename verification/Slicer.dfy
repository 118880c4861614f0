/** The backward slice of a module: the statements a fragment needs around it. */
module Slicer {
  import opened Wrappers

  // ---- Syntax -----------------------------------------------------------------------------------

  datatype Expr =
    | Name(id: string)
    | Attribute(value: Expr, attr: string)
    | Call(func: Expr, args: seq<Expr>)
    | Tuple(elts: seq<Expr>)
    | Starred(value: Expr)
    | Subscript(value: Expr, index: Expr)
    | Named(id: string, value: Expr)                    // `id := value`
    | Form(parts: seq<Expr>, locals: set<string>)       // any other form, and the names it binds within itself
    | Deferred(parts: seq<Expr>, locals: set<string>)   // code that runs when its value is used: a body, a lambda

  datatype Alias = Alias(name: string, asname: Option<string>)

  datatype Stmt =
    | Import(line: nat, aliases: seq<Alias>)
    | ImportFrom(line: nat, origin: string, aliases: seq<Alias>)
    | Assign(line: nat, targets: seq<Expr>, value: Expr)
    | AnnAssign(line: nat, target: Expr, annotation: Expr, given: Option<Expr>)
    | Def(line: nat, name: string, decorators: seq<Expr>, header: seq<Expr>, code: seq<Expr>, locals: set<string>)
    | Class(line: nat, name: string, decorators: seq<Expr>, header: seq<Expr>, body: Expr)
    | Other(line: nat, binds: set<string>, loads: set<string>, looks: set<string>)   // a kind it does not carry

  /** The part of a dotted name before its first dot. */
  function Root(name: string): string {
    if name == "" || name[0] == '.' then "" else [name[0]] + Root(name[1..])
  }

  function AliasNames(aliases: seq<Alias>): set<string> {
    set a | a in aliases :: Root(if a.asname.Some? && a.asname.value != "" then a.asname.value else a.name)
  }

  /** `_bound_names`: what the slicer takes a statement to bind. */
  function BoundNames(s: Stmt): set<string> {
    match s
    case Import(_, aliases) => AliasNames(aliases)
    case ImportFrom(_, _, aliases) => AliasNames(aliases)
    case Def(_, name, _, _, _, _) => {name}
    case Class(_, name, _, _, _) => {name}
    case Assign(_, targets, _) => set t | t in targets && t.Name? :: t.id
    case AnnAssign(_, target, _, _) => if target.Name? then {target.id} else {}
    case Other(_, _, _, _) => {}
  }

  predicate IsDerivation(s: Stmt) {
    s.Def? && exists d | d in s.decorators :: DecoratorName(d) == Some("derivation")
  }

  function DecoratorName(d: Expr): Option<string> {
    var target := if d.Call? then d.func else d;
    match target
    case Name(id) => Some(id)
    case Attribute(_, attr) => Some(attr)
    case _ => None
  }

  /** `_free_names`: every name node and every attribute, read or written. */
  function Mentions(e: Expr): set<string> {
    match e
    case Name(id) => {id}
    case Attribute(value, attr) => Mentions(value) + {attr}
    case Call(func, args) => Mentions(func) + AllMentions(args)
    case Tuple(elts) => AllMentions(elts)
    case Starred(value) => Mentions(value)
    case Subscript(value, index) => Mentions(value) + Mentions(index)
    case Named(id, value) => {id} + Mentions(value)
    case Form(parts, _) => AllMentions(parts)
    case Deferred(parts, _) => AllMentions(parts)
  }

  function AllMentions(es: seq<Expr>): set<string> {
    set e, n | e in es && n in Mentions(e) :: n
  }

  function FreeNames(s: Stmt): set<string> {
    match s
    case Import(_, _) => {}
    case ImportFrom(_, _, _) => {}
    case Assign(_, targets, value) => AllMentions(targets) + Mentions(value)
    case AnnAssign(_, target, annotation, given) =>
      Mentions(target) + Mentions(annotation) + if given.Some? then Mentions(given.value) else {}
    case Def(_, _, decorators, header, code, _) => AllMentions(decorators) + AllMentions(header) + AllMentions(code)
    case Class(_, _, decorators, header, body) => AllMentions(decorators) + AllMentions(header) + Mentions(body)
    case Other(_, binds, loads, looks) => binds + loads + looks
  }

  /** `from __future__ import`, which takes effect before anything else in its module runs. */
  predicate IsFuture(s: Stmt) {
    s.ImportFrom? && s.origin == "__future__"
  }

  function Features(body: seq<Stmt>): set<string> {
    set s, n | s in body && IsFuture(s) && n in BoundNames(s) :: n
  }

  // ---- The slice --------------------------------------------------------------------------------

  predicate Keeps(s: Stmt, wanted: set<string>) {
    !IsDerivation(s) && !s.Other? && BoundNames(s) * wanted != {}
  }

  /** The statement as it is copied: the text of a definition starts at its `def` or `class`. */
  function Bare(s: Stmt): Stmt {
    if s.Def? || s.Class? then s.(decorators := []) else s
  }

  function WantedAbove(s: Stmt, wanted: set<string>): set<string> {
    if !Keeps(s, wanted) then wanted
    else if IsFuture(s) then wanted - BoundNames(s)
    else (wanted - BoundNames(s)) + FreeNames(Bare(s))
  }

  function Wanted(body: seq<Stmt>, wanted: set<string>): set<string> {
    if body == [] then wanted else WantedAbove(body[0], Wanted(body[1..], wanted))
  }

  function Kept(body: seq<Stmt>, wanted: set<string>): seq<Stmt> {
    if body == [] then [] else
    var s := body[0];
    (if Keeps(s, Wanted(body[1..], wanted)) && !IsFuture(s) then [Bare(s)] else []) + Kept(body[1..], wanted)
  }

  function Futures(body: seq<Stmt>, wanted: set<string>): seq<Stmt> {
    if body == [] then [] else
    var s := body[0];
    Futures(body[1..], wanted) + (if Keeps(s, Wanted(body[1..], wanted)) && IsFuture(s) then [s] else [])
  }

  function Slice(body: seq<Stmt>, wanted: set<string>): seq<Stmt> {
    Futures(body, wanted) + Kept(body, wanted)
  }

  function Reversed<T>(s: seq<T>): seq<T> {
    if s == [] then [] else Reversed(s[1..]) + [s[0]]
  }

  /** `_preamble` on the statements of one module. */
  method Preamble(body: seq<Stmt>, initial: set<string>) returns (statements: seq<Stmt>, wanted: set<string>)
    ensures statements == Slice(body, initial) && wanted == Wanted(body, initial)
  {
    wanted := initial;
    var futures: seq<Stmt>, keep: seq<Stmt> := [], [];
    var todo := body;
    while todo != []
      invariant |todo| <= |body| && todo == body[..|todo|]
      invariant wanted == Wanted(body[|todo|..], initial)
      invariant futures == Futures(body[|todo|..], initial)
      invariant Reversed(keep) == Kept(body[|todo|..], initial)
    {
      var node := todo[|todo| - 1];
      assert body[|todo| - 1..] == [node] + body[|todo|..];
      todo := todo[..|todo| - 1];
      if IsDerivation(node) || node.Other? {
        continue;
      }
      var bound := BoundNames(node);
      if bound * wanted == {} {
        continue;
      }
      var segment := Bare(node);
      if IsFuture(node) {
        futures := futures + [segment];
        wanted := wanted - bound;
        continue;
      }
      ReversedSnoc(keep, segment);
      keep := keep + [segment];
      wanted := (wanted - bound) + FreeNames(segment);
    }
    var ordered := ReverseOf(keep);
    statements := futures + ordered;
  }

  lemma {:induction false} ReversedSnoc<T>(s: seq<T>, x: T)
    ensures Reversed(s + [x]) == [x] + Reversed(s)
  {
    if s != [] {
      assert (s + [x])[1..] == s[1..] + [x];
      ReversedSnoc(s[1..], x);
    }
  }

  method ReverseOf<T>(s: seq<T>) returns (r: seq<T>)
    ensures r == Reversed(s)
  {
    r := [];
    var todo := s;
    while todo != []
      invariant Reversed(todo) + r == Reversed(s)
    {
      r := [todo[0]] + r;
      todo := todo[1..];
    }
  }

  lemma {:induction false} KeptHasNoFuture(body: seq<Stmt>, wanted: set<string>)
    ensures forall s | s in Kept(body, wanted) :: !IsFuture(s)
    ensures forall s | s in Futures(body, wanted) :: IsFuture(s) && s in body
  {
    if body != [] {
      KeptHasNoFuture(body[1..], wanted);
    }
  }

  // ---- The names returned ---------------------------------------------------------------------------

  /** Feature imports stand at the head of a module, behind at most its docstring. */
  ghost predicate FuturesFirst(body: seq<Stmt>) {
    forall i, j | 0 <= i < j < |body| && IsFuture(body[j]) :: IsFuture(body[i]) || Inert(body[i])
  }

  predicate Inert(s: Stmt) {
    s.Other? && s.binds == {}
  }

  lemma FuturesFirstTail(body: seq<Stmt>)
    requires body != [] && FuturesFirst(body)
    ensures FuturesFirst(body[1..])
    ensures IsFuture(body[0]) || Inert(body[0]) || forall s | s in body[1..] :: !IsFuture(s)
  {
  }

  lemma {:induction false} NoFutures(body: seq<Stmt>, wanted: set<string>)
    requires forall s | s in body :: !IsFuture(s)
    ensures Futures(body, wanted) == [] && Features(body) == {}
  {
    if body != [] {
      NoFutures(body[1..], wanted);
    }
  }

  /** No statement of a program gives the name, as the slicer sees it. */
  predicate Unbound(p: seq<Stmt>, n: string) {
    forall s | s in p :: n !in BoundNames(s)
  }

  /** A name is wanted, or some statement mentions it, and nothing before that gives it. */
  predicate Unaccounted(p: seq<Stmt>, wanted: set<string>, n: string) {
    || (n in wanted && Unbound(p, n))
    || exists i :: 0 <= i < |p| && n in FreeNames(p[i]) && Unbound(p[..i], n)
  }

  lemma UnaccountedCons(s: Stmt, p: seq<Stmt>, wanted: set<string>, n: string)
    ensures Unaccounted([s] + p, wanted, n)
            <==> n in FreeNames(s) || (n !in BoundNames(s) && Unaccounted(p, wanted, n))
  {
    var q := [s] + p;
    if Unaccounted(q, wanted, n) && !(n in wanted && Unbound(q, n)) {
      var i :| 0 <= i < |q| && n in FreeNames(q[i]) && Unbound(q[..i], n);
      if i > 0 {
        assert q[..i] == [s] + p[..i - 1] && p[i - 1] == q[i];
        UnboundConcat([s], p[..i - 1], n);
      }
    }
    UnboundConcat([s], p, n);
    if n in FreeNames(s) {
      assert n in FreeNames(q[0]) && Unbound(q[..0], n);
    } else if n !in BoundNames(s) && Unaccounted(p, wanted, n) {
      if i :| 0 <= i < |p| && n in FreeNames(p[i]) && Unbound(p[..i], n) {
        assert q[..i + 1] == [s] + p[..i] && q[i + 1] == p[i];
      }
    }
  }

  lemma UnboundConcat(p: seq<Stmt>, q: seq<Stmt>, n: string)
    ensures Unbound(p + q, n) <==> Unbound(p, n) && Unbound(q, n)
  {
  }

  lemma {:induction false} FuturesAccount(futures: seq<Stmt>, p: seq<Stmt>, wanted: set<string>, n: string)
    requires forall s | s in futures :: IsFuture(s)
    ensures Unaccounted(futures + p, wanted, n) <==> Unbound(futures, n) && Unaccounted(p, wanted, n)
  {
    if futures == [] {
      assert futures + p == p;
    } else {
      assert futures + p == [futures[0]] + (futures[1..] + p);
      UnaccountedCons(futures[0], futures[1..] + p, wanted, n);
      FuturesAccount(futures[1..], p, wanted, n);
      UnboundConcat([futures[0]], futures[1..], n);
      assert futures == [futures[0]] + futures[1..];
      assert futures[0] in futures && futures[0] in [futures[0]];
    }
  }

  lemma {:induction false} WantedAccounts(body: seq<Stmt>, wanted: set<string>, n: string)
    requires FuturesFirst(body)
    ensures n in Wanted(body, wanted)
            <==> Unbound(Futures(body, wanted), n) && Unaccounted(Kept(body, wanted), wanted, n)
  {
    if body != [] {
      var s, rest := body[0], body[1..];
      FuturesFirstTail(body);
      WantedAccounts(rest, wanted, n);
      if Keeps(s, Wanted(rest, wanted)) && !IsFuture(s) {
        NoFutures(rest, wanted);
        UnaccountedCons(Bare(s), Kept(rest, wanted), wanted, n);
      } else {
        assert Kept(body, wanted) == Kept(rest, wanted);
        UnboundConcat(Futures(rest, wanted), [s], n);
        assert s in [s];
      }
    }
  }

  /** The names returned are exactly those the slice mentions, or was asked for, before any
      of its statements gives them. */
  lemma WantedIsUnaccounted(body: seq<Stmt>, wanted: set<string>, n: string)
    requires FuturesFirst(body)
    ensures n in Wanted(body, wanted) <==> Unaccounted(Slice(body, wanted), wanted, n)
  {
    KeptHasNoFuture(body, wanted);
    FuturesAccount(Futures(body, wanted), Kept(body, wanted), wanted, n);
    WantedAccounts(body, wanted, n);
  }
}
