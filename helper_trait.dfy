/**
 * The meaning of the helper traits of `helper_trait.rs`.
 *
 *   impl<T : ?Sized, Self_ : ?Sized> HasAssoc<T> for Self_ { type Impls = T; }
 *   trait ImpliedPredicate<T : ?Sized> : HasAssoc<T, Impls = T> {}
 *   impl<T : ?Sized, Self_ : ?Sized> ImpliedPredicate<T> for Self_ {}
 *
 * Trait solving for every other trait is an abstract `Solver` relation between a type and a
 * bound; `Holds` resolves the helper trait by its blanket impls and defers everything else
 * to the solver.
 */
module HelperTrait {
  import opened Wrappers
  import opened Syntax

  /** Which (type, bound) pairs the compiler accepts, for every trait other than the helpers. */
  type Solver = (Ty, Bound) -> bool

  const IMPLIED_PREDICATE: string := "ImpliedPredicate"
  const IMPLS: string := "Impls"

  /** The blanket impl of `HasAssoc<T>` covers every implementor and every `T`, sized or not. */
  predicate HasAssocImplemented(self: Ty, t: Ty) {
    true
  }

  /** `<Self_ as HasAssoc<T>>::Impls`, as the blanket impl defines it. */
  function HasAssocImpls(self: Ty, t: Ty): Ty {
    t
  }

  /**
   * `Self_ : ImpliedPredicate<T>`: the blanket impl applies, and its supertrait
   * `HasAssoc<T, Impls = T>` holds.
   */
  predicate ImpliedPredicateImplemented(self: Ty, t: Ty) {
    HasAssocImplemented(self, t) && HasAssocImpls(self, t) == t
  }

  /** The path `#krate::ImpliedPredicate<args>`. */
  function HelperPath(krate: Path, args: seq<GenericArgument>): Path {
    krate.Append(Segment(IMPLIED_PREDICATE, AngleBracketed(args)))
  }

  /** The bound `#krate::ImpliedPredicate<X, Impls : B>`. */
  function ImpliedPredicateBound(krate: Path, x: Ty, bounds: seq<Bound>): Bound {
    TraitBound(None, HelperPath(krate, [TypeArg(x), Constraint(IMPLS, bounds)]))
  }

  /** The associated-item arguments `ImpliedPredicate` admits after its one type argument. */
  predicate IsImplsArgument(arg: GenericArgument) {
    (arg.Constraint? && arg.ident == IMPLS) || (arg.AssocType? && arg.ident == IMPLS)
  }

  /** A bound that names the helper trait under `krate`, in a form the compiler accepts. */
  predicate IsHelperBound(krate: Path, b: Bound) {
    && b.TraitBound?
    && b.path.leadingColon == krate.leadingColon
    && b.path.prefix == krate.Segments()
    && b.path.last.ident == IMPLIED_PREDICATE
    && b.path.last.arguments.AngleBracketed?
    && |b.path.last.arguments.args| >= 1
    && b.path.last.arguments.args[0].TypeArg?
    && forall j :: 1 <= j < |b.path.last.arguments.args| ==> IsImplsArgument(b.path.last.arguments.args[j])
  }

  /** Does `ty : b` hold? */
  function Holds(solver: Solver, krate: Path, ty: Ty, b: Bound): bool
    decreases b
  {
    if IsHelperBound(krate, b) then
      var args := b.path.last.arguments.args;
      var t := args[0].ty;
      ImpliedPredicateImplemented(ty, t) && ImplsArgumentsHold(solver, krate, HasAssocImpls(ty, t), args[1..])
    else
      solver(ty, b)
  }

  /** The `Impls : B` and `Impls = U` arguments, with `Impls` resolved to `impls`. */
  function ImplsArgumentsHold(solver: Solver, krate: Path, impls: Ty, args: seq<GenericArgument>): bool
    decreases args
  {
    forall j :: 0 <= j < |args| ==>
      match args[j]
      case Constraint(_, bounds) => HoldsAll(solver, krate, impls, bounds)
      case AssocType(_, u) => u == impls
      case _ => true
  }

  /** Does `ty : b1 + b2 + …` hold? */
  function HoldsAll(solver: Solver, krate: Path, ty: Ty, bounds: seq<Bound>): bool
    decreases bounds
  {
    forall i :: 0 <= i < |bounds| ==> Holds(solver, krate, ty, bounds[i])
  }

  /** `S : K::ImpliedPredicate<X>` holds for every `S` and `X`: the blanket impl covers them all. */
  lemma ImpliedPredicateIsUniversal(solver: Solver, krate: Path, self: Ty, x: Ty)
    ensures Holds(solver, krate, self, TraitBound(None, HelperPath(krate, [TypeArg(x)])))
  {
    var b := TraitBound(None, HelperPath(krate, [TypeArg(x)]));
    assert b.path.last.arguments.args == [TypeArg(x)];
    assert IsHelperBound(krate, b);
  }

  /**
   * `S : K::ImpliedPredicate<X, Impls = U>` holds exactly when `U` is `X`: the supertrait
   * `HasAssoc<X, Impls = X>` fixes `<S as HasAssoc<X>>::Impls` to `X`, for every `S`.
   */
  lemma ImplsIsTheTypeArgument(solver: Solver, krate: Path, self: Ty, x: Ty, u: Ty)
    ensures Holds(solver, krate, self, TraitBound(None, HelperPath(krate, [TypeArg(x), AssocType(IMPLS, u)]))) <==> u == x
  {
    var args := [TypeArg(x), AssocType(IMPLS, u)];
    var b := TraitBound(None, HelperPath(krate, args));
    assert b.path.last.arguments.args == args;
    assert IsImplsArgument(args[1]);
    assert IsHelperBound(krate, b);
    assert args[1..] == [AssocType(IMPLS, u)];
  }

  /** The rewritten bound is recognised as the helper trait. */
  lemma ImpliedPredicateBoundIsHelper(krate: Path, x: Ty, bounds: seq<Bound>)
    ensures IsHelperBound(krate, ImpliedPredicateBound(krate, x, bounds))
  {
    var args := [TypeArg(x), Constraint(IMPLS, bounds)];
    assert ImpliedPredicateBound(krate, x, bounds).path.last.arguments.args == args;
    assert IsImplsArgument(args[1]);
  }

  /**
   * The encoding trick: `S : ImpliedPredicate<X, Impls : B>` holds, for any `S`, exactly when
   * `X : B` does, whatever the bounds `B` are.
   */
  lemma ImpliedPredicateEquivalence(solver: Solver, krate: Path, self: Ty, x: Ty, bounds: seq<Bound>)
    ensures Holds(solver, krate, self, ImpliedPredicateBound(krate, x, bounds)) <==> HoldsAll(solver, krate, x, bounds)
  {
    var b := ImpliedPredicateBound(krate, x, bounds);
    ImpliedPredicateBoundIsHelper(krate, x, bounds);
    var args := b.path.last.arguments.args;
    assert args == [TypeArg(x), Constraint(IMPLS, bounds)];
    var rest := args[1..];
    assert rest == [Constraint(IMPLS, bounds)];
    assert Holds(solver, krate, self, b) == ImplsArgumentsHold(solver, krate, x, rest);
    assert ImplsArgumentsHold(solver, krate, x, rest) == HoldsAll(solver, krate, x, bounds) by {
      assert |rest| == 1 && rest[0] == Constraint(IMPLS, bounds);
    }
  }
}
