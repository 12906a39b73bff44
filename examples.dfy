/**
 * The expansions of the traits the repository's tests declare (`tests/basic.rs`,
 * `tests/iter.rs`, `tests/krate.rs`), and of a trait with higher-ranked clauses.
 */
module Examples {
  import opened Wrappers
  import opened Syntax
  import opened HelperTrait
  import opened MacroArgs
  import opened ImpliedBounds
  import opened ImpliedBoundsProperties

  function TraitNamed(name: string): Bound {
    TraitBound(None, IdentPath(name))
  }

  /** `Self::Gat<true>` */
  const GAT_TRUE: Ty := PathTy(None, Path(false, [Segment("Self", NoArguments)], Segment("Gat", AngleBracketed([ConstArg("true")]))))

  /** `Self : Super` */
  const SELF_SUPER: WherePredicate := TypePred(PredicateType(None, SelfTy, [TraitNamed("Super")]))

  /** `Self::Gat<true> : Send` */
  const GAT_SEND: WherePredicate := TypePred(PredicateType(None, GAT_TRUE, [TraitNamed("Send")]))

  /** `Self : K::ImpliedPredicate<x, Impls : bounds>` */
  function Implied(krate: Path, x: Ty, bounds: seq<Bound>): WherePredicate {
    TypePred(PredicateType(None, SelfTy, [ImpliedPredicateBound(krate, x, bounds)]))
  }

  /** `trait Foo<T : Clone> where Self : Super, Self::Gat<true> : Send { type Gat<const IS_SEND: bool>; }` */
  function Foo(): ItemTrait {
    ItemTrait("Foo", [TypeParam("T", true, [TraitNamed("Clone")], None)], Some([SELF_SUPER, GAT_SEND]), [],
      ["type Gat<const IS_SEND: bool>;"])
  }

  /** `trait Baz where Self : Super { fn m(&self); }` */
  function Baz(): ItemTrait {
    ItemTrait("Baz", [], Some([SELF_SUPER]), [], ["fn m(&self);"])
  }

  /** How extraction goes through `Foo`, one parameter and one predicate at a time. */
  lemma FooExtraction()
    ensures var ps, ws := Foo().params, WherePredicates(Foo());
      && StrippedParams(ps) == ps
      && ParamPredicates(ps) == [PredicateType(None, IdentTy("T"), [TraitNamed("Clone")])]
      && ParamSites(ps) == [ParamBounds(0)]
      && Retained(ws) == ws
      && WhereExtracted(ws) == [GAT_SEND.pred]
      && WhereSites(ws) == [WherePredicateAt(1)]
      && Sites(Foo()) == [ParamBounds(0), WherePredicateAt(1)]
  {
    var ps, ws := Foo().params, WherePredicates(Foo());
    assert ps[..0] == [];
    assert !MayBeHigherRanked([TraitNamed("Clone")]);
    assert ws == [SELF_SUPER, GAT_SEND];
    assert ws[..1] == [SELF_SUPER] && [SELF_SUPER][..0] == [];
    assert !IsExtracted(SELF_SUPER) && IsRetained(SELF_SUPER);
    assert IsExtracted(GAT_SEND);
    assert !MayBeHigherRanked([TraitNamed("Send")]);
    assert IsRetained(GAT_SEND);
    assert Retained([SELF_SUPER]) == [SELF_SUPER];
    assert WhereExtracted([SELF_SUPER]) == [] && WhereSites([SELF_SUPER]) == [];
  }

  /**
   * `Foo` becomes `trait Foo<T : Clone> where Self : ImpliedPredicate<T, Impls : Clone>,
   * Self : ImpliedPredicate<Self::Gat<true>, Impls : Send>, Self : Super,
   * Self::Gat<true> : Send`: both clauses are rewritten and, being first-order, also copied;
   * `Self : Super` is a supertrait clause and stays as it is.
   */
  lemma FooExpansion()
    ensures ExpansionOf(Foo(), NO_ARGS, None) == Expansion(
      Foo().(whereClause := Some([
        Implied(DEFAULT_CRATE, IdentTy("T"), [TraitNamed("Clone")]),
        Implied(DEFAULT_CRATE, GAT_TRUE, [TraitNamed("Send")]),
        SELF_SUPER,
        GAT_SEND])),
      [])
  {
    FooExtraction();
    ExtractedAreBounded(Foo(), NO_ARGS, []);
    var e := Extract(Foo(), NO_ARGS, []);
    assert e.predicates == [PredicateType(None, IdentTy("T"), [TraitNamed("Clone")]), GAT_SEND.pred];
    assert e.debugged == [];
    var rewritten := TransformAll(None, e.predicates);
    assert rewritten[0] == Implied(DEFAULT_CRATE, IdentTy("T"), [TraitNamed("Clone")]);
    assert rewritten[1] == Implied(DEFAULT_CRATE, GAT_TRUE, [TraitNamed("Send")]);
    assert rewritten == [rewritten[0], rewritten[1]];
    assert e.item == Foo();
    assert ExpansionOf(Foo(), NO_ARGS, None) == Expansion(Assemble(Foo(), rewritten), []);
    assert rewritten + [SELF_SUPER, GAT_SEND] == [rewritten[0], rewritten[1], SELF_SUPER, GAT_SEND];
  }

  /** With `debug`, each of `Foo`'s two clauses gets its warning, in order. */
  lemma FooDebugWarnings()
    ensures ExpansionOf(Foo(), NO_ARGS.(debug := true), None).warnings
      == [Warning(ParamBounds(0), DEBUG_MESSAGE), Warning(WherePredicateAt(1), DEBUG_MESSAGE)]
  {
    FooExtraction();
  }

  /** `#[implied_bounds(allow_none)] trait Baz where Self : Super` is left as it is, silently. */
  lemma BazUnchanged()
    ensures ExpansionOf(Baz(), NO_ARGS.(allowNone := true), None) == Expansion(Baz(), [])
    ensures ExpansionOf(Baz(), NO_ARGS, None).warnings == [NONE_FOUND]
  {
    var ws := WherePredicates(Baz());
    assert !IsExtracted(SELF_SUPER);
    assert ws[..0] == [];
    assert Retained(ws) == ws && WhereExtracted(ws) == [] && WhereSites(ws) == [];
  }

  /** `&'r Self : IntoIterator<Item = Self::IterItem>`, the clause of `tests/iter.rs`. */
  const REF_SELF_INTO_ITER: WherePredicate :=
    TypePred(PredicateType(None, RefTy(Some("'r"), false, SelfTy),
      [TraitBound(None, Path(false, [], Segment("IntoIterator",
        AngleBracketed([AssocType("Item", PathTy(None, Path(false, [Segment("Self", NoArguments)], Segment("IterItem", NoArguments))))]))))]))

  /** `trait Iter<'r, _Bounds = &'r Self> : 'r where &'r Self : IntoIterator<Item = Self::IterItem>` */
  function Iter(): ItemTrait {
    ItemTrait("Iter",
      [LifetimeParam("'r", []), TypeParam("_Bounds", false, [], Some(RefTy(Some("'r"), false, SelfTy)))],
      Some([REF_SELF_INTO_ITER]),
      [LifetimeBound("'r")],
      ["type IterItem;", "fn iter(self: &'r Self) -> <&'r Self as IntoIterator>::IntoIter { self.into_iter() }"])
  }

  /**
   * A clause on `&'r Self` is not a supertrait clause: it is rewritten, and copied; the
   * parameters, which carry no bounds, are left alone.
   */
  lemma IterExpansion()
    ensures ExpansionOf(Iter(), NO_ARGS, None) == Expansion(
      Iter().(whereClause := Some([
        Implied(DEFAULT_CRATE, REF_SELF_INTO_ITER.pred.boundedTy, REF_SELF_INTO_ITER.pred.bounds),
        REF_SELF_INTO_ITER])),
      [])
  {
    var t := Iter();
    var ps, ws := t.params, WherePredicates(t);
    assert ps[..1] == [ps[0]] && ps[..1][..0] == [] && ws[..0] == [];
    assert !HasInlineBounds(ps[0]) && !HasInlineBounds(ps[1]);
    assert ParamPredicates(ps[..1]) == ParamPredicates([]) + ParamPredicate(ps[0]) == [];
    assert ParamSites(ps[..1]) == ParamSites([]) == [];
    assert IsExtracted(REF_SELF_INTO_ITER);
    assert !MayBeHigherRanked(REF_SELF_INTO_ITER.pred.bounds);
    assert ParamPredicates(ps) == [] && ParamSites(ps) == [];
    assert StrippedParams(ps) == ps;
    assert WhereExtracted(ws) == [REF_SELF_INTO_ITER.pred] && Retained(ws) == ws;
    assert Sites(t) == [WherePredicateAt(0)];
    ExtractedAreBounded(t, NO_ARGS, []);
    var rewritten := TransformAll(None, Extract(t, NO_ARGS, []).predicates);
    assert rewritten == [Implied(DEFAULT_CRATE, REF_SELF_INTO_ITER.pred.boundedTy, REF_SELF_INTO_ITER.pred.bounds)];
    assert Extract(t, NO_ARGS, []).item == t;
    assert ExpansionOf(t, NO_ARGS, None) == Expansion(Assemble(t, rewritten), []);
    assert rewritten + [REF_SELF_INTO_ITER] == [rewritten[0], REF_SELF_INTO_ITER];
  }

  /** `F : Fn(&u8)` */
  const FN_REF_U8: Bound := TraitBound(None, Path(false, [], Segment("Fn", Parenthesized([RefTy(None, false, IdentTy("u8"))], None))))

  /** `for<'a> &'a F : Copy` */
  const FOR_A_REF_F_COPY: WherePredicate :=
    TypePred(PredicateType(Some(["'a"]), RefTy(Some("'a"), false, IdentTy("F")), [TraitNamed("Copy")]))

  /** `trait Apply<F : Fn(&u8)> where for<'a> &'a F : Copy {}` */
  function Apply(): ItemTrait {
    ItemTrait("Apply", [TypeParam("F", true, [FN_REF_U8], None)], Some([FOR_A_REF_F_COPY]), [], [])
  }

  /**
   * Clauses that are, or may be, higher-ranked are moved without leaving a copy: the
   * parameter loses its `Fn(&u8)` bound, and the `where` clause keeps only the rewrites,
   * the second one under the same `for<'a>` binder.
   */
  lemma ApplyExpansion()
    ensures ExpansionOf(Apply(), NO_ARGS, None) == Expansion(
      Apply().(
        params := [TypeParam("F", true, [], None)],
        whereClause := Some([
          Implied(DEFAULT_CRATE, IdentTy("F"), [FN_REF_U8]),
          TypePred(PredicateType(Some(["'a"]), SelfTy, [ImpliedPredicateBound(DEFAULT_CRATE, RefTy(Some("'a"), false, IdentTy("F")), [TraitNamed("Copy")])]))])),
      [])
  {
    var t := Apply();
    var ps, ws := t.params, WherePredicates(t);
    assert ps[..0] == [] && ws[..0] == [];
    assert TraitBoundMayBeHigherRanked(FN_REF_U8);
    assert MayBeHigherRanked([FN_REF_U8]);
    assert IsExtracted(FOR_A_REF_F_COPY) && !KeepsCopy(FOR_A_REF_F_COPY.pred);
    assert StrippedParams(ps) == [TypeParam("F", true, [], None)];
    assert ParamPredicates(ps) == [PredicateType(None, IdentTy("F"), [FN_REF_U8])];
    assert WhereExtracted(ws) == [FOR_A_REF_F_COPY.pred] && Retained(ws) == [];
    assert Sites(t) == [ParamBounds(0), WherePredicateAt(0)];
    ExtractedAreBounded(t, NO_ARGS, []);
    var rewritten := TransformAll(None, Extract(t, NO_ARGS, []).predicates);
    assert rewritten[0] == Implied(DEFAULT_CRATE, IdentTy("F"), [FN_REF_U8]);
    assert rewritten[1] == TypePred(PredicateType(Some(["'a"]), SelfTy, [ImpliedPredicateBound(DEFAULT_CRATE, RefTy(Some("'a"), false, IdentTy("F")), [TraitNamed("Copy")])]));
    assert rewritten == [rewritten[0], rewritten[1]];
    var stripped := t.(params := [TypeParam("F", true, [], None)], whereClause := Some([]));
    assert Extract(t, NO_ARGS, []).item == stripped;
    assert ExpansionOf(t, NO_ARGS, None) == Expansion(Assemble(stripped, rewritten), []);
    assert rewritten + [] == rewritten;
  }

  /** `(Self) : Super` is extracted (the bounded type is not the bare path `Self`); `Self : Super` is not. */
  lemma ParenthesisedSelfIsExtracted()
    ensures IsExtracted(TypePred(PredicateType(None, ParenTy(SelfTy), [TraitNamed("Super")])))
    ensures IsExtracted(GAT_SEND)
    ensures !IsExtracted(SELF_SUPER)
  {
  }

  /**
   * Expanding `Foo` twice does not give the first expansion back: the copies the first pass
   * left behind are extracted again.
   */
  lemma FooSecondPassExtractsCopies()
    ensures Extract(ExpansionOf(Foo(), NO_ARGS, None).item, NO_ARGS, []).predicates
      == [PredicateType(None, IdentTy("T"), [TraitNamed("Clone")]), GAT_SEND.pred]
  {
    FooExpansion();
    SecondPassTakesOnlyCopies(Foo(), NO_ARGS, None);
    FooExtraction();
  }

  /** `trait _Foo<T : Clone> {}` */
  function UnderscoreFoo(): ItemTrait {
    ItemTrait("_Foo", [TypeParam("T", true, [TraitNamed("Clone")], None)], None, [], [])
  }

  /** `_Foo<T : Clone>` expanded with `krate` set to `p`: one rewritten clause through `p`, no warning. */
  lemma UnderscoreFooExpansion(p: Path)
    ensures ExpansionOf(UnderscoreFoo(), NO_ARGS.(krate := Some(p)), None) == Expansion(
      UnderscoreFoo().(whereClause := Some([Implied(p, IdentTy("T"), [TraitNamed("Clone")])])),
      [])
  {
    var t := UnderscoreFoo();
    var args := NO_ARGS.(krate := Some(p));
    assert t.params[..0] == [];
    assert !MayBeHigherRanked([TraitNamed("Clone")]);
    assert StrippedParams(t.params) == t.params;
    assert ParamPredicates(t.params) == [PredicateType(None, IdentTy("T"), [TraitNamed("Clone")])];
    assert Sites(t) == [ParamBounds(0)];
    ExtractedAreBounded(t, args, []);
    var rewritten := TransformAll(Some(p), Extract(t, args, []).predicates);
    assert rewritten == [Implied(p, IdentTy("T"), [TraitNamed("Clone")])];
    assert Extract(t, args, []).item == t;
    assert rewritten + WherePredicates(t) == rewritten;
    assert ExpansionOf(t, args, None).item == t.(whereClause := Some(rewritten));
  }

  /**
   * `#[::renamed::implied_bounds(crate = ::renamed)] trait _Foo<T : Clone> {}`, with any
   * mod-style path `p` for `::renamed`: the rewrite names the helper trait through `p`, and
   * the trait gains a `where` clause. The `CRATE` cell holds `p` during the rewrite and is
   * empty afterwards.
   */
  method RenamedCrate(p: Path) returns (out: Output, after: Option<Path>)
    requires IsModStyle(p)
    ensures out == Expanded(Expansion(
      UnderscoreFoo().(whereClause := Some([Implied(p, IdentTy("T"), [TraitNamed("Clone")])])),
      []))
    ensures after == None
  {
    var tokens := [Ident("crate"), EQ] + RenderPath(p);
    CrateArgument(p, false);
    assert tokens + [] == tokens;
    UnderscoreFooExpansion(p);
    var t := UnderscoreFoo();
    var cell := new CrateCell();
    out := ImpliedBoundsAttribute(cell, tokens, Ok(t));
    after := cell.Get();
  }
}
