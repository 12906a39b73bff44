/**
 * Why the rewrite is sound: under an arbitrary trait solver, the clauses of the expanded trait
 * hold exactly when the clauses of the original trait hold. Every rewritten predicate is
 * `Self : K::ImpliedPredicate<X, Impls : B>`, which the helper trait's blanket impls make
 * equivalent to `X : B`, and every clause that was removed is one of those rewritten.
 */
module Soundness {
  import opened Wrappers
  import opened Syntax
  import opened HelperTrait
  import opened MacroArgs
  import opened ImpliedBounds
  import opened ImpliedBoundsProperties

  /** Which lifetime predicates `'a : 'b + …` hold. */
  type Outlives = (string, seq<string>) -> bool

  /** `X : B`, for one instantiation of its `for<…>` binder. */
  predicate PredicateHolds(solver: Solver, krate: Path, p: PredicateType) {
    HoldsAll(solver, krate, p.boundedTy, p.bounds)
  }

  predicate WhereHolds(solver: Solver, outlives: Outlives, krate: Path, wp: WherePredicate) {
    match wp
    case TypePred(p) => PredicateHolds(solver, krate, p)
    case LifetimePred(l, os) => outlives(l, os)
  }

  /** The inline bounds of a parameter, as clauses on it. */
  predicate ParamHolds(solver: Solver, outlives: Outlives, krate: Path, gp: GenericParam) {
    match gp
    case TypeParam(ident, _, bounds, _) => HoldsAll(solver, krate, IdentTy(ident), bounds)
    case LifetimeParam(l, os) => outlives(l, os)
    case ConstParam(_, _) => true
  }

  predicate AllPredicatesHold(solver: Solver, krate: Path, ps: seq<PredicateType>) {
    forall i :: 0 <= i < |ps| ==> PredicateHolds(solver, krate, ps[i])
  }

  predicate AllWhereHold(solver: Solver, outlives: Outlives, krate: Path, ws: seq<WherePredicate>) {
    forall i :: 0 <= i < |ws| ==> WhereHolds(solver, outlives, krate, ws[i])
  }

  predicate AllParamsHold(solver: Solver, outlives: Outlives, krate: Path, ps: seq<GenericParam>) {
    forall i :: 0 <= i < |ps| ==> ParamHolds(solver, outlives, krate, ps[i])
  }

  /** Every clause a trait declares: its parameters' bounds, its `where` clause and its supertraits. */
  predicate ClausesHold(solver: Solver, outlives: Outlives, krate: Path, t: ItemTrait) {
    && AllParamsHold(solver, outlives, krate, t.params)
    && AllWhereHold(solver, outlives, krate, WherePredicates(t))
    && HoldsAll(solver, krate, SelfTy, t.supertraits)
  }

  /** The rewritten predicates hold exactly when the extracted ones do. */
  lemma RewrittenHoldIff(solver: Solver, outlives: Outlives, krate: Option<Path>, ps: seq<PredicateType>)
    requires AllBounded(ps)
    ensures AllWhereHold(solver, outlives, CratePath(krate), TransformAll(krate, ps))
      <==> AllPredicatesHold(solver, CratePath(krate), ps)
  {
    var rs := TransformAll(krate, ps);
    forall i | 0 <= i < |ps|
      ensures WhereHolds(solver, outlives, CratePath(krate), rs[i]) <==> PredicateHolds(solver, CratePath(krate), ps[i])
    {
      TransformPreservesMeaning(solver, krate, SelfTy, ps[i]);
    }
  }

  lemma AllWhereHoldAppend(solver: Solver, outlives: Outlives, krate: Path, a: seq<WherePredicate>, b: seq<WherePredicate>)
    ensures AllWhereHold(solver, outlives, krate, a + b)
      <==> AllWhereHold(solver, outlives, krate, a) && AllWhereHold(solver, outlives, krate, b)
  {
    if AllWhereHold(solver, outlives, krate, a + b) {
      forall i | 0 <= i < |a| ensures WhereHolds(solver, outlives, krate, a[i]) {
        assert (a + b)[i] == a[i];
      }
      forall i | 0 <= i < |b| ensures WhereHolds(solver, outlives, krate, b[i]) {
        assert (a + b)[|a| + i] == b[i];
      }
    }
    if AllWhereHold(solver, outlives, krate, a) && AllWhereHold(solver, outlives, krate, b) {
      forall i | 0 <= i < |a + b| ensures WhereHolds(solver, outlives, krate, (a + b)[i]) {
        if i < |a| {
          assert (a + b)[i] == a[i];
        } else {
          assert (a + b)[i] == b[i - |a|];
        }
      }
    }
  }

  lemma AllPredicatesHoldAppend(solver: Solver, krate: Path, a: seq<PredicateType>, b: seq<PredicateType>)
    ensures AllPredicatesHold(solver, krate, a + b)
      <==> AllPredicatesHold(solver, krate, a) && AllPredicatesHold(solver, krate, b)
  {
    if AllPredicatesHold(solver, krate, a + b) {
      forall i | 0 <= i < |a| ensures PredicateHolds(solver, krate, a[i]) {
        assert (a + b)[i] == a[i];
      }
      forall i | 0 <= i < |b| ensures PredicateHolds(solver, krate, b[i]) {
        assert (a + b)[|a| + i] == b[i];
      }
    }
    if AllPredicatesHold(solver, krate, a) && AllPredicatesHold(solver, krate, b) {
      forall i | 0 <= i < |a + b| ensures PredicateHolds(solver, krate, (a + b)[i]) {
        if i < |a| {
          assert (a + b)[i] == a[i];
        } else {
          assert (a + b)[i] == b[i - |a|];
        }
      }
    }
  }

  /**
   * The parameters' bounds are preserved: what stayed inline together with what was
   * extracted says exactly what the original parameters said.
   */
  lemma ParamsSplit(solver: Solver, outlives: Outlives, krate: Path, ps: seq<GenericParam>)
    requires ColonsPresent(ps)
    ensures AllParamsHold(solver, outlives, krate, StrippedParams(ps)) && AllPredicatesHold(solver, krate, ParamPredicates(ps))
      <==> AllParamsHold(solver, outlives, krate, ps)
  {
    ParamSitesAreBoundedParams(ps);
    ParamPredicatesMatchSites(ps);
    var sites, preds := ParamSites(ps), ParamPredicates(ps);
    if AllParamsHold(solver, outlives, krate, ps) {
      forall i | 0 <= i < |ps| ensures ParamHolds(solver, outlives, krate, StrippedParams(ps)[i]) {
        assert StrippedParams(ps)[i] == StripParam(ps[i]);
      }
      forall k | 0 <= k < |preds| ensures PredicateHolds(solver, krate, preds[k]) {
        assert ParamHolds(solver, outlives, krate, ps[sites[k].index]);
      }
    }
    if AllParamsHold(solver, outlives, krate, StrippedParams(ps)) && AllPredicatesHold(solver, krate, preds) {
      forall i | 0 <= i < |ps| ensures ParamHolds(solver, outlives, krate, ps[i]) {
        assert ParamHolds(solver, outlives, krate, StrippedParams(ps)[i]);
        if HasInlineBounds(ps[i]) {
          var k :| 0 <= k < |sites| && sites[k] == ParamBounds(i);
          assert PredicateHolds(solver, krate, preds[k]);
        } else {
          assert StrippedParams(ps)[i] == ps[i];
        }
      }
    }
  }

  /**
   * The `where` clause is preserved: what was retained together with what was extracted says
   * exactly what the original `where` clause said, copies included.
   */
  lemma WhereSplit(solver: Solver, outlives: Outlives, krate: Path, ws: seq<WherePredicate>)
    ensures AllWhereHold(solver, outlives, krate, Retained(ws)) && AllPredicatesHold(solver, krate, WhereExtracted(ws))
      <==> AllWhereHold(solver, outlives, krate, ws)
  {
    RetainedIsOrderedSelection(ws);
    WhereSitesMatchExtracted(ws);
    var idx, kept := RetainedIndices(ws), Retained(ws);
    var sites, taken := WhereSites(ws), WhereExtracted(ws);
    if AllWhereHold(solver, outlives, krate, ws) {
      forall k | 0 <= k < |kept| ensures WhereHolds(solver, outlives, krate, kept[k]) {
        assert kept[k] == ws[idx[k]];
      }
      forall k | 0 <= k < |taken| ensures PredicateHolds(solver, krate, taken[k]) {
        assert WhereHolds(solver, outlives, krate, ws[sites[k].index]);
      }
    }
    if AllWhereHold(solver, outlives, krate, kept) && AllPredicatesHold(solver, krate, taken) {
      forall j | 0 <= j < |ws| ensures WhereHolds(solver, outlives, krate, ws[j]) {
        if j in idx {
          var k :| 0 <= k < |idx| && idx[k] == j;
          assert WhereHolds(solver, outlives, krate, kept[k]);
        } else {
          assert WherePredicateAt(j) in sites;
          var k :| 0 <= k < |sites| && sites[k] == WherePredicateAt(j);
          assert PredicateHolds(solver, krate, taken[k]);
        }
      }
    }
  }

  /**
   * The expanded trait declares the same clauses as the original one: for every trait solver
   * and every lifetime relation, its clauses hold exactly when the original's do. `krate` is
   * the crate path the rewrite used.
   */
  lemma ExpansionIsEquivalent(solver: Solver, outlives: Outlives, t: ItemTrait, args: Args, cell: Option<Path>)
    requires ColonsPresent(t.params)
    ensures var krate := CratePath(if args.krate.Some? then args.krate else cell);
      ClausesHold(solver, outlives, krate, ExpansionOf(t, args, cell).item) <==> ClausesHold(solver, outlives, krate, t)
  {
    var krate := if args.krate.Some? then args.krate else cell;
    var k := CratePath(krate);
    var e := Extract(t, args, []);
    ExtractedAreBounded(t, args, []);
    var ps, ws := t.params, WherePredicates(t);
    var rewritten := TransformAll(krate, e.predicates);
    var item := ExpansionOf(t, args, cell).item;
    assert item == Assemble(e.item, rewritten);
    assert WherePredicates(e.item) == Retained(ws);
    assert WherePredicates(item) == rewritten + Retained(ws);
    assert e.predicates == ParamPredicates(ps) + WhereExtracted(ws);

    AllWhereHoldAppend(solver, outlives, k, rewritten, Retained(ws));
    RewrittenHoldIff(solver, outlives, krate, e.predicates);
    AllPredicatesHoldAppend(solver, k, ParamPredicates(ps), WhereExtracted(ws));
    ParamsSplit(solver, outlives, k, ps);
    WhereSplit(solver, outlives, k, ws);
  }

  /** A solver under which no bound holds. */
  function NothingHolds(): Solver {
    (ty: Ty, b: Bound) => false
  }

  /**
   * Without its `:` token, a type parameter whose bounds may be higher-ranked loses them: they
   * are taken from the parameter and never extracted, so the expansion no longer requires them.
   * syn never produces such a parameter; this is why the equivalence requires the `:`.
   */
  lemma ColonlessHigherRankedBoundIsLost()
    ensures var fnBound := TraitBound(None, Path(false, [], Segment("Fn", Parenthesized([], None))));
      var t := ItemTrait("Foo", [TypeParam("T", false, [fnBound], None)], None, [], []);
      var outlives := (l: string, os: seq<string>) => true;
      && !ClausesHold(NothingHolds(), outlives, DEFAULT_CRATE, t)
      && ClausesHold(NothingHolds(), outlives, DEFAULT_CRATE, ExpansionOf(t, NO_ARGS, None).item)
  {
    var fnBound := TraitBound(None, Path(false, [], Segment("Fn", Parenthesized([], None))));
    var param := TypeParam("T", false, [fnBound], None);
    var t := ItemTrait("Foo", [param], None, [], []);
    var outlives := (l: string, os: seq<string>) => true;
    assert TraitBoundMayBeHigherRanked(fnBound);
    assert MayBeHigherRanked([fnBound]);
    assert !HoldsAll(NothingHolds(), DEFAULT_CRATE, IdentTy("T"), [fnBound]) by {
      assert !IsHelperBound(DEFAULT_CRATE, fnBound);
      assert !Holds(NothingHolds(), DEFAULT_CRATE, IdentTy("T"), fnBound);
    }
    assert !ParamHolds(NothingHolds(), outlives, DEFAULT_CRATE, t.params[0]);

    var e := Extract(t, NO_ARGS, []);
    assert [param][..0] == [];
    assert ParamPredicates([param]) == [];
    assert StrippedParams([param]) == [param.(bounds := [])];
    assert e.predicates == [];
    var item := ExpansionOf(t, NO_ARGS, None).item;
    assert item.params == [param.(bounds := [])];
    assert WherePredicates(item) == [];
    assert ParamHolds(NothingHolds(), outlives, DEFAULT_CRATE, item.params[0]);
  }
}
