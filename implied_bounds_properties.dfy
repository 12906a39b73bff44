/**
 * What the extraction, the rewrite and the assembly of `_mod.rs` promise: which clauses are
 * taken, in which order, what is left behind, which warnings are emitted, and the shape of
 * the expanded trait.
 */
module ImpliedBoundsProperties {
  import opened Wrappers
  import opened Syntax
  import opened HelperTrait
  import opened MacroArgs
  import opened ImpliedBounds

  /** Every bounded type parameter carries its `:` token, as syn's parser guarantees. */
  predicate ColonsPresent(ps: seq<GenericParam>) {
    forall i :: 0 <= i < |ps| ==> HasInlineBounds(ps[i]) ==> ps[i].colon
  }

  /** The clause a warning site stands for, when it stands for one. */
  function ClauseAt(t: ItemTrait, site: Site): Option<PredicateType> {
    match site
    case ParamBounds(i) =>
      if i < |t.params| && HasInlineBounds(t.params[i])
      then Some(PredicateType(None, IdentTy(t.params[i].ident), t.params[i].bounds))
      else None
    case WherePredicateAt(j) =>
      var ws := WherePredicates(t);
      if j < |ws| && IsExtracted(ws[j]) then Some(ws[j].pred) else None
    case MixedSite => None
  }

  /** Source order of sites: the parameters come before the `where` clause. */
  predicate SiteBefore(a: Site, b: Site) {
    match (a, b)
    case (ParamBounds(i), ParamBounds(j)) => i < j
    case (ParamBounds(_), WherePredicateAt(_)) => true
    case (WherePredicateAt(i), WherePredicateAt(j)) => i < j
    case _ => false
  }

  const NONE_FOUND: Warning := Warning(MixedSite, NONE_FOUND_MESSAGE)

  // ---------------------------------------------------------------------------------------
  // may_be_higher_ranked

  /** The heuristic looks at each bound on its own: it distributes over concatenation. */
  lemma MayBeHigherRankedAppend(a: seq<Bound>, b: seq<Bound>)
    ensures MayBeHigherRanked(a + b) <==> MayBeHigherRanked(a) || MayBeHigherRanked(b)
  {
    if MayBeHigherRanked(a + b) {
      var i :| 0 <= i < |a + b| && TraitBoundMayBeHigherRanked((a + b)[i]);
      if i < |a| {
        assert TraitBoundMayBeHigherRanked(a[i]);
      } else {
        assert TraitBoundMayBeHigherRanked(b[i - |a|]);
      }
    }
    if MayBeHigherRanked(b) {
      var i :| 0 <= i < |b| && TraitBoundMayBeHigherRanked(b[i]);
      assert (a + b)[|a| + i] == b[i];
    }
    if MayBeHigherRanked(a) {
      var i :| 0 <= i < |a| && TraitBoundMayBeHigherRanked(a[i]);
      assert (a + b)[i] == a[i];
    }
  }

  /** Lifetime bounds and other non-trait bounds never make a bound list higher-ranked. */
  lemma NonTraitBoundsNeverHigherRanked(a: seq<Bound>, b: Bound)
    requires !b.TraitBound?
    ensures MayBeHigherRanked(a + [b]) == MayBeHigherRanked(a)
    ensures MayBeHigherRanked([b] + a) == MayBeHigherRanked(a)
  {
    MayBeHigherRankedAppend(a, [b]);
    MayBeHigherRankedAppend([b], a);
  }

  // ---------------------------------------------------------------------------------------
  // Generic parameters

  /**
   * Lifetime and const parameters, and type parameters without bounds, are untouched; a
   * bounded type parameter keeps its bounds unless they may be higher-ranked.
   */
  lemma ParamAfterExtraction(ps: seq<GenericParam>, i: nat)
    requires i < |ps|
    ensures !HasInlineBounds(ps[i]) ==> StrippedParams(ps)[i] == ps[i]
    ensures HasInlineBounds(ps[i]) ==>
      StrippedParams(ps)[i] == ps[i].(bounds := if MayBeHigherRanked(ps[i].bounds) then [] else ps[i].bounds)
  {
  }

  /** The reported parameters are exactly the bounded type parameters, in parameter order. */
  lemma {:induction false} ParamSitesAreBoundedParams(ps: seq<GenericParam>)
    ensures forall k :: 0 <= k < |ParamSites(ps)| ==>
      ParamSites(ps)[k].ParamBounds? && ParamSites(ps)[k].index < |ps| && HasInlineBounds(ps[ParamSites(ps)[k].index])
    ensures forall k, l :: 0 <= k < l < |ParamSites(ps)| ==> ParamSites(ps)[k].index < ParamSites(ps)[l].index
    ensures forall i :: 0 <= i < |ps| ==> (HasInlineBounds(ps[i]) <==> ParamBounds(i) in ParamSites(ps))
    decreases |ps|
  {
    if ps != [] {
      var init := ps[..|ps| - 1];
      ParamSitesAreBoundedParams(init);
      assert forall i :: 0 <= i < |init| ==> init[i] == ps[i];
      assert ParamBounds(|ps| - 1) !in ParamSites(init);
    }
  }

  /**
   * With every `:` present, the parameters contribute one predicate per reported parameter,
   * in the same order: `ident : bounds`, with the bounds as written.
   */
  lemma {:induction false} ParamPredicatesMatchSites(ps: seq<GenericParam>)
    requires ColonsPresent(ps)
    ensures |ParamPredicates(ps)| == |ParamSites(ps)|
    ensures forall k :: 0 <= k < |ParamSites(ps)| ==>
      && ParamSites(ps)[k].ParamBounds?
      && ParamSites(ps)[k].index < |ps|
      && HasInlineBounds(ps[ParamSites(ps)[k].index])
      && ParamPredicates(ps)[k] == ParamPredicate(ps[ParamSites(ps)[k].index])[0]
    decreases |ps|
  {
    if ps != [] {
      var init, last := ps[..|ps| - 1], ps[|ps| - 1];
      assert forall i :: 0 <= i < |init| ==> init[i] == ps[i];
      ParamPredicatesMatchSites(init);
      ParamSitesAreBoundedParams(init);
      var sites, preds := ParamSites(init), ParamPredicates(init);
      assert ParamSites(ps) == sites + (if HasInlineBounds(last) then [ParamBounds(|ps| - 1)] else []);
      assert ParamPredicates(ps) == preds + ParamPredicate(last);
      forall k | 0 <= k < |ParamSites(ps)|
        ensures
          && ParamSites(ps)[k].ParamBounds?
          && ParamSites(ps)[k].index < |ps|
          && HasInlineBounds(ps[ParamSites(ps)[k].index])
          && ParamPredicates(ps)[k] == ParamPredicate(ps[ParamSites(ps)[k].index])[0]
      {
        if k < |sites| {
          assert ParamSites(ps)[k] == sites[k];
          assert ParamPredicates(ps)[k] == preds[k];
        }
      }
    }
  }

  // ---------------------------------------------------------------------------------------
  // `where` predicates

  /**
   * The extracted `where` predicates are exactly the type predicates with bounds whose
   * bounded type is not bare `Self`; each is reported once, and they come out in order.
   */
  lemma {:induction false} WhereSitesMatchExtracted(ws: seq<WherePredicate>)
    ensures |WhereSites(ws)| == |WhereExtracted(ws)|
    ensures forall k :: 0 <= k < |WhereSites(ws)| ==>
      && WhereSites(ws)[k].WherePredicateAt?
      && WhereSites(ws)[k].index < |ws|
      && IsExtracted(ws[WhereSites(ws)[k].index])
      && WhereExtracted(ws)[k] == ws[WhereSites(ws)[k].index].pred
    ensures forall k, l :: 0 <= k < l < |WhereSites(ws)| ==> WhereSites(ws)[k].index < WhereSites(ws)[l].index
    ensures forall j :: 0 <= j < |ws| ==> (IsExtracted(ws[j]) <==> WherePredicateAt(j) in WhereSites(ws))
    decreases |ws|
  {
    if ws != [] {
      var init := ws[..|ws| - 1];
      WhereSitesMatchExtracted(init);
      assert forall j :: 0 <= j < |init| ==> init[j] == ws[j];
      assert WherePredicateAt(|ws| - 1) !in WhereSites(init);
    }
  }

  /** The positions of the predicates left in the `where` clause. */
  function RetainedIndices(ws: seq<WherePredicate>): seq<nat>
    decreases |ws|
  {
    if ws == [] then []
    else RetainedIndices(ws[..|ws| - 1]) + (if IsRetained(ws[|ws| - 1]) then [|ws| - 1] else [])
  }

  /**
   * The `where` clause after extraction is the original one with some predicates removed and
   * nothing reordered: every predicate that is not extracted stays, and an extracted one stays
   * (as a verbatim copy in its own place) exactly when it leaves a copy behind.
   */
  lemma {:induction false} RetainedIsOrderedSelection(ws: seq<WherePredicate>)
    ensures |RetainedIndices(ws)| == |Retained(ws)|
    ensures forall k :: 0 <= k < |Retained(ws)| ==>
      RetainedIndices(ws)[k] < |ws| && Retained(ws)[k] == ws[RetainedIndices(ws)[k]]
    ensures forall k, l :: 0 <= k < l < |RetainedIndices(ws)| ==> RetainedIndices(ws)[k] < RetainedIndices(ws)[l]
    ensures forall j :: 0 <= j < |ws| ==>
      (j in RetainedIndices(ws) <==> !IsExtracted(ws[j]) || KeepsCopy(ws[j].pred))
    decreases |ws|
  {
    if ws != [] {
      var init := ws[..|ws| - 1];
      RetainedIsOrderedSelection(init);
      assert forall j :: 0 <= j < |init| ==> init[j] == ws[j];
      assert |ws| - 1 !in RetainedIndices(init);
    }
  }

  /** `Self : Super` and lifetime predicates are never extracted, so they always stay. */
  lemma SelfAndLifetimePredicatesStay(ws: seq<WherePredicate>, j: nat)
    requires j < |ws|
    requires ws[j].LifetimePred? || IsBareSelf(ws[j].pred.boundedTy)
    ensures j in RetainedIndices(ws)
    ensures WherePredicateAt(j) !in WhereSites(ws)
  {
    RetainedIsOrderedSelection(ws);
    WhereSitesMatchExtracted(ws);
  }

  // ---------------------------------------------------------------------------------------
  // extract_non_implied_predicates as a whole

  /**
   * The extraction touches nothing but the parameters' bounds and the `where` clause, and an
   * absent `where` clause stays absent.
   */
  lemma ExtractionChangesOnlyClauses(t: ItemTrait, args: Args, debugged: seq<Warning>)
    ensures var e := Extract(t, args, debugged);
      && e.item.ident == t.ident && e.item.supertraits == t.supertraits && e.item.items == t.items
      && e.item.whereClause.Some? == t.whereClause.Some?
      && |e.item.params| == |t.params|
      && e.debugged[..|debugged|] == debugged
  {
  }

  /**
   * Extraction order: the parameters' predicates, then the `where` clause's, each group in
   * source order; with `:` tokens present, predicate k is the clause of the k-th site.
   */
  lemma ExtractedFollowSites(t: ItemTrait, args: Args, debugged: seq<Warning>)
    requires ColonsPresent(t.params)
    ensures var e := Extract(t, args, debugged);
      && |e.predicates| == |Sites(t)|
      && (forall k :: 0 <= k < |Sites(t)| ==> ClauseAt(t, Sites(t)[k]) == Some(e.predicates[k]))
      && (forall k, l :: 0 <= k < l < |Sites(t)| ==> SiteBefore(Sites(t)[k], Sites(t)[l]))
  {
    var ps, ws := t.params, WherePredicates(t);
    ParamSitesAreBoundedParams(ps);
    ParamPredicatesMatchSites(ps);
    WhereSitesMatchExtracted(ws);
    var e := Extract(t, args, debugged);
    var np := |ParamSites(ps)|;
    forall k | 0 <= k < |Sites(t)|
      ensures ClauseAt(t, Sites(t)[k]) == Some(e.predicates[k])
    {
      if k < np {
        assert Sites(t)[k] == ParamSites(ps)[k];
        assert e.predicates[k] == ParamPredicates(ps)[k];
      } else {
        assert Sites(t)[k] == WhereSites(ws)[k - np];
        assert e.predicates[k] == WhereExtracted(ws)[k - np];
      }
    }
  }

  /** Debug warnings point at a parameter or a `where` predicate, never at the whole trait. */
  lemma NoneFoundIsNotDebug(t: ItemTrait)
    ensures NONE_FOUND !in DebugWarnings(Sites(t))
  {
    ParamSitesAreBoundedParams(t.params);
    WhereSitesMatchExtracted(WherePredicates(t));
    var ds := DebugWarnings(Sites(t));
    forall k | 0 <= k < |ds| ensures ds[k] != NONE_FOUND {
      var np := |ParamSites(t.params)|;
      if k < np {
        assert Sites(t)[k] == ParamSites(t.params)[k];
      } else {
        assert Sites(t)[k] == WhereSites(WherePredicates(t))[k - np];
      }
    }
  }

  /**
   * With `debug`, one warning per reported clause, in extraction order, then possibly the
   * "nothing found" warning; without `debug`, at most that one warning.
   */
  lemma {:induction false} DebugWarningsFollowSites(t: ItemTrait, args: Args, debugged: seq<Warning>)
    ensures var added := Extract(t, args, debugged).debugged[|debugged|..];
      && (args.debug ==> |added| >= |Sites(t)| && forall k :: 0 <= k < |Sites(t)| ==> added[k] == Warning(Sites(t)[k], DEBUG_MESSAGE))
      && (!args.debug ==> added == [] || added == [NONE_FOUND])
  {
  }

  /** The "nothing found" warning is emitted once when `allow_none` is absent and nothing was reported, and otherwise not at all. */
  lemma NoneFoundExactlyOnce(t: ItemTrait, args: Args, debugged: seq<Warning>)
    ensures var added := Extract(t, args, debugged).debugged[|debugged|..];
      multiset(added)[NONE_FOUND] == if !args.allowNone && Sites(t) == [] then 1 else 0
  {
    NoneFoundIsNotDebug(t);
    var e := Extract(t, args, debugged);
    var added := e.debugged[|debugged|..];
    var dbg := if args.debug then DebugWarnings(Sites(t)) else [];
    var none := if !args.allowNone && Sites(t) == [] then [NONE_FOUND] else [];
    assert added == dbg + none;
    assert multiset(dbg)[NONE_FOUND] == 0;
  }

  /** With `:` tokens present, nothing is reported exactly when nothing is extracted. */
  lemma NothingReportedIffNothingExtracted(t: ItemTrait, args: Args, debugged: seq<Warning>)
    requires ColonsPresent(t.params)
    ensures Sites(t) == [] <==> Extract(t, args, debugged).predicates == []
  {
    ExtractedFollowSites(t, args, debugged);
  }

  // ---------------------------------------------------------------------------------------
  // The rewrite and the assembly

  /** The rewritten predicate holds exactly when the original does, whatever the solver. */
  lemma TransformPreservesMeaning(solver: Solver, krate: Option<Path>, self: Ty, p: PredicateType)
    requires |p.bounds| > 0
    ensures HoldsAll(solver, CratePath(krate), self, Transform(krate, p).bounds)
      <==> HoldsAll(solver, CratePath(krate), p.boundedTy, p.bounds)
  {
    var r := Transform(krate, p);
    ImpliedPredicateEquivalence(solver, CratePath(krate), self, p.boundedTy, p.bounds);
    assert HoldsAll(solver, CratePath(krate), self, r.bounds) == Holds(solver, CratePath(krate), self, r.bounds[0]);
  }

  /**
   * A successful expansion: the `where` clause exists and holds the rewritten predicates, in
   * extraction order, ahead of the predicates extraction left; the warnings follow the trait.
   * The crate path is the `crate =` argument if given, else whatever the cell held.
   */
  lemma ExpansionShape(argTokens: seq<Token>, t: ItemTrait, cell: Option<Path>)
    requires ArgsSpec(argTokens).Ok?
    ensures var args := ArgsSpec(argTokens).value;
      var e := Extract(t, args, []);
      var krate := if args.krate.Some? then args.krate else cell;
      var r := ImplSpec(argTokens, Ok(t), cell);
      && r.Ok?
      && r.value.warnings == e.debugged
      && r.value.item.whereClause.Some?
      && var w := r.value.item.whereClause.value;
      && |w| == |e.predicates| + |WherePredicates(e.item)|
      && (forall k :: 0 <= k < |e.predicates| ==>
            |e.predicates[k].bounds| > 0 && w[k] == TypePred(Transform(krate, e.predicates[k])))
      && w[|e.predicates|..] == WherePredicates(e.item)
      && r.value.item.params == e.item.params
  {
    ExtractedAreBounded(t, ArgsSpec(argTokens).value, []);
  }

  /** A parse failure yields only an error: the arguments' (with the usage text), else the trait's. */
  lemma ParseFailuresAreErrors(argTokens: seq<Token>, input: Result<ItemTrait, Error>, cell: Option<Path>)
    ensures ArgsSpec(argTokens).Err? ==>
      && ImplSpec(argTokens, input, cell).Err?
      && ImplSpec(argTokens, input, cell).error.Messages()[1..] == [USAGE]
    ensures ArgsSpec(argTokens).Ok? && input.Err? ==> ImplSpec(argTokens, input, cell) == Err(input.error)
  {
  }

  /** Wherever `Args::parse` as written accepts the arguments, the corrected parser gives the same expansion. */
  lemma IntendedExpansionAgreesWhenAccepted(argTokens: seq<Token>, input: Result<ItemTrait, Error>, cell: Option<Path>)
    ensures ArgsSpec(argTokens).Ok? ==> IntendedImplSpec(argTokens, input, cell) == ImplSpec(argTokens, input, cell)
  {
    IntendedParserAgreesWhenAccepted(argTokens);
  }

  /**
   * `#[implied_bounds(debug, allow_none)]`: as written, every trait is refused with
   * "duplicate arg" and the usage text; with the corrected parser it is expanded with both flags.
   */
  lemma DebugThenAllowNoneExpansion(t: ItemTrait, cell: Option<Path>)
    ensures ImplSpec([Ident("debug"), COMMA, Ident("allow_none")], Ok(t), cell) == Err(Error(DUPLICATE_ARG, [USAGE]))
    ensures IntendedImplSpec([Ident("debug"), COMMA, Ident("allow_none")], Ok(t), cell) == Ok(ExpansionOf(t, Args(true, true, None), cell))
  {
    DebugThenAllowNoneRejected();
  }

  /** With the corrected parser, any list of distinct options is expanded with exactly those options set. */
  lemma IntendedExpansionReadsEveryOption(arguments: seq<Argument>, t: ItemTrait, cell: Option<Path>)
    requires Readable(arguments)
    ensures IntendedImplSpec(RenderArguments(arguments), Ok(t), cell) == Ok(ExpansionOf(t, SetAll(NO_ARGS, arguments), cell))
  {
    IntendedParserAcceptsDistinctOptions(arguments);
  }

  // ---------------------------------------------------------------------------------------
  // A second expansion

  lemma {:induction false} WhereExtractedAppend(a: seq<WherePredicate>, b: seq<WherePredicate>)
    ensures WhereExtracted(a + b) == WhereExtracted(a) + WhereExtracted(b)
    decreases |b|
  {
    if b == [] {
      assert a + b == a;
    } else {
      var init := b[..|b| - 1];
      assert (a + b)[..|a + b| - 1] == a + init;
      WhereExtractedAppend(a, init);
    }
  }

  lemma {:induction false} TransformedAreNotExtracted(krate: Option<Path>, ps: seq<PredicateType>)
    requires AllBounded(ps)
    ensures WhereExtracted(TransformAll(krate, ps)) == []
    decreases |ps|
  {
    if ps != [] {
      var init := ps[..|ps| - 1];
      assert TransformAll(krate, ps)[..|ps| - 1] == TransformAll(krate, init);
      TransformedAreNotExtracted(krate, init);
    }
  }

  /**
   * Expanding an expanded trait again never touches the rewritten predicates: the second
   * pass takes exactly what the copies and restored bounds of the first pass left behind.
   */
  lemma SecondPassTakesOnlyCopies(t: ItemTrait, args: Args, cell: Option<Path>)
    ensures var e := Extract(t, args, []);
      Extract(ExpansionOf(t, args, cell).item, args, []).predicates
        == ParamPredicates(e.item.params) + WhereExtracted(WherePredicates(e.item))
  {
    var e := Extract(t, args, []);
    ExtractedAreBounded(t, args, []);
    var krate := if args.krate.Some? then args.krate else cell;
    var rewritten := TransformAll(krate, e.predicates);
    var item := Assemble(e.item, rewritten);
    assert ExpansionOf(t, args, cell).item == item;
    WhereExtractedAppend(rewritten, WherePredicates(e.item));
    TransformedAreNotExtracted(krate, e.predicates);
    assert item.params == e.item.params;
    assert WherePredicates(item) == rewritten + WherePredicates(e.item);
    assert Extract(item, args, []).predicates == ParamPredicates(item.params) + WhereExtracted(WherePredicates(item));
    assert WhereExtracted(WherePredicates(item)) == WhereExtracted(WherePredicates(e.item));
  }
}
