/**
 * The `#[implied_bounds]` attribute (`_mod.rs`): find the predicates of a trait that are not
 * implied by `T : Trait` (inline bounds of type parameters, and `where` predicates whose
 * bounded type is not `Self`), rewrite each `X : B` into the implied
 * `Self : K::ImpliedPredicate<X, Impls : B>`, and put the rewritten predicates in front of the
 * `where` clause.
 */
module ImpliedBounds {
  import opened Wrappers
  import opened Syntax
  import opened HelperTrait
  import opened MacroArgs

  const DEBUG_MESSAGE: string := "[debug] this predicate is not implied, adjusting it\U{2026}"
  const NONE_FOUND_MESSAGE: string :=
    "No non-implied clauses found for this trait, you may skip using this macro altogether."
    + "\n\n"
    + "To silence this warning, use `#[\U{2026}implied_bounds(allow_none, \U{2026})]`."
  const ERROR_PREFIX: string := "`#[::implied_bounds::implied_bounds]`: "

  /** The default path of the helper trait's crate: `::implied_bounds`. */
  const DEFAULT_CRATE: Path := Path(true, [], Segment("implied_bounds", NoArguments))

  /** What a warning points at: a parameter's bounds, a `where` predicate, or nothing in particular. */
  datatype Site = ParamBounds(index: nat) | WherePredicateAt(index: nat) | MixedSite

  /** A `compile_warning`: a deprecation warning at `site` carrying `message`. */
  datatype Warning = Warning(site: Site, message: string)

  /** What the macro emits: the rewritten trait followed by its warnings. */
  datatype Expansion = Expansion(item: ItemTrait, warnings: seq<Warning>)

  /** What `#[implied_bounds]` expands to: the expansion, or one combined compile error. */
  datatype Output = Expanded(expansion: Expansion) | CompileError(error: Error)

  // ---------------------------------------------------------------------------------------
  // may_be_higher_ranked

  /** A trait bound with a non-empty `for<…>` binder, or whose last segment is `Fn…(…)`. */
  predicate TraitBoundMayBeHigherRanked(b: Bound) {
    b.TraitBound? && ((b.lifetimes.Some? && |b.lifetimes.value| > 0) || b.path.last.arguments.Parenthesized?)
  }

  /** `may_be_higher_ranked`: `bounds.iter().any(…)`. */
  function MayBeHigherRanked(bounds: seq<Bound>): (r: bool)
    ensures r <==> exists i :: 0 <= i < |bounds| && TraitBoundMayBeHigherRanked(bounds[i])
    decreases |bounds|
  {
    if bounds == [] then false
    else
      var first :=
        match bounds[0]
        case TraitBound(lifetimes, path) =>
          (lifetimes.Some? && |lifetimes.value| > 0) || path.last.arguments.Parenthesized?
        case _ => false;
      first || MayBeHigherRanked(bounds[1..])
  }

  // ---------------------------------------------------------------------------------------
  // Inline bounds of the generic parameters

  /** A type parameter with bounds: it is reported, and its bounds taken. */
  predicate HasInlineBounds(p: GenericParam) {
    p.TypeParam? && |p.bounds| > 0
  }

  /** The parameter after extraction: its bounds are left in place unless they may be higher-ranked. */
  function StripParam(p: GenericParam): GenericParam {
    if HasInlineBounds(p) && MayBeHigherRanked(p.bounds) then p.(bounds := []) else p
  }

  function StrippedParams(ps: seq<GenericParam>): (r: seq<GenericParam>)
    ensures |r| == |ps|
  {
    seq(|ps|, i requires 0 <= i < |ps| => StripParam(ps[i]))
  }

  /** The predicate `ident : bounds` a parameter contributes; none without its `:` token. */
  function ParamPredicate(p: GenericParam): seq<PredicateType> {
    if HasInlineBounds(p) && p.colon then [PredicateType(None, IdentTy(p.ident), p.bounds)] else []
  }

  /** The predicates the parameters contribute, in parameter order. */
  function ParamPredicates(ps: seq<GenericParam>): seq<PredicateType>
    decreases |ps|
  {
    if ps == [] then [] else ParamPredicates(ps[..|ps| - 1]) + ParamPredicate(ps[|ps| - 1])
  }

  /** The reported parameters, in order. */
  function ParamSites(ps: seq<GenericParam>): seq<Site>
    decreases |ps|
  {
    if ps == [] then []
    else ParamSites(ps[..|ps| - 1]) + (if HasInlineBounds(ps[|ps| - 1]) then [ParamBounds(|ps| - 1)] else [])
  }

  // ---------------------------------------------------------------------------------------
  // `where` predicates

  /** A type predicate with bounds whose bounded type is not the bare path `Self`. */
  predicate IsExtracted(wp: WherePredicate) {
    wp.TypePred? && |wp.pred.bounds| > 0 && !IsBareSelf(wp.pred.boundedTy)
  }

  /** An extracted predicate leaves a copy behind unless it is, or may be, higher-ranked. */
  predicate KeepsCopy(pt: PredicateType) {
    !(pt.lifetimes.Some? && |pt.lifetimes.value| > 0) && !MayBeHigherRanked(pt.bounds)
  }

  /** Whether `wp` is still in the `where` clause after extraction. */
  predicate IsRetained(wp: WherePredicate) {
    !IsExtracted(wp) || KeepsCopy(wp.pred)
  }

  function Retained(ws: seq<WherePredicate>): seq<WherePredicate>
    decreases |ws|
  {
    if ws == [] then []
    else Retained(ws[..|ws| - 1]) + (if IsRetained(ws[|ws| - 1]) then [ws[|ws| - 1]] else [])
  }

  function WhereExtracted(ws: seq<WherePredicate>): seq<PredicateType>
    decreases |ws|
  {
    if ws == [] then []
    else WhereExtracted(ws[..|ws| - 1]) + (if IsExtracted(ws[|ws| - 1]) then [ws[|ws| - 1].pred] else [])
  }

  function WhereSites(ws: seq<WherePredicate>): seq<Site>
    decreases |ws|
  {
    if ws == [] then []
    else WhereSites(ws[..|ws| - 1]) + (if IsExtracted(ws[|ws| - 1]) then [WherePredicateAt(|ws| - 1)] else [])
  }

  function WherePredicates(t: ItemTrait): seq<WherePredicate> {
    if t.whereClause.Some? then t.whereClause.value else []
  }

  // ---------------------------------------------------------------------------------------
  // extract_non_implied_predicates

  /** Everything the extractor reports (found_clause is set once per site), in order. */
  function Sites(t: ItemTrait): seq<Site> {
    ParamSites(t.params) + WhereSites(WherePredicates(t))
  }

  function DebugWarnings(sites: seq<Site>): (ws: seq<Warning>)
    ensures |ws| == |sites|
  {
    seq(|sites|, i requires 0 <= i < |sites| => Warning(sites[i], DEBUG_MESSAGE))
  }

  datatype Extraction = Extraction(item: ItemTrait, predicates: seq<PredicateType>, debugged: seq<Warning>)

  /** The trait, the extracted predicates and the warnings after `extract_non_implied_predicates`. */
  function Extract(t: ItemTrait, args: Args, debugged: seq<Warning>): Extraction {
    Extraction(
      t.(params := StrippedParams(t.params),
         whereClause := if t.whereClause.Some? then Some(Retained(t.whereClause.value)) else None),
      ParamPredicates(t.params) + WhereExtracted(WherePredicates(t)),
      debugged
      + (if args.debug then DebugWarnings(Sites(t)) else [])
      + (if !args.allowNone && |Sites(t)| == 0 then [Warning(MixedSite, NONE_FOUND_MESSAGE)] else []))
  }

  lemma DebugWarningsAppend(a: seq<Site>, b: seq<Site>)
    ensures DebugWarnings(a + b) == DebugWarnings(a) + DebugWarnings(b)
  {
  }

  /** One round of the parameter loop keeps its invariants about the predicates taken, `found_clause` and the warnings. */
  lemma ParamLoopStep(ps: seq<GenericParam>, i: nat, debug: bool, debugged: seq<Warning>,
                      found: bool, warned: seq<Warning>, ret: seq<PredicateType>)
    requires i < |ps|
    requires ret == ParamPredicates(ps[..i])
    requires found <==> |ParamSites(ps[..i])| > 0
    requires warned == debugged + (if debug then DebugWarnings(ParamSites(ps[..i])) else [])
    ensures ret + ParamPredicate(ps[i]) == ParamPredicates(ps[..i + 1])
    ensures found || HasInlineBounds(ps[i]) <==> |ParamSites(ps[..i + 1])| > 0
    ensures warned + (if debug && HasInlineBounds(ps[i]) then [Warning(ParamBounds(i), DEBUG_MESSAGE)] else [])
      == debugged + (if debug then DebugWarnings(ParamSites(ps[..i + 1])) else [])
  {
    assert ps[..i + 1][..i] == ps[..i];
    DebugWarningsAppend(ParamSites(ps[..i]), if HasInlineBounds(ps[i]) then [ParamBounds(i)] else []);
  }

  /** One round of the `where` loop keeps its invariants about the retained and taken predicates, `found_clause` and the warnings. */
  lemma WhereLoopStep(ws: seq<WherePredicate>, j: nat, debug: bool, debugged: seq<Warning>, ret0: seq<PredicateType>,
                      retained: seq<WherePredicate>, found: bool, warned: seq<Warning>, ret: seq<PredicateType>)
    requires j < |ws|
    requires retained == Retained(ws[..j])
    requires ret == ret0 + WhereExtracted(ws[..j])
    requires found <==> |WhereSites(ws[..j])| > 0
    requires warned == debugged + (if debug then DebugWarnings(WhereSites(ws[..j])) else [])
    ensures retained + (if IsRetained(ws[j]) then [ws[j]] else []) == Retained(ws[..j + 1])
    ensures ret + (if IsExtracted(ws[j]) then [ws[j].pred] else []) == ret0 + WhereExtracted(ws[..j + 1])
    ensures found || IsExtracted(ws[j]) <==> |WhereSites(ws[..j + 1])| > 0
    ensures warned + (if debug && IsExtracted(ws[j]) then [Warning(WherePredicateAt(j), DEBUG_MESSAGE)] else [])
      == debugged + (if debug then DebugWarnings(WhereSites(ws[..j + 1])) else [])
  {
    assert ws[..j + 1][..j] == ws[..j];
    DebugWarningsAppend(WhereSites(ws[..j]), if IsExtracted(ws[j]) then [WherePredicateAt(j)] else []);
  }

  /**
   * The closure of the parameter `filter_map`, on the parameter at index `i`: its bounds are
   * taken, reported, put back unless they may be higher-ranked, and returned as a predicate.
   */
  method ExtractParam(param: GenericParam, i: nat, debug: bool)
    returns (stripped: GenericParam, reported: bool, warnings: seq<Warning>, taken: seq<PredicateType>)
    ensures stripped == StripParam(param)
    ensures reported == HasInlineBounds(param)
    ensures warnings == if debug && reported then [Warning(ParamBounds(i), DEBUG_MESSAGE)] else []
    ensures taken == ParamPredicate(param)
  {
    stripped, reported, warnings, taken := param, false, [], [];
    if param.TypeParam? {
      var bounds := param.bounds;
      stripped := param.(bounds := []);
      if |bounds| > 0 {
        reported := true;
        if debug {
          warnings := [Warning(ParamBounds(i), DEBUG_MESSAGE)];
        }
        if !MayBeHigherRanked(bounds) {
          stripped := stripped.(bounds := bounds);
        }
        if param.colon {
          taken := [PredicateType(None, IdentTy(param.ident), bounds)];
        }
      }
    }
  }

  /** The loop over the generic parameters: each bounded type parameter is reported and its bounds taken. */
  method ExtractParamBounds(ps: seq<GenericParam>, debug: bool, debugged: seq<Warning>)
    returns (params: seq<GenericParam>, found: bool, debugged': seq<Warning>, ret: seq<PredicateType>)
    ensures params == StrippedParams(ps)
    ensures ret == ParamPredicates(ps)
    ensures found <==> |ParamSites(ps)| > 0
    ensures debugged' == debugged + (if debug then DebugWarnings(ParamSites(ps)) else [])
  {
    ret := [];
    found := false;
    debugged' := debugged;
    params := ps;
    var i := 0;
    while i < |params|
      invariant 0 <= i <= |params| == |ps|
      invariant forall k :: 0 <= k < i ==> params[k] == StripParam(ps[k])
      invariant forall k :: i <= k < |params| ==> params[k] == ps[k]
      invariant ret == ParamPredicates(ps[..i])
      invariant found <==> |ParamSites(ps[..i])| > 0
      invariant debugged' == debugged + (if debug then DebugWarnings(ParamSites(ps[..i])) else [])
    {
      ParamLoopStep(ps, i, debug, debugged, found, debugged', ret);
      var stripped, reported, warnings, taken := ExtractParam(params[i], i, debug);
      params := params[i := stripped];
      found := found || reported;
      debugged' := debugged' + warnings;
      ret := ret + taken;
      i := i + 1;
    }
    assert ps[..i] == ps;
  }

  /**
   * The closure of the `where` `filter_map`, on the predicate at index `j`: an extracted
   * predicate is reported and taken, and a copy is kept unless it may be higher-ranked;
   * any other predicate is kept.
   */
  method ExtractWherePredicate(wp: WherePredicate, j: nat, debug: bool)
    returns (kept: seq<WherePredicate>, reported: bool, warnings: seq<Warning>, taken: seq<PredicateType>)
    ensures kept == if IsRetained(wp) then [wp] else []
    ensures reported == IsExtracted(wp)
    ensures warnings == if debug && reported then [Warning(WherePredicateAt(j), DEBUG_MESSAGE)] else []
    ensures taken == if reported then [wp.pred] else []
  {
    kept, reported, warnings, taken := [], false, [], [];
    if wp.TypePred? && |wp.pred.bounds| > 0 && !IsBareSelf(wp.pred.boundedTy) {
      reported := true;
      if debug {
        warnings := [Warning(WherePredicateAt(j), DEBUG_MESSAGE)];
      }
      var lifetimes := wp.pred.lifetimes;
      if !((lifetimes.Some? && |lifetimes.value| > 0) || MayBeHigherRanked(wp.pred.bounds)) {
        kept := [wp];
      }
      taken := [wp.pred];
    } else {
      kept := [wp];
    }
  }

  /** The loop over the `where` predicates, collecting the retained ones and the taken ones. */
  method ExtractWherePredicates(ws: seq<WherePredicate>, debug: bool, debugged: seq<Warning>, ret0: seq<PredicateType>)
    returns (retained: seq<WherePredicate>, found: bool, debugged': seq<Warning>, ret: seq<PredicateType>)
    ensures retained == Retained(ws)
    ensures ret == ret0 + WhereExtracted(ws)
    ensures found <==> |WhereSites(ws)| > 0
    ensures debugged' == debugged + (if debug then DebugWarnings(WhereSites(ws)) else [])
  {
    retained := [];
    found := false;
    debugged' := debugged;
    ret := ret0;
    var j := 0;
    while j < |ws|
      invariant 0 <= j <= |ws|
      invariant retained == Retained(ws[..j])
      invariant ret == ret0 + WhereExtracted(ws[..j])
      invariant found <==> |WhereSites(ws[..j])| > 0
      invariant debugged' == debugged + (if debug then DebugWarnings(WhereSites(ws[..j])) else [])
    {
      WhereLoopStep(ws, j, debug, debugged, ret0, retained, found, debugged', ret);
      var kept, reported, warnings, taken := ExtractWherePredicate(ws[j], j, debug);
      retained := retained + kept;
      found := found || reported;
      debugged' := debugged' + warnings;
      ret := ret + taken;
      j := j + 1;
    }
    assert ws[..j] == ws;
  }

  /** `Extract` as the two loops build it: the parameters' part, then the `where` clause's. */
  lemma ExtractInParts(t: ItemTrait, args: Args, debugged: seq<Warning>)
    ensures var ws := WherePredicates(t);
      var afterParams := debugged + (if args.debug then DebugWarnings(ParamSites(t.params)) else []);
      var afterWhere := afterParams + (if args.debug then DebugWarnings(WhereSites(ws)) else []);
      var found := |ParamSites(t.params)| > 0 || |WhereSites(ws)| > 0;
      Extract(t, args, debugged) == Extraction(
        t.(params := StrippedParams(t.params),
           whereClause := if t.whereClause.Some? then Some(Retained(t.whereClause.value)) else None),
        ParamPredicates(t.params) + WhereExtracted(ws),
        afterWhere + (if !args.allowNone && !found then [Warning(MixedSite, NONE_FOUND_MESSAGE)] else []))
  {
    DebugWarningsAppend(ParamSites(t.params), WhereSites(WherePredicates(t)));
  }

  /** `extract_non_implied_predicates(&mut trait_, &args, &mut debugged_predicates)`. */
  method ExtractNonImpliedPredicates(t: ItemTrait, args: Args, debugged: seq<Warning>)
    returns (t': ItemTrait, debugged': seq<Warning>, ret: seq<PredicateType>)
    ensures Extraction(t', ret, debugged') == Extract(t, args, debugged)
  {
    var params, foundInParams;
    params, foundInParams, debugged', ret := ExtractParamBounds(t.params, args.debug, debugged);
    var found := foundInParams;
    var whereClause := t.whereClause;
    if whereClause.Some? {
      var retained, foundInWhere;
      retained, foundInWhere, debugged', ret := ExtractWherePredicates(whereClause.value, args.debug, debugged', ret);
      found := found || foundInWhere;
      whereClause := Some(retained);
    } else {
      assert WhereSites(WherePredicates(t)) == [] && WhereExtracted(WherePredicates(t)) == [];
    }
    if !args.allowNone && !found {
      debugged' := debugged' + [Warning(MixedSite, NONE_FOUND_MESSAGE)];
    }
    t' := t.(params := params, whereClause := whereClause);
    ExtractInParts(t, args, debugged);
  }

  // ---------------------------------------------------------------------------------------
  // transform_into_equivalent_implied_predicate

  /** The path the rewrite names the helper trait's crate by: the `crate =` override, else `::implied_bounds`. */
  function CratePath(krate: Option<Path>): Path {
    krate.GetOr(DEFAULT_CRATE)
  }

  /** `X : B` becomes `Self : K::ImpliedPredicate<X, Impls : B>`, under the same `for<…>` binder. */
  function Transform(krate: Option<Path>, p: PredicateType): (r: PredicateType)
    requires |p.bounds| > 0
    ensures IsBareSelf(r.boundedTy)
    ensures r.lifetimes == p.lifetimes
    ensures r.bounds == [ImpliedPredicateBound(CratePath(krate), p.boundedTy, p.bounds)]
    ensures IsHelperBound(CratePath(krate), r.bounds[0])
    ensures !IsExtracted(TypePred(r))
  {
    ImpliedPredicateBoundIsHelper(CratePath(krate), p.boundedTy, p.bounds);
    PredicateType(p.lifetimes, SelfTy, [ImpliedPredicateBound(CratePath(krate), p.boundedTy, p.bounds)])
  }

  predicate AllBounded(ps: seq<PredicateType>) {
    forall i :: 0 <= i < |ps| ==> |ps[i].bounds| > 0
  }

  /** `.map(transform_into_equivalent_implied_predicate).map(WherePredicate::Type)`. */
  function TransformAll(krate: Option<Path>, ps: seq<PredicateType>): (r: seq<WherePredicate>)
    requires AllBounded(ps)
    ensures |r| == |ps|
  {
    seq(|ps|, i requires 0 <= i < |ps| && AllBounded(ps) => TypePred(Transform(krate, ps[i])))
  }

  // ---------------------------------------------------------------------------------------
  // implied_bounds_impl

  /** The `where` clause is made to exist (`make_where_clause`) and the new predicates go first. */
  function Assemble(t: ItemTrait, rewritten: seq<WherePredicate>): ItemTrait {
    t.(whereClause := Some(rewritten + WherePredicates(t)))
  }

  lemma ExtractedAreBounded(t: ItemTrait, args: Args, debugged: seq<Warning>)
    ensures AllBounded(Extract(t, args, debugged).predicates)
  {
    ParamPredicatesBounded(t.params);
    WhereExtractedBounded(WherePredicates(t));
  }

  lemma {:induction false} ParamPredicatesBounded(ps: seq<GenericParam>)
    ensures AllBounded(ParamPredicates(ps))
    decreases |ps|
  {
    if ps != [] {
      ParamPredicatesBounded(ps[..|ps| - 1]);
    }
  }

  lemma {:induction false} WhereExtractedBounded(ws: seq<WherePredicate>)
    ensures AllBounded(WhereExtracted(ws))
    decreases |ws|
  {
    if ws != [] {
      WhereExtractedBounded(ws[..|ws| - 1]);
    }
  }

  /** The expansion of a trait whose arguments parsed; `cell` is what `CRATE` held before. */
  function ExpansionOf(t: ItemTrait, args: Args, cell: Option<Path>): Expansion {
    var e := Extract(t, args, []);
    ExtractedAreBounded(t, args, []);
    var krate := if args.krate.Some? then args.krate else cell;
    Expansion(Assemble(e.item, TransformAll(krate, e.predicates)), e.debugged)
  }

  /** `implied_bounds_impl` once the arguments have been read into `parsed`: the first parse error, else the expansion. */
  function ExpandParsed(parsed: Result<Args, Error>, input: Result<ItemTrait, Error>, cell: Option<Path>): Result<Expansion, Error> {
    match parsed
    case Err(e) => Err(e)
    case Ok(args) =>
      match input
      case Err(e) => Err(e)
      case Ok(t) => Ok(ExpansionOf(t, args, cell))
  }

  /** What `implied_bounds_impl` returns, with the arguments read by `Args::parse` as written. */
  function ImplSpec(argTokens: seq<Token>, input: Result<ItemTrait, Error>, cell: Option<Path>): Result<Expansion, Error> {
    ExpandParsed(ArgsSpec(argTokens), input, cell)
  }

  /** What `implied_bounds_impl` returns once `Args::parse` takes a fresh lookahead at every argument. */
  function IntendedImplSpec(argTokens: seq<Token>, input: Result<ItemTrait, Error>, cell: Option<Path>): Result<Expansion, Error> {
    ExpandParsed(IntendedArgsSpec(argTokens), input, cell)
  }

  /**
   * `implied_bounds_impl(args, input)`. The trait's own parse is an input: `Err` when the
   * tokens are not a trait. The guard is taken only once both parses succeeded, and is
   * dropped on the way out.
   */
  method ImpliedBoundsImpl(cell: CrateCell, argTokens: seq<Token>, input: Result<ItemTrait, Error>)
    returns (r: Result<Expansion, Error>)
    modifies cell
    ensures r == ImplSpec(argTokens, input, old(cell.krate))
    ensures cell.krate == if r.Ok? && ArgsSpec(argTokens).value.krate.Some? then None else old(cell.krate)
  {
    var parsed := ParseArgs(argTokens);
    if parsed.Err? {
      return Err(parsed.error);
    }
    if input.Err? {
      return Err(input.error);
    }
    var args := parsed.value;
    var guard := cell.Init(args.krate);
    args := args.(krate := None);

    var item, debugged, extracted := ExtractNonImpliedPredicates(input.value, args, []);
    ExtractedAreBounded(input.value, args, []);
    var krate := cell.Get();
    var rewritten := TransformAll(krate, extracted);
    var retained := WherePredicates(item);
    item := item.(whereClause := Some(rewritten + retained));
    r := Ok(Expansion(item, debugged));

    cell.Release(guard);
  }

  // ---------------------------------------------------------------------------------------
  // implied_bounds: error folding

  /** Every message of `err`, prefixed, combined into one error. */
  method FoldErrors(err: Error) returns (combined: Error)
    ensures |combined.Messages()| == |err.Messages()|
    ensures forall i :: 0 <= i < |err.Messages()| ==> combined.Messages()[i] == ERROR_PREFIX + err.Messages()[i]
  {
    var messages := err.Messages();
    combined := Error(ERROR_PREFIX + messages[0], []);
    var i := 1;
    while i < |messages|
      invariant 1 <= i <= |messages|
      invariant |combined.Messages()| == i
      invariant forall k :: 0 <= k < i ==> combined.Messages()[k] == ERROR_PREFIX + messages[k]
    {
      combined := combined.Combine(Error(ERROR_PREFIX + messages[i], []));
      i := i + 1;
    }
  }

  /** `#[implied_bounds]`: the expansion, or every error prefixed and combined into one. */
  method ImpliedBoundsAttribute(cell: CrateCell, argTokens: seq<Token>, input: Result<ItemTrait, Error>)
    returns (out: Output)
    modifies cell
    ensures ImplSpec(argTokens, input, old(cell.krate)).Ok? ==> out == Expanded(ImplSpec(argTokens, input, old(cell.krate)).value)
    ensures ImplSpec(argTokens, input, old(cell.krate)).Err? ==>
      && out.CompileError?
      && var ms := ImplSpec(argTokens, input, old(cell.krate)).error.Messages();
      && |out.error.Messages()| == |ms|
      && forall i :: 0 <= i < |ms| ==> out.error.Messages()[i] == ERROR_PREFIX + ms[i]
    ensures cell.krate == if out.Expanded? && ArgsSpec(argTokens).value.krate.Some? then None else old(cell.krate)
  {
    var r := ImpliedBoundsImpl(cell, argTokens, input);
    if r.Ok? {
      out := Expanded(r.value);
    } else {
      var combined := FoldErrors(r.error);
      out := CompileError(combined);
    }
  }
}
