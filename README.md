# implied-bounds: a Dafny model of `#[implied_bounds]`

`#[implied_bounds]` is an attribute macro for Rust `trait` definitions. Rust only carries a
trait's *supertrait* clauses (`Self : Bound`) over to its users. Clauses such as
`trait Foo<T : Clone>` or `where Self::Gat<true> : Send` are not carried over, so every user
has to repeat them. The macro rewrites each such clause `X : B` into the supertrait clause

    Self : ::implied_bounds::ImpliedPredicate<X, Impls : B>

This clause holds exactly when `X : B` does, because of the helper traits' blanket impls.
Clauses that cannot be higher-ranked are also left in place, as a copy, for better
diagnostics. The macro takes three optional arguments:

- `debug` reports every clause it rewrites;
- `allow_none` silences the warning given when there is nothing to rewrite;
- `crate = path` names the helper trait through another path.

A thread-local cell carries that path to the rewriting step.

The model has eight modules:

- `Wrappers`: `Option` and `Result`.
- `Syntax`: the part of syn's syntax tree the macro inspects. This covers paths and their
  arguments, types, bounds, generic parameters, `where` predicates, the trait item and syn's
  multi-message error. syn guarantees that a path and an error are non-empty, and the
  datatypes make that structural.
- `HelperTrait`: the meaning of `HasAssoc` and `ImpliedPredicate`. When does `ty : bound`
  hold, given an abstract solver for ordinary bounds?
- `MacroArgs`: the argument parser `Args::parse`, as written and as corrected, including
  syn's `parse_mod_style` path parser. Also the `CRATE` thread-local, as the class `CrateCell` with its scope guard.
- `ImpliedBounds`: `extract_non_implied_predicates` (two loop methods and their
  specification functions), `transform_into_equivalent_implied_predicate`,
  `may_be_higher_ranked`, `implied_bounds_impl` and the error folding of `implied_bounds`.
- `ImpliedBoundsProperties`: the properties of the extraction and of the expansion.
- `Soundness`: the purpose of the macro as a theorem. For every trait whose bounded type
  parameters carry their `:`, every solver and every crate path, the clauses of the expanded
  trait hold exactly when the original's do. The helper trait is read under the crate path
  the rewrite used.
- `Examples`: the traits of the repository's tests, expanded.

Efficient parsing, token output and spans are outside the model. The model takes the trait
as an already-parsed value, and warnings are values naming the clause they are attached to.
The macro's output is the rewritten trait followed by its warnings.

## Model

| member | source | states |
|---|---|---|
| HelperTrait.ImpliedPredicateIsUniversal | src/helper_trait.rs:64-70 | `S : K::ImpliedPredicate<X>` holds for every `S` and `X`, whatever the solver. |
| HelperTrait.ImplsIsTheTypeArgument | src/helper_trait.rs:6-8 | `S : K::ImpliedPredicate<X, Impls = U>` holds exactly when `U` is `X`, for every `S`: the supertrait `HasAssoc<X, Impls = X>` fixes `Impls`. |
| HelperTrait.ImpliedPredicateBoundIsHelper | src/proc_macros/_mod.rs:290-295 | The bound the rewrite produces names `ImpliedPredicate` under the crate path. It has one type argument followed by only `Impls` arguments. |
| HelperTrait.ImpliedPredicateEquivalence | src/helper_trait.rs:64-70 | `S : K::ImpliedPredicate<X, Impls : B>` holds, for any `S`, exactly when every bound of `B` holds of `X`. |
| MacroArgs.ParseRenderedPath | src/proc_macros/args.rs:64 | Any mod-style path, written out as tokens and followed by anything other than `::`, is parsed back to itself. The parse consumes exactly its tokens. |
| MacroArgs.ParsedPathIsRendered | src/proc_macros/args.rs:64 | Whatever the path parser accepts is a mod-style path, and the tokens it consumed are exactly that path written out. |
| MacroArgs.ParseArgs | src/proc_macros/args.rs:39-77 | The parser as written, with the lookahead taken once before the loop, equals the specification `ArgsSpec`. |
| MacroArgs.EmptyArgs | src/proc_macros/args.rs:10-21 | No arguments give the default: no option set. |
| MacroArgs.SingleFlag | src/proc_macros/args.rs:46-57 | `debug` or `allow_none` alone, with or without a trailing comma, sets exactly that flag. |
| MacroArgs.CrateArgument | src/proc_macros/args.rs:58-68 | `crate = p` for a mod-style `p`, with or without a trailing comma, sets exactly `krate` to `p`. |
| MacroArgs.CrateWithoutEq | src/proc_macros/args.rs:62-63 | `crate` not followed by `=` is the error "expected `=`", followed by the usage text. |
| MacroArgs.CrateWithBadPath | src/proc_macros/args.rs:64 | A malformed path after `crate =` gives the path parser's error, followed by the usage text. |
| MacroArgs.UnknownFirstArgument | src/proc_macros/args.rs:66 | Any other first token gives the lookahead's "expected one of" error, followed by the usage text. |
| MacroArgs.SecondArgumentIsDuplicate | src/proc_macros/args.rs:43-60 | As written, any token left after the first argument and its comma is reported as "duplicate arg". |
| MacroArgs.ErrorsCarryUsage | src/proc_macros/args.rs:71-75 | Every parse error has exactly two messages, and the second is the usage text. |
| MacroArgs.AtMostOneOption | src/proc_macros/args.rs:43-69 | As written, a successful parse sets at most one of the three options. |
| MacroArgs.ParseArgsIntended | src/proc_macros/args.rs:39-77 | The corrected parser, which takes the lookahead at the cursor in every round, equals the specification `IntendedArgsSpec`. |
| MacroArgs.IntendedParserAcceptsDistinctOptions | src/proc_macros/args.rs:23-37 | Any list of options, at most one of each kind, with mod-style paths and any commas, is read back as exactly those options. |
| MacroArgs.IntendedParserRejectsRepeatedOption | src/proc_macros/args.rs:47-61 | With the corrected parser, any list that gives two options of one kind, such as `debug, debug`, is the error "duplicate arg" followed by the usage text. |
| MacroArgs.IntendedParserAgreesWhenAccepted | src/proc_macros/args.rs:43-69 | Wherever the parser as written succeeds, the corrected one gives the same arguments. |
| MacroArgs.DebugThenAllowNoneRejected | src/proc_macros/args.rs:43-60 | `debug, allow_none` is rejected as "duplicate arg" as written. The corrected parser sets both flags. |
| MacroArgs.CrateCell.constructor | src/proc_macros/args.rs:113-115 | The cell starts empty. |
| MacroArgs.CrateCell.Init | src/proc_macros/args.rs:85-105 | With a path, `init` stores it and returns a guard. Without one it returns no guard and leaves the cell as it was. |
| MacroArgs.CrateCell.Release | src/proc_macros/args.rs:96-101 | Dropping a guard empties the cell. Dropping no guard changes nothing. |
| MacroArgs.CrateCell.Get | src/proc_macros/args.rs:107-110 | `get` returns what the cell holds and changes nothing. |
| ImpliedBounds.MayBeHigherRanked | src/proc_macros/_mod.rs:300-318 | True exactly when some bound is a trait bound with a non-empty `for<…>` binder, or whose last path segment has parenthesised arguments. |
| ImpliedBounds.ExtractParamBounds | src/proc_macros/_mod.rs:159-187 | The parameter loop gives the stripped parameters, the predicates taken from them and the debug warnings. It reports a clause exactly when some type parameter has bounds. |
| ImpliedBounds.ExtractParam | src/proc_macros/_mod.rs:159-187 | The closure on one parameter reports it exactly when it is a type parameter with bounds. It leaves the bounds in place unless they may be higher-ranked, and it takes `T : bounds` only when the `:` is present. |
| ImpliedBounds.ExtractWherePredicates | src/proc_macros/_mod.rs:188-236 | The `where` loop gives the retained predicates, appends the extracted ones and the debug warnings. It reports a clause exactly when something is extracted. |
| ImpliedBounds.ExtractWherePredicate | src/proc_macros/_mod.rs:190-233 | The closure on one `where` predicate takes and reports it exactly when it is extracted. It keeps a copy unless it is higher-ranked or may be, and it keeps any other predicate as it is. |
| ImpliedBounds.ExtractNonImpliedPredicates | src/proc_macros/_mod.rs:139-248 | The whole extraction equals `Extract`: the new trait, the extracted predicates in source order and the warnings, including the "none found" one. |
| ImpliedBounds.Transform | src/proc_macros/_mod.rs:257-298 | The rewrite bounds `Self`, keeps the `for<…>` binder and has the single bound `K::ImpliedPredicate<X, Impls : B>`, where `K` is the cell's path or `::implied_bounds`. The result is not itself extracted. |
| ImpliedBounds.ExtractedAreBounded | src/proc_macros/_mod.rs:162-164 | Every extracted predicate has at least one bound. |
| ImpliedBounds.ImpliedBoundsImpl | src/proc_macros/_mod.rs:70-95 | Equals `ImplSpec`, with the arguments read by `Args::parse` as written: an argument error, else the trait's parse error, else the rewritten predicates prepended to the retained `where` clause. The cell holds the `crate =` path during the rewrite and is emptied after it. |
| ImpliedBounds.FoldErrors | src/proc_macros/_mod.rs:55-66 | The folded error has one message per original message, in order, each prefixed with `` `#[::implied_bounds::implied_bounds]`: ``. |
| ImpliedBounds.ImpliedBoundsAttribute | src/proc_macros/_mod.rs:47-68 | With the arguments read by `Args::parse` as written, a successful expansion is output unchanged. A failure becomes one compile error carrying every message, prefixed. The cell ends as `ImpliedBoundsImpl` leaves it. |
| ImpliedBoundsProperties.MayBeHigherRankedAppend | src/proc_macros/_mod.rs:304 | The heuristic distributes over concatenation of bound lists. |
| ImpliedBoundsProperties.NonTraitBoundsNeverHigherRanked | src/proc_macros/_mod.rs:305 | Adding a lifetime or other non-trait bound never changes the heuristic. |
| ImpliedBoundsProperties.ParamAfterExtraction | src/proc_macros/_mod.rs:159-177 | A parameter without bounds is untouched. One with bounds keeps them unless they may be higher-ranked, in which case they are removed. |
| ImpliedBoundsProperties.ParamSitesAreBoundedParams | src/proc_macros/_mod.rs:159-167 | The parameter sites are, in increasing order, exactly the indices of the type parameters with bounds. |
| ImpliedBoundsProperties.ParamPredicatesMatchSites | src/proc_macros/_mod.rs:178-187 | With the `:` present, there is one predicate per parameter site: `T : bounds` for that site's parameter. |
| ImpliedBoundsProperties.WhereSitesMatchExtracted | src/proc_macros/_mod.rs:190-233 | The `where` sites are, in increasing order, exactly the indices of the extracted predicates, and the k-th extracted predicate is the one at the k-th site. |
| ImpliedBoundsProperties.RetainedIsOrderedSelection | src/proc_macros/_mod.rs:188-236 | The retained `where` clause is an order-preserving selection of the input. An entry is kept iff it is not extracted, or it is extracted and keeps a copy. |
| ImpliedBoundsProperties.SelfAndLifetimePredicatesStay | src/proc_macros/_mod.rs:193-212 | A lifetime predicate, or one whose bounded type is the bare `Self`, is retained and never extracted. |
| ImpliedBoundsProperties.ExtractionChangesOnlyClauses | src/proc_macros/_mod.rs:139-248 | Extraction keeps the trait's name, supertraits, items, number of parameters and whether it has a `where` clause. Earlier warnings are kept as a prefix. |
| ImpliedBoundsProperties.ExtractedFollowSites | src/proc_macros/_mod.rs:159-233 | With the `:` present, the k-th extracted predicate is the clause at the k-th reported site, and the sites are in source order. |
| ImpliedBoundsProperties.NoneFoundIsNotDebug | src/proc_macros/_mod.rs:238-245 | The "none found" warning is never one of the debug warnings. |
| ImpliedBoundsProperties.DebugWarningsFollowSites | src/proc_macros/_mod.rs:147-158 | With `debug`, the added warnings begin with one debug warning per site, in order. Without `debug`, they are nothing or only "none found". |
| ImpliedBoundsProperties.NoneFoundExactlyOnce | src/proc_macros/_mod.rs:238-245 | "None found" is added exactly once when nothing was reported and `allow_none` is off, and otherwise never. |
| ImpliedBoundsProperties.NothingReportedIffNothingExtracted | src/proc_macros/_mod.rs:146-158 | With the `:` present, no clause is reported iff no predicate is extracted. |
| ImpliedBoundsProperties.TransformPreservesMeaning | src/proc_macros/_mod.rs:257-298 | The rewritten bounds hold of `Self` exactly when the original bounds hold of the original bounded type. |
| ImpliedBoundsProperties.ExpansionShape | src/proc_macros/_mod.rs:78-94 | Once the arguments parse, the expansion has a `where` clause: first the rewrites, one per extracted predicate in order, then the retained predicates. The parameters are the stripped ones, and the warnings are the extraction's. |
| ImpliedBoundsProperties.ParseFailuresAreErrors | src/proc_macros/_mod.rs:75-76 | An argument error yields an error ending with the usage text. Otherwise a trait parse error is returned as is. |
| ImpliedBoundsProperties.IntendedExpansionAgreesWhenAccepted | src/proc_macros/_mod.rs:75-76 | Wherever `Args::parse` as written accepts the arguments, the expansion with the corrected parser is the same. |
| ImpliedBoundsProperties.DebugThenAllowNoneExpansion | src/proc_macros/_mod.rs:75-76 | As written, `#[implied_bounds(debug, allow_none)]` refuses every trait with "duplicate arg" and the usage text. With the corrected parser it expands the trait with both flags set. |
| ImpliedBoundsProperties.IntendedExpansionReadsEveryOption | src/proc_macros/_mod.rs:75-94 | With the corrected parser, any list of distinct options expands the trait with exactly those options set. |
| ImpliedBoundsProperties.WhereExtractedAppend | src/proc_macros/_mod.rs:190-233 | Extraction from a `where` clause distributes over concatenation. |
| ImpliedBoundsProperties.TransformedAreNotExtracted | src/proc_macros/_mod.rs:283-286 | Rewritten predicates bound `Self`, so extraction never takes them again. |
| ImpliedBoundsProperties.SecondPassTakesOnlyCopies | src/proc_macros/_mod.rs:80-89 | Expanding an expanded trait again extracts exactly the copies left behind by the first extraction. |
| Soundness.RewrittenHoldIff | src/proc_macros/_mod.rs:82-85 | All rewritten predicates hold iff all extracted predicates hold. |
| Soundness.ParamsSplit | src/proc_macros/_mod.rs:159-187 | With the `:` present, the original parameter clauses hold iff the stripped parameters' clauses and the extracted parameter predicates all hold. |
| Soundness.WhereSplit | src/proc_macros/_mod.rs:188-236 | The original `where` clause holds iff the retained predicates and the extracted ones all hold. |
| Soundness.AllWhereHoldAppend | src/proc_macros/_mod.rs:88-89 | A concatenated `where` clause holds iff both parts hold. |
| Soundness.AllPredicatesHoldAppend | src/proc_macros/_mod.rs:187 | A concatenated list of predicates holds iff both parts hold. |
| Soundness.ExpansionIsEquivalent | src/proc_macros/_mod.rs:70-95 | For any solver, lifetime relation and arguments, the expanded trait's clauses hold exactly when the original trait's clauses hold. The expanded trait is checked against the crate path the rewrite used. |
| Soundness.ColonlessHigherRankedBoundIsLost | src/proc_macros/_mod.rs:168-184 | Without its `:` token, a type parameter's higher-ranked bound is stripped but never extracted. So the equivalence needs the `:`. |
| Examples.FooExtraction | tests/basic.rs:5-12 | For `Foo`: `T : Clone` and `Self::Gat<true> : Send` are extracted, `Self : Super` stays, and both originals keep their copies. |
| Examples.FooExpansion | tests/basic.rs:5-12 | `Foo` expands to its two rewrites, followed by `Self : Super` and the copy. |
| Examples.FooDebugWarnings | tests/basic.rs:5-12 | With `debug`, `Foo` gets one debug warning on the parameter and one on the second `where` predicate. |
| Examples.BazUnchanged | tests/basic.rs:25-31 | With `allow_none`, `Baz` comes out unchanged with no warning. Without it, the only warning is "none found". |
| Examples.IterExpansion | tests/iter.rs:3-13 | `&'r Self : IntoIterator<…>` is rewritten and copied, and the bound-less parameters are untouched. |
| Examples.ApplyExpansion | src/proc_macros/_mod.rs:168-224 | `Fn(&u8)` and `for<'a>` clauses are moved without copies, the latter under its binder. |
| Examples.ParenthesisedSelfIsExtracted | src/proc_macros/_mod.rs:199-209 | `(Self) : Super` is extracted, as the source's comment says. `Self : Super` is not. |
| Examples.FooSecondPassExtractsCopies | src/proc_macros/_mod.rs:216-224 | A second expansion of `Foo` extracts the copies `T : Clone` and `Self::Gat<true> : Send` again. |
| Examples.RenamedCrate | tests/krate.rs:6-7 | `crate = p` on `_Foo<T : Clone>`, for any mod-style `p`, rewrites through `p`. The cell is empty afterwards. |

## Left out

- Spans, `quote!` output, `compile_warning` tokens and `to_compile_error` are not modelled. A warning is a value naming its clause, and an error is its list of messages.
- The thread-local nature of `CRATE` is not modelled. A single `CrateCell` object stands for it, and the model has no concurrency.
- `parse2::<ItemTrait>` is syn's parser. It is an input, `Result<ItemTrait, Error>`, to `ImplSpec` and `ImpliedBoundsImpl`.
- The corrected pipeline `ImpliedBounds.IntendedImplSpec` is a specification function only: no method runs it. Its parser loop is `MacroArgs.ParseArgsIntended`. It agrees with `ImplSpec` wherever the parser as written accepts (`ImpliedBoundsProperties.IntendedExpansionAgreesWhenAccepted`).
- MacroArgs.ParseArgs: syn adds the words "unexpected end of input, " to an error at the end of input. The model gives the bare message.
- MacroArgs.ParseModStylePath: tokens are modelled as identifiers and the punctuation the parser looks at. A segment may be any identifier except the keywords syn refuses as plain identifiers, but `super`, `self`, `Self` and `crate` are allowed.
- The `USAGE` text is one constant. Its exact layout is not checked.
- Soundness.ExpansionIsEquivalent: a `for<…>` binder is not given a meaning. A predicate holds when its bounds hold of its bounded type. An abstract solver decides every trait other than the helper traits. The rewrite keeps the binder (`ImpliedBounds.Transform`).
- Soundness.ExpansionIsEquivalent requires every bounded type parameter to carry its `:` token, which syn's parser always gives. Without the `:`, the equivalence fails (`Soundness.ColonlessHigherRankedBoundIsLost`).
- `&mut ItemTrait` and `&mut Vec` are modelled as a method's in and out values, so aliasing is outside the model.
- Examples.RenamedCrate is stated for any mod-style path `p`, not for the literal `::renamed`.

## Findings

| source | as written | input that shows it | evidently intended | confidence | as-written member | corrected member |
|---|---|---|---|---|---|---|
| src/proc_macros/args.rs:43-60 | `input.lookahead1()` is taken once, before the loop. Every round dispatches on the first argument's keyword, so any second argument is reported as "duplicate arg". | `#[implied_bounds(debug, allow_none)]` | Each argument is dispatched on its own keyword, so the options listed together in `USAGE` (args.rs:23-37) can be combined. | not executed | ImpliedBoundsProperties.DebugThenAllowNoneExpansion | ImpliedBoundsProperties.IntendedExpansionReadsEveryOption |

The pipeline (`ImplSpec`, `ImpliedBoundsImpl`) follows the code and reads the arguments with
`MacroArgs.ParseArgs`. The corrected parser is `MacroArgs.ParseArgsIntended`, and
`ImpliedBounds.IntendedImplSpec` is the expansion that uses it. The corrected parser also
refuses a repeated option (`MacroArgs.IntendedParserRejectsRepeatedOption`).

The expansion is not idempotent. A clause that is not higher-ranked leaves a copy in place,
and expanding the result again extracts that copy
(`Examples.FooSecondPassExtractsCopies`, `ImpliedBoundsProperties.SecondPassTakesOnlyCopies`).
