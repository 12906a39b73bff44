/**
 * The part of syn's syntax tree that the `#[implied_bounds]` rewrite looks at: a trait
 * declaration, its generic parameters, its `where` clause, bounds, paths and types.
 * Anything the rewrite never inspects is kept as opaque text (`OtherTy`, `OtherBound`,
 * `items`), and spans are not modelled.
 */
module Syntax {
  import opened Wrappers

  /** One `::`-separated segment of a path, with its generic arguments. */
  datatype Segment = Segment(ident: string, arguments: PathArguments)

  /** syn's `PathArguments`: none, `<…>`, or the parenthesised `(…) -> …` of the `Fn` traits. */
  datatype PathArguments =
    | NoArguments
    | AngleBracketed(args: seq<GenericArgument>)
    | Parenthesized(inputs: seq<Ty>, output: Option<Ty>)

  /** syn's `GenericArgument`, as written between `<` and `>`. */
  datatype GenericArgument =
    | TypeArg(ty: Ty)                                  // `T`
    | LifetimeArg(lifetime: string)                    // `'a`
    | ConstArg(expr: string)                           // `true`
    | AssocType(ident: string, ty: Ty)                 // `Item = T`
    | Constraint(ident: string, bounds: seq<Bound>)    // `Impls : B`

  /**
   * syn's `Path`. A parsed path has at least one segment, so the last one is a field of its
   * own: `prefix` holds the segments before it.
   */
  datatype Path = Path(leadingColon: bool, prefix: seq<Segment>, last: Segment) {

    function Segments(): (s: seq<Segment>)
      ensures |s| > 0 && s[|s| - 1] == last
    {
      prefix + [last]
    }

    /** `path / segment`: this path followed by one more segment, as in `#krate::ImpliedPredicate`. */
    function Append(segment: Segment): (p: Path)
      ensures p.leadingColon == leadingColon && p.Segments() == Segments() + [segment]
    {
      Path(leadingColon, prefix + [last], segment)
    }
  }

  /** syn's `Type`, split only as far as telling the bare path `Self` apart matters. */
  datatype Ty =
    | PathTy(qself: Option<Ty>, path: Path)            // `Self::Gat<true>`, `<T as Tr>::X`
    | ParenTy(elem: Ty)                                // `(Self)`
    | RefTy(lifetime: Option<string>, mutable: bool, elem: Ty)   // `&'r Self`
    | OtherTy(tokens: string)                          // tuples, slices, macros, …

  /** syn's `TypeParamBound`: a trait bound with its optional `for<…>` binder, or anything else. */
  datatype Bound =
    | TraitBound(lifetimes: Option<seq<string>>, path: Path)
    | LifetimeBound(lifetime: string)
    | OtherBound(tokens: string)

  /** syn's `GenericParam`. A type parameter keeps its `:` token apart from its bound list. */
  datatype GenericParam =
    | TypeParam(ident: string, colon: bool, bounds: seq<Bound>, default: Option<Ty>)
    | LifetimeParam(lifetime: string, outlives: seq<string>)
    | ConstParam(ident: string, ty: Ty)

  /** syn's `PredicateType`: `for<'a…> BoundedTy : Bounds`. */
  datatype PredicateType = PredicateType(lifetimes: Option<seq<string>>, boundedTy: Ty, bounds: seq<Bound>)

  /** syn's `WherePredicate`. */
  datatype WherePredicate =
    | TypePred(pred: PredicateType)
    | LifetimePred(lifetime: string, outlives: seq<string>)

  /** syn's `ItemTrait`, reduced to what the rewrite reads or writes. */
  datatype ItemTrait = ItemTrait(
    ident: string,
    params: seq<GenericParam>,
    whereClause: Option<seq<WherePredicate>>,
    supertraits: seq<Bound>,
    items: seq<string>)

  /** syn's `Error`: one or more messages, in order. */
  datatype Error = Error(first: string, rest: seq<string>) {

    function Messages(): (ms: seq<string>)
      ensures |ms| > 0 && ms[0] == first
    {
      [first] + rest
    }

    /** `Error::combine`: the other error's messages follow this one's. */
    function Combine(other: Error): (e: Error)
      ensures e.Messages() == Messages() + other.Messages()
    {
      Error(first, rest + other.Messages())
    }
  }

  /** syn's `Path::is_ident`: no leading `::`, a single segment without arguments, named `name`. */
  predicate IsIdent(p: Path, name: string) {
    !p.leadingColon && p.prefix == [] && p.last.arguments == NoArguments && p.last.ident == name
  }

  /** The single-segment path `name`, as `parse_quote!(#name)` builds it. */
  function IdentPath(name: string): (p: Path)
    ensures IsIdent(p, name)
  {
    Path(false, [], Segment(name, NoArguments))
  }

  /** The type named by a type parameter's identifier. */
  function IdentTy(name: string): Ty {
    PathTy(None, IdentPath(name))
  }

  const SelfTy: Ty := IdentTy("Self")

  /** The bounded type is exactly the path `Self`: no qualified self, nothing around it. */
  predicate IsBareSelf(ty: Ty) {
    ty.PathTy? && ty.qself == None && IsIdent(ty.path, "Self")
  }
}
