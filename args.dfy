/**
 * The attribute's arguments (`args.rs`): the option parser over `debug`, `allow_none` and
 * `crate = path`, and the `CRATE` cell that carries the path override to the transformer.
 *
 * The parser takes a sequence of token kinds; the mod-style path after `crate =` is parsed
 * by `ParseModStylePath`, a model of syn's `Path::parse_mod_style`.
 */
module MacroArgs {
  import opened Wrappers
  import opened Syntax

  /** A token of the attribute's argument list. `::`, `=` and `,` are `Punct`s. */
  datatype Token = Ident(name: string) | Punct(op: string) | Literal(text: string)

  const PATH_SEP: Token := Punct("::")
  const EQ: Token := Punct("=")
  const COMMA: Token := Punct(",")

  /** `Args`. Each flag records whether its keyword was given (`Option<kw::…>` is `Some`). */
  datatype Args = Args(debug: bool, allowNone: bool, krate: Option<Path>)

  /** `Args::default()`. */
  const NO_ARGS: Args := Args(false, false, None)

  const USAGE: string :=
    "Usage:\n"
    + "\n"
    + "#[implied_bounds(\n"
    + "    // [Optional] Whether to disable the warning about lack of non-implied clauses.\n"
    + "    allow_none,\n"
    + "\n"
    + "    // [Optional] Highlight every non-implied clause (via deprecation warnings).\n"
    + "    debug,\n"
    + "\n"
    + "    // [Optional] Override `::implied_bounds::\U{2026}` paths in the expansion with `$(::)? some::path::\U{2026}`.\n"
    + "    //            Useful when `macro_rules!` or middle-libs are involved, and the `::implied_bounds`\n"
    + "    //            path is no longer (directly, and syntactically) reachable.\n"
    + "    crate = $(::)? some::path,\n"
    + ")]\n"

  const DUPLICATE_ARG: string := "duplicate arg"
  const EXPECTED_EQ: string := "expected `=`"
  /** syn's `Lookahead1::error` after peeking `debug`, `allow_none` and `crate`, in that order. */
  const LOOKAHEAD_ERROR: string := "expected one of: `debug`, `allow_none`, `crate`"
  const EXPECTED_SEGMENT: string := "expected path segment after `::`"
  const EXPECTED_IDENT: string := "expected identifier"

  // ---------------------------------------------------------------------------------------
  // Token slices

  /** Taking `k + n` tokens is taking `k`, then `n` of what follows. */
  lemma TakeSplit(ts: seq<Token>, k: nat, n: nat)
    requires k + n <= |ts|
    ensures ts[..k + n] == ts[..k] + ts[k..][..n]
  {
  }

  /** Dropping the first part of a concatenation leaves the other two. */
  lemma DropFront(a: seq<Token>, b: seq<Token>, c: seq<Token>)
    ensures (a + b + c)[|a|..] == b + c
  {
  }

  /** Dropping the first two parts of a concatenation leaves the third. */
  lemma DropMiddle(a: seq<Token>, b: seq<Token>, c: seq<Token>)
    ensures (a + (b + c))[|a| + |b|..] == c
  {
  }

  // ---------------------------------------------------------------------------------------
  // Mod-style paths: `$(::)? ident (:: ident)*`

  /** The words syn refuses as a plain identifier (`accept_as_ident`). */
  const KEYWORDS: seq<string> := [
    "_", "abstract", "as", "async", "await", "become", "box", "break", "const", "continue",
    "crate", "do", "dyn", "else", "enum", "extern", "false", "final", "fn", "for", "if",
    "impl", "in", "let", "loop", "macro", "match", "mod", "move", "mut", "override", "priv",
    "pub", "ref", "return", "Self", "self", "static", "struct", "super", "trait", "true",
    "try", "type", "typeof", "unsafe", "unsized", "use", "virtual", "where", "while", "yield"
  ]

  /** Whether `name` is one of the keywords from the `i`-th on. */
  predicate IsKeywordFrom(name: string, i: nat)
    decreases |KEYWORDS| - i
  {
    i < |KEYWORDS| && (KEYWORDS[i] == name || IsKeywordFrom(name, i + 1))
  }

  /** A word that may start a mod-style path segment: any identifier, or one of the path keywords. */
  predicate IsSegmentWord(name: string) {
    !IsKeywordFrom(name, 0) || name in {"super", "self", "Self", "crate"}
  }

  predicate StartsSegment(ts: seq<Token>) {
    |ts| > 0 && ts[0].Ident? && IsSegmentWord(ts[0].name)
  }

  /** The segments of a mod-style path, the number of tokens they take, and whether a `::` was left dangling. */
  datatype Segments = Segments(segments: seq<Segment>, consumed: nat, danglingSep: bool)

  /** The `loop` of `parse_mod_style`: a segment, then another one after each `::`. */
  function ParseSegments(ts: seq<Token>): (r: Segments)
    ensures r.consumed <= |ts|
    ensures |r.segments| == 0 <==> !StartsSegment(ts)
    ensures r.segments == [] ==> r.consumed == 0 && !r.danglingSep
    decreases |ts|
  {
    if !StartsSegment(ts) then Segments([], 0, false)
    else
      var segment := Segment(ts[0].name, NoArguments);
      if |ts| > 1 && ts[1] == PATH_SEP then
        var rest := ParseSegments(ts[2..]);
        Segments([segment] + rest.segments, 2 + rest.consumed, rest.segments == [] || rest.danglingSep)
      else
        Segments([segment], 1, false)
  }

  datatype PathParse = PathOk(path: Path, consumed: nat) | PathErr(message: string)

  /** syn's `Path::parse_mod_style` at the front of `ts`. */
  function ParseModStylePath(ts: seq<Token>): (r: PathParse)
    ensures r.PathOk? ==> 0 < r.consumed <= |ts|
  {
    var start := if |ts| > 0 && ts[0] == PATH_SEP then 1 else 0;
    var s := ParseSegments(ts[start..]);
    if s.segments == [] then
      var rest := ts[start..];
      PathErr(if |rest| > 0 && rest[0].Ident? then "expected identifier, found keyword `" + rest[0].name + "`" else EXPECTED_IDENT)
    else if s.danglingSep then
      PathErr(EXPECTED_SEGMENT)
    else
      PathOk(Path(start == 1, s.segments[..|s.segments| - 1], s.segments[|s.segments| - 1]), start + s.consumed)
  }

  /** Segments a mod-style path can have: segment words without arguments. */
  predicate SegmentWords(segments: seq<Segment>) {
    forall i :: 0 <= i < |segments| ==> segments[i].arguments == NoArguments && IsSegmentWord(segments[i].ident)
  }

  /** A path that `crate = …` can name. */
  predicate IsModStyle(p: Path) {
    SegmentWords(p.Segments())
  }

  function RenderSegments(segments: seq<Segment>): (ts: seq<Token>)
    ensures |segments| > 0 ==> |ts| > 0 && ts[0] == Ident(segments[0].ident)
    decreases |segments|
  {
    if |segments| == 0 then []
    else if |segments| == 1 then [Ident(segments[0].ident)]
    else [Ident(segments[0].ident), PATH_SEP] + RenderSegments(segments[1..])
  }

  /** The tokens of a path, as the user writes it after `crate =`. */
  function RenderPath(p: Path): seq<Token> {
    (if p.leadingColon then [PATH_SEP] else []) + RenderSegments(p.Segments())
  }

  lemma {:induction false} ParseRenderedSegments(segments: seq<Segment>, rest: seq<Token>)
    requires |segments| > 0 && SegmentWords(segments)
    requires rest == [] || rest[0] != PATH_SEP
    ensures ParseSegments(RenderSegments(segments) + rest) == Segments(segments, |RenderSegments(segments)|, false)
    decreases |segments|
  {
    var ts := RenderSegments(segments) + rest;
    var segment := Segment(segments[0].ident, NoArguments);
    assert segments[0] == segment;
    assert StartsSegment(ts);
    if |segments| == 1 {
      assert ts == [Ident(segments[0].ident)] + rest;
      assert segments == [segment];
    } else {
      var tail := segments[1..];
      assert SegmentWords(tail) by {
        forall i | 0 <= i < |tail| ensures tail[i].arguments == NoArguments && IsSegmentWord(tail[i].ident) {
          assert tail[i] == segments[i + 1];
        }
      }
      assert ts == [Ident(segments[0].ident), PATH_SEP] + (RenderSegments(tail) + rest);
      assert ts[2..] == RenderSegments(tail) + rest;
      ParseRenderedSegments(tail, rest);
      assert segments == [segment] + tail;
    }
  }

  /** Parsing the tokens of a mod-style path gives the path back, and stops right after it. */
  lemma ParseRenderedPath(p: Path, rest: seq<Token>)
    requires IsModStyle(p)
    requires rest == [] || rest[0] != PATH_SEP
    ensures ParseModStylePath(RenderPath(p) + rest) == PathOk(p, |RenderPath(p)|)
  {
    var segments := p.Segments();
    var rendered := RenderSegments(segments);
    var ts := RenderPath(p) + rest;
    var start := if p.leadingColon then 1 else 0;
    if p.leadingColon {
      assert ts == [PATH_SEP] + (rendered + rest);
    } else {
      assert ts == rendered + rest;
    }
    assert ts[start..] == rendered + rest;
    assert |ts| > 0 && (ts[0] == PATH_SEP <==> p.leadingColon);
    ParseRenderedSegments(segments, rest);
    var s := ParseSegments(ts[start..]);
    assert s == Segments(segments, |rendered|, false);
    assert segments[..|segments| - 1] == p.prefix;
  }

  /** The segments the loop reads, when it ends cleanly, are segment words and are exactly the tokens it consumed. */
  lemma {:induction false} ParsedSegmentsAreRendered(ts: seq<Token>)
    ensures var s := ParseSegments(ts);
      |s.segments| > 0 && !s.danglingSep ==> SegmentWords(s.segments) && ts[..s.consumed] == RenderSegments(s.segments)
    decreases |ts|
  {
    var s := ParseSegments(ts);
    if |s.segments| > 0 && !s.danglingSep {
      var segment := Segment(ts[0].name, NoArguments);
      if |ts| > 1 && ts[1] == PATH_SEP {
        var rest := ParseSegments(ts[2..]);
        ParsedSegmentsAreRendered(ts[2..]);
        assert s.segments == [segment] + rest.segments;
        assert s.segments[1..] == rest.segments;
        assert SegmentWords(s.segments) by {
          forall i | 0 <= i < |s.segments| ensures s.segments[i].arguments == NoArguments && IsSegmentWord(s.segments[i].ident) {
            if i > 0 {
              assert s.segments[i] == rest.segments[i - 1];
            }
          }
        }
        TakeSplit(ts, 2, rest.consumed);
        assert ts[..2] == [ts[0], ts[1]];
      } else {
        assert ts[..1] == [Ident(segment.ident)];
      }
    }
  }

  /** What the path parser accepts is a mod-style path, and the tokens it consumed are that path written out. */
  lemma ParsedPathIsRendered(ts: seq<Token>)
    ensures var r := ParseModStylePath(ts);
      r.PathOk? ==> IsModStyle(r.path) && ts[..r.consumed] == RenderPath(r.path)
  {
    var r := ParseModStylePath(ts);
    if r.PathOk? {
      var start := if |ts| > 0 && ts[0] == PATH_SEP then 1 else 0;
      var s := ParseSegments(ts[start..]);
      ParsedSegmentsAreRendered(ts[start..]);
      var n := |s.segments|;
      assert r.path == Path(start == 1, s.segments[..n - 1], s.segments[n - 1]);
      assert r.path.Segments() == s.segments;
      assert ts[..start] == if start == 1 then [PATH_SEP] else [];
      TakeSplit(ts, start, s.consumed);
    }
  }

  // ---------------------------------------------------------------------------------------
  // One argument

  /** What a `Lookahead1` made at the front of `ts` matches. */
  datatype Lookahead = DebugKw | AllowNoneKw | CrateKw | Unexpected

  function Peek(ts: seq<Token>): Lookahead {
    if |ts| == 0 then Unexpected
    else if ts[0] == Ident("debug") then DebugKw
    else if ts[0] == Ident("allow_none") then AllowNoneKw
    else if ts[0] == Ident("crate") then CrateKw
    else Unexpected
  }

  datatype Step = Stepped(args: Args, consumed: nat) | Failed(message: string)

  /**
   * One branch of the `match` in `Args::parse`: the branch chosen by `lookahead`, run on the
   * tokens `ts` at the cursor, with `acc` the arguments gathered so far.
   */
  function ParseArgument(lookahead: Lookahead, ts: seq<Token>, acc: Args): (r: Step)
    requires |ts| > 0
    ensures r.Stepped? ==> 0 < r.consumed <= |ts|
  {
    match lookahead
    case DebugKw =>
      if acc.debug then Failed(DUPLICATE_ARG)
      else Stepped(acc.(debug := true), 1)
    case AllowNoneKw =>
      if acc.allowNone then Failed(DUPLICATE_ARG)
      else Stepped(acc.(allowNone := true), 1)
    case CrateKw =>
      if acc.krate.Some? then Failed(DUPLICATE_ARG)
      else if |ts| < 2 || ts[1] != EQ then Failed(EXPECTED_EQ)
      else
        (match ParseModStylePath(ts[2..])
         case PathOk(p, n) => Stepped(acc.(krate := Some(p)), 2 + n)
         case PathErr(m) => Failed(m))
    case Unexpected => Failed(LOOKAHEAD_ERROR)
  }

  /** `let _: Option<Token![,]> = input.parse()?;` after an argument that ends at `pos`. */
  function SkipComma(ts: seq<Token>, pos: nat): (r: nat)
    requires pos <= |ts|
    ensures pos <= r <= |ts|
  {
    if pos < |ts| && ts[pos] == COMMA then pos + 1 else pos
  }

  /** `map_err`: every parse error is followed by the usage text. */
  function WithUsage(r: Result<Args, string>): (res: Result<Args, Error>)
    ensures res.Ok? <==> r.Ok?
    ensures r.Ok? ==> res.value == r.value
    ensures r.Err? ==> res.error.Messages() == [r.error, USAGE]
  {
    match r
    case Ok(a) => Ok(a)
    case Err(m) => Err(Error(m, [USAGE]))
  }

  // ---------------------------------------------------------------------------------------
  // `Args::parse`, as written

  /**
   * What `Args::parse` accepts. The lookahead is made once, at the first token, so every
   * round of the loop takes the first argument's branch: the first argument is parsed, an
   * optional comma skipped, and anything after that finds its field already set.
   */
  function ArgsResult(ts: seq<Token>): Result<Args, string> {
    if |ts| == 0 then Ok(NO_ARGS)
    else
      match ParseArgument(Peek(ts), ts, NO_ARGS)
      case Failed(m) => Err(m)
      case Stepped(a, n) => if SkipComma(ts, n) == |ts| then Ok(a) else Err(DUPLICATE_ARG)
  }

  function ArgsSpec(ts: seq<Token>): Result<Args, Error> {
    WithUsage(ArgsResult(ts))
  }

  /** `<Args as Parse>::parse`. */
  method ParseArgs(ts: seq<Token>) returns (r: Result<Args, Error>)
    ensures r == ArgsSpec(ts)
  {
    var ret := NO_ARGS;
    var lookahead := Peek(ts);
    var pos := 0;
    while pos < |ts|
      invariant pos <= |ts|
      invariant pos == 0 ==> ret == NO_ARGS
      invariant pos > 0 ==> |ts| > 0 && ParseArgument(lookahead, ts, NO_ARGS).Stepped?
      invariant pos > 0 ==> ret == ParseArgument(lookahead, ts, NO_ARGS).args
      invariant pos > 0 ==> pos == SkipComma(ts, ParseArgument(lookahead, ts, NO_ARGS).consumed)
      decreases |ts| - pos
    {
      if lookahead == DebugKw {
        if ret.debug {
          return WithUsage(Err(DUPLICATE_ARG));
        }
        ret := ret.(debug := true);
        pos := pos + 1;
      } else if lookahead == AllowNoneKw {
        if ret.allowNone {
          return WithUsage(Err(DUPLICATE_ARG));
        }
        ret := ret.(allowNone := true);
        pos := pos + 1;
      } else if lookahead == CrateKw {
        if ret.krate.Some? {
          return WithUsage(Err(DUPLICATE_ARG));
        }
        pos := pos + 1;
        if !(pos < |ts| && ts[pos] == EQ) {
          return WithUsage(Err(EXPECTED_EQ));
        }
        pos := pos + 1;
        var path := ParseModStylePath(ts[pos..]);
        if path.PathErr? {
          return WithUsage(Err(path.message));
        }
        ret := ret.(krate := Some(path.path));
        pos := pos + path.consumed;
      } else {
        return WithUsage(Err(LOOKAHEAD_ERROR));
      }
      if pos < |ts| && ts[pos] == COMMA {
        pos := pos + 1;
      }
    }
    r := WithUsage(Ok(ret));
  }

  // ---------------------------------------------------------------------------------------
  // Properties of the parser as written

  lemma EmptyArgs()
    ensures ArgsSpec([]) == Ok(NO_ARGS)
  {
  }

  /** `debug` and `allow_none` alone set their flag, with or without a trailing comma. */
  lemma SingleFlag(comma: bool)
    ensures ArgsSpec([Ident("debug")] + (if comma then [COMMA] else [])) == Ok(NO_ARGS.(debug := true))
    ensures ArgsSpec([Ident("allow_none")] + (if comma then [COMMA] else [])) == Ok(NO_ARGS.(allowNone := true))
  {
  }

  /** `crate = path` alone sets `krate` to that path, with or without a trailing comma. */
  lemma CrateArgument(p: Path, comma: bool)
    requires IsModStyle(p)
    ensures ArgsSpec([Ident("crate"), EQ] + RenderPath(p) + (if comma then [COMMA] else [])) == Ok(NO_ARGS.(krate := Some(p)))
  {
    var tail: seq<Token> := if comma then [COMMA] else [];
    DropFront([Ident("crate"), EQ], RenderPath(p), tail);
    ParseRenderedPath(p, tail);
  }

  /** `crate` not followed by `=` is an error. */
  lemma CrateWithoutEq(rest: seq<Token>)
    requires rest == [] || rest[0] != EQ
    ensures ArgsSpec([Ident("crate")] + rest) == Err(Error(EXPECTED_EQ, [USAGE]))
  {
    assert ([Ident("crate")] + rest)[1..] == rest;
  }

  /** A malformed path after `crate =` is an error, whatever follows. */
  lemma CrateWithBadPath(rest: seq<Token>)
    requires ParseModStylePath(rest).PathErr?
    ensures ArgsSpec([Ident("crate"), EQ] + rest) == Err(Error(ParseModStylePath(rest).message, [USAGE]))
  {
    assert ([Ident("crate"), EQ] + rest)[2..] == rest;
  }

  /** Any other first token gives the lookahead's "expected …" error. */
  lemma UnknownFirstArgument(ts: seq<Token>)
    requires |ts| > 0 && Peek(ts) == Unexpected
    ensures ArgsSpec(ts) == Err(Error(LOOKAHEAD_ERROR, [USAGE]))
  {
  }

  /**
   * Once the first argument (and its optional comma) is parsed, any token left over —
   * a genuine repeat like `debug, debug` or a different option alike — is a duplicate.
   */
  lemma SecondArgumentIsDuplicate(ts: seq<Token>)
    requires |ts| > 0 && ParseArgument(Peek(ts), ts, NO_ARGS).Stepped?
    requires SkipComma(ts, ParseArgument(Peek(ts), ts, NO_ARGS).consumed) < |ts|
    ensures ArgsSpec(ts) == Err(Error(DUPLICATE_ARG, [USAGE]))
  {
  }

  /** Every error the parser reports carries the usage text as its last message. */
  lemma ErrorsCarryUsage(ts: seq<Token>)
    ensures ArgsSpec(ts).Err? ==> |ArgsSpec(ts).error.Messages()| == 2 && ArgsSpec(ts).error.Messages()[1] == USAGE
  {
  }

  /** The parser never sets more than one option. */
  lemma AtMostOneOption(ts: seq<Token>)
    ensures ArgsSpec(ts).Ok? ==>
      (if ArgsSpec(ts).value.debug then 1 else 0) + (if ArgsSpec(ts).value.allowNone then 1 else 0)
      + (if ArgsSpec(ts).value.krate.Some? then 1 else 0) <= 1
  {
  }

  // ---------------------------------------------------------------------------------------
  // The parser as its usage text describes it: a fresh lookahead at every argument

  /** The loop of `Args::parse` with the lookahead taken at the cursor in every round. */
  function ParseArgumentsFrom(ts: seq<Token>, acc: Args): Result<Args, string>
    decreases |ts|
  {
    if |ts| == 0 then Ok(acc)
    else
      match ParseArgument(Peek(ts), ts, acc)
      case Failed(m) => Err(m)
      case Stepped(a, n) => ParseArgumentsFrom(ts[SkipComma(ts, n)..], a)
  }

  function IntendedArgsSpec(ts: seq<Token>): Result<Args, Error> {
    WithUsage(ParseArgumentsFrom(ts, NO_ARGS))
  }

  /**
   * `Args::parse` with `input.lookahead1()` moved inside the loop, so that each round
   * dispatches on the keyword at the cursor.
   */
  method ParseArgsIntended(ts: seq<Token>) returns (r: Result<Args, Error>)
    ensures r == IntendedArgsSpec(ts)
  {
    var ret := NO_ARGS;
    var input := ts;
    while |input| > 0
      invariant ParseArgumentsFrom(input, ret) == ParseArgumentsFrom(ts, NO_ARGS)
      decreases |input|
    {
      var step := ParseArgument(Peek(input), input, ret);
      if step.Failed? {
        return WithUsage(Err(step.message));
      }
      ret := step.args;
      input := input[SkipComma(input, step.consumed)..];
    }
    r := WithUsage(Ok(ret));
  }

  /** One option as the user writes it. */
  datatype Setting = DebugSetting | AllowNoneSetting | CrateSetting(path: Path)

  /** An option followed, or not, by a comma. */
  datatype Argument = Argument(option: Setting, comma: bool)

  function RenderSetting(o: Setting): seq<Token> {
    match o
    case DebugSetting => [Ident("debug")]
    case AllowNoneSetting => [Ident("allow_none")]
    case CrateSetting(p) => [Ident("crate"), EQ] + RenderPath(p)
  }

  function RenderArguments(arguments: seq<Argument>): seq<Token>
    decreases |arguments|
  {
    if arguments == [] then []
    else RenderSetting(arguments[0].option) + ((if arguments[0].comma then [COMMA] else []) + RenderArguments(arguments[1..]))
  }

  function Set(acc: Args, o: Setting): Args {
    match o
    case DebugSetting => acc.(debug := true)
    case AllowNoneSetting => acc.(allowNone := true)
    case CrateSetting(p) => acc.(krate := Some(p))
  }

  function SetAll(acc: Args, arguments: seq<Argument>): Args
    decreases |arguments|
  {
    if arguments == [] then acc else SetAll(Set(acc, arguments[0].option), arguments[1..])
  }

  predicate IsSet(acc: Args, o: Setting) {
    match o
    case DebugSetting => acc.debug
    case AllowNoneSetting => acc.allowNone
    case CrateSetting(_) => acc.krate.Some?
  }

  predicate SameKind(a: Setting, b: Setting) {
    (a.DebugSetting? && b.DebugSetting?) || (a.AllowNoneSetting? && b.AllowNoneSetting?) || (a.CrateSetting? && b.CrateSetting?)
  }

  /** Every `crate =` option names a mod-style path. */
  predicate PathsAreModStyle(arguments: seq<Argument>) {
    forall i :: 0 <= i < |arguments| && arguments[i].option.CrateSetting? ==> IsModStyle(arguments[i].option.path)
  }

  /** Options the parser can read back: at most one of each kind, and only mod-style paths. */
  predicate Readable(arguments: seq<Argument>) {
    && (forall i, j :: 0 <= i < j < |arguments| ==> !SameKind(arguments[i].option, arguments[j].option))
    && PathsAreModStyle(arguments)
  }

  /** Some option is already set in `acc`, or two options are of one kind. */
  predicate Repeats(acc: Args, arguments: seq<Argument>) {
    || (exists i :: 0 <= i < |arguments| && IsSet(acc, arguments[i].option))
    || (exists i, j :: 0 <= i < j < |arguments| && SameKind(arguments[i].option, arguments[j].option))
  }

  /** One rendered option is read back as one argument. */
  lemma ParseRenderedSetting(o: Setting, acc: Args, after: seq<Token>)
    requires !IsSet(acc, o)
    requires o.CrateSetting? ==> IsModStyle(o.path)
    requires after == [] || after[0] != PATH_SEP
    ensures |RenderSetting(o) + after| > 0
    ensures ParseArgument(Peek(RenderSetting(o) + after), RenderSetting(o) + after, acc) == Stepped(Set(acc, o), |RenderSetting(o)|)
  {
    var ts := RenderSetting(o) + after;
    match o {
      case DebugSetting =>
        assert ts[0] == Ident("debug");
      case AllowNoneSetting =>
        assert ts[0] == Ident("allow_none");
      case CrateSetting(p) =>
        ParseRenderedCrate(p, acc, after);
    }
  }

  /** A rendered `crate = path` is read back as one argument. */
  lemma ParseRenderedCrate(p: Path, acc: Args, after: seq<Token>)
    requires acc.krate.None? && IsModStyle(p)
    requires after == [] || after[0] != PATH_SEP
    ensures ParseArgument(CrateKw, [Ident("crate"), EQ] + RenderPath(p) + after, acc) == Stepped(acc.(krate := Some(p)), 2 + |RenderPath(p)|)
  {
    var ts := [Ident("crate"), EQ] + RenderPath(p) + after;
    assert ts[1] == EQ;
    DropFront([Ident("crate"), EQ], RenderPath(p), after);
    ParseRenderedPath(p, after);
  }

  /** A rendered option starts with its keyword. */
  lemma RenderedSettingStart(o: Setting)
    ensures |RenderSetting(o)| > 0 && RenderSetting(o)[0].Ident?
  {
    match o {
      case DebugSetting =>
      case AllowNoneSetting =>
      case CrateSetting(p) => assert RenderSetting(o)[0] == Ident("crate");
    }
  }

  /** Rendered arguments never start with `::`, so a path before them ends where it should. */
  lemma {:induction false} RenderedArgumentsStart(arguments: seq<Argument>)
    ensures RenderArguments(arguments) == [] || RenderArguments(arguments)[0].Ident?
  {
    if arguments != [] {
      var first := RenderSetting(arguments[0].option);
      RenderedSettingStart(arguments[0].option);
      var rest := (if arguments[0].comma then [COMMA] else []) + RenderArguments(arguments[1..]);
      assert RenderArguments(arguments) == first + rest;
      assert (first + rest)[0] == first[0];
    }
  }

  /** After the first option is set, the rest can still be read, and none of them is set yet. */
  lemma ReadableTail(arguments: seq<Argument>, acc: Args)
    requires arguments != [] && Readable(arguments)
    requires forall i :: 0 <= i < |arguments| ==> !IsSet(acc, arguments[i].option)
    ensures Readable(arguments[1..])
    ensures forall i :: 0 <= i < |arguments| - 1 ==> !IsSet(Set(acc, arguments[0].option), arguments[1..][i].option)
  {
    var tail := arguments[1..];
    forall i | 0 <= i < |tail|
      ensures !IsSet(Set(acc, arguments[0].option), tail[i].option)
    {
      assert tail[i] == arguments[i + 1];
      assert !SameKind(arguments[0].option, arguments[i + 1].option);
    }
    forall i, j | 0 <= i < j < |tail| ensures !SameKind(tail[i].option, tail[j].option) {
      assert tail[i] == arguments[i + 1] && tail[j] == arguments[j + 1];
    }
    forall i | 0 <= i < |tail| && tail[i].option.CrateSetting? ensures IsModStyle(tail[i].option.path) {
      assert tail[i] == arguments[i + 1];
    }
  }

  /** The loop reads back the first rendered argument, then carries on with the rest. */
  lemma ParseRenderedArgumentsStep(arguments: seq<Argument>, acc: Args)
    requires arguments != [] && !IsSet(acc, arguments[0].option)
    requires arguments[0].option.CrateSetting? ==> IsModStyle(arguments[0].option.path)
    ensures ParseArgumentsFrom(RenderArguments(arguments), acc)
         == ParseArgumentsFrom(RenderArguments(arguments[1..]), Set(acc, arguments[0].option))
  {
    var arg := arguments[0];
    var setting := RenderSetting(arg.option);
    var comma: seq<Token> := if arg.comma then [COMMA] else [];
    var rest := RenderArguments(arguments[1..]);
    var ts := RenderArguments(arguments);
    assert ts == setting + (comma + rest);
    RenderedArgumentsStart(arguments[1..]);
    assert (comma + rest) == [] || (comma + rest)[0] != PATH_SEP;
    ParseRenderedSetting(arg.option, acc, comma + rest);
    assert SkipComma(ts, |setting|) == |setting| + |comma|;
    DropMiddle(setting, comma, rest);
  }

  lemma {:induction false} ParseRenderedArguments(arguments: seq<Argument>, acc: Args)
    requires Readable(arguments)
    requires forall i :: 0 <= i < |arguments| ==> !IsSet(acc, arguments[i].option)
    ensures ParseArgumentsFrom(RenderArguments(arguments), acc) == Ok(SetAll(acc, arguments))
    decreases |arguments|
  {
    if arguments != [] {
      ParseRenderedArgumentsStep(arguments, acc);
      ReadableTail(arguments, acc);
      ParseRenderedArguments(arguments[1..], Set(acc, arguments[0].option));
    }
  }

  /** The intended parser reads back any list of distinct options, each with or without a comma. */
  lemma IntendedParserAcceptsDistinctOptions(arguments: seq<Argument>)
    requires Readable(arguments)
    ensures IntendedArgsSpec(RenderArguments(arguments)) == Ok(SetAll(NO_ARGS, arguments))
  {
    ParseRenderedArguments(arguments, NO_ARGS);
  }

  /** A rendered option that is already set is refused as a duplicate, before anything after its keyword is read. */
  lemma ParseRenderedSettingAgain(o: Setting, acc: Args, after: seq<Token>)
    requires IsSet(acc, o)
    ensures |RenderSetting(o) + after| > 0
    ensures ParseArgument(Peek(RenderSetting(o) + after), RenderSetting(o) + after, acc) == Failed(DUPLICATE_ARG)
  {
    var ts := RenderSetting(o) + after;
    match o {
      case DebugSetting =>
        assert ts[0] == Ident("debug");
      case AllowNoneSetting =>
        assert ts[0] == Ident("allow_none");
      case CrateSetting(p) =>
        assert ts[0] == Ident("crate");
    }
  }

  /** After a first option that was not yet set, the repetition is still ahead. */
  lemma RepeatsTail(arguments: seq<Argument>, acc: Args)
    requires arguments != [] && !IsSet(acc, arguments[0].option)
    requires PathsAreModStyle(arguments) && Repeats(acc, arguments)
    ensures PathsAreModStyle(arguments[1..]) && Repeats(Set(acc, arguments[0].option), arguments[1..])
  {
    var o := arguments[0].option;
    var tail := arguments[1..];
    forall i | 0 <= i < |tail| && tail[i].option.CrateSetting? ensures IsModStyle(tail[i].option.path) {
      assert tail[i] == arguments[i + 1];
    }
    if exists i :: 0 <= i < |arguments| && IsSet(acc, arguments[i].option) {
      var i :| 0 <= i < |arguments| && IsSet(acc, arguments[i].option);
      assert tail[i - 1] == arguments[i];
      assert IsSet(Set(acc, o), tail[i - 1].option);
    } else {
      var i, j :| 0 <= i < j < |arguments| && SameKind(arguments[i].option, arguments[j].option);
      assert tail[j - 1] == arguments[j];
      if i == 0 {
        assert IsSet(Set(acc, o), tail[j - 1].option);
      } else {
        assert tail[i - 1] == arguments[i];
        assert SameKind(tail[i - 1].option, tail[j - 1].option);
      }
    }
  }

  /** A first rendered argument that is already set stops the loop with "duplicate arg". */
  lemma ParseRepeatedFirst(arguments: seq<Argument>, acc: Args)
    requires arguments != [] && IsSet(acc, arguments[0].option)
    ensures ParseArgumentsFrom(RenderArguments(arguments), acc) == Err(DUPLICATE_ARG)
  {
    var o := arguments[0].option;
    var comma: seq<Token> := if arguments[0].comma then [COMMA] else [];
    var after := comma + RenderArguments(arguments[1..]);
    assert RenderArguments(arguments) == RenderSetting(o) + after;
    ParseRenderedSettingAgain(o, acc, after);
  }

  lemma {:induction false} ParseRepeatedArguments(arguments: seq<Argument>, acc: Args)
    requires PathsAreModStyle(arguments) && Repeats(acc, arguments)
    ensures ParseArgumentsFrom(RenderArguments(arguments), acc) == Err(DUPLICATE_ARG)
    decreases |arguments|
  {
    var o := arguments[0].option;
    if IsSet(acc, o) {
      ParseRepeatedFirst(arguments, acc);
    } else {
      ParseRenderedArgumentsStep(arguments, acc);
      RepeatsTail(arguments, acc);
      ParseRepeatedArguments(arguments[1..], Set(acc, o));
    }
  }

  /**
   * The intended parser refuses any list that gives options `i` and `j` of one kind, a repeat
   * like `debug, debug` among them, as "duplicate arg".
   */
  lemma IntendedParserRejectsRepeatedOption(arguments: seq<Argument>, i: nat, j: nat)
    requires PathsAreModStyle(arguments)
    requires i < j < |arguments| && SameKind(arguments[i].option, arguments[j].option)
    ensures IntendedArgsSpec(RenderArguments(arguments)) == Err(Error(DUPLICATE_ARG, [USAGE]))
  {
    assert Repeats(NO_ARGS, arguments);
    ParseRepeatedArguments(arguments, NO_ARGS);
  }

  /** Wherever the parser as written succeeds, the intended one gives the same arguments. */
  lemma IntendedParserAgreesWhenAccepted(ts: seq<Token>)
    ensures ArgsSpec(ts).Ok? ==> IntendedArgsSpec(ts) == ArgsSpec(ts)
  {
    if |ts| > 0 && ArgsSpec(ts).Ok? {
      var step := ParseArgument(Peek(ts), ts, NO_ARGS);
      assert step.Stepped? && SkipComma(ts, step.consumed) == |ts|;
      assert ts[SkipComma(ts, step.consumed)..] == [];
      assert ParseArgumentsFrom(ts, NO_ARGS) == ParseArgumentsFrom([], step.args);
    }
  }

  /** As written, `debug, allow_none` is refused as a duplicate; the intended parser sets both flags. */
  lemma DebugThenAllowNoneRejected()
    ensures ArgsSpec([Ident("debug"), COMMA, Ident("allow_none")]) == Err(Error(DUPLICATE_ARG, [USAGE]))
    ensures IntendedArgsSpec([Ident("debug"), COMMA, Ident("allow_none")]) == Ok(Args(true, true, None))
  {
    var ts := [Ident("debug"), COMMA, Ident("allow_none")];
    var tail := [Ident("allow_none")];
    assert ParseArgument(Peek(ts), ts, NO_ARGS) == Stepped(Args(true, false, None), 1);
    assert ts[SkipComma(ts, 1)..] == tail;
    assert ParseArgument(Peek(tail), tail, Args(true, false, None)) == Stepped(Args(true, true, None), 1);
    assert tail[SkipComma(tail, 1)..] == [];
    assert ParseArgumentsFrom(ts, NO_ARGS) == ParseArgumentsFrom(tail, Args(true, false, None));
    assert ParseArgumentsFrom(tail, Args(true, false, None)) == ParseArgumentsFrom([], Args(true, true, None));
  }

  // ---------------------------------------------------------------------------------------
  // The `CRATE` cell

  /** The guard `Crate::init` hands out; dropping it clears the cell. */
  datatype Guard = ClearOnDrop

  /** The thread-local `CRATE: RefCell<Option<Path>>`, owned by one expansion. */
  class CrateCell {
    var krate: Option<Path>

    /** `RefCell::new(None)`. */
    constructor ()
      ensures krate == None
    {
      krate := None;
    }

    /** `Crate::init`: sets the cell and returns a guard only when a path is given. */
    method Init(path: Option<Path>) returns (guard: Option<Guard>)
      modifies this
      ensures guard.Some? <==> path.Some?
      ensures krate == if path.Some? then path else old(krate)
    {
      if path.None? {
        return None;
      }
      krate := path;
      guard := Some(ClearOnDrop);
    }

    /** Dropping the value `Crate::init` returned: the guard's `Drop` clears the cell. */
    method Release(guard: Option<Guard>)
      modifies this
      ensures krate == if guard.Some? then None else old(krate)
    {
      if guard.Some? {
        krate := None;
      }
    }

    /** `Crate::get`. */
    method Get() returns (k: Option<Path>)
      ensures k == krate
    {
      k := krate;
    }
  }
}
