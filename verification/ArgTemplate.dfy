/** Argument templates of subprocess handlers: {{name}} placeholders, their
    substitution and their validation. */
module ArgTemplate {
  import opened Wrappers
  import opened Graphs
  import opened Text

  const KNOWN_VARS: set<string> :=
    {"model", "system_prompt", "allowed_tools", "task_id", "action", "branch", "repo_dir", "git_dir", "scratch",
     "review_feedback"}

  const HANDLER_ARGS := "handler_args."
  const OPEN := "{{"
  const CLOSE := "}}"

  /** A template is literal texts and references. */
  datatype Token = Literal(text: string) | Ref(key: string)

  /** What the scanner finds next: no further reference, one that is not closed, or a
      literal text and the reference behind it. */
  datatype Piece = Tail(text: string) | Unclosed | Found(literal: string, key: string, next: nat)

  function NextPiece(raw: string, i: nat): (piece: Piece)
    requires i <= |raw|
    ensures piece.Found? ==> i < piece.next <= |raw|
  {
    var open := IndexFrom(raw, OPEN, i);
    if open < 0 then Tail(raw[i..])
    else
      var close := IndexFrom(raw, CLOSE, open + 2);
      if close < 0 then Unclosed else Found(raw[i..open], raw[open + 2..close], close + 2)
  }

  /** The tokens from a place on, or None where a reference is not closed. */
  function ParseFrom(raw: string, i: nat): Option<seq<Token>>
    requires i <= |raw|
    decreases |raw| - i
  {
    if i == |raw| then
      Some([])
    else
      match NextPiece(raw, i)
      case Tail(text) => Some([Literal(text)])
      case Unclosed => None
      case Found(literal, key, next) =>
        match ParseFrom(raw, next)
        case None => None
        case Some(rest) => Some([Literal(literal), Ref(key)] + rest)
  }

  function Parse(raw: string): Option<seq<Token>> {
    ParseFrom(raw, 0)
  }

  function Value(ctx: map<string, string>, key: string): string {
    if key in ctx then ctx[key] else ""
  }

  /** What a token becomes; an inserted value is taken as it is. */
  function Rendered(token: Token, ctx: map<string, string>): string {
    match token
    case Literal(text) => text
    case Ref(key) => Value(ctx, key)
  }

  function Render(tokens: seq<Token>, ctx: map<string, string>): string {
    if tokens == [] then ""
    else Render(tokens[..|tokens| - 1], ctx) + Rendered(tokens[|tokens| - 1], ctx)
  }

  predicate HasRef(tokens: seq<Token>) {
    exists token | token in tokens :: token.Ref?
  }

  predicate HasEmpty(tokens: seq<Token>, ctx: map<string, string>) {
    exists token | token in tokens :: token.Ref? && Value(ctx, token.key) == ""
  }

  /** The template text of a token. */
  function Source(token: Token): string {
    match token
    case Literal(text) => text
    case Ref(key) => OPEN + key + CLOSE
  }

  function Unparse(tokens: seq<Token>): string {
    if tokens == [] then "" else Unparse(tokens[..|tokens| - 1]) + Source(tokens[|tokens| - 1])
  }

  // ---------------------------------------------------------------- concatenation

  lemma {:induction false} UnparseConcat(a: seq<Token>, b: seq<Token>)
    ensures Unparse(a + b) == Unparse(a) + Unparse(b)
    decreases |b|
  {
    if b == [] {
      assert a + b == a;
    } else {
      assert (a + b)[..|a + b| - 1] == a + b[..|b| - 1];
      UnparseConcat(a, b[..|b| - 1]);
      ConcatAssociates(Unparse(a), Unparse(b[..|b| - 1]), Source(b[|b| - 1]));
    }
  }

  /** Each token is rendered on its own: nothing inserted is scanned again. */
  lemma {:induction false} RenderConcat(a: seq<Token>, b: seq<Token>, ctx: map<string, string>)
    ensures Render(a + b, ctx) == Render(a, ctx) + Render(b, ctx)
    decreases |b|
  {
    if b == [] {
      assert a + b == a;
    } else {
      assert (a + b)[..|a + b| - 1] == a + b[..|b| - 1];
      RenderConcat(a, b[..|b| - 1], ctx);
      ConcatAssociates(Render(a, ctx), Render(b[..|b| - 1], ctx), Rendered(b[|b| - 1], ctx));
    }
  }

  lemma UnparseTwo(a: Token, b: Token)
    ensures Unparse([a, b]) == Source(a) + Source(b) && Unparse([a]) == Source(a)
  {
    assert [a, b][..1] == [a] && [a][..0] == [];
    assert Unparse([a]) == Unparse([]) + Source(a);
    assert Unparse([a, b]) == Unparse([a]) + Source(b);
  }

  lemma RenderTwo(a: Token, b: Token, ctx: map<string, string>)
    ensures Render([a, b], ctx) == Rendered(a, ctx) + Rendered(b, ctx) && Render([a], ctx) == Rendered(a, ctx)
  {
    assert [a, b][..1] == [a] && [a][..0] == [];
    assert Render([a], ctx) == Render([], ctx) + Rendered(a, ctx);
    assert Render([a, b], ctx) == Render([a], ctx) + Rendered(b, ctx);
  }

  ghost predicate MakesUp(raw: string, i: nat, literal: string, key: string, next: nat)
    requires i <= |raw| && next <= |raw|
  {
    raw[i..] == literal + (OPEN + key + CLOSE) + raw[next..]
  }

  lemma PieceText(raw: string, i: nat)
    requires i <= |raw| && NextPiece(raw, i).Found?
    ensures var piece := NextPiece(raw, i); MakesUp(raw, i, piece.literal, piece.key, piece.next)
  {
    var open := IndexFrom(raw, OPEN, i);
    FoundText(raw, i, open, IndexFrom(raw, CLOSE, open + 2));
  }

  lemma FoundText(raw: string, i: nat, open: nat, close: nat)
    requires i <= open && open + 2 <= close && close + 2 <= |raw|
    requires raw[open..open + 2] == OPEN && raw[close..close + 2] == CLOSE
    ensures MakesUp(raw, i, raw[i..open], raw[open + 2..close], close + 2)
  {
    Slices(raw, i, OPEN, open, CLOSE, close);
  }

  lemma Slices(raw: string, i: nat, o: string, open: nat, c: string, close: nat)
    requires |o| == |c| == 2 && i <= open && open + 2 <= close && close + 2 <= |raw|
    requires raw[open..open + 2] == o && raw[close..close + 2] == c
    ensures raw[i..] == raw[i..open] + (o + raw[open + 2..close] + c) + raw[close + 2..]
  {
    assert raw[i..] == raw[i..open] + raw[open..];
    assert raw[open..] == o + raw[open + 2..];
    assert raw[open + 2..] == raw[open + 2..close] + raw[close..];
    assert raw[close..] == c + raw[close + 2..];
  }

  /** The tokens of a template make up its text. */
  lemma {:induction false} TokensMakeUpText(raw: string, i: nat)
    requires i <= |raw| && ParseFrom(raw, i).Some?
    ensures Unparse(ParseFrom(raw, i).value) == raw[i..]
    decreases |raw| - i
  {
    if i < |raw| {
      match NextPiece(raw, i)
      case Tail(text) =>
        UnparseTwo(Literal(text), Literal(text));
      case Found(literal, key, next) =>
        PieceText(raw, i);
        TokensMakeUpText(raw, next);
        UnparseConcat([Literal(literal), Ref(key)], ParseFrom(raw, next).value);
        UnparseTwo(Literal(literal), Ref(key));
      case _ =>
    }
  }

  // ---------------------------------------------------------------- canonical tokens

  /** Behind this text the separator begins exactly where the text ends. */
  predicate EndsBefore(text: string, separator: string) {
    Index(text + separator, separator) == |text|
  }

  /** Alternating literals and references, where each text ends before the separator
      that follows it; a last literal is not empty and opens no reference. */
  predicate Canonical(tokens: seq<Token>)
    decreases |tokens|
  {
    if tokens == [] then true
    else if |tokens| == 1 then tokens[0].Literal? && tokens[0].text != "" && !Contains(tokens[0].text, OPEN)
    else
      && tokens[0].Literal? && EndsBefore(tokens[0].text, OPEN)
      && tokens[1].Ref? && EndsBefore(tokens[1].key, CLOSE) && Canonical(tokens[2..])
  }

  lemma NoneFrom(raw: string, pat: string, i: nat, rest: string)
    requires i <= |raw| && raw[i..] == rest
    ensures IndexFrom(raw, pat, i) < 0 <==> !Contains(rest, pat)
  {
    NoneFromIff(raw, pat, i);
    assert raw[i..|raw|] == rest;
  }

  /** A text and the separator behind it, somewhere in a template. */
  lemma FirstAt(raw: string, pat: string, i: nat, text: string, more: string) returns (at: nat)
    requires i <= |raw| && raw[i..] == text + pat + more && EndsBefore(text, pat)
    ensures i <= at && at + |pat| <= |raw| && IndexFrom(raw, pat, i) == at
    ensures raw[i..at] == text && raw[at + |pat|..] == more
  {
    at := i + |text|;
    Within(raw, i, text, pat, more);
    FirstInPart(raw, pat, i, i + |text| + |pat|);
  }

  lemma Within(raw: string, i: nat, text: string, pat: string, more: string)
    requires i <= |raw| && raw[i..] == text + pat + more
    ensures i + |text| + |pat| <= |raw| && raw[i..i + |text| + |pat|] == text + pat
    ensures raw[i..i + |text|] == text && raw[i + |text| + |pat|..] == more
  {
    var n := |text| + |pat|;
    assert raw[i..i + n] == raw[i..][..n] && raw[i..i + |text|] == raw[i..][..|text|];
    assert raw[i + n..] == raw[i..][n..];
  }

  lemma FirstIsFirst(raw: string, pat: string, i: nat)
    requires i <= |raw| && IndexFrom(raw, pat, i) >= 0
    ensures EndsBefore(raw[i..IndexFrom(raw, pat, i)], pat)
  {
    var r := IndexFrom(raw, pat, i);
    FirstInPart(raw, pat, i, r + |pat|);
    TextBefore(raw, i, r, pat);
  }

  lemma TextBefore(raw: string, i: nat, r: nat, pat: string)
    requires i <= r && r + |pat| <= |raw| && raw[r..r + |pat|] == pat
    ensures raw[i..r + |pat|] == raw[i..r] + pat
  {
  }

  /** A text up to the first o from i on, and one from there up to the first c. */
  ghost predicate CutAt(raw: string, i: nat, o: string, c: string, literal: string, key: string, open: nat,
                        close: nat) {
    && i <= open && open + |o| <= close && close + |c| <= |raw|
    && IndexFrom(raw, o, i) == open && IndexFrom(raw, c, open + |o|) == close
    && raw[i..open] == literal && raw[open + |o|..close] == key
  }

  /** Two separators, one behind the other. */
  lemma BothFirst(raw: string, i: nat, literal: string, o: string, key: string, c: string, more: string)
    returns (open: nat, close: nat)
    requires i <= |raw| && raw[i..] == literal + o + (key + c + more) && EndsBefore(literal, o) && EndsBefore(key, c)
    ensures CutAt(raw, i, o, c, literal, key, open, close) && raw[close + |c|..] == more
  {
    open := FirstAt(raw, o, i, literal, key + c + more);
    close := FirstAt(raw, c, open + |o|, key, more);
  }

  /** A literal and a reference are found as they were written. */
  lemma PieceOfPair(raw: string, i: nat, literal: string, key: string, more: string) returns (next: nat)
    requires i <= |raw| && raw[i..] == literal + OPEN + (key + CLOSE + more)
    requires EndsBefore(literal, OPEN) && EndsBefore(key, CLOSE)
    ensures i < next <= |raw| && raw[next..] == more && NextPiece(raw, i) == Found(literal, key, next)
  {
    var open, close := BothFirst(raw, i, literal, OPEN, key, CLOSE, more);
    PieceBetween(raw, i, open, close, literal, key);
    next := close + 2;
  }

  lemma PieceBetween(raw: string, i: nat, open: nat, close: nat, literal: string, key: string)
    requires CutAt(raw, i, OPEN, CLOSE, literal, key, open, close)
    ensures NextPiece(raw, i) == Found(literal, key, close + 2)
  {
  }

  lemma Regroup(a: string, b: string, c: string, d: string, e: string)
    ensures a + (b + c + d) + e == a + b + (c + d + e)
  {
  }

  /** The tokens from a place on are a literal, a reference and those from another
      place on. */
  ghost predicate PairThen(raw: string, i: nat, literal: string, key: string, next: nat)
    requires i <= |raw| && next <= |raw|
  {
    match ParseFrom(raw, next)
    case None => ParseFrom(raw, i).None?
    case Some(rest) => ParseFrom(raw, i) == Some([Literal(literal), Ref(key)] + rest)
  }

  lemma ParseStep(raw: string, i: nat, literal: string, key: string, next: nat)
    requires i < |raw| && NextPiece(raw, i) == Found(literal, key, next)
    ensures PairThen(raw, i, literal, key, next)
  {
  }

  /** A literal and a reference in front of the rest of a template. */
  lemma ParseOfPair(raw: string, i: nat, literal: string, key: string, more: string) returns (next: nat)
    requires i <= |raw| && raw[i..] == literal + OPEN + (key + CLOSE + more)
    requires EndsBefore(literal, OPEN) && EndsBefore(key, CLOSE)
    ensures i < next <= |raw| && raw[next..] == more && PairThen(raw, i, literal, key, next)
  {
    next := PieceOfPair(raw, i, literal, key, more);
    ParseStep(raw, i, literal, key, next);
  }

  lemma PairInFront(tokens: seq<Token>)
    requires |tokens| > 1
    ensures tokens == [tokens[0], tokens[1]] + tokens[2..]
  {
  }

  lemma UnparseRest(tokens: seq<Token>)
    requires |tokens| > 1 && tokens[0].Literal? && tokens[1].Ref?
    ensures Unparse(tokens) == tokens[0].text + OPEN + (tokens[1].key + CLOSE + Unparse(tokens[2..]))
  {
    PairInFront(tokens);
    Regroup(tokens[0].text, OPEN, tokens[1].key, CLOSE, Unparse(tokens[2..]));
    UnparseConcat([tokens[0], tokens[1]], tokens[2..]);
    UnparseTwo(tokens[0], tokens[1]);
  }

  lemma ParseOfLast(raw: string, i: nat, text: string)
    requires i <= |raw| && raw[i..] == text && text != "" && !Contains(text, OPEN)
    ensures ParseFrom(raw, i) == Some([Literal(text)])
  {
    NoneFrom(raw, OPEN, i, text);
  }

  /** Canonical tokens are read back. */
  lemma {:induction false} ParseOfCanonical(raw: string, i: nat, tokens: seq<Token>)
    requires i <= |raw| && Canonical(tokens) && raw[i..] == Unparse(tokens)
    ensures ParseFrom(raw, i) == Some(tokens)
    decreases |tokens|
  {
    if tokens == [] {
      assert |raw[i..]| == 0;
    } else if |tokens| == 1 {
      UnparseTwo(tokens[0], tokens[0]);
      assert tokens == [tokens[0]];
      ParseOfLast(raw, i, tokens[0].text);
    } else {
      var more := Unparse(tokens[2..]);
      UnparseRest(tokens);
      var next := ParseOfPair(raw, i, tokens[0].text, tokens[1].key, more);
      ParseOfCanonical(raw, next, tokens[2..]);
      PairInFront(tokens);
    }
  }

  lemma FoundEndsBefore(raw: string, i: nat)
    requires i <= |raw| && NextPiece(raw, i).Found?
    ensures EndsBefore(NextPiece(raw, i).literal, OPEN) && EndsBefore(NextPiece(raw, i).key, CLOSE)
  {
    FirstIsFirst(raw, OPEN, i);
    FirstIsFirst(raw, CLOSE, IndexFrom(raw, OPEN, i) + 2);
  }

  lemma {:induction false} ParsedIsCanonical(raw: string, i: nat)
    requires i <= |raw| && ParseFrom(raw, i).Some?
    ensures Canonical(ParseFrom(raw, i).value)
    decreases |raw| - i
  {
    if i < |raw| {
      match NextPiece(raw, i)
      case Tail(text) =>
        NoneFrom(raw, OPEN, i, raw[i..]);
      case Found(literal, key, next) =>
        FoundEndsBefore(raw, i);
        ParsedIsCanonical(raw, next);
        CanonicalPair(literal, key, ParseFrom(raw, next).value);
      case _ =>
    }
  }

  lemma CanonicalPair(literal: string, key: string, rest: seq<Token>)
    ensures Canonical([Literal(literal), Ref(key)] + rest)
       <==> EndsBefore(literal, OPEN) && EndsBefore(key, CLOSE) && Canonical(rest)
  {
    assert ([Literal(literal), Ref(key)] + rest)[2..] == rest;
  }

  /** Parsing gives tokens back exactly if they are canonical: of all the ways to cut a
      template into tokens it takes the one canonical one. */
  lemma ParseOfUnparseIff(tokens: seq<Token>)
    ensures Parse(Unparse(tokens)) == Some(tokens) <==> Canonical(tokens)
  {
    if Canonical(tokens) {
      assert Unparse(tokens)[0..] == Unparse(tokens);
      ParseOfCanonical(Unparse(tokens), 0, tokens);
    }
    if Parse(Unparse(tokens)).Some? {
      ParsedIsCanonical(Unparse(tokens), 0);
    }
  }

  /** The text of literals and references, and an end. */
  function Written(pairs: seq<(string, string)>, end: string): string {
    if pairs == [] then end else pairs[0].0 + OPEN + (pairs[0].1 + CLOSE + Written(pairs[1..], end))
  }

  /** Literals and references that end where they are read to end, and behind them a
      reference that is opened and not closed. */
  ghost predicate Broken(text: string, pairs: seq<(string, string)>, literal: string, rest: string) {
    && text == Written(pairs, literal + OPEN + rest) && EndsBefore(literal, OPEN) && !Contains(rest, CLOSE)
    && forall pair | pair in pairs :: EndsBefore(pair.0, OPEN) && EndsBefore(pair.1, CLOSE)
  }

  lemma UnclosedFails(raw: string, i: nat, literal: string, rest: string)
    requires i <= |raw| && raw[i..] == literal + OPEN + rest && EndsBefore(literal, OPEN) && !Contains(rest, CLOSE)
    ensures ParseFrom(raw, i).None?
  {
    var open := FirstAt(raw, OPEN, i, literal, rest);
    NoneFrom(raw, CLOSE, open + 2, rest);
    UnclosedAt(raw, i, open);
  }

  lemma UnclosedAt(raw: string, i: nat, open: nat)
    requires i <= open && open + 2 <= |raw|
    requires IndexFrom(raw, OPEN, i) == open && IndexFrom(raw, CLOSE, open + 2) < 0
    ensures ParseFrom(raw, i).None?
  {
  }

  lemma {:induction false} BrokenFails(raw: string, i: nat, pairs: seq<(string, string)>, literal: string, rest: string)
    requires i <= |raw| && Broken(raw[i..], pairs, literal, rest)
    ensures ParseFrom(raw, i).None?
    decreases |pairs|
  {
    if pairs == [] {
      UnclosedFails(raw, i, literal, rest);
    } else {
      var more := Written(pairs[1..], literal + OPEN + rest);
      assert pairs[0] in pairs;
      var next := ParseOfPair(raw, i, pairs[0].0, pairs[0].1, more);
      BrokenFails(raw, next, pairs[1..], literal, rest);
    }
  }

  lemma OpenedText(raw: string, i: nat, o: string, open: nat)
    requires i <= open && open + |o| <= |raw| && raw[open..open + |o|] == o
    ensures raw[i..] == raw[i..open] + o + raw[open + |o|..]
  {
    assert raw[i..] == raw[i..open] + raw[open..] && raw[open..] == o + raw[open + |o|..];
  }

  lemma UnclosedIsBroken(raw: string, i: nat) returns (literal: string, rest: string)
    requires i < |raw| && NextPiece(raw, i).Unclosed?
    ensures Broken(raw[i..], [], literal, rest)
  {
    var open := IndexFrom(raw, OPEN, i);
    FirstIsFirst(raw, OPEN, i);
    literal, rest := raw[i..open], raw[open + 2..];
    NoneFrom(raw, CLOSE, open + 2, rest);
    OpenedText(raw, i, OPEN, open);
  }

  lemma BrokenBehindPair(text: string, literal: string, key: string, more: string,
                         pairs: seq<(string, string)>, last: string, rest: string)
    requires text == literal + OPEN + (key + CLOSE + more)
    requires EndsBefore(literal, OPEN) && EndsBefore(key, CLOSE) && Broken(more, pairs, last, rest)
    ensures Broken(text, [(literal, key)] + pairs, last, rest)
  {
    assert ([(literal, key)] + pairs)[1..] == pairs;
  }

  lemma {:induction false} FailedIsBroken(raw: string, i: nat)
      returns (pairs: seq<(string, string)>, literal: string, rest: string)
    requires i <= |raw| && ParseFrom(raw, i).None?
    ensures Broken(raw[i..], pairs, literal, rest)
    decreases |raw| - i
  {
    var piece := NextPiece(raw, i);
    if piece.Unclosed? {
      pairs := [];
      literal, rest := UnclosedIsBroken(raw, i);
    } else {
      FoundEndsBefore(raw, i);
      PieceText(raw, i);
      Regroup(piece.literal, OPEN, piece.key, CLOSE, raw[piece.next..]);
      pairs, literal, rest := FailedIsBroken(raw, piece.next);
      BrokenBehindPair(raw[i..], piece.literal, piece.key, raw[piece.next..], pairs, literal, rest);
      pairs := [(piece.literal, piece.key)] + pairs;
    }
  }

  /** Parsing fails exactly for the templates that are broken in this way. */
  lemma ParseFailsIff(raw: string)
    ensures Parse(raw).None? <==> exists pairs, literal, rest :: Broken(raw, pairs, literal, rest)
  {
    assert raw[0..] == raw;
    if Parse(raw).None? {
      var pairs, literal, rest := FailedIsBroken(raw, 0);
    }
    if pairs, literal, rest :| Broken(raw, pairs, literal, rest) {
      BrokenFails(raw, 0, pairs, literal, rest);
    }
  }

  /** A context that gives every placeholder its own text. */
  function OwnText(tokens: seq<Token>): map<string, string> {
    map token | token in tokens && token.Ref? :: token.key := Source(token)
  }

  lemma {:induction false} OwnTextRenders(tokens: seq<Token>, part: seq<Token>)
    requires forall token | token in part :: token in tokens
    ensures Render(part, OwnText(tokens)) == Unparse(part)
    decreases |part|
  {
    if part != [] {
      OwnTextRenders(tokens, part[..|part| - 1]);
      assert part[|part| - 1] in tokens;
    }
  }

  /** Substituting each placeholder by its own text gives the template back. */
  lemma OwnTextRestores(raw: string)
    requires Parse(raw).Some?
    ensures Render(Parse(raw).value, OwnText(Parse(raw).value)) == raw
  {
    OwnTextRenders(Parse(raw).value, Parse(raw).value);
    TokensMakeUpText(raw, 0);
  }

  // ---------------------------------------------------------------- what a template is

  /** Two characters stand at a place of a text. */
  predicate StandsAt(text: string, k: int, mark: string) {
    0 <= k && k + 2 <= |text| && text[k..k + 2] == mark
  }

  /** A text that no mark begins in, with one behind it. */
  predicate IsFreeOf(text: string, mark: string) {
    forall k | 0 <= k < |text| :: !StandsAt(text + mark, k, mark)
  }

  /** Texts, each with a key between braces behind it, and a text at the end. */
  function TextOf(pairs: seq<(string, string)>, end: string): string {
    if pairs == [] then end else pairs[0].0 + "{{" + (pairs[0].1 + "}}" + TextOf(pairs[1..], end))
  }

  /** The cut of a template at the first opening braces, the first closing ones behind
      them, and so on. */
  ghost predicate IsCut(raw: string, pairs: seq<(string, string)>, end: string) {
    && raw == TextOf(pairs, end)
    && (forall k | 0 <= k < |end| :: !StandsAt(end, k, "{{"))
    && forall p | p in pairs :: IsFreeOf(p.0, "{{") && IsFreeOf(p.1, "}}")
  }

  /** The same texts with the values of the keys; a key without a value has none. */
  function Filled(pairs: seq<(string, string)>, end: string, ctx: map<string, string>): string {
    if pairs == [] then end
    else
      var value := if pairs[0].1 in ctx then ctx[pairs[0].1] else "";
      pairs[0].0 + value + Filled(pairs[1..], end, ctx)
  }

  /** Some key has no value, or an empty one. */
  predicate Lacks(pairs: seq<(string, string)>, ctx: map<string, string>) {
    exists p | p in pairs :: p.1 !in ctx || ctx[p.1] == ""
  }

  function TokensOf(pairs: seq<(string, string)>, end: string): seq<Token> {
    if pairs == [] then (if end == "" then [] else [Literal(end)])
    else [Literal(pairs[0].0), Ref(pairs[0].1)] + TokensOf(pairs[1..], end)
  }

  lemma FreeIff(text: string, mark: string)
    requires |mark| == 2
    ensures IsFreeOf(text, mark) <==> EndsBefore(text, mark)
  {
    var s := text + mark;
    assert HasAt(s, mark, |text|);
    forall k | 0 <= k < |text|
      ensures HasAt(s, mark, k) <==> StandsAt(s, k, mark)
    {
    }
  }

  lemma EndIff(end: string)
    ensures (forall k | 0 <= k < |end| :: !StandsAt(end, k, "{{")) <==> !Contains(end, OPEN)
  {
    forall k
      ensures HasAt(end, OPEN, k) <==> StandsAt(end, k, "{{")
    {
    }
  }

  ghost predicate AllFree(pairs: seq<(string, string)>) {
    forall p | p in pairs :: EndsBefore(p.0, OPEN) && EndsBefore(p.1, CLOSE)
  }

  lemma {:induction false} TokensAreCanonicalIff(pairs: seq<(string, string)>, end: string)
    ensures Canonical(TokensOf(pairs, end)) <==> AllFree(pairs) && !Contains(end, OPEN)
    decreases |pairs|
  {
    if pairs != [] {
      TokensAreCanonicalIff(pairs[1..], end);
      CanonicalPair(pairs[0].0, pairs[0].1, TokensOf(pairs[1..], end));
      HeadFacts(pairs);
      assert forall p :: p in pairs <==> p == pairs[0] || p in pairs[1..];
    }
  }

  lemma {:induction false} TokensText(pairs: seq<(string, string)>, end: string)
    ensures Unparse(TokensOf(pairs, end)) == TextOf(pairs, end)
    decreases |pairs|
  {
    if pairs == [] {
      UnparseTwo(Literal(end), Literal(end));
    } else {
      var rest := TokensOf(pairs[1..], end);
      TokensText(pairs[1..], end);
      UnparseConcat([Literal(pairs[0].0), Ref(pairs[0].1)], rest);
      UnparseTwo(Literal(pairs[0].0), Ref(pairs[0].1));
      Regroup(pairs[0].0, "{{", pairs[0].1, "}}", TextOf(pairs[1..], end));
    }
  }

  lemma {:induction false} TokensFilled(pairs: seq<(string, string)>, end: string, ctx: map<string, string>)
    ensures Render(TokensOf(pairs, end), ctx) == Filled(pairs, end, ctx)
    ensures HasEmpty(TokensOf(pairs, end), ctx) <==> Lacks(pairs, ctx)
    decreases |pairs|
  {
    if pairs == [] {
      RenderTwo(Literal(end), Literal(end), ctx);
    } else {
      var two, rest := [Literal(pairs[0].0), Ref(pairs[0].1)], TokensOf(pairs[1..], end);
      TokensFilled(pairs[1..], end, ctx);
      RenderConcat(two, rest, ctx);
      RenderTwo(two[0], two[1], ctx);
      RefsOfMore(two, rest, ctx);
      HeadFacts(pairs);
      assert forall p :: p in pairs <==> p == pairs[0] || p in pairs[1..];
      assert two[1] in two;
    }
  }

  /** A cut of the template is what the scanner finds. */
  lemma CutIff(raw: string, pairs: seq<(string, string)>, end: string)
    ensures IsCut(raw, pairs, end) <==> Parse(raw) == Some(TokensOf(pairs, end))
  {
    var tokens := TokensOf(pairs, end);
    TokensAreCanonicalIff(pairs, end);
    TokensText(pairs, end);
    EndIff(end);
    forall p | p in pairs
      ensures IsFreeOf(p.0, "{{") && IsFreeOf(p.1, "}}") <==> EndsBefore(p.0, OPEN) && EndsBefore(p.1, CLOSE)
    {
      FreeIff(p.0, "{{");
      FreeIff(p.1, "}}");
    }
    ParseOfUnparseIff(tokens);
    if Parse(raw) == Some(tokens) {
      TokensMakeUpText(raw, 0);
      assert raw[0..] == raw;
    }
  }

  lemma {:induction false} CanonicalIsCut(tokens: seq<Token>) returns (pairs: seq<(string, string)>, end: string)
    requires Canonical(tokens)
    ensures TokensOf(pairs, end) == tokens
    decreases |tokens|
  {
    if |tokens| <= 1 {
      pairs, end := [], if tokens == [] then "" else tokens[0].text;
    } else {
      pairs, end := CanonicalIsCut(tokens[2..]);
      PairInFront(tokens);
      var more := [(tokens[0].text, tokens[1].key)] + pairs;
      assert more[1..] == pairs;
      pairs := more;
    }
  }

  ghost predicate CanBeCut(raw: string) {
    exists pairs, end :: IsCut(raw, pairs, end)
  }

  /** A template is read exactly if it can be cut. */
  lemma ParsedIffCut(raw: string) returns (pairs: seq<(string, string)>, end: string)
    ensures Parse(raw).Some? <==> CanBeCut(raw)
    ensures Parse(raw).Some? ==> Parse(raw).value == TokensOf(pairs, end) && IsCut(raw, pairs, end)
  {
    pairs, end := [], "";
    if Parse(raw).Some? {
      ParsedIsCanonical(raw, 0);
      pairs, end := CanonicalIsCut(Parse(raw).value);
      CutIff(raw, pairs, end);
    } else if ps, e :| IsCut(raw, ps, e) {
      CutIff(raw, ps, e);
    }
  }

  datatype Substituted = Substituted(expanded: string, hasRef: bool, hasEmpty: bool)

  /** What a template becomes, whether it has a key, and whether a key of it lacks a
      value. */
  ghost predicate IsSubstituted(raw: string, ctx: map<string, string>, r: Substituted) {
    exists pairs, end ::
      IsCut(raw, pairs, end) && r == Substituted(Filled(pairs, end, ctx), pairs != [], Lacks(pairs, ctx))
  }

  lemma SubstitutionMeans(raw: string, ctx: map<string, string>)
    ensures Parse(raw).Some? <==> CanBeCut(raw)
    ensures Parse(raw).Some? ==> var tokens := Parse(raw).value;
      IsSubstituted(raw, ctx, Substituted(Render(tokens, ctx), HasRef(tokens), HasEmpty(tokens, ctx)))
  {
    var pairs, end := ParsedIffCut(raw);
    if Parse(raw).Some? {
      TokensFilled(pairs, end, ctx);
      RefsOfTokens(pairs, end);
    }
  }

  lemma RefsOfTokens(pairs: seq<(string, string)>, end: string)
    ensures HasRef(TokensOf(pairs, end)) <==> pairs != []
  {
    if pairs != [] {
      assert TokensOf(pairs, end)[1] == Ref(pairs[0].1);
    }
  }

  /** A name that the handler's input has a value for, or one of its arguments. */
  predicate IsKnownName(key: string) {
    || key == "model" || key == "system_prompt" || key == "allowed_tools" || key == "task_id" || key == "action"
    || key == "branch" || key == "repo_dir" || key == "git_dir" || key == "scratch" || key == "review_feedback"
    || "handler_args." <= key
  }

  ghost predicate HasKnownNames(raw: string) {
    exists pairs, end :: IsCut(raw, pairs, end) && forall p: (string, string) | p in pairs :: IsKnownName(p.1)
  }

  lemma {:induction false} KnownTokensIff(pairs: seq<(string, string)>, end: string)
    ensures AllKnown(TokensOf(pairs, end)) <==> forall p: (string, string) | p in pairs :: IsKnownName(p.1)
    decreases |pairs|
  {
    if pairs != [] {
      var two, rest := [Literal(pairs[0].0), Ref(pairs[0].1)], TokensOf(pairs[1..], end);
      KnownTokensIff(pairs[1..], end);
      assert forall token :: token in two + rest <==> token == two[0] || token == two[1] || token in rest;
      HeadFacts(pairs);
      assert forall p :: p in pairs <==> p == pairs[0] || p in pairs[1..];
    }
  }

  lemma ValidMeans(raw: string)
    ensures Parse(raw).Some? && AllKnown(Parse(raw).value) <==> HasKnownNames(raw)
  {
    var pairs, end := ParsedIffCut(raw);
    if Parse(raw).Some? {
      KnownTokensIff(pairs, end);
    }
    if ps, e :| IsCut(raw, ps, e) && forall p: (string, string) | p in ps :: IsKnownName(p.1) {
      CutIff(raw, ps, e);
      KnownTokensIff(ps, e);
    }
  }

  // ---------------------------------------------------------------- substitution

  /** The tokens from a place on continue those that are done. */
  ghost predicate Continues(raw: string, done: seq<Token>, i: nat) {
    i <= |raw| &&
    match ParseFrom(raw, i)
    case None => Parse(raw).None?
    case Some(rest) => Parse(raw) == Some(done + rest)
  }

  lemma ContinuesPast(raw: string, done: seq<Token>, i: nat)
    requires i < |raw| && Continues(raw, done, i) && NextPiece(raw, i).Found?
    ensures var piece := NextPiece(raw, i);
      Continues(raw, done + [Literal(piece.literal), Ref(piece.key)], piece.next)
  {
    var piece := NextPiece(raw, i);
    if ParseFrom(raw, piece.next).Some? {
      ConcatAssociates(done, [Literal(piece.literal), Ref(piece.key)], ParseFrom(raw, piece.next).value);
    }
  }

  lemma ContinuesFromStart(raw: string)
    ensures Continues(raw, [], 0)
  {
    if ParseFrom(raw, 0).Some? {
      assert [] + ParseFrom(raw, 0).value == ParseFrom(raw, 0).value;
    }
  }

  /** The template with its references replaced by their values; None where a
      reference is not closed. */
  method ArgSubstitute(raw: string, ctx: map<string, string>) returns (r: Option<Substituted>)
    ensures match Parse(raw)
      case None => r.None?
      case Some(tokens) => r == Some(Substituted(Render(tokens, ctx), HasRef(tokens), HasEmpty(tokens, ctx)))
    ensures r.Some? <==> CanBeCut(raw)
    ensures r.Some? ==> IsSubstituted(raw, ctx, r.value)
  {
    SubstitutionMeans(raw, ctx);
    var text, hasRef, hasEmpty := "", false, false;
    var i := 0;
    ghost var done: seq<Token> := [];
    ContinuesFromStart(raw);
    while i < |raw|
      invariant Continues(raw, done, i)
      invariant text == Render(done, ctx) && hasRef == HasRef(done) && hasEmpty == HasEmpty(done, ctx)
    {
      var piece := NextPiece(raw, i);
      if piece.Tail? {
        OneMoreLiteral(done, piece.text, ctx);
        return Some(Substituted(text + piece.text, hasRef, hasEmpty));
      }
      if piece.Unclosed? {
        return None;
      }
      var value := Value(ctx, piece.key);
      ContinuesPast(raw, done, i);
      OneMoreRef(done, piece.literal, piece.key, ctx);
      done := done + [Literal(piece.literal), Ref(piece.key)];
      hasRef := true;
      if value == "" {
        hasEmpty := true;
      }
      text := text + piece.literal + value;
      i := piece.next;
    }
    assert done + [] == done;
    r := Some(Substituted(text, hasRef, hasEmpty));
  }

  lemma OneMoreLiteral(done: seq<Token>, text: string, ctx: map<string, string>)
    ensures var more := done + [Literal(text)];
      Render(more, ctx) == Render(done, ctx) + text
      && HasRef(more) == HasRef(done) && HasEmpty(more, ctx) == HasEmpty(done, ctx)
  {
    RenderConcat(done, [Literal(text)], ctx);
    RenderTwo(Literal(text), Literal(text), ctx);
    RefsOfMore(done, [Literal(text)], ctx);
  }

  lemma OneMoreRef(done: seq<Token>, literal: string, key: string, ctx: map<string, string>)
    ensures var more := done + [Literal(literal), Ref(key)];
      && Render(more, ctx) == Render(done, ctx) + literal + Value(ctx, key) && HasRef(more)
      && HasEmpty(more, ctx) == (HasEmpty(done, ctx) || Value(ctx, key) == "")
  {
    var two := [Literal(literal), Ref(key)];
    RenderConcat(done, two, ctx);
    RenderTwo(Literal(literal), Ref(key), ctx);
    RefsOfMore(done, two, ctx);
    ConcatAssociates(Render(done, ctx), literal, Value(ctx, key));
    assert two[1] in two;
  }

  lemma RefsOfMore(a: seq<Token>, b: seq<Token>, ctx: map<string, string>)
    ensures HasRef(a + b) <==> HasRef(a) || HasRef(b)
    ensures HasEmpty(a + b, ctx) <==> HasEmpty(a, ctx) || HasEmpty(b, ctx)
  {
    assert forall token :: token in a + b <==> token in a || token in b;
  }

  // ---------------------------------------------------------------- validation

  predicate KnownKey(key: string) {
    key in KNOWN_VARS || HANDLER_ARGS <= key
  }

  predicate AllKnown(tokens: seq<Token>) {
    forall token | token in tokens && token.Ref? :: token.key != "" && KnownKey(token.key)
  }

  /** Accepts a template exactly if its references are closed and each names a known
      value or an argument of the handler. */
  method ValidateArgsTemplate(arg: string) returns (ok: bool)
    ensures ok <==> Parse(arg).Some? && AllKnown(Parse(arg).value)
    ensures ok <==> HasKnownNames(arg)
  {
    ValidMeans(arg);
    var i := 0;
    ghost var done: seq<Token> := [];
    ContinuesFromStart(arg);
    while i < |arg|
      invariant Continues(arg, done, i) && AllKnown(done)
    {
      var piece := NextPiece(arg, i);
      if piece.Tail? {
        assert AllKnown(done + [Literal(piece.text)]);
        return true;
      }
      if piece.Unclosed? {
        return false;
      }
      ContinuesPast(arg, done, i);
      done := done + [Literal(piece.literal), Ref(piece.key)];
      if piece.key == "" || !KnownKey(piece.key) {
        return false;
      }
      i := piece.next;
    }
    assert done + [] == done;
    ok := true;
  }

  // ---------------------------------------------------------------- argument lists

  /** An argument is dropped if it has a reference whose value is empty. */
  predicate Dropped(arg: string, ctx: map<string, string>) {
    Parse(arg).Some? && HasEmpty(Parse(arg).value, ctx)
  }

  /** The expanded arguments that are not dropped, in order. */
  function Kept(args: seq<string>, ctx: map<string, string>): seq<string>
    requires forall arg | arg in args :: Parse(arg).Some?
  {
    if args == [] then []
    else
      var rest, last := Kept(args[..|args| - 1], ctx), args[|args| - 1];
      if Dropped(last, ctx) then rest else rest + [Render(Parse(last).value, ctx)]
  }

  /** The i-th argument stays: no key of it lacks a value. */
  ghost predicate Stays(args: seq<string>, ctx: map<string, string>, i: int) {
    0 <= i < |args| && exists pairs, end :: IsCut(args[i], pairs, end) && !Lacks(pairs, ctx)
  }

  ghost predicate IsFilled(arg: string, ctx: map<string, string>, text: string) {
    exists pairs, end :: IsCut(arg, pairs, end) && text == Filled(pairs, end, ctx)
  }

  /** Exactly the arguments that stay, in order. */
  ghost predicate AreThoseThatStay(args: seq<string>, ctx: map<string, string>, at: seq<nat>) {
    (forall k, l | 0 <= k < l < |at| :: at[k] < at[l]) && forall i: nat :: i in at <==> Stays(args, ctx, i)
  }

  ghost predicate AreFilled(args: seq<string>, ctx: map<string, string>, at: seq<nat>, out: seq<string>) {
    |at| == |out| && forall k | 0 <= k < |at| :: at[k] < |args| && IsFilled(args[at[k]], ctx, out[k])
  }

  ghost predicate AreExpanded(args: seq<string>, ctx: map<string, string>, out: seq<string>) {
    exists at :: AreThoseThatStay(args, ctx, at) && AreFilled(args, ctx, at, out)
  }

  lemma StaysIff(args: seq<string>, ctx: map<string, string>, i: nat)
    requires i < |args| && Parse(args[i]).Some?
    ensures Stays(args, ctx, i) <==> !Dropped(args[i], ctx)
    ensures IsFilled(args[i], ctx, Render(Parse(args[i]).value, ctx))
  {
    var pairs, end := ParsedIffCut(args[i]);
    TokensFilled(pairs, end, ctx);
    if ps, e :| IsCut(args[i], ps, e) && !Lacks(ps, ctx) {
      CutIff(args[i], ps, e);
      TokensFilled(ps, e, ctx);
    }
  }

  lemma OneMoreStays(args: seq<string>, ctx: map<string, string>, at: seq<nat>)
    requires args != [] && AreThoseThatStay(args[..|args| - 1], ctx, at)
    ensures AreThoseThatStay(args, ctx, if Stays(args, ctx, |args| - 1) then at + [|args| - 1] else at)
  {
    var n := |args| - 1;
    var init := args[..n];
    var more := if Stays(args, ctx, n) then at + [n] else at;
    forall i: nat
      ensures i in more <==> Stays(args, ctx, i)
    {
      assert i < n ==> init[i] == args[i];
      assert i in more <==> i in at || (i == n && Stays(args, ctx, n));
      assert Stays(init, ctx, i) <==> i < n && Stays(args, ctx, i);
    }
    forall k, l | 0 <= k < l < |more|
      ensures more[k] < more[l]
    {
      assert at[k] in at;
    }
  }

  lemma FilledGrows(args: seq<string>, ctx: map<string, string>, at: seq<nat>, out: seq<string>, text: string)
    requires args != [] && AreFilled(args[..|args| - 1], ctx, at, out)
    ensures AreFilled(args, ctx, at, out)
    ensures IsFilled(args[|args| - 1], ctx, text) ==> AreFilled(args, ctx, at + [|args| - 1], out + [text])
  {
  }

  lemma {:induction false} KeptMeans(args: seq<string>, ctx: map<string, string>)
    requires forall arg | arg in args :: Parse(arg).Some?
    ensures AreExpanded(args, ctx, Kept(args, ctx))
    decreases |args|
  {
    if args == [] {
      assert AreThoseThatStay(args, ctx, []) && AreFilled(args, ctx, [], []);
    } else {
      var n := |args| - 1;
      KeptMeans(args[..n], ctx);
      KeptGrows(args, ctx, Kept(args[..n], ctx));
    }
  }

  lemma KeptGrows(args: seq<string>, ctx: map<string, string>, was: seq<string>)
    requires args != [] && Parse(args[|args| - 1]).Some? && AreExpanded(args[..|args| - 1], ctx, was)
    ensures var last := args[|args| - 1];
      AreExpanded(args, ctx, if Dropped(last, ctx) then was else was + [Render(Parse(last).value, ctx)])
  {
    var n := |args| - 1;
    var at: seq<nat> :| AreThoseThatStay(args[..n], ctx, at) && AreFilled(args[..n], ctx, at, was);
    StaysIff(args, ctx, n);
    OneMoreStays(args, ctx, at);
    FilledGrows(args, ctx, at, was, Render(Parse(args[n]).value, ctx));
  }

  /** Expands a list of arguments; None exactly if one of them has a reference that is
      not closed. */
  method SubArgs(args: seq<string>, ctx: map<string, string>) returns (r: Option<seq<string>>)
    ensures r.Some? <==> forall arg | arg in args :: Parse(arg).Some?
    ensures r.Some? ==> r.value == Kept(args, ctx)
    ensures r.Some? <==> forall arg | arg in args :: CanBeCut(arg)
    ensures r.Some? ==> AreExpanded(args, ctx, r.value)
  {
    forall arg
      ensures Parse(arg).Some? <==> CanBeCut(arg)
    {
      SubstitutionMeans(arg, ctx);
    }
    var out: seq<string> := [];
    for i := 0 to |args|
      invariant forall arg | arg in args[..i] :: Parse(arg).Some?
      invariant out == Kept(args[..i], ctx)
    {
      NextPrefix(args, i);
      var expanded := ArgSubstitute(args[i], ctx);
      if expanded.None? {
        assert args[i] in args;
        return None;
      }
      if !(expanded.value.hasRef && expanded.value.hasEmpty) {
        out := out + [expanded.value.expanded];
      }
    }
    assert args[..|args|] == args;
    KeptMeans(args, ctx);
    r := Some(out);
  }
}
