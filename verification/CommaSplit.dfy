/** Splitting a parameter list at the commas that are neither inside brackets nor
    inside a quoted string. */
module CommaSplit {
  import opened Graphs
  import opened Text

  datatype State = State(depth: int, inString: bool, escaped: bool)

  const START := State(0, false, false)

  function Step(s: State, c: char): State {
    if s.escaped then s.(escaped := false)
    else if s.inString && c == '\\' then s.(escaped := true)
    else if c == '"' then s.(inString := !s.inString)
    else if s.inString then s
    else if c == '[' || c == '{' then s.(depth := s.depth + 1)
    else if c == ']' || c == '}' then s.(depth := s.depth - 1)
    else s
  }

  /** The state of the scanner after a text. */
  function Scan(s: string): State {
    if s == "" then START else Step(Scan(s[..|s| - 1]), s[|s| - 1])
  }

  /** The parts between the commas at which the scanner is at its start state. */
  function Parts(s: string): (parts: seq<string>)
    ensures parts != []
  {
    if s == "" then [""]
    else
      var init, c := s[..|s| - 1], s[|s| - 1];
      Extend(Parts(init), c, c == ',' && Scan(init) == START)
  }

  /** One more character: it begins a new part or belongs to the last one. */
  function Extend(parts: seq<string>, c: char, splits: bool): (more: seq<string>)
    requires parts != []
    ensures more != []
  {
    if splits then parts + [""] else parts[..|parts| - 1] + [parts[|parts| - 1] + [c]]
  }

  // ---------------------------------------------------------------- what a text is made of

  /** A character outside of strings, a quoted string, or one that is not closed. */
  datatype Chunk = Plain(c: char) | Quoted(body: string) | Open(body: string)

  /** What may stand between quotes: a quote or a backslash only behind a backslash. */
  predicate IsBody(body: string)
    decreases |body|
  {
    || body == ""
    || (body[0] == '\\' && |body| > 1 && IsBody(body[2..]))
    || (body[0] != '\\' && body[0] != '"' && IsBody(body[1..]))
  }

  predicate IsChunk(chunk: Chunk) {
    match chunk
    case Plain(c) => c != '"'
    case Quoted(body) => IsBody(body)
    case Open(body) => IsBody(body) || (body != "" && body[|body| - 1] == '\\' && IsBody(body[..|body| - 1]))
  }

  function ChunkText(chunk: Chunk): string {
    match chunk
    case Plain(c) => [c]
    case Quoted(body) => "\"" + body + "\""
    case Open(body) => "\"" + body
  }

  function TextOf(chunks: seq<Chunk>): string {
    if chunks == [] then "" else TextOf(chunks[..|chunks| - 1]) + ChunkText(chunks[|chunks| - 1])
  }

  /** Chunks that make up a text; only the last may be open. */
  ghost predicate MakeUp(chunks: seq<Chunk>, s: string) {
    && s == TextOf(chunks) && (forall chunk | chunk in chunks :: IsChunk(chunk))
    && forall i | 0 <= i < |chunks| - 1 :: !chunks[i].Open?
  }

  /** How many brackets and braces are open. */
  function Balance(chunks: seq<Chunk>): int {
    if chunks == [] then 0
    else
      Balance(chunks[..|chunks| - 1]) +
      match chunks[|chunks| - 1]
      case Plain(c) => if c == '[' || c == '{' then 1 else if c == ']' || c == '}' then -1 else 0
      case _ => 0
  }

  /** A comma outside of strings with as many brackets closed as opened before it. */
  predicate IsCut(chunks: seq<Chunk>, i: int) {
    0 <= i < |chunks| && chunks[i] == Plain(',') && Balance(chunks[..i]) == 0
  }

  ghost predicate AreCuts(chunks: seq<Chunk>, at: seq<nat>) {
    (forall k, l | 0 <= k < l < |at| :: at[k] < at[l]) && forall i: nat :: i in at <==> IsCut(chunks, i)
  }

  /** The texts between the cuts. */
  ghost predicate LieBetween(chunks: seq<Chunk>, at: seq<nat>, parts: seq<string>) {
    |parts| == |at| + 1 && forall k | 0 <= k < |parts| :: IsBetween(chunks, From(at, k), To(chunks, at, k), parts[k])
  }

  /** The k-th part lies between these places. */
  function From(at: seq<nat>, k: nat): nat
    requires k <= |at|
  {
    if k == 0 then 0 else at[k - 1] + 1
  }

  function To(chunks: seq<Chunk>, at: seq<nat>, k: nat): nat
    requires k <= |at|
  {
    if k == |at| then |chunks| else at[k]
  }

  predicate IsBetween(chunks: seq<Chunk>, from: nat, to: nat, part: string) {
    from <= to <= |chunks| && part == TextOf(chunks[from..to])
  }

  /** The parts of a text: it is cut at exactly the commas outside of strings and of
      brackets. */
  ghost predicate IsSplit(s: string, parts: seq<string>) {
    exists chunks, at :: MakeUp(chunks, s) && AreCuts(chunks, at) && LieBetween(chunks, at, parts)
  }

  // ---------------------------------------------------------------- the scanner follows the chunks

  function Run(state: State, s: string): State {
    if s == "" then state else Step(Run(state, s[..|s| - 1]), s[|s| - 1])
  }

  lemma {:induction false} RunConcat(state: State, a: string, b: string)
    ensures Run(state, a + b) == Run(Run(state, a), b)
    decreases |b|
  {
    if b == "" {
      assert a + b == a;
    } else {
      assert (a + b)[..|a + b| - 1] == a + b[..|b| - 1];
      RunConcat(state, a, b[..|b| - 1]);
    }
  }

  lemma {:induction false} ScanIsRun(s: string)
    ensures Scan(s) == Run(START, s)
    decreases |s|
  {
    if s != "" {
      ScanIsRun(s[..|s| - 1]);
    }
  }

  lemma RunOne(state: State, c: char)
    ensures Run(state, [c]) == Step(state, c)
  {
    assert [c][..0] == "";
  }

  lemma RunFirst(state: State, s: string)
    requires s != ""
    ensures Run(state, s) == Run(Step(state, s[0]), s[1..])
  {
    assert s == [s[0]] + s[1..];
    RunConcat(state, [s[0]], s[1..]);
    RunOne(state, s[0]);
  }

  lemma {:induction false} RunBody(depth: int, body: string)
    requires IsBody(body)
    ensures Run(State(depth, true, false), body) == State(depth, true, false)
    decreases |body|
  {
    if body != "" {
      var inside := State(depth, true, false);
      RunFirst(inside, body);
      if body[0] == '\\' {
        RunFirst(Step(inside, body[0]), body[1..]);
        assert body[1..][1..] == body[2..];
        RunBody(depth, body[2..]);
      } else {
        RunBody(depth, body[1..]);
      }
    }
  }

  lemma PrefixTail(s: string, j: nat)
    requires 0 < j <= |s|
    ensures s[..j][1..] == s[1..][..j - 1] && s[..j][0] == s[0]
  {
  }

  /** Everything in a string is read as a part of it. */
  lemma {:induction false} RunInBody(depth: int, body: string, j: nat)
    requires IsBody(body) && j <= |body|
    ensures Run(State(depth, true, false), body[..j]).inString
    decreases |body|
  {
    var inside := State(depth, true, false);
    if j > 0 {
      RunFirst(inside, body[..j]);
      PrefixTail(body, j);
      if body[0] != '\\' {
        RunInBody(depth, body[1..], j - 1);
      } else if j > 1 {
        RunFirst(Step(inside, body[0]), body[1..][..j - 1]);
        PrefixTail(body[1..], j - 1);
        assert body[1..][1..] == body[2..];
        RunInBody(depth, body[2..], j - 2);
      }
    }
  }

  /** No comma of more text splits. */
  ghost predicate Whole(a: string, b: string) {
    forall k | 0 <= k < |b| :: b[k] == ',' ==> Scan(a + b[..k]) != START
  }

  function Longer(parts: seq<string>, b: string): seq<string>
    requires parts != []
  {
    parts[..|parts| - 1] + [parts[|parts| - 1] + b]
  }

  lemma NothingLonger(parts: seq<string>)
    requires parts != []
    ensures Longer(parts, "") == parts
  {
    assert parts[|parts| - 1] + "" == parts[|parts| - 1];
  }

  lemma {:induction false} PartsOfWhole(a: string, b: string)
    requires Whole(a, b)
    ensures Parts(a + b) == Longer(Parts(a), b)
    decreases |b|
  {
    if b == "" {
      assert a + b == a;
      NothingLonger(Parts(a));
    } else {
      var init, c := b[..|b| - 1], b[|b| - 1];
      forall k | 0 <= k < |init| && init[k] == ','
        ensures Scan(a + init[..k]) != START
      {
        assert init[..k] == b[..k] && b[k] == ',';
      }
      PartsOfWhole(a, init);
      SplitLast(b);
      AppendAssociates(a, init, c);
      PartsOfMore(a + init, c);
      AppendAssociates(Parts(a)[|Parts(a)| - 1], init, c);
    }
  }

  lemma StringPrefix(quote: string, body: string, end: string, k: nat)
    requires |quote| == 1 && 1 <= k <= |body| + 1
    ensures (quote + body + end)[..k] == quote + body[..k - 1]
  {
  }

  /** Of a string, closed or not, no comma splits. */
  lemma StringIsWhole(s: string, depth: int, body: string, end: string)
    requires Scan(s) == State(depth, false, false) && IsBody(body) && (end == "" || end == "\"" || end == "\\")
    ensures Whole(s, "\"" + body + end)
  {
    var b := "\"" + body + end;
    forall k | 0 <= k < |b| && b[k] == ','
      ensures Scan(s + b[..k]) != START
    {
      CommaInBody(body, end, k);
      StringPrefix("\"", body, end, k);
      ScanInString(s, depth, body[..k - 1]);
      RunInBody(depth, body, k - 1);
    }
  }

  lemma CommaInBody(body: string, end: string, k: nat)
    requires (end == "" || end == "\"" || end == "\\") && k < |"\"" + body + end| && ("\"" + body + end)[k] == ','
    ensures 1 <= k <= |body|
  {
  }

  lemma StringCloses(s: string, depth: int, body: string)
    requires Scan(s) == State(depth, false, false) && IsBody(body)
    ensures Scan(s + ("\"" + body + "\"")) == State(depth, false, false)
  {
    var open := s + ("\"" + body);
    ScanInString(s, depth, body);
    RunBody(depth, body);
    ConcatAssociates(s, "\"" + body, "\"");
    assert (open + "\"")[..|open|] == open;
  }

  lemma ScanInString(s: string, depth: int, body: string)
    requires Scan(s) == State(depth, false, false)
    ensures Scan(s + ("\"" + body)) == Run(State(depth, true, false), body)
  {
    ScanIsRun(s);
    ScanIsRun(s + ("\"" + body));
    RunConcat(START, s, "\"" + body);
    RunFirst(Scan(s), "\"" + body);
    assert ("\"" + body)[1..] == body;
  }

  // ---------------------------------------------------------------- cutting chunk by chunk

  lemma TextOfMore(chunks: seq<Chunk>, chunk: Chunk)
    ensures TextOf(chunks + [chunk]) == TextOf(chunks) + ChunkText(chunk)
  {
    assert (chunks + [chunk])[..|chunks|] == chunks;
  }

  lemma {:induction false} TextConcat(a: seq<Chunk>, b: seq<Chunk>)
    ensures TextOf(a + b) == TextOf(a) + TextOf(b)
    decreases |b|
  {
    if b == [] {
      assert a + b == a;
    } else {
      var init, last := b[..|b| - 1], b[|b| - 1];
      assert (a + b)[..|a + b| - 1] == a + init;
      TextConcat(a, init);
      ConcatAssociates(TextOf(a), TextOf(init), ChunkText(last));
    }
  }

  lemma CutsGrow(chunks: seq<Chunk>, at: seq<nat>)
    requires chunks != [] && AreCuts(chunks[..|chunks| - 1], at)
    ensures AreCuts(chunks, if IsCut(chunks, |chunks| - 1) then at + [|chunks| - 1] else at)
  {
    var n := |chunks| - 1;
    var init := chunks[..n];
    var more := if IsCut(chunks, n) then at + [n] else at;
    forall i: nat
      ensures i in more <==> IsCut(chunks, i)
    {
      assert i < n ==> init[..i] == chunks[..i];
      assert i in at <==> i < n && IsCut(chunks, i);
      assert i in more <==> i in at || (i == n && IsCut(chunks, n));
    }
    forall k, l | 0 <= k < l < |more|
      ensures more[k] < more[l]
    {
      assert at[k] in at;
    }
  }

  lemma StillBetween(chunks: seq<Chunk>, from: nat, to: nat, part: string)
    requires chunks != [] && IsBetween(chunks[..|chunks| - 1], from, to, part)
    ensures IsBetween(chunks, from, to, part)
    ensures to == |chunks| - 1 ==> IsBetween(chunks, from, |chunks|, part + ChunkText(chunks[|chunks| - 1]))
  {
    var n := |chunks| - 1;
    assert chunks[..n][from..to] == chunks[from..to];
    if to == n {
      assert chunks[from..n + 1] == chunks[from..n] + [chunks[n]];
      TextOfMore(chunks[from..n], chunks[n]);
    }
  }

  lemma LastPartGrows(chunks: seq<Chunk>, at: seq<nat>, parts: seq<string>)
    requires chunks != [] && LieBetween(chunks[..|chunks| - 1], at, parts)
    ensures LieBetween(chunks, at, Longer(parts, ChunkText(chunks[|chunks| - 1])))
  {
    var n := |chunks| - 1;
    forall k | 0 <= k <= |at|
      ensures IsBetween(chunks, From(at, k), To(chunks, at, k), Longer(parts, ChunkText(chunks[n]))[k])
    {
      StillBetween(chunks, From(at, k), To(chunks[..n], at, k), parts[k]);
    }
  }

  lemma PartBegins(chunks: seq<Chunk>, at: seq<nat>, parts: seq<string>)
    requires chunks != [] && LieBetween(chunks[..|chunks| - 1], at, parts)
    ensures LieBetween(chunks, at + [|chunks| - 1], parts + [""])
  {
    var n := |chunks| - 1;
    forall k | 0 <= k <= |at| + 1
      ensures IsBetween(chunks, From(at + [n], k), To(chunks, at + [n], k), (parts + [""])[k])
    {
      if k <= |at| {
        StillBetween(chunks, From(at, k), To(chunks[..n], at, k), parts[k]);
      } else {
        assert chunks[n + 1..n + 1] == [];
      }
    }
  }

  /** What the scanner has found of chunks that are not open. */
  ghost predicate IsCutUp(chunks: seq<Chunk>, s: string, at: seq<nat>) {
    Scan(s) == State(Balance(chunks), false, false) && AreCuts(chunks, at) && LieBetween(chunks, at, Parts(s))
  }

  lemma PlainScan(chunks: seq<Chunk>, s: string, c: char)
    requires chunks != [] && chunks[|chunks| - 1] == Plain(c) && c != '"'
    requires Scan(s) == State(Balance(chunks[..|chunks| - 1]), false, false)
    ensures Scan(s + [c]) == State(Balance(chunks), false, false)
    ensures IsCut(chunks, |chunks| - 1) <==> c == ',' && Scan(s) == START
  {
    assert (s + [c])[..|s|] == s;
  }

  lemma PlainCuts(chunks: seq<Chunk>, s: string, at: seq<nat>, c: char)
    requires chunks != [] && IsCutUp(chunks[..|chunks| - 1], s, at) && chunks[|chunks| - 1] == Plain(c) && c != '"'
    ensures var more := if IsCut(chunks, |chunks| - 1) then at + [|chunks| - 1] else at;
      IsCutUp(chunks, s + [c], more)
  {
    CutsGrow(chunks, at);
    PlainScan(chunks, s, c);
    PartsOfMore(s, c);
    if IsCut(chunks, |chunks| - 1) {
      PartBegins(chunks, at, Parts(s));
    } else {
      LastPartGrows(chunks, at, Parts(s));
    }
  }

  lemma WholeCuts(chunks: seq<Chunk>, s: string, at: seq<nat>)
    requires chunks != [] && IsCutUp(chunks[..|chunks| - 1], s, at)
    requires !chunks[|chunks| - 1].Plain? && Whole(s, ChunkText(chunks[|chunks| - 1]))
    ensures AreCuts(chunks, at) && LieBetween(chunks, at, Parts(s + ChunkText(chunks[|chunks| - 1])))
  {
    CutsGrow(chunks, at);
    LastPartGrows(chunks, at, Parts(s));
    PartsOfWhole(s, ChunkText(chunks[|chunks| - 1]));
  }

  lemma ChunkCuts(chunks: seq<Chunk>, s: string, at: seq<nat>) returns (more: seq<nat>)
    requires chunks != [] && IsCutUp(chunks[..|chunks| - 1], s, at) && IsChunk(chunks[|chunks| - 1])
    ensures var t := s + ChunkText(chunks[|chunks| - 1]);
      AreCuts(chunks, more) && LieBetween(chunks, more, Parts(t))
      && (!chunks[|chunks| - 1].Open? ==> IsCutUp(chunks, t, more))
  {
    var n := |chunks| - 1;
    more := if IsCut(chunks, n) then at + [n] else at;
    match chunks[n] {
      case Plain(c) =>
        PlainCuts(chunks, s, at, c);
      case Quoted(body) =>
        StringIsWhole(s, Balance(chunks[..n]), body, "\"");
        StringCloses(s, Balance(chunks[..n]), body);
        WholeCuts(chunks, s, at);
      case Open(body) =>
        OpenIsWhole(s, Balance(chunks[..n]), body);
        WholeCuts(chunks, s, at);
    }
  }

  lemma OpenIsWhole(s: string, depth: int, body: string)
    requires Scan(s) == State(depth, false, false) && IsChunk(Open(body))
    ensures Whole(s, "\"" + body)
  {
    if IsBody(body) {
      StringIsWhole(s, depth, body, "");
      assert "\"" + body + "" == "\"" + body;
    } else {
      var core := body[..|body| - 1];
      StringIsWhole(s, depth, core, "\\");
      assert "\"" + core + "\\" == "\"" + body;
    }
  }

  /** Whatever chunks make up a text, it is cut where they say. */
  lemma {:induction false} ChunksCut(chunks: seq<Chunk>, s: string) returns (at: seq<nat>)
    requires MakeUp(chunks, s)
    ensures AreCuts(chunks, at) && LieBetween(chunks, at, Parts(s))
    ensures (forall chunk | chunk in chunks :: !chunk.Open?) ==> IsCutUp(chunks, s, at)
    decreases |chunks|
  {
    if chunks == [] {
      at := [];
    } else {
      var n := |chunks| - 1;
      var init := chunks[..n];
      assert forall chunk | chunk in init :: chunk in chunks && !chunk.Open?;
      at := ChunksCut(init, TextOf(init));
      at := ChunkCuts(chunks, TextOf(init), at);
    }
  }

  // ---------------------------------------------------------------- every text has chunks

  /** What stands behind an opening quote: the string, and its end. */
  lemma {:induction false} TakeBody(s: string) returns (body: string, end: string)
    ensures s == body + end && IsBody(body) && (end == "" || end == "\\" || end[0] == '"')
    decreases |s|
  {
    if s == "" || s == "\\" || s[0] == '"' {
      body, end := "", s;
    } else if s[0] == '\\' {
      body, end := TakeBody(s[2..]);
      assert s == s[..2] + s[2..] && (s[..2] + body)[2..] == body;
      body := s[..2] + body;
    } else {
      body, end := TakeBody(s[1..]);
      assert s == s[..1] + s[1..] && (s[..1] + body)[1..] == body;
      body := s[..1] + body;
    }
  }

  lemma OpenChunk(body: string, end: string)
    requires IsBody(body) && (end == "" || end == "\\")
    ensures IsChunk(Open(body + end))
  {
    if end == "" {
      assert body + end == body;
    } else {
      assert (body + end)[..|body|] == body;
    }
  }

  lemma {:induction false} ChunksOf(s: string) returns (chunks: seq<Chunk>)
    ensures MakeUp(chunks, s)
    decreases |s|
  {
    chunks := [];
    if s != "" {
      var first, rest := s[..1], s[1..];
      assert s == first + rest;
      if s[0] != '"' {
        chunks := ChunksOf(rest);
        chunks := FirstChunk(Plain(s[0]), chunks, rest);
      } else {
        var body, end := TakeBody(rest);
        if end == "" || end == "\\" {
          OpenChunk(body, end);
          chunks := OneChunk(Open(body + end));
        } else {
          chunks := ChunksOf(end[1..]);
          chunks := FirstChunk(Quoted(body), chunks, end[1..]);
          StringInFront(s, "\"", body, end);
        }
      }
    }
  }

  lemma StringInFront(s: string, quote: string, body: string, end: string)
    requires |quote| == 1 && s == quote + (body + end) && end != "" && end[0] == quote[0]
    ensures s == quote + body + quote + end[1..]
  {
  }

  lemma OneChunk(chunk: Chunk) returns (chunks: seq<Chunk>)
    requires IsChunk(chunk)
    ensures MakeUp(chunks, ChunkText(chunk)) && chunks == [chunk]
  {
    chunks := [chunk];
    TextOfMore([], chunk);
    assert [] + [chunk] == [chunk] && "" + ChunkText(chunk) == ChunkText(chunk);
  }

  lemma FirstChunk(chunk: Chunk, rest: seq<Chunk>, more: string) returns (chunks: seq<Chunk>)
    requires IsChunk(chunk) && !chunk.Open? && MakeUp(rest, more)
    ensures MakeUp(chunks, ChunkText(chunk) + more)
  {
    var one := OneChunk(chunk);
    TextConcat(one, rest);
    chunks := one + rest;
    OnlyLastIsOpen(one, rest);
  }

  lemma OnlyLastIsOpen(a: seq<Chunk>, b: seq<Chunk>)
    requires forall chunk | chunk in a :: IsChunk(chunk) && !chunk.Open?
    requires forall chunk | chunk in b :: IsChunk(chunk)
    requires forall i | 0 <= i < |b| - 1 :: !b[i].Open?
    ensures forall chunk | chunk in a + b :: IsChunk(chunk)
    ensures forall i | 0 <= i < |a + b| - 1 :: !(a + b)[i].Open?
  {
  }

  lemma PartsAreSplit(s: string)
    ensures IsSplit(s, Parts(s))
  {
    var chunks := ChunksOf(s);
    var at := ChunksCut(chunks, s);
  }

  /** However a text is made up of chunks, the parts are the texts between its cuts. */
  lemma SplitIsUnique(s: string, parts: seq<string>)
    ensures IsSplit(s, parts) <==> parts == Parts(s)
  {
    PartsAreSplit(s);
    if IsSplit(s, parts) {
      var chunks, at: seq<nat> :| MakeUp(chunks, s) && AreCuts(chunks, at) && LieBetween(chunks, at, parts);
      var cuts := ChunksCut(chunks, s);
      AscendingAreSame(at, cuts);
      SameParts(chunks, at, parts, Parts(s));
    }
  }

  lemma {:induction false} AscendingAreSame(a: seq<nat>, b: seq<nat>)
    requires forall k, l | 0 <= k < l < |a| :: a[k] < a[l]
    requires forall k, l | 0 <= k < l < |b| :: b[k] < b[l]
    requires forall i: nat :: i in a <==> i in b
    ensures a == b
    decreases |a|
  {
    BothEmpty(a, b);
    if a != [] {
      var n := |a| - 1;
      assert a[n] in b;
      var m := |b| - 1;
      assert b[m] in a;
      assert a[n] == b[m];
      forall i: nat
        ensures i in a[..n] <==> i in b[..m]
      {
        assert i in a <==> i in a[..n] || i == a[n];
        assert i in b <==> i in b[..m] || i == b[m];
        assert a[n] !in a[..n] && b[m] !in b[..m];
      }
      AscendingAreSame(a[..n], b[..m]);
      assert a == a[..n] + [a[n]] && b == b[..m] + [b[m]];
    }
  }

  lemma BothEmpty(a: seq<nat>, b: seq<nat>)
    requires forall i: nat :: i in a <==> i in b
    ensures a == [] <==> b == []
  {
    EmptyElems(a);
    EmptyElems(b);
    assert Elems(a) == Elems(b);
  }

  lemma SameParts(chunks: seq<Chunk>, at: seq<nat>, a: seq<string>, b: seq<string>)
    requires LieBetween(chunks, at, a) && LieBetween(chunks, at, b)
    ensures a == b
  {
    forall k | 0 <= k < |a|
      ensures a[k] == b[k]
    {
      assert IsBetween(chunks, From(at, k), To(chunks, at, k), a[k]);
      assert IsBetween(chunks, From(at, k), To(chunks, at, k), b[k]);
    }
  }

  method SplitTopLevelCommas(s: string) returns (parts: seq<string>)
    ensures parts == Parts(s)
    ensures IsSplit(s, parts)
  {
    parts := [];
    var depth, start := 0, 0;
    var inStr, esc := false, false;
    for i := 0 to |s|
      invariant SplitUpTo(s, i, State(depth, inStr, esc), parts, start)
    {
      NextPart(s, i, State(depth, inStr, esc), parts, start);
      var r := s[i];
      if esc {
        esc := false;
      } else if inStr && r == '\\' {
        esc := true;
      } else if r == '"' {
        inStr := !inStr;
      } else if inStr {
      } else if r == '[' || r == '{' {
        depth := depth + 1;
      } else if r == ']' || r == '}' {
        depth := depth - 1;
      } else if r == ',' && depth == 0 {
        parts := parts + [s[start..i]];
        start := i + 1;
      }
    }
    LastPart(s, State(depth, inStr, esc), parts, start);
    parts := parts + [s[start..]];
    PartsAreSplit(s);
  }

  /** The state of the scanner at i, the parts in front of the current one, and the
      place where that starts. */
  ghost predicate SplitUpTo(s: string, i: nat, state: State, parts: seq<string>, start: nat) {
    start <= i <= |s| && state == Scan(s[..i]) && parts + [s[start..i]] == Parts(s[..i])
  }

  lemma NextPart(s: string, i: nat, state: State, parts: seq<string>, start: nat)
    requires i < |s| && SplitUpTo(s, i, state, parts, start)
    ensures if s[i] == ',' && state == START
            then SplitUpTo(s, i + 1, Step(state, s[i]), parts + [s[start..i]], i + 1)
            else SplitUpTo(s, i + 1, Step(state, s[i]), parts, start)
  {
    NextPrefix(s, i);
    assert s[start..i] + [s[i]] == s[start..i + 1] && s[i + 1..i + 1] == "";
    PartsOfMore(s[..i], s[i]);
  }

  lemma LastPart(s: string, state: State, parts: seq<string>, start: nat)
    requires SplitUpTo(s, |s|, state, parts, start)
    ensures parts + [s[start..]] == Parts(s)
  {
    assert s[..|s|] == s && s[start..] == s[start..|s|];
  }

  lemma PartsOfMore(s: string, c: char)
    ensures Parts(s + [c]) == Extend(Parts(s), c, c == ',' && Scan(s) == START)
  {
    assert (s + [c])[..|s|] == s;
  }

  // ---------------------------------------------------------------- joining restores

  /** Joining the parts with commas always gives the text back. */
  lemma {:induction false} JoinRestores(s: string)
    ensures Join(Parts(s), ',') == s
    decreases |s|
  {
    if s != "" {
      var init, c := s[..|s| - 1], s[|s| - 1];
      JoinRestores(init);
      SplitLast(s);
    }
  }

  // ---------------------------------------------------------------- splitting a join

  /** After a text that leaves the scanner at its start, everything is as after nothing. */
  lemma {:induction false} ScanAfter(a: string, b: string)
    requires Scan(a) == START
    ensures Scan(a + [','] + b) == Scan(b)
    decreases |b|
  {
    var s := a + [','] + b;
    if b == "" {
      assert s[..|s| - 1] == a && s[|s| - 1] == ',';
    } else {
      assert s[..|s| - 1] == a + [','] + b[..|b| - 1] && s[|s| - 1] == b[|b| - 1];
      ScanAfter(a, b[..|b| - 1]);
    }
  }

  lemma {:induction false} PartsAfter(a: string, b: string)
    requires Scan(a) == START
    ensures Parts(a + [','] + b) == Parts(a) + Parts(b)
    decreases |b|
  {
    if b == "" {
      assert a + [','] + b == a + [','];
    } else {
      var init, c := b[..|b| - 1], b[|b| - 1];
      ScanAfter(a, init);
      PartsAfter(a, init);
      SplitLast(b);
      ConcatAssociates(a + [','], init, [c]);
      PartsOfMore(a + [','] + init, c);
      PartsOfMore(init, c);
      ExtendConcat(Parts(a), Parts(init), c, c == ',' && Scan(init) == START);
    }
  }

  lemma ExtendConcat(a: seq<string>, b: seq<string>, c: char, splits: bool)
    requires b != []
    ensures Extend(a + b, c, splits) == a + Extend(b, c, splits)
  {
  }

  /** A text that more follows: its first part grows only while it is the last one. */
  lemma {:induction false} FirstPartGrows(a: string, b: string)
    ensures Parts(a)[0] <= Parts(a + b)[0]
    ensures |Parts(a)| > 1 ==> Parts(a + b)[0] == Parts(a)[0] && |Parts(a + b)| > 1
    decreases |b|
  {
    if b == "" {
      assert a + b == a;
    } else {
      var init := b[..|b| - 1];
      assert (a + b)[..|a + b| - 1] == a + init;
      FirstPartGrows(a, init);
    }
  }

  lemma {:induction false} PartsOfOne(s: string)
    ensures |Parts(s)| == 1 ==> Parts(s) == [s]
    ensures |Parts(s)| > 1 ==> |Parts(s)[0]| < |s|
    decreases |s|
  {
    if s != "" {
      var init, c := s[..|s| - 1], s[|s| - 1];
      PartsOfOne(init);
      SplitLast(s);
    }
  }

  /** Parts that splitting can find again: no comma in them splits them, and all but
      the last leave the scanner at its start. */
  ghost predicate Splittable(parts: seq<string>) {
    && (forall part | part in parts :: Parts(part) == [part])
    && forall i | 0 <= i < |parts| - 1 :: Scan(parts[i]) == START
  }

  lemma {:induction false} JoinFirst(parts: seq<string>)
    requires |parts| > 1
    ensures Join(parts, ',') == parts[0] + [','] + Join(parts[1..], ',')
    decreases |parts|
  {
    var init, last := parts[..|parts| - 1], parts[|parts| - 1];
    if |parts| == 2 {
      assert init == [parts[0]] && parts[1..] == [last];
    } else {
      JoinFirst(init);
      assert parts[1..][..|parts| - 2] == init[1..];
      ConcatAssociates(parts[0] + [','], Join(init[1..], ','), [','] + last);
      ConcatAssociates(parts[0] + [','] + Join(init[1..], ','), [','], last);
      ConcatAssociates(Join(init[1..], ','), [','], last);
    }
  }

  lemma SplittableCons(parts: seq<string>)
    requires |parts| > 1
    ensures Splittable(parts) <==> Parts(parts[0]) == [parts[0]] && Scan(parts[0]) == START && Splittable(parts[1..])
  {
    var rest := parts[1..];
    assert parts == [parts[0]] + rest;
    assert forall part :: part in parts <==> part == parts[0] || part in rest;
    assert forall i | 0 <= i < |rest| - 1 :: rest[i] == parts[i + 1];
    if Splittable(rest) && Scan(parts[0]) == START {
      forall i | 0 <= i < |parts| - 1
        ensures Scan(parts[i]) == START
      {
        if i > 0 {
          assert parts[i] == rest[i - 1];
        }
      }
    }
  }

  lemma SplitOfOne(part: string)
    ensures Parts(Join([part], ',')) == [part] <==> Splittable([part])
  {
  }

  /** Splitting a join gives the parts back exactly if they are splittable. */
  lemma {:induction false} SplitOfJoinIff(parts: seq<string>)
    requires parts != []
    ensures Parts(Join(parts, ',')) == parts <==> Splittable(parts)
    decreases |parts|
  {
    if |parts| == 1 {
      SplitOfOne(parts[0]);
      assert parts == [parts[0]];
    } else {
      JoinFirst(parts);
      SplittableCons(parts);
      SplitOfJoinIff(parts[1..]);
      assert parts == [parts[0]] + parts[1..];
      FirstPartIff(parts[0], Join(parts[1..], ','), parts[1..]);
    }
  }

  /** A text that starts with a part and a comma splits into this part and others
      exactly if the part is whole and the scanner is back at its start. */
  lemma FirstPartIff(first: string, more: string, rest: seq<string>)
    ensures Parts(first + [','] + more) == [first] + rest
       <==> Parts(first) == [first] && Scan(first) == START && Parts(more) == rest
  {
    if Parts(first) == [first] && Scan(first) == START {
      PartsAfter(first, more);
      CancelFirst(first, Parts(more), rest);
    } else {
      FirstPartDiffers(first, more);
    }
  }

  lemma CancelFirst(first: string, a: seq<string>, b: seq<string>)
    ensures [first] + a == [first] + b <==> a == b
  {
    assert ([first] + a)[1..] == a && ([first] + b)[1..] == b;
  }

  /** Otherwise the first part is cut short or swallows the comma. */
  lemma FirstPartDiffers(first: string, more: string)
    requires !(Parts(first) == [first] && Scan(first) == START)
    ensures Parts(first + [','] + more)[0] != first
  {
    PartsOfOne(first);
    ConcatAssociates(first, [','], more);
    if |Parts(first)| > 1 {
      FirstPartGrows(first, [','] + more);
    } else {
      assert (first + [','])[..|first|] == first;
      FirstPartGrows(first + [','], more);
    }
  }
}
