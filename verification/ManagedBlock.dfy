/** The managed block of a .gitignore file: splitting a file around the block,
    rendering it, and updating the block with further paths; how updates add up, and
    what becomes of the text around the block. A file is a sequence of Unicode
    characters. */
module ManagedBlock {
  import opened Wrappers
  import opened Graphs
  import opened Text

  datatype MarkerPair = MarkerPair(begin: string, end: string)

  const ENJU := MarkerPair("# BEGIN " + "enju-untracked " + "(managed by enju " + "\U{2014} do not edit)",
                           "# END " + "enju-untracked")

  /** What of the two lines the proofs need: they are trimmed, hold no newline,
      have a # in front and nowhere else, and differ in their third character. */
  ghost predicate Proper(m: MarkerPair) {
    && |m.begin| > 2 && |m.end| > 2 && m.begin[2] != m.end[2]
    && m.begin[0] == m.end[0] == '#' && '#' !in m.begin[1..]
    && '\n' !in m.begin && '\n' !in m.end && !IsSpace(m.begin[|m.begin| - 1])
  }

  type Markers = m: MarkerPair | Proper(m) ghost witness MarkerPair("#:B", "#:E")

  lemma EnjuBeginHasOneHash()
    ensures '#' !in ENJU.begin[1..]
  {
    var w1, w2, w3, w4 := "# BEGIN ", "enju-untracked ", "(managed by enju ", "\U{2014} do not edit)";
    assert '#' !in w1[1..] && '#' !in w2 && '#' !in w3 && '#' !in w4;
    assert ENJU.begin[1..] == w1[1..] + w2 + w3 + w4;
  }

  lemma EnjuBeginIsOneLine()
    ensures '\n' !in ENJU.begin
  {
    var w1, w2, w3, w4 := "# BEGIN ", "enju-untracked ", "(managed by enju ", "\U{2014} do not edit)";
    assert '\n' !in w1 && '\n' !in w2 && '\n' !in w3 && '\n' !in w4;
    assert ENJU.begin == w1 + w2 + w3 + w4;
  }

  lemma EnjuMarkersAreProper()
    ensures Proper(ENJU)
  {
    EnjuBeginHasOneHash();
    EnjuBeginIsOneLine();
    var v1, v2 := "# END ", "enju-untracked";
    assert v1[0] == '#' && v1[2] == 'E' && '\n' !in v1 && '\n' !in v2;
    assert ENJU.end == v1 + v2;
  }

  // ---------------------------------------------------------------- splitting a file

  /** Both markers occur, in whatever order. */
  predicate HasBlock(m: Markers, data: string) {
    Contains(data, m.begin) && Contains(data, m.end)
  }

  datatype Parts = Parts(pre: string, paths: seq<string>, post: string)

  /** The trimmed lines that are not empty. */
  function Entries(lines: seq<string>): seq<string> {
    if lines == [] then []
    else Entries(lines[..|lines| - 1]) + Entry(lines[|lines| - 1])
  }

  function Entry(line: string): seq<string> {
    if TrimSpace(line) == "" then [] else [TrimSpace(line)]
  }

  function Lines(text: string): seq<string> {
    Entries(Split(text, '\n'))
  }

  /** The place behind the line end at i, if there is one. */
  function PastLineEnd(s: string, i: nat): nat {
    if i < |s| && s[i] == '\n' then i + 1 else i
  }

  // ---------------------------------------------------------------- the markers

  lemma HeadAt(s: string, pat: string, i: int)
    ensures HasAt(s, pat, i) && |pat| > 2 ==> i + 2 < |s| && s[i] == pat[0] && s[i + 2] == pat[2]
  {
    if HasAt(s, pat, i) && |pat| > 2 {
      assert s[i..i + |pat|][0] == s[i] && s[i..i + |pat|][2] == s[i + 2];
    }
  }

  /** The text from the first begin marker on. */
  lemma BlockTail(m: Markers, data: string)
    requires Contains(data, m.begin)
    ensures HasAt(data[Index(data, m.begin)..], m.begin, 0)
  {
    var i := Index(data, m.begin);
    assert data[i..][0..|m.begin|] == data[i..i + |m.begin|];
  }

  // ---------------------------------------------------------------- splitting and rendering

  /** A text that starts with the begin marker and holds an end marker. */
  predicate StartsBlock(m: Markers, tail: string) {
    HasAt(tail, m.begin, 0) && Contains(tail, m.end)
  }

  function EntriesOf(m: Markers, tail: string): seq<string>
    requires StartsBlock(m, tail)
  {
    Lines(tail[PastLineEnd(tail, |m.begin|)..Index(tail, m.end)])
  }

  /** Everything behind the first end marker. */
  function Behind(m: Markers, tail: string): string
    requires StartsBlock(m, tail)
  {
    tail[Index(tail, m.end) + |m.end|..]
  }

  /** The text before the first block, the entries of the block and the text
      after it; without an end marker behind the first begin marker everything
      is prefix. */
  function SplitFile(m: Markers, data: string): Parts {
    var begin := Index(data, m.begin);
    if begin < 0 then
      Parts(TrimRight(data, Newlines), [], "")
    else
      var tail := data[begin..];
      if !Contains(tail, m.end) then
        Parts(TrimRight(data, Newlines), [], "")
      else
        BlockTail(m, data);
        Parts(TrimRight(data[..begin], Newlines), EntriesOf(m, tail), TrimLeft(Behind(m, tail), Newlines))
  }

  /** The lines of a block, each behind a line end. */
  function Block(paths: seq<string>): string {
    if paths == [] then "" else Block(paths[..|paths| - 1]) + "\n" + paths[|paths| - 1]
  }

  /** The separators put around the block. */
  function Before(pre: string): string {
    pre + if pre == "" || (|pre| >= 2 && pre[|pre| - 2..] == "\n\n") then ""
          else if pre[|pre| - 1] == '\n' then "\n"
          else "\n" + "\n"
  }

  function After(post: string): string {
    (if post == "" || post[0] == '\n' then "" else "\n") + post
  }

  function Render(m: Markers, parts: Parts): string {
    Before(parts.pre) + (m.begin + Block(parts.paths) + "\n" + (m.end + ("\n" + After(parts.post))))
  }

  // ---------------------------------------------------------------- lines

  predicate Trimmed(s: string) {
    s != "" && !IsSpace(s[0]) && !IsSpace(s[|s| - 1])
  }

  /** What trimming leaves is a slice of the text that is trimmed on both sides. */
  lemma TrimSpaceFacts(s: string)
    ensures TrimSpace(s) == "" || Trimmed(TrimSpace(s))
    ensures exists n, k | 0 <= n <= k <= |s| :: TrimSpace(s) == s[n..k]
    ensures Trimmed(s) ==> TrimSpace(s) == s
  {
    var n := CutFrom(s, Whitespace, 0);
    var k := n + CutBack(s[n..], Whitespace, |s| - n);
    assert TrimSpace(s) == s[n..k];
  }

  lemma {:induction false} EntriesConcat(a: seq<string>, b: seq<string>)
    ensures Entries(a + b) == Entries(a) + Entries(b)
    decreases |b|
  {
    if b == [] {
      assert a + b == a;
    } else {
      assert (a + b)[..|a + b| - 1] == a + b[..|b| - 1];
      EntriesConcat(a, b[..|b| - 1]);
    }
  }

  lemma LinesConcat(a: string, b: string)
    ensures Lines(a + ['\n'] + b) == Lines(a) + Lines(b)
  {
    SplitConcat(a, '\n', b);
    EntriesConcat(Split(a, '\n'), Split(b, '\n'));
  }

  lemma LineOf(line: string)
    requires '\n' !in line && (line == "" || Trimmed(line))
    ensures Lines(line) == if line == "" then [] else [line]
  {
    SplitPiece(line, '\n');
    assert [line][..0] == [];
    assert Entries([line]) == Entry(line);
    TrimSpaceFacts(line);
  }

  /** Paths that a block can hold: trimmed, on one line, without the end marker. */
  ghost predicate Safe(m: Markers, path: string) {
    Trimmed(path) && '\n' !in path && !Contains(path, m.end)
  }

  ghost predicate AllSafe(m: Markers, paths: set<string>) {
    forall p | p in paths :: Safe(m, p)
  }

  lemma Regroup(a: string, b: string, c: string, d: string)
    ensures a + b + c + d == a + (b + c + d)
  {
  }

  lemma LineAppended(m: Markers, text: string, p: string)
    requires Safe(m, p)
    ensures Lines(text + "\n" + p) == Lines(text) + [p]
    ensures !Contains(text, m.end) ==> !Contains(text + "\n" + p, m.end)
  {
    LinesConcat(text, p);
    LineOf(p);
    FirstOccurrence(text, '\n', p, m.end);
  }

  lemma {:induction false} LinesOfBlock(m: Markers, head: string, paths: seq<string>)
    requires AllSafe(m, Elems(paths))
    ensures Lines(head + Block(paths)) == Lines(head) + paths
    decreases |paths|
  {
    if paths == [] {
      assert head + Block(paths) == head;
    } else {
      var init, last := paths[..|paths| - 1], paths[|paths| - 1];
      SplitLast(paths);
      AppendFacts(init, last);
      LinesOfBlock(m, head, init);
      Regroup(head, Block(init), "\n", last);
      LineAppended(m, head + Block(init), last);
      AppendAssociates(Lines(head), init, last);
    }
  }

  lemma {:induction false} NoEndInBlock(m: Markers, head: string, paths: seq<string>)
    requires AllSafe(m, Elems(paths)) && !Contains(head, m.end)
    ensures !Contains(head + Block(paths), m.end)
    decreases |paths|
  {
    if paths == [] {
      assert head + Block(paths) == head;
    } else {
      var init, last := paths[..|paths| - 1], paths[|paths| - 1];
      SplitLast(paths);
      AppendFacts(init, last);
      NoEndInBlock(m, head, init);
      Regroup(head, Block(init), "\n", last);
      LineAppended(m, head + Block(init), last);
    }
  }

  // ---------------------------------------------------------------- round trip

  /** A begin marker is followed by an end marker. */
  ghost predicate WellFormed(m: Markers, data: string) {
    Contains(data, m.begin) ==> Contains(data[Index(data, m.begin)..], m.end)
  }

  lemma BlockOfWellFormed(m: Markers, data: string)
    requires WellFormed(m, data) && Contains(data, m.begin)
    ensures HasBlock(m, data)
  {
    var begin := Index(data, m.begin);
    assert data[begin..] == data[begin..|data|];
    HasAtPart(data, begin, |data|, m.end, Index(data[begin..], m.end));
  }

  lemma BlankLineAround(text: string)
    ensures Lines("\n" + text) == Lines(text) && Lines(text + "\n") == Lines(text)
  {
    LineOf("");
    LinesConcat("", text);
    LinesConcat(text, "");
    assert "" + ['\n'] + text == "\n" + text && text + ['\n'] + "" == text + "\n";
  }

  lemma Halves(a: string, b: string)
    ensures (a + b)[..|a|] == a && (a + b)[|a|..] == b
  {
  }

  /** The first end marker of a tail in which it starts a line. */
  lemma EndOfTail(m: Markers, x: string, rest: string) returns (end: string)
    requires !Contains(x, m.end)
    ensures end == m.end + rest && Index(x + "\n" + end, m.end) == |x| + 1
  {
    end := m.end + rest;
    OccursAtFront(m.end, rest);
    FirstOccurrence(x, '\n', end, m.end);
  }

  /** A tail in which the text x is followed by an end marker on a line of its own. */
  ghost predicate EndsAfter(m: Markers, tail: string, x: string, rest: string) {
    tail == x + "\n" + (m.end + rest) && Index(tail, m.end) == |x| + 1
  }

  lemma EntriesOfTail(m: Markers, tail: string, x: string, rest: string)
    requires StartsBlock(m, tail) && EndsAfter(m, tail, x, rest) && |m.begin| <= |x|
    ensures EntriesOf(m, tail) == Lines(x[|m.begin|..])
  {
    LinesPast(x, |m.begin|, m.end + rest);
  }

  lemma LinesPast(x: string, n: nat, rest: string)
    requires n <= |x| && PastLineEnd(x + "\n" + rest, n) <= |x| + 1
    ensures Lines((x + "\n" + rest)[PastLineEnd(x + "\n" + rest, n)..|x| + 1]) == Lines(x[n..])
  {
    var tail := x + "\n" + rest;
    assert tail[..|x| + 1] == x + "\n" && tail[n] == (x + "\n")[n];
    assert tail[PastLineEnd(tail, n)..|x| + 1] == (x + "\n")[PastLineEnd(x + "\n", n)..];
    LinesPastEnd(x, n);
  }

  lemma PastSlices(x: string, n: nat)
    requires n <= |x|
    ensures PastLineEnd(x + "\n", n) <= |x| + 1
    ensures (x + "\n")[PastLineEnd(x + "\n", n)..]
         == if n == |x| then "" else if x[n] == '\n' then x[n + 1..] + "\n" else x[n..] + "\n"
    ensures n < |x| && x[n] == '\n' ==> x[n..] == "\n" + x[n + 1..]
  {
  }

  lemma LinesPastEnd(x: string, n: nat)
    requires n <= |x|
    ensures PastLineEnd(x + "\n", n) <= |x| + 1
    ensures Lines((x + "\n")[PastLineEnd(x + "\n", n)..]) == Lines(x[n..])
  {
    PastSlices(x, n);
    if n == |x| {
      assert x[n..] == "";
    } else if x[n] == '\n' {
      BlankLineAround(x[n + 1..]);
    } else {
      BlankLineAround(x[n..]);
    }
  }

  lemma TextBehind(m: Markers, tail: string, x: string, post: string)
    requires StartsBlock(m, tail) && EndsAfter(m, tail, x, "\n" + After(post)) && NormalEnds("", post)
    ensures TrimLeft(Behind(m, tail), Newlines) == post
  {
    var back := "\n" + After(post);
    Halves(x + "\n" + m.end, back);
    ConcatAssociates(x + "\n", m.end, back);
    TrimAfter(post);
  }

  /** Trimming drops the separator behind the block. */
  lemma TrimAfter(post: string)
    requires NormalEnds("", post)
    ensures TrimLeft("\n" + After(post), Newlines) == post
  {
    var back := "\n" + After(post);
    if post != "" {
      assert back[2] == post[0] && CutFrom(back, Newlines, 0) == 2;
      assert back == "\n" + "\n" + post;
    }
  }

  /** A file whose first begin marker starts the text x, which an end marker
      follows on the next line. */
  lemma SplitAtBlock(m: Markers, data: string, front: string, x: string, post: string)
    requires data == front + (x + "\n" + (m.end + ("\n" + After(post))))
    requires Index(data, m.begin) == |front| && |m.begin| <= |x| && !Contains(x, m.end)
    requires NormalEnds("", post)
    ensures SplitFile(m, data) == Parts(TrimRight(front, Newlines), Lines(x[|m.begin|..]), post)
    ensures WellFormed(m, data) && HasBlock(m, data)
  {
    var end := EndOfTail(m, x, "\n" + After(post));
    var tail := x + "\n" + end;
    Halves(front, tail);
    BlockOfWellFormed(m, data);
    BlockTail(m, data);
    EntriesOfTail(m, tail, x, "\n" + After(post));
    TextBehind(m, tail, x, post);
  }

  ghost predicate NormalEnds(pre: string, post: string) {
    (pre == "" || pre[|pre| - 1] != '\n') && (post == "" || post[0] != '\n')
  }

  lemma NoEndInBegin(m: Markers)
    ensures !Contains(m.begin, m.end)
  {
    HeadAt(m.begin, m.end, Index(m.begin, m.end));
  }

  lemma BeginAfterText(m: Markers, pre: string, rest: string)
    requires !Contains(pre, m.begin)
    ensures Index(pre + "\n" + "\n" + (m.begin + rest), m.begin) == |pre| + 2
  {
    FirstOccurrence(pre, '\n', "", m.begin);
    assert pre + ['\n'] + "" == pre + "\n";
    OccursAtFront(m.begin, rest);
    FirstOccurrence(pre + "\n", '\n', m.begin + rest, m.begin);
  }

  lemma BeforeText(pre: string)
    requires pre == "" || pre[|pre| - 1] != '\n'
    ensures Before(pre) == if pre == "" then "" else pre + "\n" + "\n"
  {
    assert pre + ("\n" + "\n") == pre + "\n" + "\n";
  }

  lemma TrimmedBefore(pre: string)
    requires pre == "" || pre[|pre| - 1] != '\n'
    ensures TrimRight(Before(pre), Newlines) == pre
  {
    BeforeText(pre);
    var n, k := |pre|, CutBack(Before(pre), Newlines, |Before(pre)|);
    if n > 0 {
      assert Before(pre)[n - 1] == pre[n - 1] && Before(pre)[n] == '\n' == Before(pre)[n + 1];
      assert k == n;
      Halves(pre, "\n" + "\n");
    }
  }

  lemma BlockText(m: Markers, paths: seq<string>)
    requires AllSafe(m, Elems(paths))
    ensures !Contains(m.begin + Block(paths), m.end)
    ensures Lines((m.begin + Block(paths))[|m.begin|..]) == paths
  {
    NoEndInBegin(m);
    NoEndInBlock(m, m.begin, paths);
    LinesOfBlock(m, "", paths);
    LineOf("");
    Halves(m.begin, Block(paths));
    assert "" + Block(paths) == Block(paths);
  }

  lemma BeginOfRender(m: Markers, pre: string, lines: string, end: string)
    requires NormalEnds(pre, "") && !Contains(pre, m.begin)
    ensures Index(Before(pre) + (m.begin + lines + "\n" + end), m.begin) == |Before(pre)|
  {
    BeforeText(pre);
    Regroup(m.begin, lines, "\n", end);
    if pre == "" {
      OccursAtFront(m.begin, lines + "\n" + end);
    } else {
      BeginAfterText(m, pre, lines + "\n" + end);
    }
  }

  /** Splitting undoes rendering. */
  lemma SplitUndoesRender(m: Markers, parts: Parts)
    requires NormalEnds(parts.pre, parts.post) && !Contains(parts.pre, m.begin)
    requires AllSafe(m, Elems(parts.paths))
    ensures SplitFile(m, Render(m, parts)) == parts
    ensures WellFormed(m, Render(m, parts)) && HasBlock(m, Render(m, parts))
  {
    var pre, lines := parts.pre, Block(parts.paths);
    BlockText(m, parts.paths);
    BeginOfRender(m, pre, lines, m.end + ("\n" + After(parts.post)));
    SplitAtBlock(m, Render(m, parts), Before(pre), m.begin + lines, parts.post);
    TrimmedBefore(pre);
  }

  // ---------------------------------------------------------------- what a split yields

  lemma TrimRightKeeps(s: string, pat: string, i: int)
    requires HasAt(s, pat, i) && pat != "" && pat[|pat| - 1] != '\n'
    ensures HasAt(TrimRight(s, Newlines), pat, i)
  {
    assert s[i..i + |pat|][|pat| - 1] == s[i + |pat| - 1];
    assert s[..CutBack(s, Newlines, |s|)][i..i + |pat|] == s[i..i + |pat|];
  }

  lemma PrefixIndex(s: string, t: string, pat: string)
    requires t <= s && (Contains(s, pat) ==> HasAt(t, pat, Index(s, pat)))
    ensures Index(t, pat) == Index(s, pat)
  {
    if Contains(t, pat) {
      var i := Index(t, pat);
      assert s[i..i + |pat|] == t[i..i + |pat|];
      assert HasAt(s, pat, i);
    }
  }

  /** A text without newlines at its end and without a begin marker that an end
      marker follows. */
  ghost predicate OpenPrefix(m: Markers, pre: string) {
    && NormalEnds(pre, "")
    && (Contains(pre, m.begin) ==> !Contains(pre[Index(pre, m.begin)..], m.end))
  }

  lemma TrimKeepsIndex(data: string, pat: string)
    requires Contains(data, pat) && pat != "" && pat[|pat| - 1] != '\n'
    ensures Index(TrimRight(data, Newlines), pat) == Index(data, pat)
  {
    TrimRightKeeps(data, pat, Index(data, pat));
    PrefixIndex(data, TrimRight(data, Newlines), pat);
  }

  lemma SuffixOfPrefix(s: string, t: string, i: nat, pat: string)
    requires t <= s && i <= |t| && !Contains(s[i..], pat)
    ensures !Contains(t[i..], pat)
  {
    assert t[i..] == s[i..][..|t| - i];
    PartContains(s[i..], 0, |t| - i, pat);
  }

  lemma TrimmedFile(m: Markers, data: string)
    requires Contains(data, m.begin)
    ensures Index(TrimRight(data, Newlines), m.begin) == Index(data, m.begin)
    ensures !WellFormed(m, data) ==> OpenPrefix(m, TrimRight(data, Newlines))
  {
    assert m.begin[|m.begin| - 1] != '\n';
    TrimKeepsIndex(data, m.begin);
    if !WellFormed(m, data) {
      SuffixOfPrefix(data, TrimRight(data, Newlines), Index(data, m.begin), m.end);
    }
  }

  /** The prefix of a split; the prefix of a well-formed file has no begin marker. */
  lemma PrefixOfSplit(m: Markers, data: string)
    ensures NormalEnds(SplitFile(m, data).pre, SplitFile(m, data).post) && OpenPrefix(m, SplitFile(m, data).pre)
    ensures Contains(SplitFile(m, data).pre, m.begin) <==> !WellFormed(m, data)
    ensures !WellFormed(m, data) ==> SplitFile(m, data) == Parts(TrimRight(data, Newlines), [], "")
    ensures !Contains(data, m.begin) ==> SplitFile(m, data).paths == []
  {
    if !Contains(data, m.begin) {
      TrimKeepsAbsence(data, m.begin);
    } else if !WellFormed(m, data) {
      TrimmedFile(m, data);
    } else {
      NoBeginBeforeBlock(m, data);
    }
  }

  lemma TrimKeepsAbsence(s: string, pat: string)
    requires !Contains(s, pat)
    ensures !Contains(TrimRight(s, Newlines), pat)
  {
    PrefixIndex(s, TrimRight(s, Newlines), pat);
  }

  lemma NoBeginBeforeBlock(m: Markers, data: string)
    requires WellFormed(m, data) && Contains(data, m.begin)
    ensures !Contains(SplitFile(m, data).pre, m.begin)
  {
    NoneBefore(m, data, Index(data, m.begin));
    TrimKeepsAbsence(data[..Index(data, m.begin)], m.begin);
  }

  lemma NoneBefore(m: Markers, data: string, begin: nat)
    requires begin == Index(data, m.begin)
    ensures begin <= |data| && !Contains(data[..begin], m.begin)
  {
    if Contains(data[..begin], m.begin) {
      HasAtPart(data, 0, begin, m.begin, Index(data[..begin], m.begin));
    }
  }

  lemma {:induction false} EntryOfLine(lines: seq<string>, p: string) returns (i: nat)
    requires p in Entries(lines)
    ensures i < |lines| && p == TrimSpace(lines[i]) != ""
    decreases |lines|
  {
    if p in Entry(lines[|lines| - 1]) {
      i := |lines| - 1;
    } else {
      i := EntryOfLine(lines[..|lines| - 1], p);
    }
  }

  lemma TrimmedLineIsSafe(m: Markers, line: string)
    requires '\n' !in line && !Contains(line, m.end) && TrimSpace(line) != ""
    ensures Safe(m, TrimSpace(line))
  {
    TrimSpaceFacts(line);
    var lo, hi :| 0 <= lo <= hi <= |line| && TrimSpace(line) == line[lo..hi];
    PartContains(line, lo, hi, m.end);
  }

  lemma LineIsPart(text: string, i: nat, pat: string)
    requires i < |Split(text, '\n')| && !Contains(text, pat)
    ensures '\n' !in Split(text, '\n')[i] && !Contains(Split(text, '\n')[i], pat)
  {
    var lo := PieceFacts(text, '\n', i);
    PartContains(text, lo, lo + |Split(text, '\n')[i]|, pat);
  }

  lemma EntryIsSafe(m: Markers, text: string, p: string)
    requires p in Lines(text) && !Contains(text, m.end)
    ensures Safe(m, p)
  {
    var i := EntryOfLine(Split(text, '\n'), p);
    LineIsPart(text, i, m.end);
    TrimmedLineIsSafe(m, Split(text, '\n')[i]);
  }

  /** Whatever the file: only safe paths are read from a block. */
  lemma EntriesAreSafe(m: Markers, data: string)
    ensures AllSafe(m, Elems(SplitFile(m, data).paths))
  {
    if Contains(data, m.begin) && WellFormed(m, data) {
      BlockTail(m, data);
      BlockEntriesAreSafe(m, data[Index(data, m.begin)..]);
    }
  }

  lemma BlockEntriesAreSafe(m: Markers, tail: string)
    requires StartsBlock(m, tail)
    ensures AllSafe(m, Elems(EntriesOf(m, tail)))
  {
    var start, end := PastLineEnd(tail, |m.begin|), Index(tail, m.end);
    var body := tail[start..end];
    if Contains(body, m.end) {
      HasAtPart(tail, start, end, m.end, Index(body, m.end));
    }
    forall p | p in Elems(EntriesOf(m, tail))
      ensures Safe(m, p)
    {
      EntryIsSafe(m, body, p);
    }
  }

  // ---------------------------------------------------------------- updates

  /** Nothing is to be written: no path and no block, or no path beyond the block. */
  ghost predicate UpToDate(m: Markers, data: string, add: set<string>) {
    if HasBlock(m, data) then add <= Elems(SplitFile(m, data).paths) else add == {}
  }

  /** The file with further paths in its block. */
  ghost function WithPaths(m: Markers, data: string, add: set<string>): string {
    Render(m, SplitFile(m, data).(paths := Ascend(Elems(SplitFile(m, data).paths) + add)))
  }

  /** The new file, or None where there is nothing to write. */
  ghost function Update(m: Markers, data: string, paths: set<string>): Option<string> {
    if UpToDate(m, data, paths - {""}) then None else Some(WithPaths(m, data, paths - {""}))
  }

  /** The file after an update. */
  ghost function Apply(m: Markers, data: string, paths: set<string>): string {
    if Update(m, data, paths).Some? then Update(m, data, paths).value else data
  }

  lemma SplitOfUpdate(m: Markers, data: string, add: set<string>)
    requires WellFormed(m, data) && AllSafe(m, add)
    ensures SplitFile(m, WithPaths(m, data, add))
         == SplitFile(m, data).(paths := Ascend(Elems(SplitFile(m, data).paths) + add))
    ensures WellFormed(m, WithPaths(m, data, add)) && HasBlock(m, WithPaths(m, data, add))
  {
    PrefixOfSplit(m, data);
    EntriesAreSafe(m, data);
    SplitUndoesRender(m, SplitFile(m, data).(paths := Ascend(Elems(SplitFile(m, data).paths) + add)));
  }

  lemma WithMorePaths(m: Markers, data: string, p: set<string>, q: set<string>)
    requires WellFormed(m, data) && AllSafe(m, p)
    ensures WithPaths(m, WithPaths(m, data, p), q) == WithPaths(m, data, p + q)
  {
    SplitOfUpdate(m, data, p);
    UnionAssociates(Elems(SplitFile(m, data).paths), p, q);
  }

  lemma UnionAssociates(a: set<string>, b: set<string>, c: set<string>)
    ensures a + b + c == a + (b + c)
  {
  }

  lemma WithListedPaths(m: Markers, data: string, p: set<string>, q: set<string>)
    requires WellFormed(m, data) && AllSafe(m, p) && UpToDate(m, WithPaths(m, data, p), q)
    ensures WithPaths(m, data, p) == WithPaths(m, data, p + q)
  {
    var listed := SplitFile(m, data).paths;
    SplitOfUpdate(m, data, p);
    ListedUnion(Elems(listed), p, q);
  }

  lemma ListedUnion(a: set<string>, p: set<string>, q: set<string>)
    requires q <= Elems(Ascend(a + p))
    ensures a + p == a + (p + q)
  {
  }

  lemma ListedAlready(m: Markers, data: string, p: set<string>, q: set<string>)
    requires WellFormed(m, data) && UpToDate(m, data, p)
    ensures UpToDate(m, data, q) <==> UpToDate(m, data, p + q)
    ensures WithPaths(m, data, q) == WithPaths(m, data, p + q)
  {
    PrefixOfSplit(m, data);
    if Contains(data, m.begin) {
      BlockOfWellFormed(m, data);
    }
    assert Elems(SplitFile(m, data).paths) + q == Elems(SplitFile(m, data).paths) + (p + q);
  }

  /** Updating twice is updating once with all the paths. */
  lemma UpdatesMerge(m: Markers, data: string, p: set<string>, q: set<string>)
    requires WellFormed(m, data) && AllSafe(m, p - {""}) && AllSafe(m, q - {""})
    ensures Apply(m, Apply(m, data, p), q) == Apply(m, data, p + q)
  {
    var p1, q1 := p - {""}, q - {""};
    assert p + q - {""} == p1 + q1;
    if UpToDate(m, data, p1) {
      ListedAlready(m, data, p1, q1);
    } else if UpToDate(m, WithPaths(m, data, p1), q1) {
      WithListedPaths(m, data, p1, q1);
    } else {
      WithMorePaths(m, data, p1, q1);
    }
  }

  /** Applies updates one after another. */
  ghost function ApplyAll(m: Markers, data: string, updates: seq<set<string>>): string
    decreases |updates|
  {
    if updates == [] then data else ApplyAll(m, Apply(m, data, updates[0]), updates[1..])
  }

  ghost function Union(updates: seq<set<string>>): set<string> {
    if updates == [] then {} else updates[0] + Union(updates[1..])
  }

  lemma UpdateKeepsWellFormed(m: Markers, data: string, paths: set<string>)
    requires WellFormed(m, data) && AllSafe(m, paths - {""})
    ensures WellFormed(m, Apply(m, data, paths))
    ensures SplitFile(m, Apply(m, data, paths)).pre == SplitFile(m, data).pre
    ensures SplitFile(m, Apply(m, data, paths)).post == SplitFile(m, data).post
  {
    SplitOfUpdate(m, data, paths - {""});
  }

  /** Any list of updates amounts to one update with all their paths, and the
      text around the block survives it. */
  lemma {:induction false} UpdatesAreOneUpdate(m: Markers, data: string, updates: seq<set<string>>)
    requires WellFormed(m, data) && AllSafe(m, Union(updates) - {""})
    ensures ApplyAll(m, data, updates) == Apply(m, data, Union(updates))
    ensures SplitFile(m, ApplyAll(m, data, updates)).pre == SplitFile(m, data).pre
    ensures SplitFile(m, ApplyAll(m, data, updates)).post == SplitFile(m, data).post
    decreases |updates|
  {
    if updates == [] {
      assert {} - {""} == {};
      PrefixOfSplit(m, data);
      if Contains(data, m.begin) {
        BlockOfWellFormed(m, data);
      }
    } else {
      UpdateKeepsWellFormed(m, data, updates[0]);
      UpdatesAreOneUpdate(m, Apply(m, data, updates[0]), updates[1..]);
      UpdatesMerge(m, data, updates[0], Union(updates[1..]));
    }
  }

  // ---------------------------------------------------------------- the text around the block

  /** A file with a block. */
  ghost predicate Blocked(m: Markers, data: string) {
    Contains(data, m.begin) && WellFormed(m, data)
  }

  /** Everything before the begin marker. */
  ghost function FrontText(m: Markers, data: string): string
    requires Blocked(m, data)
  {
    data[..Index(data, m.begin)]
  }

  /** Everything behind the end marker, its line end included. */
  ghost function BackText(m: Markers, data: string): string
    requires Blocked(m, data)
  {
    BlockTail(m, data);
    Behind(m, data[Index(data, m.begin)..])
  }

  /** Nothing, or a text that ends in exactly one blank line. */
  predicate BlankLineBehind(s: string) {
    s == "" || (|s| > 2 && s[|s| - 1] == s[|s| - 2] == '\n' != s[|s| - 3])
  }

  /** Just the line end, or it and a text behind exactly one blank line. */
  predicate BlankLineInFront(s: string) {
    s == "\n" || (|s| > 2 && s[0] == s[1] == '\n' != s[2])
  }

  lemma TextOfRender(m: Markers, parts: Parts)
    requires NormalEnds(parts.pre, parts.post) && !Contains(parts.pre, m.begin)
    requires AllSafe(m, Elems(parts.paths)) && Blocked(m, Render(m, parts))
    ensures FrontText(m, Render(m, parts)) == Before(parts.pre)
    ensures BackText(m, Render(m, parts)) == "\n" + After(parts.post)
  {
    var front, x, back := Before(parts.pre), m.begin + Block(parts.paths), "\n" + After(parts.post);
    BlockText(m, parts.paths);
    BeginOfRender(m, parts.pre, Block(parts.paths), m.end + back);
    var end := EndOfTail(m, x, back);
    Halves(front, x + "\n" + end);
    Halves(x + "\n" + m.end, back);
    ConcatAssociates(x + "\n", m.end, back);
  }

  lemma BeforeIsSameIff(s: string)
    ensures Before(TrimRight(s, Newlines)) == s <==> BlankLineBehind(s)
  {
    var n := CutBack(s, Newlines, |s|);
    var pre := s[..n];
    BeforeText(pre);
    if BlankLineBehind(s) && s != "" {
      assert n == |s| - 2;
      assert s == s[..n] + "\n" + "\n";
    }
    if pre != "" && Before(pre) == s {
      assert s[|s| - 3] == pre[n - 1];
    }
  }

  lemma AfterIsSameIff(s: string)
    ensures "\n" + After(TrimLeft(s, Newlines)) == s <==> BlankLineInFront(s)
  {
    var k := CutFrom(s, Newlines, 0);
    var post := s[k..];
    if BlankLineInFront(s) {
      assert k == if s == "\n" then 1 else 2;
      assert s == "\n" + After(post);
    }
    if post != "" && "\n" + After(post) == s {
      assert s[2] == post[0];
    }
  }

  lemma RestOfBackText(m: Markers, data: string)
    requires Blocked(m, data)
    ensures SplitFile(m, data).post == TrimLeft(BackText(m, data), Newlines)
  {
    BlockTail(m, data);
  }

  lemma PrefixOfBlocked(m: Markers, data: string)
    requires Blocked(m, data)
    ensures SplitFile(m, data).pre == TrimRight(FrontText(m, data), Newlines)
  {
  }

  /** An update that writes keeps the text before the block byte for byte exactly if
      there is none or it ends in one blank line, and the text behind the block
      exactly if there is none or one blank line starts it. */
  lemma TextAroundIsKeptIff(m: Markers, data: string, add: set<string>)
    requires Blocked(m, data) && AllSafe(m, add)
    ensures Blocked(m, WithPaths(m, data, add))
    ensures FrontText(m, WithPaths(m, data, add)) == FrontText(m, data) <==> BlankLineBehind(FrontText(m, data))
    ensures BackText(m, WithPaths(m, data, add)) == BackText(m, data) <==> BlankLineInFront(BackText(m, data))
  {
    PrefixOfSplit(m, data);
    EntriesAreSafe(m, data);
    SplitOfUpdate(m, data, add);
    TextOfRender(m, SplitFile(m, data).(paths := Ascend(Elems(SplitFile(m, data).paths) + add)));
    PrefixOfBlocked(m, data);
    RestOfBackText(m, data);
    BeforeIsSameIff(FrontText(m, data));
    AfterIsSameIff(BackText(m, data));
  }

  /** An update of a file without a block puts the new one behind the file, and keeps
      the file byte for byte exactly if it is empty or ends in one blank line. */
  lemma NewBlockKeepsFileIff(m: Markers, data: string, add: set<string>)
    requires !Contains(data, m.begin) && AllSafe(m, add)
    ensures Blocked(m, WithPaths(m, data, add)) && BackText(m, WithPaths(m, data, add)) == "\n"
    ensures FrontText(m, WithPaths(m, data, add)) == data <==> BlankLineBehind(data)
  {
    PrefixOfSplit(m, data);
    SplitOfUpdate(m, data, add);
    TextOfRender(m, SplitFile(m, data).(paths := Ascend(Elems(SplitFile(m, data).paths) + add)));
    BeforeIsSameIff(data);
  }

  lemma BlockBelowLine(m: Markers, line: string, post: string)
    requires line != "" && '\n' !in line && !Contains(line, m.begin)
    ensures var data := line + "\n" + (m.begin + ("\n" + m.end + post));
      Blocked(m, data) && FrontText(m, data) == line + "\n"
  {
    var tail := m.begin + ("\n" + m.end + post);
    OccursAtFront(m.begin, "\n" + m.end + post);
    FirstOccurrence(line, '\n', tail, m.begin);
    Halves(line + "\n", tail);
    EmptyBlockEnds(m, post);
  }

  lemma EmptyBlockEnds(m: Markers, post: string)
    ensures Contains(m.begin + ("\n" + m.end + post), m.end)
  {
    NoEndInBegin(m);
    var end := EndOfTail(m, m.begin, post);
    assert m.begin + ("\n" + m.end + post) == m.begin + "\n" + end;
  }

  /** A block directly below a line of text: an update puts a blank line in between. */
  lemma TextBeforeIsChanged(m: Markers, line: string, post: string, add: set<string>)
    requires line != "" && '\n' !in line && !Contains(line, m.begin) && AllSafe(m, add)
    ensures var data := line + "\n" + (m.begin + ("\n" + m.end + post));
      Blocked(m, data) && Blocked(m, WithPaths(m, data, add))
      && FrontText(m, WithPaths(m, data, add)) != FrontText(m, data) == line + "\n"
  {
    BlockBelowLine(m, line, post);
    TextAroundIsKeptIff(m, line + "\n" + (m.begin + ("\n" + m.end + post)), add);
  }

  // ---------------------------------------------------------------- malformed files

  lemma RegroupStray(front: string, stray: string, b: string, end: string)
    ensures front + stray + "\n" + "\n" + (b + "\n" + end) == front + (stray + "\n" + "\n" + b + "\n" + end)
    ensures front + stray + "\n" + "\n" + (b + "\n" + end) == (front + stray) + ['\n'] + ("\n" + (b + "\n" + end))
  {
  }

  /** The text of a stray begin marker up to a new block. */
  lemma StrayText(m: Markers, stray: string, paths: seq<string>)
    requires !Contains(stray, m.end) && AllSafe(m, Elems(paths))
    ensures !Contains(stray + "\n" + "\n" + (m.begin + Block(paths)), m.end)
    ensures Lines(stray + "\n" + "\n" + (m.begin + Block(paths))) == Lines(stray) + [m.begin] + paths
  {
    var head := stray + "\n" + "\n" + m.begin;
    StrayHead(m, stray);
    LinesOfBlock(m, head, paths);
    NoEndInBlock(m, head, paths);
    ConcatAssociates(stray + "\n" + "\n", m.begin, Block(paths));
  }

  lemma StrayHead(m: Markers, stray: string)
    requires !Contains(stray, m.end)
    ensures !Contains(stray + "\n" + "\n" + m.begin, m.end)
    ensures Lines(stray + "\n" + "\n" + m.begin) == Lines(stray) + [m.begin]
  {
    LineOf(m.begin);
    assert stray + ['\n'] + "" == stray + "\n";
    FirstOccurrence(stray, '\n', "", m.end);
    NoEndInBegin(m);
    FirstOccurrence(stray + "\n", '\n', m.begin, m.end);
    BlankLineAround(stray);
    LinesConcat(stray + "\n", m.begin);
  }

  lemma StraySlice(stray: string, n: nat, b: string)
    requires n <= |stray|
    ensures (stray + "\n" + "\n" + b)[n..] == stray[n..] + "\n" + "\n" + b
  {
  }

  lemma StrayBegin(m: Markers, data: string) returns (front: string, stray: string)
    requires !WellFormed(m, data)
    ensures var pre := SplitFile(m, data).pre;
      && pre == TrimRight(data, Newlines) == front + stray && NormalEnds(pre, "") && pre != ""
      && Index(data, m.begin) == Index(pre, m.begin) == |front| && front == data[..Index(data, m.begin)]
    ensures SplitFile(m, data) == Parts(SplitFile(m, data).pre, [], "")
    ensures |m.begin| <= |stray| && !Contains(stray, m.end) && !Contains(stray[|m.begin|..], m.end)
  {
    var begin, pre := Index(data, m.begin), TrimRight(data, Newlines);
    PrefixOfSplit(m, data);
    TrimmedFile(m, data);
    front, stray := pre[..begin], pre[begin..];
    SuffixContains(stray, |m.begin|, m.end);
  }

  /** An update of a malformed file makes an entry of the new begin marker. */
  lemma SplitOfMalformedUpdate(m: Markers, data: string, add: set<string>) returns (entries: seq<string>)
    requires !WellFormed(m, data) && AllSafe(m, add)
    ensures WellFormed(m, WithPaths(m, data, add)) && HasBlock(m, WithPaths(m, data, add))
    ensures SplitFile(m, WithPaths(m, data, add))
         == Parts(TrimRight(data[..Index(data, m.begin)], Newlines), entries + [m.begin] + Ascend(add), "")
  {
    var front, stray := StrayBegin(m, data);
    var block, end := m.begin + Block(Ascend(add)), m.end + ("\n" + After(""));
    entries := Lines(stray[|m.begin|..]);
    StrayText(m, stray, Ascend(add));
    StrayText(m, stray[|m.begin|..], Ascend(add));
    StraySlice(stray, |m.begin|, block);
    MalformedUpdate(m, data, add);
    RegroupStray(front, stray, block, end);
    FirstOccurrence(front + stray, '\n', "\n" + (block + "\n" + end), m.begin);
    SplitAtBlock(m, WithPaths(m, data, add), front, stray + "\n" + "\n" + block, "");
  }

  lemma MalformedUpdate(m: Markers, data: string, add: set<string>)
    requires !WellFormed(m, data)
    ensures WithPaths(m, data, add)
         == TrimRight(data, Newlines) + "\n" + "\n"
             + (m.begin + Block(Ascend(add)) + "\n" + (m.end + ("\n" + After(""))))
  {
    var front, stray := StrayBegin(m, data);
    BeforeText(SplitFile(m, data).pre);
    EmptyElems<string>([]);
    assert {} + add == add;
  }

  /** Paths that the entries of a block hold as they are. */
  lemma UpdatedEntries(m: Markers, data: string, add: set<string>)
    requires AllSafe(m, add)
    ensures HasBlock(m, WithPaths(m, data, add)) && add <= Elems(SplitFile(m, WithPaths(m, data, add)).paths)
  {
    if WellFormed(m, data) {
      SplitOfUpdate(m, data, add);
    } else {
      var entries := SplitOfMalformedUpdate(m, data, add);
      ConcatFacts(entries + [m.begin], Ascend(add));
    }
  }

  /** The same update again has nothing to write exactly if every path can be
      read back from a block. */
  lemma RepeatedUpdateIsIdle(m: Markers, data: string, paths: set<string>)
    ensures Update(m, Apply(m, data, paths), paths).None? <==> AllSafe(m, paths - {""})
  {
    var add := paths - {""};
    if AllSafe(m, add) {
      UpdatedEntries(m, data, add);
    }
    EntriesAreSafe(m, Apply(m, data, paths));
  }

  /** Two updates give what one update with all their paths gives. */
  ghost predicate Merges(m: Markers, data: string, p: set<string>, q: set<string>) {
    Apply(m, Apply(m, data, p), q) == Apply(m, data, p + q)
  }

  /** Updates with safe paths merge for well-formed files and for no other file. */
  lemma UpdatesMergeIffWellFormed(m: Markers, data: string)
    ensures WellFormed(m, data)
       <==> forall p, q | AllSafe(m, p - {""}) && AllSafe(m, q - {""}) :: Merges(m, data, p, q)
  {
    if WellFormed(m, data) {
      forall p, q | AllSafe(m, p - {""}) && AllSafe(m, q - {""})
        ensures Merges(m, data, p, q)
      {
        UpdatesMerge(m, data, p, q);
      }
    } else {
      MalformedDoesNotMerge(m, data);
    }
  }

  lemma OneCharacterIsSafe(m: Markers, c: char)
    requires !IsSpace(c)
    ensures Safe(m, [c])
  {
  }

  lemma MalformedDoesNotMerge(m: Markers, data: string)
    requires !WellFormed(m, data)
    ensures AllSafe(m, {"!"} - {""}) && AllSafe(m, {"\""} - {""}) && !Merges(m, data, {"!"}, {"\""})
  {
    OneCharacterIsSafe(m, '!');
    OneCharacterIsSafe(m, '"');
    LastOfAscend({"!"}, "!");
    LastOfAscend({"!"} + {"\""}, "\"");
    SeparateUpdatesDiffer(m, data, {"!"}, {"\""});
    NoEmptyPath({"!"});
    NoEmptyPath({"\""});
    NoEmptyPath({"!"} + {"\""});
  }

  lemma NoEmptyPath(s: set<string>)
    requires "" !in s
    ensures s - {""} == s
  {
  }

  lemma SeparateUpdatesDiffer(m: Markers, data: string, p: set<string>, q: set<string>)
    requires !WellFormed(m, data) && AllSafe(m, p) && AllSafe(m, q) && "!" in p
    requires Ascend(p) != [] && Ascend(p + q) != [] && Last(Ascend(p)) != Last(Ascend(p + q))
    ensures !UpToDate(m, data, p) && !UpToDate(m, data, p + q)
    ensures UpToDate(m, WithPaths(m, data, p), q) ==> WithPaths(m, data, p) != WithPaths(m, data, p + q)
    ensures !UpToDate(m, WithPaths(m, data, p), q)
          ==> WithPaths(m, WithPaths(m, data, p), q) != WithPaths(m, data, p + q)
  {
    MalformedIsNotUpToDate(m, data, p, "!");
    MalformedIsNotUpToDate(m, data, p + q, "!");
    var few := SplitOfMalformedUpdate(m, data, p);
    var all := SplitOfMalformedUpdate(m, data, p + q);
    LastOfConcat(few + [m.begin], Ascend(p));
    LastOfConcat(all + [m.begin], Ascend(p + q));
    NotAscending(m, all, Ascend(p + q));
    SplitOfUpdate(m, WithPaths(m, data, p), q);
  }

  function Last<T>(s: seq<T>): T
    requires s != []
  {
    s[|s| - 1]
  }

  lemma LastOfConcat<T>(s: seq<T>, t: seq<T>)
    requires t != []
    ensures Last(s + t) == Last(t)
  {
  }

  lemma LastOfAscend(s: set<string>, top: string)
    requires top in s && forall x | x in s && x != top :: !Less(top, x)
    ensures Ascend(s) != [] && Last(Ascend(s)) == top
  {
    var list := Ascend(s);
    assert top in Elems(list);
    var i :| 0 <= i < |list| && list[i] == top;
    assert Last(list) in Elems(list);
  }

  lemma MalformedIsNotUpToDate(m: Markers, data: string, add: set<string>, path: string)
    requires !WellFormed(m, data) && path in add
    ensures !UpToDate(m, data, add)
  {
    PrefixOfSplit(m, data);
    EmptyElems<string>([]);
  }

  lemma NotAscending(m: Markers, entries: seq<string>, more: seq<string>)
    requires "!" in Elems(more)
    ensures !Ascending(entries + [m.begin] + more)
  {
    var all := entries + [m.begin] + more;
    var i :| 0 <= i < |more| && more[i] == "!";
    assert all[|entries|] == m.begin && all[|entries| + 1 + i] == "!";
    assert !Less(m.begin, "!");
  }
}
