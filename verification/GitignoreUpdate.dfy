/** Updating the managed block of a .gitignore file, and what the new file is. */
module GitignoreUpdate {
  import opened Wrappers
  import opened Graphs
  import opened Text
  import opened ManagedBlock

  // ---------------------------------------------------------------- the parts of a file

  predicate OccursAt(text: string, i: nat, pat: string) {
    i <= |text| && pat <= text[i..]
  }

  predicate AllNewlines(text: string) {
    forall c | c in text :: c == '\n'
  }

  /** White space as Go's unicode.IsSpace has it. */
  predicate IsBlank(c: char) {
    var n := c as int;
    || 9 <= n <= 13 || n == 32 || n == 0x85 || n == 0xA0 || n == 0x1680 || 0x2000 <= n <= 0x200A
    || n == 0x2028 || n == 0x2029 || n == 0x202F || n == 0x205F || n == 0x3000
  }

  predicate AllBlank(text: string) {
    forall c | c in text :: IsBlank(c)
  }

  /** The line without the white space at its ends. */
  ghost predicate IsEntryOf(line: string, entry: string) {
    && entry != "" && !IsBlank(entry[0]) && !IsBlank(entry[|entry| - 1])
    && exists n: nat, k: nat | n <= k <= |line| :: entry == line[n..k] && AllBlank(line[..n]) && AllBlank(line[k..])
  }

  /** The lines of a text. */
  function Lined(lines: seq<string>): string
    requires lines != []
  {
    if |lines| == 1 then lines[0] else lines[0] + "\n" + Lined(lines[1..])
  }

  ghost predicate AreLinesOf(lines: seq<string>, text: string) {
    lines != [] && text == Lined(lines) && forall line | line in lines :: '\n' !in line
  }

  /** Exactly the lines that are not blank, in order. */
  ghost predicate AreFilled(lines: seq<string>, at: seq<nat>) {
    && (forall k, l | 0 <= k < l < |at| :: at[k] < at[l])
    && forall i: nat :: i in at <==> i < |lines| && !AllBlank(lines[i])
  }

  ghost predicate AreEntriesAt(lines: seq<string>, at: seq<nat>, entries: seq<string>) {
    |at| == |entries| && forall k | 0 <= k < |at| :: at[k] < |lines| && IsEntryOf(lines[at[k]], entries[k])
  }

  /** The lines of a block body that are not blank, without white space at their ends. */
  ghost predicate AreEntries(body: string, entries: seq<string>) {
    exists lines, at :: AreLinesOf(lines, body) && AreFilled(lines, at) && AreEntriesAt(lines, at, entries)
  }

  predicate IsFront(front: string, pre: string) {
    pre <= front && AllNewlines(front[|pre|..]) && (pre != "" ==> pre[|pre| - 1] != '\n')
  }

  predicate IsBack(back: string, post: string) {
    |post| <= |back| && back[|back| - |post|..] == post && AllNewlines(back[..|back| - |post|])
    && (post != "" ==> post[0] != '\n')
  }

  /** Up to the first begin marker, and from the first end marker behind it. */
  ghost predicate IsCutAtMarkers(m: MarkerPair, data: string, front: string, body: string, back: string) {
    && data == front + (m.begin + body + (m.end + back))
    && (forall i: nat | i < |front| :: !OccursAt(data, i, m.begin))
    && forall i: nat | |front| <= i < |front| + |m.begin| + |body| :: !OccursAt(data, i, m.end)
  }

  ghost predicate HasNoBlock(m: MarkerPair, data: string) {
    forall i: nat, j: nat | i <= j && OccursAt(data, i, m.begin) :: !OccursAt(data, j, m.end)
  }

  /** What stands before the block, the paths in it, and what stands behind it. */
  ghost predicate AreParts(m: MarkerPair, data: string, parts: Parts) {
    if HasNoBlock(m, data) then
      IsFront(data, parts.pre) && parts.paths == [] && parts.post == ""
    else
      exists front, body, back ::
        && IsCutAtMarkers(m, data, front, body, back)
        && IsFront(front, parts.pre) && AreEntries(body, parts.paths) && IsBack(back, parts.post)
  }

  // ---------------------------------------------------------------- the new file

  ghost predicate IsBeforeInOrder(a: string, b: string) {
    exists k: nat :: IsSmallerAt(a, b, k)
  }

  /** The paths of the block and the further ones that are not empty, each once and in
      order. */
  ghost predicate AreMerged(listed: seq<string>, further: seq<string>, merged: seq<string>) {
    && (forall i, j | 0 <= i < j < |merged| :: IsBeforeInOrder(merged[i], merged[j]))
    && forall p :: p in merged <==> p in listed || (p in further && p != "")
  }

  function WithLineEnds(lines: seq<string>): string {
    if lines == [] then "" else lines[0] + "\n" + WithLineEnds(lines[1..])
  }

  /** The block between blank lines. */
  function NewFile(m: MarkerPair, parts: Parts, merged: seq<string>): string {
    (if parts.pre == "" then "" else parts.pre + "\n\n")
    + (m.begin + "\n" + WithLineEnds(merged) + m.end + "\n")
    + (if parts.post == "" then "" else "\n" + parts.post)
  }

  /** Nothing to write: no further path, and each of them listed where both markers
      occur. */
  ghost predicate HasNothingNew(m: MarkerPair, data: string, listed: seq<string>, further: seq<string>) {
    if (exists i: nat :: OccursAt(data, i, m.begin)) && (exists i: nat :: OccursAt(data, i, m.end))
    then forall p | p in further && p != "" :: p in listed
    else forall p | p in further :: p == ""
  }

  /** What an update gives: nothing, or the new file. */
  ghost predicate IsUpdate(m: MarkerPair, data: string, further: seq<string>, r: Option<string>) {
    exists parts :: AreParts(m, data, parts) && IsUpdateOf(m, data, parts, further, r)
  }

  ghost predicate IsUpdateOf(m: MarkerPair, data: string, parts: Parts, further: seq<string>, r: Option<string>) {
    && (r.None? <==> HasNothingNew(m, data, parts.paths, further))
    && (r.Some? ==> exists merged :: AreMerged(parts.paths, further, merged) && r.value == NewFile(m, parts, merged))
  }

  /** The same with the two lines that mark the block. */
  ghost predicate IsBlockUpdate(data: string, further: seq<string>, r: Option<string>) {
    IsUpdate(MarkerPair("# BEGIN " + "enju-untracked " + "(managed by enju " + "\U{2014} do not edit)",
                        "# END " + "enju-untracked"), data, further, r)
  }

  // ---------------------------------------------------------------- the entries

  lemma OccursIff(text: string, i: nat, pat: string)
    ensures OccursAt(text, i, pat) <==> HasAt(text, pat, i)
  {
    if i <= |text| && pat <= text[i..] {
      assert text[i..i + |pat|] == text[i..][..|pat|];
    }
    if HasAt(text, pat, i) {
      assert text[i..][..|pat|] == text[i..i + |pat|];
    }
  }

  lemma {:induction false} SplitIsLines(text: string)
    ensures AreLinesOf(Split(text, '\n'), text)
    decreases |text|
  {
    if text != "" {
      var rest := Split(text[1..], '\n');
      SplitIsLines(text[1..]);
      assert text == [text[0]] + text[1..];
      if text[0] == '\n' {
        EmptyFirstLine(rest);
      } else {
        LongerFirstLine(text[0], rest);
      }
    }
  }

  lemma EmptyFirstLine(lines: seq<string>)
    requires lines != [] && forall line | line in lines :: '\n' !in line
    ensures Lined([""] + lines) == ['\n'] + Lined(lines)
    ensures forall line | line in [""] + lines :: '\n' !in line
  {
    assert ([""] + lines)[1..] == lines;
    assert "" + "\n" == ['\n'];
  }

  lemma LongerFirstLine(c: char, lines: seq<string>)
    requires lines != [] && c != '\n' && forall line | line in lines :: '\n' !in line
    ensures Lined([[c] + lines[0]] + lines[1..]) == [c] + Lined(lines)
    ensures forall line | line in [[c] + lines[0]] + lines[1..] :: '\n' !in line
  {
    var more := [[c] + lines[0]] + lines[1..];
    if |lines| > 1 {
      assert more[1..] == lines[1..];
      Regroup([c], lines[0], "\n", Lined(lines[1..]));
    }
  }

  lemma TrimmedBehind(rest: string) returns (l: nat)
    ensures l <= |rest| && TrimRight(rest, Whitespace) == rest[..l]
    ensures (forall i | l <= i < |rest| :: IsBlank(rest[i])) && (l > 0 ==> !IsBlank(rest[l - 1]))
  {
    l := CutBack(rest, Whitespace, |rest|);
    assert forall i | l <= i < |rest| :: Cut(rest[i], Whitespace);
  }

  lemma TrimmedInFront(line: string) returns (n: nat)
    ensures n <= |line| && TrimLeft(line, Whitespace) == line[n..]
    ensures (forall i | 0 <= i < n :: IsBlank(line[i])) && (n < |line| ==> !IsBlank(line[n]))
  {
    n := CutFrom(line, Whitespace, 0);
    assert forall i | 0 <= i < n :: Cut(line[i], Whitespace);
  }

  /** The places between which trimming leaves a line. */
  lemma TrimmedBetween(line: string) returns (n: nat, k: nat)
    ensures n <= k <= |line| && TrimSpace(line) == line[n..k]
    ensures forall i | 0 <= i < n || k <= i < |line| :: IsBlank(line[i])
    ensures n < k ==> !IsBlank(line[n]) && !IsBlank(line[k - 1])
  {
    n := TrimmedInFront(line);
    var l := TrimmedBehind(line[n..]);
    k := n + l;
    assert line[n..][..l] == line[n..k];
    forall i | k <= i < |line|
      ensures IsBlank(line[i])
    {
      assert line[n..][i - n] == line[i];
    }
  }

  lemma EntryMeans(line: string)
    ensures TrimSpace(line) == "" <==> AllBlank(line)
    ensures TrimSpace(line) != "" ==> IsEntryOf(line, TrimSpace(line))
  {
    var n, k := TrimmedBetween(line);
    if n < k {
      assert !IsBlank(line[n]) && line[n] in line;
      assert AllBlank(line[..n]) && AllBlank(line[k..]);
    }
  }

  lemma {:induction false} EntriesMean(lines: seq<string>) returns (at: seq<nat>)
    ensures AreFilled(lines, at) && AreEntriesAt(lines, at, Entries(lines))
    decreases |lines|
  {
    at := [];
    if lines != [] {
      var n := |lines| - 1;
      at := EntriesMean(lines[..n]);
      EntryMeans(lines[n]);
      FilledGrows(lines, at);
      EntriesGrow(lines, at, Entries(lines[..n]), TrimSpace(lines[n]));
      if !AllBlank(lines[n]) {
        at := at + [n];
      }
    }
  }

  lemma FilledGrows(lines: seq<string>, at: seq<nat>)
    requires lines != [] && AreFilled(lines[..|lines| - 1], at)
    ensures AreFilled(lines, if !AllBlank(lines[|lines| - 1]) then at + [|lines| - 1] else at)
  {
    var n := |lines| - 1;
    var more := if !AllBlank(lines[n]) then at + [n] else at;
    forall i: nat
      ensures i in more <==> i < |lines| && !AllBlank(lines[i])
    {
      assert i in at <==> i < n && !AllBlank(lines[..n][i]);
      assert i in more <==> i in at || (i == n && !AllBlank(lines[n]));
    }
    forall k, l | 0 <= k < l < |more|
      ensures more[k] < more[l]
    {
      assert at[k] in at;
    }
  }

  lemma EntriesGrow(lines: seq<string>, at: seq<nat>, entries: seq<string>, entry: string)
    requires lines != [] && AreEntriesAt(lines[..|lines| - 1], at, entries)
    ensures AreEntriesAt(lines, at, entries)
    ensures IsEntryOf(lines[|lines| - 1], entry) ==> AreEntriesAt(lines, at + [|lines| - 1], entries + [entry])
  {
  }

  lemma LinesMean(body: string)
    ensures AreEntries(body, Lines(body))
  {
    var at := EntriesMean(Split(body, '\n'));
    SplitIsLines(body);
  }

  // ---------------------------------------------------------------- splitting finds the parts

  lemma FrontOfTrimmed(front: string)
    ensures IsFront(front, TrimRight(front, Newlines))
  {
    var k := CutBack(front, Newlines, |front|);
    forall c | c in front[k..]
      ensures c == '\n'
    {
      var i :| 0 <= i < |front[k..]| && front[k..][i] == c;
      assert front[k + i] == c && Cut(front[k + i], Newlines);
    }
  }

  lemma BackOfTrimmed(back: string)
    ensures IsBack(back, TrimLeft(back, Newlines))
  {
    var k := CutFrom(back, Newlines, 0);
    assert |back| - |back[k..]| == k;
    forall c | c in back[..k]
      ensures c == '\n'
    {
      var i :| 0 <= i < k && back[..k][i] == c;
      assert Cut(back[i], Newlines);
    }
  }

  lemma OccursInTail(data: string, from: nat, i: nat, pat: string)
    requires from <= |data|
    ensures HasAt(data[from..], pat, i) <==> HasAt(data, pat, from + i)
  {
    if from + i + |pat| <= |data| {
      assert data[from..][i..i + |pat|] == data[from + i..from + i + |pat|];
    }
  }

  lemma EndInTail(data: string, b: string, e: string)
    requires Contains(data, b) && Contains(data[Index(data, b)..], e)
    ensures exists i: nat, j: nat :: i <= j && OccursAt(data, i, b) && OccursAt(data, j, e)
  {
    var i := Index(data, b);
    var j := i + Index(data[i..], e);
    OccursInTail(data, i, j - i, e);
    OccursIff(data, i, b);
    OccursIff(data, j, e);
  }

  lemma TailHasEnd(data: string, b: string, e: string, i: nat, j: nat)
    requires i <= j && OccursAt(data, i, b) && OccursAt(data, j, e)
    ensures Contains(data, b) && Contains(data[Index(data, b)..], e)
  {
    OccursIff(data, i, b);
    OccursIff(data, j, e);
    var first := Index(data, b);
    OccursInTail(data, first, j - first, e);
    assert HasAt(data[first..], e, j - first);
  }

  lemma NoBlockIff(m: Markers, data: string)
    ensures HasNoBlock(m, data)
       <==> !Contains(data, m.begin) || !Contains(data[Index(data, m.begin)..], m.end)
  {
    if Contains(data, m.begin) && Contains(data[Index(data, m.begin)..], m.end) {
      EndInTail(data, m.begin, m.end);
    }
    if i: nat, j: nat :| i <= j && OccursAt(data, i, m.begin) && OccursAt(data, j, m.end) {
      TailHasEnd(data, m.begin, m.end, i, j);
    }
  }

  lemma EndBehindBegin(m: Markers, tail: string)
    requires StartsBlock(m, tail)
    ensures |m.begin| <= Index(tail, m.end)
  {
    HeadAt(tail, m.begin, 0);
    assert forall i | 0 < i < |m.begin| :: tail[i] == m.begin[i] == m.begin[1..][i - 1];
    HeadAt(tail, m.end, Index(tail, m.end));
  }

  lemma ThreeSlices(data: string, i: nat, j: nat, k: nat, l: nat)
    requires i <= j <= k <= l <= |data|
    ensures data == data[..i] + (data[i..j] + data[j..k] + (data[k..l] + data[l..]))
  {
    assert data == data[..i] + data[i..];
    assert data[i..] == data[i..j] + data[j..k] + data[k..];
    assert data[k..] == data[k..l] + data[l..];
  }

  lemma NoneInFront(data: string, pat: string, i: nat)
    requires Index(data, pat) == i
    ensures forall n: nat | n < i :: !OccursAt(data, n, pat)
  {
    forall n: nat | n < i
      ensures !OccursAt(data, n, pat)
    {
      OccursIff(data, n, pat);
    }
  }

  lemma NoneFromTo(data: string, pat: string, i: nat, k: nat)
    requires i <= |data| && Index(data[i..], pat) == k - i >= 0
    ensures k + |pat| <= |data| && data[k..k + |pat|] == pat
    ensures forall n: nat | i <= n < k :: !OccursAt(data, n, pat)
  {
    OccursInTail(data, i, k - i, pat);
    forall n: nat | i <= n < k
      ensures !OccursAt(data, n, pat)
    {
      OccursIff(data, n, pat);
      OccursInTail(data, i, n - i, pat);
    }
  }

  /** The markers cut a file where the operations find them. */
  lemma CutByMarkers(m: Markers, data: string) returns (front: string, body: string, back: string)
    requires Contains(data, m.begin) && Contains(data[Index(data, m.begin)..], m.end)
    requires StartsBlock(m, data[Index(data, m.begin)..])
    ensures IsCutAtMarkers(m, data, front, body, back)
    ensures var tail := data[Index(data, m.begin)..];
      && front == data[..Index(data, m.begin)] && back == Behind(m, tail)
      && |m.begin| <= Index(tail, m.end) && body == tail[|m.begin|..Index(tail, m.end)]
  {
    var i := Index(data, m.begin);
    EndBehindBegin(m, data[i..]);
    var j, k := i + |m.begin|, i + Index(data[i..], m.end);
    NoneInFront(data, m.begin, i);
    NoneFromTo(data, m.end, i, k);
    SubTail(data, i, j, k, k + |m.end|);
    front, body, back := data[..i], data[j..k], data[k + |m.end|..];
    CutAt(m, data, i, k);
  }

  lemma CutAt(m: MarkerPair, data: string, i: nat, k: nat)
    requires i + |m.begin| <= k && k + |m.end| <= |data|
    requires data[i..i + |m.begin|] == m.begin && data[k..k + |m.end|] == m.end
    requires forall n: nat | n < i :: !OccursAt(data, n, m.begin)
    requires forall n: nat | i <= n < k :: !OccursAt(data, n, m.end)
    ensures IsCutAtMarkers(m, data, data[..i], data[i + |m.begin|..k], data[k + |m.end|..])
  {
    ThreeSlices(data, i, i + |m.begin|, k, k + |m.end|);
  }

  lemma SubTail(data: string, i: nat, j: nat, k: nat, l: nat)
    requires i <= j <= k <= l <= |data|
    ensures data[i..][j - i..k - i] == data[j..k] && data[i..][l - i..] == data[l..]
  {
  }

  lemma LinesPastBreak(text: string, n: nat, e: nat)
    requires n < e <= |text| && text[n] == '\n'
    ensures Lines(text[n + 1..e]) == Lines(text[n..e])
  {
    assert text[n..e] == "\n" + text[n + 1..e];
    BlankLineAround(text[n + 1..e]);
  }

  lemma BodyEntries(m: Markers, tail: string)
    requires StartsBlock(m, tail)
    ensures |m.begin| <= Index(tail, m.end)
    ensures AreEntries(tail[|m.begin|..Index(tail, m.end)], EntriesOf(m, tail))
  {
    EndBehindBegin(m, tail);
    EndIsNoNewline(m, tail);
    var n, e := |m.begin|, Index(tail, m.end);
    EntriesFrom(tail, n, e);
    LinesMean(tail[n..e]);
  }

  lemma EntriesFrom(tail: string, n: nat, e: nat)
    requires n <= e < |tail| && tail[e] != '\n'
    ensures PastLineEnd(tail, n) <= e && Lines(tail[PastLineEnd(tail, n)..e]) == Lines(tail[n..e])
  {
    if tail[n] == '\n' {
      LinesPastBreak(tail, n, e);
    }
  }

  lemma EndIsNoNewline(m: Markers, tail: string)
    requires StartsBlock(m, tail)
    ensures tail[Index(tail, m.end)] == '#'
  {
    HeadAt(tail, m.end, Index(tail, m.end));
  }

  /** Splitting finds the parts of a file. */
  lemma SplitMeans(m: Markers, data: string)
    ensures AreParts(m, data, SplitFile(m, data))
  {
    NoBlockIff(m, data);
    if HasNoBlock(m, data) {
      FrontOfTrimmed(data);
    } else {
      BlockTail(m, data);
      var tail := data[Index(data, m.begin)..];
      var front, body, back := CutByMarkers(m, data);
      FrontOfTrimmed(front);
      BackOfTrimmed(back);
      BodyEntries(m, tail);
    }
  }

  // ---------------------------------------------------------------- rendering writes the new file

  lemma {:induction false} BlockIsLines(paths: seq<string>)
    ensures Block(paths) + "\n" == "\n" + WithLineEnds(paths)
    decreases |paths|
  {
    if paths != [] {
      BlockFirst(paths);
      BlockIsLines(paths[1..]);
      BlockLine(paths[0], Block(paths[1..]), WithLineEnds(paths[1..]));
    }
  }

  lemma BlockLine(path: string, a: string, b: string)
    requires a + "\n" == "\n" + b
    ensures "\n" + path + a + "\n" == "\n" + (path + "\n" + b)
  {
    assert "\n" + path + a + "\n" == "\n" + path + (a + "\n");
  }

  lemma {:induction false} BlockFirst(paths: seq<string>)
    requires paths != []
    ensures Block(paths) == "\n" + paths[0] + Block(paths[1..])
    decreases |paths|
  {
    var init, last := paths[..|paths| - 1], paths[|paths| - 1];
    if |paths| == 1 {
      assert paths[1..] == [] && init == [];
    } else {
      BlockFirst(init);
      assert paths[1..][..|paths| - 2] == init[1..];
      Regroup("\n" + paths[0], Block(init[1..]), "\n", last);
    }
  }

  lemma RenderMeans(m: Markers, parts: Parts)
    requires NormalEnds(parts.pre, parts.post)
    ensures Render(m, parts) == NewFile(m, parts, parts.paths)
  {
    BeforeText(parts.pre);
    BlockIsLines(parts.paths);
    RenderText(m.begin, Block(parts.paths), WithLineEnds(parts.paths), m.end, After(parts.post), Before(parts.pre));
    assert parts.pre + "\n" + "\n" == parts.pre + "\n\n";
    assert parts.post == "" ==> After(parts.post) == "";
  }

  lemma RenderText(begin: string, block: string, lines: string, end: string, after: string, before: string)
    requires block + "\n" == "\n" + lines
    ensures before + (begin + block + "\n" + (end + ("\n" + after)))
         == before + (begin + "\n" + lines + end + "\n") + after
  {
    assert begin + block + "\n" == begin + (block + "\n");
    assert begin + "\n" + lines == begin + ("\n" + lines);
  }

  lemma AscendMeans(listed: seq<string>, further: seq<string>)
    ensures AreMerged(listed, further, Ascend(Elems(listed) + (Elems(further) - {""})))
  {
    var all := Elems(listed) + (Elems(further) - {""});
    var merged := Ascend(all);
    forall i, j | 0 <= i < j < |merged|
      ensures IsBeforeInOrder(merged[i], merged[j])
    {
      LessIff(merged[i], merged[j]);
    }
    forall p
      ensures p in merged <==> p in listed || (p in further && p != "")
    {
      assert p in merged <==> p in Elems(merged);
      assert p in all <==> p in listed || (p in further && p != "");
    }
  }

  lemma NothingNewIff(m: Markers, data: string, listed: seq<string>, further: seq<string>)
    requires listed == SplitFile(m, data).paths
    ensures HasNothingNew(m, data, listed, further) <==> UpToDate(m, data, Elems(further) - {""})
  {
    var add := Elems(further) - {""};
    MarkersOccurIff(m, data);
    assert forall p :: p in add <==> p in further && p != "";
    assert forall p :: p in Elems(listed) <==> p in listed;
    if !HasBlock(m, data) && add == {} {
      forall p | p in further
        ensures p == ""
      {
        assert p !in add;
      }
    }
  }

  lemma MarkersOccurIff(m: Markers, data: string)
    ensures HasBlock(m, data)
       <==> (exists i: nat :: OccursAt(data, i, m.begin)) && (exists i: nat :: OccursAt(data, i, m.end))
  {
    forall i: nat
      ensures OccursAt(data, i, m.begin) <==> HasAt(data, m.begin, i)
      ensures OccursAt(data, i, m.end) <==> HasAt(data, m.end, i)
    {
      OccursIff(data, i, m.begin);
      OccursIff(data, i, m.end);
    }
    if Contains(data, m.begin) {
      assert OccursAt(data, Index(data, m.begin), m.begin);
    }
    if Contains(data, m.end) {
      assert OccursAt(data, Index(data, m.end), m.end);
    }
  }

  /** What an update gives, for any markers and any file. */
  lemma UpdateMeans(m: Markers, data: string, further: seq<string>)
    ensures IsUpdate(m, data, further, Update(m, data, Elems(further)))
  {
    var parts := SplitFile(m, data);
    var merged := Ascend(Elems(parts.paths) + (Elems(further) - {""}));
    SplitMeans(m, data);
    PrefixOfSplit(m, data);
    NothingNewIff(m, data, parts.paths, further);
    RenderMeans(m, parts.(paths := merged));
    AscendMeans(parts.paths, further);
    assert NewFile(m, parts.(paths := merged), merged) == NewFile(m, parts, merged);
    assert IsUpdateOf(m, data, parts, further, Update(m, data, Elems(further)));
  }

  // ---------------------------------------------------------------- the operations

  lemma BlockUpdateMeans(data: string, further: seq<string>)
    ensures Proper(ENJU) && IsBlockUpdate(data, further, Update(ENJU, data, Elems(further)))
  {
    EnjuMarkersAreProper();
    UpdateMeans(ENJU, data, further);
  }

  /** The lines of a block body that hold a path. */
  method ReadEntries(body: string) returns (paths: seq<string>)
    ensures paths == Lines(body)
  {
    var lines := Split(body, '\n');
    paths := [];
    var i := 0;
    while i < |lines|
      invariant i <= |lines|
      invariant paths == Entries(lines[..i])
    {
      NextPrefix(lines, i);
      var trimmed := TrimSpace(lines[i]);
      if trimmed != "" {
        paths := paths + [trimmed];
      }
      i := i + 1;
    }
    assert lines[..i] == lines;
  }

  method SplitGitignore(m: Markers, data: string) returns (pre: string, blockPaths: seq<string>, post: string)
    ensures Parts(pre, blockPaths, post) == SplitFile(m, data)
    ensures AreParts(m, data, Parts(pre, blockPaths, post))
  {
    SplitMeans(m, data);
    var begin := Index(data, m.begin);
    if begin < 0 {
      return TrimRight(data, Newlines), [], "";
    }
    BlockTail(m, data);
    var tail := data[begin..];
    if Index(tail, m.end) < 0 {
      return TrimRight(data, Newlines), [], "";
    }
    pre := TrimRight(data[..begin], Newlines);
    blockPaths := ReadBlock(m, tail);
    post := ReadRest(m, tail);
  }

  /** Reads the entries of a block that the text starts with. */
  method ReadBlock(m: Markers, tail: string) returns (blockPaths: seq<string>)
    requires StartsBlock(m, tail)
    ensures blockPaths == EntriesOf(m, tail)
  {
    var blockStart := PastLineEnd(tail, |m.begin|);
    blockPaths := ReadEntries(tail[blockStart..Index(tail, m.end)]);
  }

  /** The text behind the line of the end marker. */
  method ReadRest(m: Markers, tail: string) returns (post: string)
    requires StartsBlock(m, tail)
    ensures post == TrimLeft(Behind(m, tail), Newlines)
  {
    var endLine := Index(tail, m.end) + |m.end|;
    TrimPastLineEnd(tail, endLine);
    if endLine < |tail| && tail[endLine] == '\n' {
      endLine := endLine + 1;
    }
    post := TrimLeft(tail[endLine..], Newlines);
  }

  /** One line end dropped beforehand makes no difference to trimming. */
  lemma TrimPastLineEnd(s: string, i: nat)
    requires i <= |s|
    ensures i < |s| && s[i] == '\n' ==> TrimLeft(s[i + 1..], Newlines) == TrimLeft(s[i..], Newlines)
  {
    if i < |s| && s[i] == '\n' {
      var t := s[i..];
      assert s[i + 1..] == t[1..];
      TrimRest(t);
    }
  }

  lemma TrimRest(t: string)
    requires t != "" && t[0] == '\n'
    ensures TrimLeft(t[1..], Newlines) == TrimLeft(t, Newlines)
  {
    CutFromRest(t, 1);
  }

  lemma {:induction false} CutFromRest(t: string, i: nat)
    requires 1 <= i <= |t|
    ensures CutFrom(t[1..], Newlines, i - 1) + 1 == CutFrom(t, Newlines, i)
    decreases |t| - i
  {
    if i < |t| && t[i] == '\n' {
      CutFromRest(t, i + 1);
    }
  }

  /** The union of the block's paths and the caller's, and whether it is more
      than the block. */
  method MergePaths(blockPaths: seq<string>, add: set<string>) returns (blockSet: set<string>, changed: bool)
    ensures blockSet == Elems(blockPaths) + add
    ensures changed <==> !(add <= Elems(blockPaths))
  {
    blockSet, changed := set p | p in blockPaths, false;
    var paths := InSomeOrder(add);
    for i := 0 to |paths|
      invariant blockSet == Elems(blockPaths) + Elems(paths[..i])
      invariant changed <==> !(Elems(paths[..i]) <= Elems(blockPaths))
    {
      NextPrefix(paths, i);
      PrefixFacts(paths, i);
      if paths[i] !in blockSet {
        blockSet, changed := blockSet + {paths[i]}, true;
      }
    }
    assert paths[..|paths|] == paths;
  }

  /** The new file and true, or nothing and false. */
  method UpdateManagedBlock(existing: string, addPaths: seq<string>) returns (file: string, ok: bool)
    ensures Proper(ENJU)
    ensures ok <==> Update(ENJU, existing, Elems(addPaths)).Some?
    ensures ok ==> file == Update(ENJU, existing, Elems(addPaths)).value
    ensures !ok ==> file == ""
    ensures IsBlockUpdate(existing, addPaths, if ok then Some(file) else None)
  {
    BlockUpdateMeans(existing, addPaths);
    file, ok := MergeAndRender(existing, addPaths);
  }

  /** Filters and merges the paths, and writes the file if there is anything new. */
  method MergeAndRender(existing: string, addPaths: seq<string>) returns (file: string, ok: bool)
    ensures Proper(ENJU)
    ensures ok <==> Update(ENJU, existing, Elems(addPaths)).Some?
    ensures ok ==> file == Update(ENJU, existing, Elems(addPaths)).value
    ensures !ok ==> file == ""
  {
    EnjuMarkersAreProper();
    var add: set<string> := {};
    for i := 0 to |addPaths|
      invariant add == Elems(addPaths[..i]) - {""}
    {
      NextPrefix(addPaths, i);
      AppendFacts(addPaths[..i], addPaths[i]);
      if addPaths[i] != "" {
        add := add + {addPaths[i]};
      }
    }
    assert addPaths[..|addPaths|] == addPaths;
    if add == {} && !HasBlock(ENJU, existing) {
      return "", false;
    }
    var pre, blockPaths, post := SplitGitignore(ENJU, existing);
    var blockSet, changed := MergePaths(blockPaths, add);
    if !changed && |pre| == 0 && |post| == 0 && HasBlock(ENJU, existing) {
      return "", false;
    }
    if !changed && HasBlock(ENJU, existing) {
      return "", false;
    }
    file := RenderBlock(ENJU, pre, blockSet, post);
    ok := true;
  }

  /** Writes the text before the block, the block with its paths in order, and
      the text after it. */
  method RenderBlock(m: Markers, pre: string, blockSet: set<string>, post: string) returns (file: string)
    ensures file == Render(m, Parts(pre, Ascend(blockSet), post))
  {
    var listed := InSomeOrder(blockSet);
    var sorted := Sort(listed);
    AscendingIsUnique(sorted, Ascend(blockSet));
    file := "";
    if |pre| > 0 {
      file := pre;
      if !(|pre| >= 2 && pre[|pre| - 2..] == "\n\n") {
        if pre[|pre| - 1] != '\n' {
          file := file + "\n";
        }
        file := file + "\n";
      }
    }
    assert file == Before(pre);
    var lines := WriteLines(sorted);
    file := file + m.begin + lines + m.end + "\n";
    ghost var head := file;
    if |post| > 0 {
      if post[0] != '\n' {
        file := file + "\n";
      }
      file := file + post;
    }
    assert file == head + After(post);
    Rebracket(Before(pre), m.begin, Block(sorted), m.end, After(post));
  }

  lemma Rebracket(a: string, b: string, c: string, d: string, e: string)
    ensures a + b + (c + "\n") + d + "\n" + e == a + (b + c + "\n" + (d + ("\n" + e)))
  {
  }

  /** The end of the begin marker's line and the lines of the paths. */
  method WriteLines(paths: seq<string>) returns (text: string)
    ensures text == Block(paths) + "\n"
  {
    text := "\n";
    for i := 0 to |paths|
      invariant text == Block(paths[..i]) + "\n"
    {
      NextPrefix(paths, i);
      text := text + paths[i] + "\n";
    }
    assert paths[..|paths|] == paths;
  }
}
