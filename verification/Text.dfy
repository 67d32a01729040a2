/** Strings as sequences of characters: the byte order of Go strings and sorting by
    it, the first occurrence of a text in another, splitting at a separator and
    joining again, the laws by which these undo each other, and trimming. */
module Text {
  import opened Graphs

  // ---------------------------------------------------------------- order

  /** The order in which Go compares strings. */
  predicate Less(a: string, b: string)
    decreases |a|
  {
    b != "" && (a == "" || a[0] < b[0] || (a[0] == b[0] && Less(a[1..], b[1..])))
  }

  lemma {:induction false} LessIsTotal(a: string, b: string)
    ensures Less(a, b) || a == b || Less(b, a)
    decreases |a|
  {
    if a != "" && b != "" && a[0] == b[0] {
      LessIsTotal(a[1..], b[1..]);
      assert a == [a[0]] + a[1..] && b == [b[0]] + b[1..];
    }
  }

  lemma {:induction false} LessIsTransitive(a: string, b: string, c: string)
    requires Less(a, b) && Less(b, c)
    ensures Less(a, c)
    decreases |a|
  {
    if a != "" && a[0] == b[0] && b[0] == c[0] {
      LessIsTransitive(a[1..], b[1..], c[1..]);
    }
  }

  lemma {:induction false} LessIsIrreflexive(a: string)
    ensures !Less(a, a)
    decreases |a|
  {
    if a != "" {
      LessIsIrreflexive(a[1..]);
    }
  }

  /** The first place at which the first text is the smaller one, or ends. */
  predicate IsSmallerAt(a: string, b: string, k: nat) {
    && k <= |a| && k < |b| && (forall i | 0 <= i < k :: a[i] == b[i])
    && (k == |a| || a[k] < b[k])
  }

  lemma {:induction false} LessIff(a: string, b: string)
    ensures Less(a, b) <==> exists k: nat :: IsSmallerAt(a, b, k)
    decreases |a|
  {
    if a == "" || b == "" || a[0] != b[0] {
      assert b != "" && (a == "" || a[0] < b[0]) ==> IsSmallerAt(a, b, 0);
    } else {
      LessIff(a[1..], b[1..]);
      if k: nat :| IsSmallerAt(a[1..], b[1..], k) {
        SmallerAtNext(a, b, k);
      }
      if k: nat :| IsSmallerAt(a, b, k) {
        assert k > 0;
        SmallerAtNext(a, b, k - 1);
      }
    }
  }

  lemma SmallerAtNext(a: string, b: string, k: nat)
    requires a != "" && b != "" && a[0] == b[0]
    ensures IsSmallerAt(a, b, k + 1) <==> IsSmallerAt(a[1..], b[1..], k)
  {
    if IsSmallerAt(a, b, k + 1) {
      assert forall i | 0 <= i < k :: a[1..][i] == a[i + 1] && b[1..][i] == b[i + 1];
    }
    if IsSmallerAt(a[1..], b[1..], k) {
      forall i | 0 <= i < k + 1
        ensures a[i] == b[i]
      {
        assert i > 0 ==> a[1..][i - 1] == b[1..][i - 1];
      }
    }
  }

  ghost predicate Ascending(s: seq<string>) {
    forall i, j | 0 <= i < j < |s| :: Less(s[i], s[j])
  }

  lemma AscendingHasNoDup(s: seq<string>)
    requires Ascending(s)
    ensures NoDup(s)
  {
    forall i, j | 0 <= i < j < |s|
      ensures s[i] != s[j]
    {
      LessIsIrreflexive(s[i]);
    }
  }

  /** A set has one ascending enumeration only. */
  lemma {:induction false} AscendingIsUnique(s: seq<string>, t: seq<string>)
    requires Ascending(s) && Ascending(t) && Elems(s) == Elems(t)
    ensures s == t
    decreases |s|
  {
    if s == [] {
      EmptyElems(s);
      EmptyElems(t);
    } else {
      assert s[0] in Elems(t);
      var i :| 0 <= i < |t| && t[i] == s[0];
      assert t[0] in Elems(s);
      var j :| 0 <= j < |s| && s[j] == t[0];
      if i > 0 && j > 0 {
        LessIsTransitive(s[0], t[0], s[0]);
        LessIsIrreflexive(s[0]);
      }
      assert s[0] == t[0];
      AscendingHasNoDup(s);
      AscendingHasNoDup(t);
      HeadFacts(s);
      HeadFacts(t);
      assert Elems(s[1..]) == Elems(s) - {s[0]};
      assert Elems(t[1..]) == Elems(t) - {t[0]};
      AscendingIsUnique(s[1..], t[1..]);
      assert s == [s[0]] + s[1..] && t == [t[0]] + t[1..];
    }
  }

  /** Inserts into an ascending list, leaving out what is there already. */
  function Insert(x: string, s: seq<string>): seq<string>
    decreases |s|
  {
    if s == [] || Less(x, s[0]) then [x] + s
    else if x == s[0] then s
    else [s[0]] + Insert(x, s[1..])
  }

  lemma {:induction false} InsertFacts(x: string, s: seq<string>)
    requires Ascending(s)
    ensures Ascending(Insert(x, s)) && Elems(Insert(x, s)) == Elems(s) + {x}
    decreases |s|
  {
    if s == [] {
      HeadFacts([x]);
    } else if Less(x, s[0]) {
      InsertFront(x, s);
    } else {
      LessIsTotal(x, s[0]);
      HeadFacts(s);
      if x != s[0] {
        InsertFacts(x, s[1..]);
        InsertBehind(x, s);
      }
    }
  }

  lemma {:induction false} InsertBehind(x: string, s: seq<string>)
    requires Ascending(s) && |s| > 0 && Less(s[0], x)
    requires Ascending(Insert(x, s[1..])) && Elems(Insert(x, s[1..])) == Elems(s[1..]) + {x}
    ensures Ascending([s[0]] + Insert(x, s[1..]))
    ensures Elems([s[0]] + Insert(x, s[1..])) == Elems(s) + {x}
  {
    var rest := Insert(x, s[1..]);
    HeadFacts(s);
    HeadFacts([s[0]] + rest);
    assert ([s[0]] + rest)[1..] == rest;
    forall y | y in Elems(rest)
      ensures Less(s[0], y)
    {
      if y != x {
        LessThanRest(s, y);
      }
    }
  }

  lemma LessThanRest(s: seq<string>, y: string)
    requires Ascending(s) && |s| > 0 && y in Elems(s[1..])
    ensures Less(s[0], y)
  {
    var m :| 0 <= m < |s[1..]| && s[1..][m] == y;
    assert s[m + 1] == y;
  }

  lemma InsertFront(x: string, s: seq<string>)
    requires Ascending(s) && |s| > 0 && Less(x, s[0])
    ensures Ascending([x] + s) && Elems([x] + s) == Elems(s) + {x}
  {
    forall j | 0 <= j < |s|
      ensures Less(x, s[j])
    {
      if j > 0 {
        LessIsTransitive(x, s[0], s[j]);
      }
    }
    HeadFacts([x] + s);
  }

  /** The ascending enumeration of the elements of a list. */
  function Sort(s: seq<string>): (r: seq<string>)
    ensures Ascending(r) && Elems(r) == Elems(s)
    decreases |s|
  {
    if s == [] then
      []
    else
      HeadFacts(s);
      InsertFacts(s[0], Sort(s[1..]));
      Insert(s[0], Sort(s[1..]))
  }

  /** The ascending enumeration of a set. */
  ghost function Ascend(s: set<string>): (r: seq<string>)
    ensures Ascending(r) && Elems(r) == s
  {
    if s == {} then
      EmptyElems<string>([]);
      []
    else
      var x :| x in s;
      InsertFacts(x, Ascend(s - {x}));
      Insert(x, Ascend(s - {x}))
  }

  // ---------------------------------------------------------------- substrings

  predicate HasAt(s: string, pat: string, i: int) {
    0 <= i && i + |pat| <= |s| && s[i..i + |pat|] == pat
  }

  predicate Contains(s: string, pat: string) {
    Index(s, pat) >= 0
  }

  /** The first occurrence of pat in s, or -1. */
  function Index(s: string, pat: string): (r: int)
    ensures r == -1 || HasAt(s, pat, r)
    ensures forall j :: HasAt(s, pat, j) ==> 0 <= r <= j
  {
    IndexFromIsFirst(s, pat, 0);
    IndexFrom(s, pat, 0)
  }

  /** The first occurrence of pat in s at or behind i, or -1. */
  function IndexFrom(s: string, pat: string, i: nat): (r: int)
    requires i <= |s|
    ensures r == -1 || (i <= r && HasAt(s, pat, r))
    decreases |s| - i
  {
    if HasAt(s, pat, i) then i
    else if i == |s| then -1
    else IndexFrom(s, pat, i + 1)
  }

  lemma {:induction false} IndexFromIsFirst(s: string, pat: string, i: nat)
    requires i <= |s|
    ensures forall j :: i <= j && HasAt(s, pat, j) ==> 0 <= IndexFrom(s, pat, i) <= j
    decreases |s| - i
  {
    if i < |s| {
      IndexFromIsFirst(s, pat, i + 1);
    }
  }

  lemma SubSlice(s: string, lo: nat, hi: nat, i: nat, j: nat)
    requires lo <= hi <= |s| && i <= j <= hi - lo
    ensures s[lo..hi][i..j] == s[lo + i..lo + j]
  {
    var a, b := s[lo..hi][i..j], s[lo + i..lo + j];
    forall k | 0 <= k < |a|
      ensures a[k] == b[k]
    {
      assert a[k] == s[lo..hi][i + k] == s[lo + i + k];
    }
  }

  /** A pattern in a part of a text is in the text. */
  lemma HasAtPart(s: string, lo: nat, hi: nat, pat: string, i: int)
    requires lo <= hi <= |s| && HasAt(s[lo..hi], pat, i)
    ensures HasAt(s, pat, lo + i)
  {
    SubSlice(s, lo, hi, i, i + |pat|);
  }

  /** A pattern of a text that lies inside a part of it is in the part. */
  lemma HasAtWithin(s: string, lo: nat, hi: nat, pat: string, r: nat)
    requires lo <= r && r + |pat| <= hi <= |s| && HasAt(s, pat, r)
    ensures HasAt(s[lo..hi], pat, r - lo)
  {
    SubSlice(s, lo, hi, r - lo, r - lo + |pat|);
  }

  /** The first occurrence from a place on, and the part of the text up to its end. */
  lemma FirstInPart(s: string, pat: string, i: nat, hi: nat)
    requires i + |pat| <= hi <= |s|
    ensures IndexFrom(s, pat, i) == hi - |pat| <==> Index(s[i..hi], pat) == hi - |pat| - i
  {
    var r, j := IndexFrom(s, pat, i), Index(s[i..hi], pat);
    IndexFromIsFirst(s, pat, i);
    if r == hi - |pat| {
      HasAtWithin(s, i, hi, pat, r);
      HasAtPart(s, i, hi, pat, j);
    }
    if j == hi - |pat| - i {
      HasAtPart(s, i, hi, pat, j);
      if r < hi - |pat| {
        HasAtWithin(s, i, hi, pat, r);
      }
    }
  }

  lemma NoneFromIff(s: string, pat: string, i: nat)
    requires i <= |s|
    ensures IndexFrom(s, pat, i) < 0 <==> !Contains(s[i..|s|], pat)
  {
    var r, j := IndexFrom(s, pat, i), Index(s[i..|s|], pat);
    IndexFromIsFirst(s, pat, i);
    if r >= 0 {
      HasAtWithin(s, i, |s|, pat, r);
    }
    if j >= 0 {
      HasAtPart(s, i, |s|, pat, j);
    }
  }

  lemma PartContains(s: string, lo: nat, hi: nat, pat: string)
    requires lo <= hi <= |s| && !Contains(s, pat)
    ensures !Contains(s[lo..hi], pat)
  {
    if Contains(s[lo..hi], pat) {
      HasAtPart(s, lo, hi, pat, Index(s[lo..hi], pat));
    }
  }

  lemma SuffixContains(s: string, lo: nat, pat: string)
    requires lo <= |s| && !Contains(s, pat)
    ensures !Contains(s[lo..], pat)
  {
    PartContains(s, lo, |s|, pat);
    assert s[lo..|s|] == s[lo..];
  }

  /** A pattern without the separator lies on one side of a separator. */
  lemma SidesOfSeparator(a: string, c: char, b: string, pat: string, i: int)
    requires c !in pat && pat != "" && HasAt(a + [c] + b, pat, i)
    ensures i + |pat| <= |a| ==> HasAt(a, pat, i)
    ensures i + |pat| > |a| ==> i > |a| && HasAt(b, pat, i - |a| - 1)
  {
    var s := a + [c] + b;
    forall x | i <= x < i + |pat|
      ensures s[x] != c
    {
      assert s[i..i + |pat|][x - i] == pat[x - i];
    }
    assert s[|a|] == c;
    if i + |pat| <= |a| {
      assert a[i..i + |pat|] == s[i..i + |pat|];
    } else {
      assert b[i - |a| - 1..i - |a| - 1 + |pat|] == s[i..i + |pat|];
    }
  }

  /** The first occurrence in a text with a separator that the pattern lacks. */
  lemma FirstOccurrence(a: string, c: char, b: string, pat: string)
    requires c !in pat && pat != ""
    ensures Contains(a, pat) ==> Index(a + [c] + b, pat) == Index(a, pat)
    ensures !Contains(a, pat) && Contains(b, pat) ==> Index(a + [c] + b, pat) == |a| + 1 + Index(b, pat)
    ensures !Contains(a, pat) && !Contains(b, pat) ==> !Contains(a + [c] + b, pat)
  {
    var s := a + [c] + b;
    var i, j, r := Index(a, pat), Index(b, pat), Index(s, pat);
    if i >= 0 {
      InConcat(a, [c] + b, pat, i);
      ConcatAssociates(a, [c], b);
    }
    if j >= 0 {
      InConcat(a + [c], b, pat, j);
    }
    if r >= 0 {
      SidesOfSeparator(a, c, b, pat, r);
    }
  }

  lemma InConcat(a: string, b: string, pat: string, i: int)
    ensures HasAt(a, pat, i) ==> HasAt(a + b, pat, i)
    ensures HasAt(b, pat, i) ==> HasAt(a + b, pat, |a| + i)
  {
    if HasAt(a, pat, i) {
      assert (a + b)[i..i + |pat|] == a[i..i + |pat|];
    }
    if HasAt(b, pat, i) {
      assert (a + b)[|a| + i..|a| + i + |pat|] == b[i..i + |pat|];
    }
  }

  lemma OccursAtFront(pat: string, rest: string)
    ensures Index(pat + rest, pat) == 0
  {
    assert (pat + rest)[..|pat|] == pat;
    assert HasAt(pat + rest, pat, 0);
  }

  // ---------------------------------------------------------------- splitting

  /** The pieces between the separators, as strings.Split gives them. */
  function Split(s: string, c: char): (r: seq<string>)
    ensures |r| > 0
  {
    if s == "" then [""]
    else if s[0] == c then [""] + Split(s[1..], c)
    else var rest := Split(s[1..], c); [[s[0]] + rest[0]] + rest[1..]
  }

  lemma {:induction false} SplitConcat(a: string, c: char, b: string)
    ensures Split(a + [c] + b, c) == Split(a, c) + Split(b, c)
    decreases |a|
  {
    var s := a + [c] + b;
    if a == "" {
      assert s[1..] == b;
    } else {
      assert s[1..] == a[1..] + [c] + b;
      SplitConcat(a[1..], c, b);
    }
  }

  lemma {:induction false} SplitPiece(s: string, c: char)
    requires c !in s
    ensures Split(s, c) == [s]
    decreases |s|
  {
    if s != "" {
      assert s == [s[0]] + s[1..];
      SplitPiece(s[1..], c);
    }
  }

  /** A piece lies inside the text and holds no separator. */
  lemma {:induction false} PieceFacts(s: string, c: char, i: nat) returns (lo: nat)
    requires i < |Split(s, c)|
    ensures c !in Split(s, c)[i]
    ensures lo + |Split(s, c)[i]| <= |s| && s[lo..lo + |Split(s, c)[i]|] == Split(s, c)[i]
    ensures i == 0 ==> lo == 0
    decreases |s|
  {
    if s == "" {
      lo := 0;
    } else if s[0] == c {
      if i == 0 {
        lo := 0;
      } else {
        lo := PieceFacts(s[1..], c, i - 1);
        assert s[1..][lo..lo + |Split(s, c)[i]|] == s[lo + 1..lo + 1 + |Split(s, c)[i]|];
        lo := lo + 1;
      }
    } else {
      var rest := Split(s[1..], c);
      lo := PieceFacts(s[1..], c, i);
      assert s[1..][lo..lo + |rest[i]|] == s[lo + 1..lo + 1 + |rest[i]|];
      if i == 0 {
        assert s[0..1 + |rest[0]|] == [s[0]] + s[1..][0..|rest[0]|];
        lo := 0;
      } else {
        lo := lo + 1;
      }
    }
  }

  /** The parts with the separator between them. */
  function Join(parts: seq<string>, c: char): string {
    if parts == [] then ""
    else if |parts| == 1 then parts[0]
    else Join(parts[..|parts| - 1], c) + [c] + parts[|parts| - 1]
  }

  /** Parts that hold no separator are recovered from their join. */
  lemma {:induction false} SplitUndoesJoin(parts: seq<string>, c: char)
    requires parts != [] && forall part | part in parts :: c !in part
    ensures Split(Join(parts, c), c) == parts
    decreases |parts|
  {
    var init, last := parts[..|parts| - 1], parts[|parts| - 1];
    SplitPiece(last, c);
    SplitLast(parts);
    if |parts| > 1 {
      SplitUndoesJoin(init, c);
      SplitConcat(Join(init, c), c, last);
    }
  }

  // ---------------------------------------------------------------- trimming

  predicate IsSpace(c: char) {
    || c == '\t' || c == '\n' || c == '\r' || c == ' ' || c == 11 as char || c == 12 as char
    || c == 0x85 as char || c == 0xA0 as char || c == 0x1680 as char
    || 0x2000 as char <= c <= 0x200A as char
    || c == 0x2028 as char || c == 0x2029 as char || c == 0x202F as char || c == 0x205F as char || c == 0x3000 as char
  }

  /** The lines that start and end the block. */
  /** What is trimmed off a text. */
  datatype Cutset = Newlines | Whitespace

  predicate Cut(c: char, cutset: Cutset) {
    if cutset == Newlines then c == '\n' else IsSpace(c)
  }

  /** The first place from i on that is not to be cut. */
  function CutFrom(s: string, cutset: Cutset, i: nat): (k: nat)
    requires i <= |s|
    ensures i <= k <= |s| && (k < |s| ==> !Cut(s[k], cutset))
    ensures forall j | i <= j < k :: Cut(s[j], cutset)
    decreases |s| - i
  {
    if i < |s| && Cut(s[i], cutset) then CutFrom(s, cutset, i + 1) else i
  }

  /** The length that is left when cutting back from n. */
  function CutBack(s: string, cutset: Cutset, n: nat): (k: nat)
    requires n <= |s|
    ensures k <= n && (k > 0 ==> !Cut(s[k - 1], cutset))
    ensures forall j | k <= j < n :: Cut(s[j], cutset)
  {
    if n > 0 && Cut(s[n - 1], cutset) then CutBack(s, cutset, n - 1) else n
  }

  function TrimLeft(s: string, cutset: Cutset): string {
    s[CutFrom(s, cutset, 0)..]
  }

  function TrimRight(s: string, cutset: Cutset): string {
    s[..CutBack(s, cutset, |s|)]
  }

  function TrimSpace(s: string): string {
    TrimRight(TrimLeft(s, Whitespace), Whitespace)
  }
}
