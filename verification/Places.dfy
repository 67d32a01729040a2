/** Places in a tree of lists, and the order in which a document holds them. */
module Places {
  import opened Wrappers

  /** An item of the value of a pair. */
  datatype Place = Place(pair: nat, item: nat)

  /** The way to a place: through items that stand for further files. */
  type Way = seq<Place>

  predicate Earlier(p: Place, q: Place) {
    p.pair < q.pair || (p.pair == q.pair && p.item < q.item)
  }

  /** The ways part at the k-th place. */
  predicate PartAt(a: Way, b: Way, k: nat) {
    k < |a| && k < |b| && Earlier(a[k], b[k]) && forall i | 0 <= i < k :: a[i] == b[i]
  }

  /** In front of what stands behind it, and of what it leads through. */
  ghost predicate Before(a: Way, b: Way) {
    a < b || exists k: nat :: PartAt(a, b, k)
  }

  ghost predicate InOrder(ways: seq<Way>) {
    forall i, j | 0 <= i < j < |ways| :: Before(ways[i], ways[j])
  }

  /** Exactly the ways of a set, in the order of the document. */
  ghost predicate Lists(all: iset<Way>, ways: seq<Way>) {
    InOrder(ways) && forall a :: a in all <==> a in ways
  }

  // ---------------------------------------------------------------- the order

  lemma PartTwice(a: Way, b: Way, k: nat, l: nat)
    requires PartAt(a, b, k)
    ensures !PartAt(b, a, l) && !(a < b) && !(b < a) && a != b
  {
  }

  lemma BeforeIsStrict(a: Way, b: Way)
    requires Before(a, b)
    ensures a != b && !Before(b, a)
  {
    if k: nat :| PartAt(a, b, k) {
      forall l: nat
        ensures !PartAt(b, a, l)
      {
        PartTwice(a, b, k, l);
      }
    }
    if l: nat :| PartAt(b, a, l) {
      PartTwice(b, a, l, 0);
    }
  }

  lemma BeforeUnder(p: Place, a: Way, b: Way)
    requires Before(a, b)
    ensures Before([p] + a, [p] + b)
  {
    if k: nat :| PartAt(a, b, k) {
      assert PartAt([p] + a, [p] + b, k + 1);
    }
  }

  // ---------------------------------------------------------------- parts of a document

  /** The way begins from the one place on and before the other. */
  predicate BeginsIn(from: Place, to: Place, a: Way) {
    a != [] && !Earlier(a[0], from) && Earlier(a[0], to)
  }

  ghost function Part(all: iset<Way>, from: Place, to: Place): iset<Way> {
    iset a | a in all && BeginsIn(from, to, a)
  }

  lemma NothingListed(all: iset<Way>, from: Place, to: Place)
    requires forall a | a in all :: !BeginsIn(from, to, a)
    ensures Lists(Part(all, from, to), [])
  {
  }

  lemma PartsListed(all: iset<Way>, from: Place, mid: Place, to: Place, front: seq<Way>, back: seq<Way>)
    requires !Earlier(mid, from) && !Earlier(to, mid)
    requires Lists(Part(all, from, mid), front) && Lists(Part(all, mid, to), back)
    ensures Lists(Part(all, from, to), front + back)
  {
    var ways := front + back;
    forall i, j | 0 <= i < j < |ways|
      ensures Before(ways[i], ways[j])
    {
      if i < |front| && j >= |front| {
        assert front[i] in Part(all, from, mid) && back[j - |front|] in Part(all, mid, to);
        assert PartAt(ways[i], ways[j], 0);
      }
    }
    forall a
      ensures a in Part(all, from, to) <==> a in ways
    {
      assert a in ways <==> a in front || a in back;
      assert a in Part(all, from, to) <==> a in Part(all, from, mid) || a in Part(all, mid, to);
    }
  }

  function Under(p: Place, ways: seq<Way>): seq<Way> {
    seq(|ways|, i requires 0 <= i < |ways| => [p] + ways[i])
  }

  /** What stands under one place is what stands in the file that it stands for. */
  lemma ListedUnder(all: iset<Way>, p: Place, below: iset<Way>, ways: seq<Way>)
    requires Lists(below, ways) && forall a :: a in below <==> [p] + a in all
    ensures Lists(Part(all, p, Place(p.pair, p.item + 1)), Under(p, ways))
  {
    var under := Under(p, ways);
    forall i, j | 0 <= i < j < |under|
      ensures Before(under[i], under[j])
    {
      BeforeUnder(p, ways[i], ways[j]);
    }
    forall a
      ensures a in Part(all, p, Place(p.pair, p.item + 1)) <==> a in under
    {
      if a in Part(all, p, Place(p.pair, p.item + 1)) {
        assert a == [p] + a[1..];
        assert a[1..] in below;
        var i :| 0 <= i < |ways| && ways[i] == a[1..];
        assert under[i] == a;
      }
      if i :| 0 <= i < |under| && under[i] == a {
        assert ways[i] in below;
      }
    }
  }

  lemma ListedIsEmptyIff(all: iset<Way>, ways: seq<Way>)
    requires Lists(all, ways)
    ensures ways == [] <==> all == iset{}
  {
    if ways != [] {
      assert ways[0] in all;
    }
  }

  lemma ListedBehindRoot(all: iset<Way>, n: nat, ways: seq<Way>)
    requires Lists(Part(all, Place(0, 0), Place(n, 0)), ways)
    requires [] in all && forall a: Way | a in all && a != [] :: a[0].pair < n
    ensures Lists(all, [[]] + ways)
  {
    var more := [[]] + ways;
    forall i, j | 0 <= i < j < |more|
      ensures Before(more[i], more[j])
    {
      if i == 0 {
        assert more[j] == ways[j - 1] && ways[j - 1] in Part(all, Place(0, 0), Place(n, 0));
      } else {
        assert more[i] == ways[i - 1] && more[j] == ways[j - 1];
      }
    }
    forall a
      ensures a in all <==> a in more
    {
      assert a in more <==> a == [] || a in ways;
    }
  }

  // ---------------------------------------------------------------- what stands at a place

  /** The ways at which something stands. */
  ghost function Defined<T>(f: Way -> Option<T>): iset<Way> {
    iset way | f(way).Some?
  }

  ghost predicate Gives<T>(f: Way -> Option<T>, ways: seq<Way>, values: seq<T>) {
    |ways| == |values| && forall i | 0 <= i < |ways| :: f(ways[i]) == Some(values[i])
  }

  /** Everything that stands in a part of the document, in order. */
  ghost predicate PartHolds<T>(f: Way -> Option<T>, from: Place, to: Place, ways: seq<Way>, values: seq<T>) {
    Lists(Part(Defined(f), from, to), ways) && Gives(f, ways, values)
  }

  /** Everything that stands in the document, in order. */
  ghost predicate Holds<T>(f: Way -> Option<T>, ways: seq<Way>, values: seq<T>) {
    Lists(Defined(f), ways) && Gives(f, ways, values)
  }

  lemma PartsHold<T>(f: Way -> Option<T>, from: Place, mid: Place, to: Place, front: seq<Way>, back: seq<Way>,
                     a: seq<T>, b: seq<T>)
    requires !Earlier(mid, from) && !Earlier(to, mid)
    requires PartHolds(f, from, mid, front, a) && PartHolds(f, mid, to, back, b)
    ensures PartHolds(f, from, to, front + back, a + b)
  {
    PartsListed(Defined(f), from, mid, to, front, back);
  }

  lemma NothingHeld<T>(f: Way -> Option<T>, from: Place, to: Place)
    requires forall way | f(way).Some? :: !BeginsIn(from, to, way)
    ensures PartHolds(f, from, to, [], [])
  {
    NothingListed(Defined(f), from, to);
  }

  lemma OneHeld<T>(f: Way -> Option<T>, p: Place, value: T)
    requires forall a :: f([p] + a) == if a == [] then Some(value) else None
    ensures PartHolds(f, p, Place(p.pair, p.item + 1), Under(p, [[]]), [value])
  {
    forall a
      ensures a in iset{[]} <==> [p] + a in Defined(f)
    {
    }
    assert InOrder([[]]);
    ListedUnder(Defined(f), p, iset{[]}, [[]]);
    assert [p] + [] == [p] && f([p] + []) == Some(value);
  }

  lemma HeldUnder<T>(f: Way -> Option<T>, p: Place, g: Way -> Option<T>, ways: seq<Way>, values: seq<T>)
    requires Holds(g, ways, values) && forall a :: f([p] + a) == g(a)
    ensures PartHolds(f, p, Place(p.pair, p.item + 1), Under(p, ways), values)
  {
    forall a
      ensures a in Defined(g) <==> [p] + a in Defined(f)
    {
      assert f([p] + a) == g(a);
    }
    ListedUnder(Defined(f), p, Defined(g), ways);
    forall i | 0 <= i < |ways|
      ensures f(Under(p, ways)[i]) == Some(values[i])
    {
      assert f([p] + ways[i]) == g(ways[i]);
    }
  }

  /** A part that holds everything. */
  lemma AllHeld<T>(f: Way -> Option<T>, n: nat, ways: seq<Way>, values: seq<T>)
    requires PartHolds(f, Place(0, 0), Place(n, 0), ways, values)
    requires forall a: Way | f(a).Some? :: a != [] && a[0].pair < n
    ensures Holds(f, ways, values)
  {
    assert Defined(f) == Part(Defined(f), Place(0, 0), Place(n, 0));
  }

  /** The document itself comes in front of everything in it. */
  lemma HeldBehindRoot<T>(f: Way -> Option<T>, n: nat, ways: seq<Way>, values: seq<T>, root: T)
    requires PartHolds(f, Place(0, 0), Place(n, 0), ways, values)
    requires f([]) == Some(root) && forall a: Way | f(a).Some? && a != [] :: a[0].pair < n
    ensures Holds(f, [[]] + ways, [root] + values)
  {
    ListedBehindRoot(Defined(f), n, ways);
  }
}
