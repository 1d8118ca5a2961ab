/** Lexicographic order on address strings, the order of a ring that starts at one address, searching and sorting. */
module AddressOrder {
  import opened Collections

  predicate Less(a: string, b: string) {
    b != [] && (a == [] || a[0] < b[0] || (a[0] == b[0] && Less(a[1..], b[1..])))
  }

  lemma {:induction false} LessTotal(a: string, b: string)
    ensures a == b ==> !Less(a, b)
    ensures a != b ==> Less(a, b) != Less(b, a)
  {
    if a != [] && b != [] && a[0] == b[0] {
      LessTotal(a[1..], b[1..]);
      assert a == [a[0]] + a[1..] && b == [b[0]] + b[1..];
    }
  }

  lemma {:induction false} LessTransitive(a: string, b: string, c: string)
    requires Less(a, b) && Less(b, c)
    ensures Less(a, c)
  {
    if a != [] && a[0] == b[0] == c[0] {
      LessTransitive(a[1..], b[1..], c[1..]);
    }
  }

  /** The first address at or after `start`, wrapping around: addresses below `start` come last. */
  predicate RingLess(start: string, a: string, b: string) {
    if Less(a, start) == Less(b, start) then Less(a, b) else Less(b, start)
  }

  /** Both orders are total, for use where many comparisons are in play. */
  lemma OrderFacts()
    ensures forall a, b {:trigger Less(a, b)} :: if a == b then !Less(a, b) else Less(a, b) != Less(b, a)
    ensures forall a, b, c {:trigger Less(a, b), Less(b, c)} :: Less(a, b) && Less(b, c) ==> Less(a, c)
  {
    forall a, b ensures if a == b then !Less(a, b) else Less(a, b) != Less(b, a) { LessTotal(a, b); }
    forall a, b, c | Less(a, b) && Less(b, c) ensures Less(a, c) { LessTransitive(a, b, c); }
  }

  lemma RingFacts(s: string)
    ensures forall a, b {:trigger RingLess(s, a, b)} :: if a == b then !RingLess(s, a, b) else RingLess(s, a, b) != RingLess(s, b, a)
    ensures forall a, b, c {:trigger RingLess(s, a, b), RingLess(s, b, c)} ::
      RingLess(s, a, b) && RingLess(s, b, c) ==> RingLess(s, a, c)
    ensures forall a {:trigger RingLess(s, s, a)} :: a != s ==> RingLess(s, s, a)
  {
    hide Less;
    OrderFacts();
  }

  predicate Ascending(xs: seq<string>) {
    forall i, j :: 0 <= i < j < |xs| ==> Less(xs[i], xs[j])
  }

  /** A list of distinct addresses in the order of the ring that starts at `start`. */
  predicate InRingOrder(start: string, xs: seq<string>) {
    forall i, j :: 0 <= i < j < |xs| ==> RingLess(start, xs[i], xs[j])
  }

  /** A set of addresses has one arrangement in ring order. */
  lemma {:induction false} RingOrderUnique(start: string, xs: seq<string>, ys: seq<string>)
    requires InRingOrder(start, xs) && InRingOrder(start, ys) && Elements(xs) == Elements(ys)
    ensures xs == ys
    decreases |xs|
  {
    hide RingLess;
    RingFacts(start);
    if xs == [] {
      NonEmptyElements(ys);
    } else {
      assert xs[0] in Elements(xs) && ys != [];
      FirstIsLeast(start, xs, ys);
      FirstIsLeast(start, ys, xs);
      var h := xs[0];
      assert h == ys[0];
      TailElements(start, xs);
      TailElements(start, ys);
      RingOrderUnique(start, xs[1..], ys[1..]);
      assert xs == [h] + xs[1..] && ys == [h] + ys[1..];
    }
  }

  lemma FirstIsLeast(start: string, xs: seq<string>, ys: seq<string>)
    requires InRingOrder(start, xs) && xs != [] && ys != [] && Elements(xs) == Elements(ys)
    ensures !RingLess(start, ys[0], xs[0])
  {
    hide RingLess;
    RingFacts(start);
    assert ys[0] in Elements(xs);
    var i :| 0 <= i < |xs| && xs[i] == ys[0];
  }

  lemma TailElements(start: string, xs: seq<string>)
    requires InRingOrder(start, xs) && xs != []
    ensures Elements(xs[1..]) == Elements(xs) - {xs[0]} && InRingOrder(start, xs[1..])
  {
    hide RingLess;
    RingFacts(start);
    assert xs == [xs[0]] + xs[1..];
  }

  // ---------------------------------------------------------------- searching and sorting

  /** Go's sort.Search: whatever `f` is, the result is where it turns true after a false. */
  method Search(n: nat, f: int -> bool) returns (i: nat)
    ensures i <= n && (i < n ==> f(i)) && (i > 0 ==> !f(i - 1))
  {
    i := 0;
    var j := n;
    while i < j
      invariant i <= j <= n && (j < n ==> f(j)) && (i > 0 ==> !f(i - 1))
    {
      var h := (i + j) / 2;
      if !f(h) {
        i := h + 1;
      } else {
        j := h;
      }
    }
  }

  /** sort.SearchStrings on a sorted list splits it into the smaller addresses and the others. */
  method SearchStrings(xs: seq<string>, x: string) returns (i: nat)
    requires Ascending(xs)
    ensures i <= |xs|
    ensures forall j :: 0 <= j < i ==> Less(xs[j], x)
    ensures forall j :: i <= j < |xs| ==> !Less(xs[j], x)
  {
    hide Less;
    i := Search(|xs|, v => 0 <= v < |xs| ==> !Less(xs[v], x));
    OrderFacts();
  }

  /** sort.Strings. */
  function Insert(x: string, xs: seq<string>): seq<string> {
    if xs == [] || Less(x, xs[0]) then [x] + xs else [xs[0]] + Insert(x, xs[1..])
  }

  function SortStrings(xs: seq<string>): seq<string> {
    if xs == [] then [] else Insert(xs[0], SortStrings(xs[1..]))
  }

  lemma {:induction false} InsertSorts(x: string, xs: seq<string>)
    requires Ascending(xs) && x !in xs
    ensures Ascending(Insert(x, xs)) && Elements(Insert(x, xs)) == Elements(xs) + {x}
  {
    hide Less;
    OrderFacts();
    if xs != [] && !Less(x, xs[0]) {
      var rest := Insert(x, xs[1..]);
      InsertSorts(x, xs[1..]);
      assert xs == [xs[0]] + xs[1..];
      assert forall y :: y in rest ==> y in Elements(rest);
      assert forall y :: y in rest ==> Less(xs[0], y);
    }
  }

  lemma {:induction false} SortStringsSorts(xs: seq<string>)
    requires Distinct(xs)
    ensures Ascending(SortStrings(xs)) && Elements(SortStrings(xs)) == Elements(xs)
  {
    if xs != [] {
      SortStringsSorts(xs[1..]);
      assert xs == [xs[0]] + xs[1..];
      assert xs[0] !in Elements(xs[1..]);
      InsertSorts(xs[0], SortStrings(xs[1..]));
    }
  }
}
