/** persistence/kvstore: prefix scans over byte keys in sorted order. A byte is a character below 256. */
module KvStore {
  import opened AddressOrder
  import opened Collections

  const MAX_BYTE := '\U{FF}'

  predicate IsBytes(s: string) {
    forall i :: 0 <= i < |s| ==> s[i] <= MAX_BYTE
  }

  /** A byte plus one; never applied to the largest byte. */
  function Increment(c: char): char {
    if c < MAX_BYTE then (c as int + 1) as char else c
  }

  /** The end of the range of keys that start with a prefix; empty when there is no end. */
  function PrefixEndBytes(prefix: string): (end: string)
    requires IsBytes(prefix)
    ensures IsBytes(end)
  {
    if prefix == [] then []
    else if prefix[|prefix| - 1] == MAX_BYTE then PrefixEndBytes(prefix[..|prefix| - 1])
    else prefix[..|prefix| - 1] + [Increment(prefix[|prefix| - 1])]
  }

  lemma BytesOf(p: string, q: string)
    ensures IsBytes(p + q) <==> IsBytes(p) && IsBytes(q)
  {
    assert forall i :: 0 <= i < |p| ==> p[i] == (p + q)[i];
    assert forall i :: 0 <= i < |q| ==> q[i] == (p + q)[|p| + i];
  }

  lemma PrefixEndLast(p: string, d: char)
    requires IsBytes(p + [d])
    ensures IsBytes(p)
    ensures PrefixEndBytes(p + [d]) == if d == MAX_BYTE then PrefixEndBytes(p) else p + [Increment(d)]
  {
    assert (p + [d])[..|p|] == p;
  }

  lemma {:induction false} PrefixEndFront(c: char, p: string)
    requires IsBytes([c] + p)
    ensures IsBytes(p)
    ensures PrefixEndBytes([c] + p) ==
            if PrefixEndBytes(p) != [] then [c] + PrefixEndBytes(p) else if c == MAX_BYTE then [] else [Increment(c)]
    decreases |p|
  {
    hide PrefixEndBytes, IsBytes, Increment;
    BytesOf([c], p);
    if p == [] {
      assert [c] + p == [] + [c];
      PrefixEndLast([], c);
      PrefixEndNone();
    } else {
      var q, d := p[..|p| - 1], p[|p| - 1];
      assert p == q + [d];
      assert [c] + p == ([c] + q) + [d];
      PrefixEndLast(q, d);
      PrefixEndLast([c] + q, d);
      PrefixEndFront(c, q);
    }
  }

  lemma PrefixEndNone()
    ensures IsBytes([]) && PrefixEndBytes([]) == []
  {
  }

  /** [prefix, end) is exactly the set of keys with that prefix. */
  lemma {:induction false} PrefixRange(p: string, k: string)
    requires IsBytes(p) && IsBytes(k)
    ensures p <= k <==> !Less(k, p) && (PrefixEndBytes(p) == [] || Less(k, PrefixEndBytes(p)))
  {
    if p != [] {
      var c, p' := p[0], p[1..];
      assert p == [c] + p';
      PrefixEndFront(c, p');
      if k != [] {
        assert k == [k[0]] + k[1..];
        assert p <= k <==> c == k[0] && p' <= k[1..];
        PrefixRange(p', k[1..]);
        var e := PrefixEndBytes(p');
        assert ([c] + e)[1..] == e;
      }
    }
  }

  // ---------------------------------------------------------------- scans

  /** The keys of a sorted list that start with a prefix. */
  function WithPrefix(keys: seq<string>, prefix: string): seq<string> {
    if keys == [] then []
    else if prefix <= keys[0] then [keys[0]] + WithPrefix(keys[1..], prefix)
    else WithPrefix(keys[1..], prefix)
  }

  function Reverse<T>(xs: seq<T>): (r: seq<T>)
    ensures |r| == |xs| && forall i :: 0 <= i < |xs| ==> r[i] == xs[|xs| - 1 - i]
  {
    if xs == [] then [] else Reverse(xs[1..]) + [xs[0]]
  }

  lemma {:induction false} WithPrefixSplit(a: seq<string>, b: seq<string>, prefix: string)
    ensures WithPrefix(a + b, prefix) == WithPrefix(a, prefix) + WithPrefix(b, prefix)
    decreases |a|
  {
    if a == [] {
      assert a + b == b;
    } else {
      assert (a + b)[1..] == a[1..] + b;
      WithPrefixSplit(a[1..], b, prefix);
    }
  }

  lemma {:induction false} WithPrefixNone(keys: seq<string>, prefix: string)
    requires forall i :: 0 <= i < |keys| ==> !(prefix <= keys[i])
    ensures WithPrefix(keys, prefix) == []
  {
    if keys != [] {
      assert forall i :: 0 <= i < |keys[1..]| ==> keys[1..][i] == keys[i + 1];
      WithPrefixNone(keys[1..], prefix);
    }
  }

  lemma {:induction false} WithPrefixAll(keys: seq<string>, prefix: string)
    requires forall i :: 0 <= i < |keys| ==> prefix <= keys[i]
    ensures WithPrefix(keys, prefix) == keys
  {
    if keys != [] {
      assert forall i :: 0 <= i < |keys[1..]| ==> keys[1..][i] == keys[i + 1];
      WithPrefixAll(keys[1..], prefix);
    }
  }

  /** A block of a list that holds every key with the prefix, and only those, is the filtered list. */
  lemma BlockIsFilter(keys: seq<string>, prefix: string, i: nat, j: nat)
    requires i <= j <= |keys|
    requires forall k :: 0 <= k < |keys| ==> (prefix <= keys[k] <==> i <= k < j)
    ensures WithPrefix(keys, prefix) == keys[i..j]
  {
    assert keys == keys[..i] + (keys[i..j] + keys[j..]);
    WithPrefixSplit(keys[..i], keys[i..j] + keys[j..], prefix);
    WithPrefixSplit(keys[i..j], keys[j..], prefix);
    WithPrefixNone(keys[..i], prefix);
    WithPrefixAll(keys[i..j], prefix);
    WithPrefixNone(keys[j..], prefix);
  }

  lemma {:induction false} WithPrefixSorted(keys: seq<string>, prefix: string)
    requires Ascending(keys)
    ensures Ascending(WithPrefix(keys, prefix))
    ensures forall k :: k in WithPrefix(keys, prefix) <==> k in keys && prefix <= k
  {
    hide Less;
    if keys != [] {
      WithPrefixSorted(keys[1..], prefix);
      assert keys == [keys[0]] + keys[1..];
      var rest := WithPrefix(keys[1..], prefix);
      forall i | 0 <= i < |rest| ensures Less(keys[0], rest[i]) {
        assert rest[i] in keys[1..];
      }
    }
  }

  /** The keys with a prefix lie together in a sorted list, after the smaller and before the larger ones. */
  lemma PrefixBlock(keys: seq<string>, prefix: string, i: nat, k: nat)
    requires Ascending(keys) && IsBytes(prefix) && forall x :: x in keys ==> IsBytes(x)
    requires i <= k < |keys| && !(prefix <= keys[k]) && !Less(keys[i], prefix)
    ensures forall m :: k <= m < |keys| ==> !(prefix <= keys[m])
  {
    hide Less;
    hide PrefixEndBytes;
    OrderFacts();
    forall m | k <= m < |keys| ensures !(prefix <= keys[m]) {
      PrefixRange(prefix, keys[k]);
      PrefixRange(prefix, keys[m]);
    }
  }

  /**
   * When a descending scan of a prefix visits what the ascending one does: it seeks the end of
   * the range, and stops at once if that very key is stored; without an end it seeks the prefix.
   */
  ghost predicate DescendingReaches(keys: seq<string>, prefix: string)
    requires IsBytes(prefix)
  {
    var end := PrefixEndBytes(prefix);
    if end != [] then end !in keys || forall k :: k in keys ==> !(prefix <= k)
    else prefix != [] ==> forall k :: k in keys && prefix <= k ==> k == prefix
  }

  /** The two can differ: storing the key "b" hides every key under "a" from a descending scan. */
  lemma EndKeyHidesPrefix()
    ensures !DescendingReaches(["a", "b"], "a")
  {
    assert "a" in ["a", "b"] && "b" in ["a", "b"];
    assert PrefixEndBytes("a") == "b";
  }

  /** The first `top` keys are those not above the target; an empty target stands for the last key. */
  ghost predicate UpTo(keys: seq<string>, target: string, top: nat) {
    && top <= |keys| && (target == [] ==> top == |keys|)
    && (target != [] ==> (forall j :: 0 <= j < top ==> !Less(target, keys[j])) && (forall j :: top <= j < |keys| ==> Less(target, keys[j])))
  }

  ghost predicate Scanned(keys: seq<string>, prefix: string, i: nat, top: nat) {
    && Ascending(keys) && IsBytes(prefix) && (forall x :: x in keys ==> IsBytes(x))
    && UpTo(keys, if PrefixEndBytes(prefix) == [] then prefix else PrefixEndBytes(prefix), top)
    && i <= top && (forall m :: i <= m < top ==> prefix <= keys[m]) && (i > 0 ==> !(prefix <= keys[i - 1]))
  }

  lemma ReverseCons<T>(x: T, xs: seq<T>)
    ensures Reverse([x] + xs) == Reverse(xs) + [x]
  {
  }

  lemma InReverse<T>(xs: seq<T>, x: T)
    ensures x in Reverse(xs) <==> x in xs
  {
    if x in xs {
      var i :| 0 <= i < |xs| && xs[i] == x;
      assert Reverse(xs)[|xs| - 1 - i] == x;
    }
  }

  lemma ReachedBlock(keys: seq<string>, prefix: string, i: nat, top: nat)
    requires Scanned(keys, prefix, i, top) && DescendingReaches(keys, prefix)
    ensures WithPrefix(keys, prefix) == keys[i..top]
  {
    hide PrefixEndBytes;
    hide Less;
    OrderFacts();
    forall k | 0 <= k < |keys| ensures prefix <= keys[k] <==> i <= k < top {
      PrefixRange(prefix, keys[k]);
      assert keys[k] in keys;
      if k < i {
        PrefixRange(prefix, keys[i - 1]);
        assert keys[i - 1] in keys && (k == i - 1 || Less(keys[k], keys[i - 1]));
      }
    }
    BlockIsFilter(keys, prefix, i, top);
  }

  /** What a descending scan visits that does not reach everything: the prefix itself, if it has no end, or nothing. */
  function Fallback(keys: seq<string>, prefix: string): seq<string>
    requires IsBytes(prefix)
  {
    if PrefixEndBytes(prefix) == [] && prefix in keys then [prefix] else []
  }

  lemma FallbackReversed(keys: seq<string>, prefix: string)
    requires IsBytes(prefix)
    ensures Reverse(Fallback(keys, prefix)) == Fallback(keys, prefix)
  {
  }

  lemma FallbackBlock(keys: seq<string>, prefix: string, i: nat, top: nat)
    requires Scanned(keys, prefix, i, top) && !DescendingReaches(keys, prefix)
    ensures keys[i..top] == Fallback(keys, prefix)
  {
    hide PrefixEndBytes, Less;
    OrderFacts();
    var end := PrefixEndBytes(prefix);
    if end != [] {
      PrefixRange(prefix, end);
      var e :| 0 <= e < |keys| && keys[e] == end;
      assert e < top && !Less(end, keys[top - 1]);
      assert e == top - 1;
    } else {
      forall k | 0 <= k < |keys| ensures i <= k < top <==> keys[k] == prefix {
        PrefixRange(prefix, keys[k]);
        assert k < i - 1 ==> Less(keys[k], keys[i - 1]);
      }
      OnlyOne(keys, i, top, prefix);
    }
  }

  lemma SameKey(keys: seq<string>, a: nat, b: nat)
    requires Ascending(keys) && a <= b < |keys| && keys[a] == keys[b]
    ensures a == b
  {
    LessTotal(keys[a], keys[b]);
  }

  lemma OnlyOne(keys: seq<string>, i: nat, top: nat, x: string)
    requires Ascending(keys) && i <= top <= |keys| && forall k :: 0 <= k < |keys| ==> (i <= k < top <==> keys[k] == x)
    ensures keys[i..top] == if x in keys then [x] else []
  {
    assert i < top ==> keys[i] in keys;
    if x in keys {
      var p :| 0 <= p < |keys| && keys[p] == x;
      SameKey(keys, i, p);
      SameKey(keys, p, top - 1);
      assert keys[i..top] == [keys[p]];
    }
  }

  /** A key under the prefix that the descending scan did not visit. */
  lemma MissedKey(keys: seq<string>, prefix: string, i: nat, top: nat) returns (missed: string)
    requires Scanned(keys, prefix, i, top) && !DescendingReaches(keys, prefix)
    ensures missed in keys && prefix <= missed && missed !in keys[i..top]
  {
    hide PrefixEndBytes;
    hide Less;
    OrderFacts();
    var end := PrefixEndBytes(prefix);
    if end != [] {
      missed :| missed in keys && prefix <= missed;
      PrefixRange(prefix, missed);
      PrefixRange(prefix, end);
      var e :| 0 <= e < |keys| && keys[e] == end;
      assert e < top && !Less(end, keys[top - 1]);
      assert e == top - 1;
    } else {
      missed :| missed in keys && prefix <= missed && missed != prefix;
      PrefixRange(prefix, missed);
      var j :| 0 <= j < |keys| && keys[j] == missed;
    }
  }

  lemma ReverseNone<T>(xs: seq<T>, i: nat)
    requires i <= |xs|
    ensures Reverse(xs[i..i]) == []
  {
  }

  lemma BackwardLaw(keys: seq<string>, prefix: string, i: nat, top: nat)
    requires Scanned(keys, prefix, i, top)
    ensures Reverse(keys[i..top]) == Reverse(WithPrefix(keys, prefix)) <==> DescendingReaches(keys, prefix)
  {
    hide Less;
    hide PrefixEndBytes;
    if DescendingReaches(keys, prefix) {
      ReachedBlock(keys, prefix, i, top);
    } else {
      var missed := MissedKey(keys, prefix, i, top);
      WithPrefixSorted(keys, prefix);
      InReverse(WithPrefix(keys, prefix), missed);
      InReverse(keys[i..top], missed);
    }
  }

  class KVStore<V> {
    var keys: seq<string>
    var data: map<string, V>

    ghost predicate Valid()
      reads this
    {
      && Ascending(keys) && Elements(keys) == data.Keys
      && forall k :: k in keys ==> IsBytes(k)
    }

    constructor ()
      ensures Valid() && data == map[]
    {
      keys, data := [], map[];
    }

    method Set(key: string, value: V)
      requires Valid() && IsBytes(key)
      modifies this
      ensures Valid() && data == old(data)[key := value]
    {
      if key !in data {
        assert key !in Elements(keys);
        InsertSorts(key, keys);
        keys := Insert(key, keys);
        assert forall k :: k in keys ==> k in Elements(keys);
      }
      data := data[key := value];
    }

    /** A reverse iterator seeks the largest key that is not above the target. */
    method SeekReverse(target: string) returns (top: nat)
      requires Valid()
      ensures UpTo(keys, target, top)
    {
      hide Less;
      if target == [] { return |keys|; }
      OrderFacts();
      top := SearchStrings(keys, target);
      if top < |keys| && keys[top] == target { top := top + 1; }
    }

    ghost predicate ValuesOf(ks: seq<string>, vs: seq<V>)
      reads this
    {
      |vs| == |ks| && forall i :: 0 <= i < |ks| ==> ks[i] in data && vs[i] == data[ks[i]]
    }

    /** Keys and values under a prefix. The iterator is valid only on keys with the prefix. */
    method GetAll(prefix: string, descending: bool) returns (ks: seq<string>, vs: seq<V>)
      requires Valid() && IsBytes(prefix)
      ensures !descending ==> ks == WithPrefix(keys, prefix)
      ensures descending ==> (ks == Reverse(WithPrefix(keys, prefix)) <==> DescendingReaches(keys, prefix))
      ensures descending && !DescendingReaches(keys, prefix) ==> ks == Fallback(keys, prefix)
      ensures ValuesOf(ks, vs)
    {
      if descending {
        ks, vs := ScanBackward(prefix, PrefixEndBytes(prefix));
      } else {
        ks, vs := ScanForward(prefix);
      }
    }

    method ScanForward(prefix: string) returns (ks: seq<string>, vs: seq<V>)
      requires Valid() && IsBytes(prefix)
      ensures ks == WithPrefix(keys, prefix) && ValuesOf(ks, vs)
    {
      hide Less;
      hide WithPrefix;
      ks, vs := [], [];
      var start := SearchStrings(keys, prefix);
      var i := start;
      while i < |keys| && prefix <= keys[i]
        invariant start <= i <= |keys| && ks == keys[start..i] && ValuesOf(ks, vs)
        invariant forall m :: start <= m < i ==> prefix <= keys[m]
      {
        assert keys[i] in Elements(keys);
        ks, vs := ks + [keys[i]], vs + [data[keys[i]]];
        i := i + 1;
      }
      ScanIsFilter(prefix, start, i);
    }

    method ScanBackward(prefix: string, end: string) returns (ks: seq<string>, vs: seq<V>)
      requires Valid() && IsBytes(prefix) && end == PrefixEndBytes(prefix)
      ensures ks == Reverse(WithPrefix(keys, prefix)) <==> DescendingReaches(keys, prefix)
      ensures !DescendingReaches(keys, prefix) ==> ks == Fallback(keys, prefix)
      ensures ValuesOf(ks, vs)
    {
      hide Less;
      hide PrefixEndBytes;
      hide Reverse;
      hide WithPrefix;
      hide DescendingReaches;
      ks, vs := [], [];
      var top := SeekReverse(if end == [] then prefix else end);
      var i := top;
      ReverseNone(keys, top);
      while i > 0 && prefix <= keys[i - 1]
        invariant 0 <= i <= top && ks == Reverse(keys[i..top]) && ValuesOf(ks, vs)
        invariant forall m :: i <= m < top ==> prefix <= keys[m]
      {
        i := i - 1;
        assert keys[i] in Elements(keys);
        ReverseCons(keys[i], keys[i + 1..top]);
        assert keys[i..top] == [keys[i]] + keys[i + 1..top];
        ks, vs := ks + [keys[i]], vs + [data[keys[i]]];
      }
      BackwardLaw(keys, prefix, i, top);
      if !DescendingReaches(keys, prefix) {
        FallbackBlock(keys, prefix, i, top);
        FallbackReversed(keys, prefix);
      }
    }

    lemma ScanIsFilter(prefix: string, start: nat, i: nat)
      requires Valid() && IsBytes(prefix) && start <= i <= |keys|
      requires forall j :: 0 <= j < start ==> Less(keys[j], prefix)
      requires forall j :: start <= j < |keys| ==> !Less(keys[j], prefix)
      requires forall m :: start <= m < i ==> prefix <= keys[m]
      requires i < |keys| ==> !(prefix <= keys[i])
      ensures WithPrefix(keys, prefix) == keys[start..i]
    {
      hide PrefixEndBytes;
      hide Less;
      if i < |keys| {
        PrefixBlock(keys, prefix, start, i);
      }
      forall m | 0 <= m < start ensures !(prefix <= keys[m]) { PrefixRange(prefix, keys[m]); }
      BlockIsFilter(keys, prefix, start, i);
    }
  }
}
