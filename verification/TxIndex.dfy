/** persistence/indexer: transactions by hash, by height, by sender and by recipient over one key-value store. */
module TxIndex {
  import opened AddressOrder
  import opened Collections
  import opened Common
  import opened KvStore

  const HASH_PREFIX := 'h'
  const HEIGHT_PREFIX := 'b'
  const SENDER_PREFIX := 's'
  const RECIPIENT_PREFIX := 'r'

  datatype Tx = Tx(height: nat, index: nat, signer: string, recipient: string, bytes: string)

  /** A stored transaction, or the hash key under which one is stored. */
  datatype Record = Stored(tx: Tx) | HashKey(key: string)

  /** What the index uses from outside: the hash of a transaction in hex and the ordered number encoding. */
  datatype Codec = Codec(hash: Tx -> string, enc: nat -> string)

  /** Encoded numbers compare as the numbers do and use no byte at or below the separator. */
  ghost predicate Ordered(enc: nat -> string) {
    && (forall m, n {:trigger enc(m), enc(n)} :: m < n ==> Less(enc(m), enc(n)))
    && (forall n {:trigger enc(n)} :: IsBytes(enc(n)) && forall i :: 0 <= i < |enc(n)| ==> enc(n)[i] > '/')
  }

  ghost predicate GoodCodec(c: Codec) {
    Ordered(c.enc) && forall t {:trigger c.hash(t)} :: IsBytes(c.hash(t))
  }

  // ---------------------------------------------------------------- keys

  function Prefix(kind: char, a: string): string {
    [kind, '/'] + a + "/"
  }

  function HashKeyOf(c: Codec, t: Tx): string {
    [HASH_PREFIX, '/'] + c.hash(t)
  }

  /** What a transaction is filed under in one of the three ordered indexes. */
  function NameOf(c: Codec, kind: char, t: Tx): string {
    if kind == HEIGHT_PREFIX then c.enc(t.height) else if kind == SENDER_PREFIX then t.signer else t.recipient
  }

  function Place(c: Codec, t: Tx): string {
    c.enc(t.height) + "/" + c.enc(t.index)
  }

  function KeyOf(c: Codec, kind: char, t: Tx): string {
    Prefix(kind, NameOf(c, kind, t)) + if kind == HEIGHT_PREFIX then c.enc(t.index) else Place(c, t)
  }

  predicate IsKind(kind: char) {
    kind == HEIGHT_PREFIX || kind == SENDER_PREFIX || kind == RECIPIENT_PREFIX
  }

  /** An empty sender or recipient is not filed. */
  predicate Filed(c: Codec, kind: char, t: Tx) {
    kind == HEIGHT_PREFIX || NameOf(c, kind, t) != ""
  }

  predicate SlashFree(t: Tx) {
    NoSlash(t.signer) && NoSlash(t.recipient) && IsBytes(t.signer) && IsBytes(t.recipient)
  }

  lemma {:induction false} CommonPrefixOrder(p: string, a: string, b: string)
    ensures Less(p + a, p + b) <==> Less(a, b)
    decreases |p|
  {
    if p == [] {
      assert p + a == a && p + b == b;
    } else {
      assert (p + a)[1..] == p[1..] + a && (p + b)[1..] == p[1..] + b;
      CommonPrefixOrder(p[1..], a, b);
    }
  }

  /** Before the separator the smaller of two encoded numbers decides, also when it begins the other. */
  lemma {:induction false} SeparatorOrder(a: string, b: string, x: string, y: string)
    requires Less(a, b) && forall i :: 0 <= i < |b| ==> b[i] > '/'
    ensures Less(a + "/" + x, b + "/" + y)
    decreases |a|
  {
    if a == [] {
      assert (a + "/" + x)[0] == '/' && (b + "/" + y)[0] == b[0];
    } else if a[0] == b[0] {
      assert (a + "/" + x)[1..] == a[1..] + "/" + x && (b + "/" + y)[1..] == b[1..] + "/" + y;
      SeparatorOrder(a[1..], b[1..], x, y);
    }
  }

  predicate Earlier(t: Tx, u: Tx) {
    t.height < u.height || (t.height == u.height && t.index < u.index)
  }

  lemma PlaceOrder(c: Codec, t: Tx, u: Tx)
    requires GoodCodec(c) && Earlier(t, u)
    ensures Less(Place(c, t), Place(c, u))
  {
    hide Less;
    if t.height < u.height {
      SeparatorOrder(c.enc(t.height), c.enc(u.height), c.enc(t.index), c.enc(u.index));
    } else {
      CommonPrefixOrder(c.enc(t.height) + "/", c.enc(t.index), c.enc(u.index));
    }
  }

  /** A prefix with a slash-free name matches exactly the keys of that kind and name. */
  lemma PrefixMatches(kind: char, a: string, kind': char, a': string, rest: string)
    requires NoSlash(a) && NoSlash(a')
    ensures Prefix(kind, a) <= Prefix(kind', a') + rest <==> kind == kind' && a == a'
  {
    var p, k := Prefix(kind, a), Prefix(kind', a') + rest;
    assert p[2 + |a|] == '/' && k[2 + |a'|] == '/';
    assert forall i :: 0 <= i < |a| ==> p[2 + i] == a[i];
    assert forall i :: 0 <= i < |a'| ==> k[2 + i] == a'[i];
    if p <= k {
      assert p[0] == k[0];
      assert |a| == |a'|;
      assert a == p[2..2 + |a|] && a' == k[2..2 + |a'|];
    }
    if kind == kind' && a == a' {
      assert k[..|p|] == p;
    }
  }

  lemma NamesAreSlashFree(c: Codec, kind: char, t: Tx)
    requires GoodCodec(c) && IsKind(kind) && SlashFree(t)
    ensures NoSlash(NameOf(c, kind, t)) && IsBytes(KeyOf(c, kind, t))
  {
  }

  /** Within one name, keys are in the order of height and index. */
  lemma KeyOrder(c: Codec, kind: char, t: Tx, u: Tx)
    requires GoodCodec(c) && IsKind(kind) && NameOf(c, kind, t) == NameOf(c, kind, u)
    ensures Earlier(t, u) ==> Less(KeyOf(c, kind, t), KeyOf(c, kind, u))
    ensures Less(KeyOf(c, kind, t), KeyOf(c, kind, u)) ==> Earlier(t, u)
    ensures KeyOf(c, kind, t) == KeyOf(c, kind, u) ==> t.height == u.height && t.index == u.index
  {
    hide Less;
    OrderFacts();
    var p := Prefix(kind, NameOf(c, kind, t));
    if kind == HEIGHT_PREFIX {
      assert t.height == u.height;
      CommonPrefixOrder(p, c.enc(t.index), c.enc(u.index));
      CommonPrefixOrder(p, c.enc(u.index), c.enc(t.index));
    } else {
      CommonPrefixOrder(p, Place(c, t), Place(c, u));
      CommonPrefixOrder(p, Place(c, u), Place(c, t));
      if Earlier(t, u) { PlaceOrder(c, t, u); }
      if Earlier(u, t) { PlaceOrder(c, u, t); }
    }
  }

  /** Keys of transactions at different places never coincide. */
  lemma KeysDiffer(c: Codec, kind: char, kind': char, t: Tx, u: Tx)
    requires GoodCodec(c) && IsKind(kind) && IsKind(kind') && SlashFree(t) && SlashFree(u)
    requires KeyOf(c, kind, t) == KeyOf(c, kind', u)
    ensures kind == kind' && t.height == u.height && t.index == u.index
  {
    NamesAreSlashFree(c, kind, t);
    NamesAreSlashFree(c, kind', u);
    var n, n' := NameOf(c, kind, t), NameOf(c, kind', u);
    assert Prefix(kind, n) <= KeyOf(c, kind, t);
    PrefixMatches(kind, n, kind', n', KeyOf(c, kind', u)[|Prefix(kind', n')|..]);
    assert KeyOf(c, kind', u) == Prefix(kind', n') + KeyOf(c, kind', u)[|Prefix(kind', n')|..];
    KeyOrder(c, kind, t, u);
  }

  /** The end of a name's range is not itself a key. */
  lemma EndIsNoKey(c: Codec, kind: char, a: string, kind': char, u: Tx)
    requires GoodCodec(c) && IsKind(kind) && IsKind(kind') && NoSlash(a) && IsBytes(a) && SlashFree(u)
    ensures IsBytes(Prefix(kind, a))
    ensures PrefixEndBytes(Prefix(kind, a)) != KeyOf(c, kind', u)
    ensures PrefixEndBytes(Prefix(kind, a)) != [] && PrefixEndBytes(Prefix(kind, a))[0] == kind
  {
    var p := Prefix(kind, a);
    var end := PrefixEndBytes(p);
    assert p[..|p| - 1] == [kind, '/'] + a && p[|p| - 1] == '/';
    assert end == [kind, '/'] + a + "0";
    NamesAreSlashFree(c, kind', u);
    var k, n := KeyOf(c, kind', u), NameOf(c, kind', u);
    assert k[2 + |n|] == '/';
    assert forall i :: 0 <= i < |a| ==> end[2 + i] == a[i];
    assert end[2 + |a|] == '0';
  }

  // ---------------------------------------------------------------- what is stored

  function WriteKind(c: Codec, kind: char, t: Tx, data: map<string, Record>): map<string, Record> {
    if Filed(c, kind, t) then data[KeyOf(c, kind, t) := HashKey(HashKeyOf(c, t))] else data
  }

  /** Indexing writes the transaction under its hash and a pointer under each of its ordered keys. */
  function WriteTx(c: Codec, t: Tx, data: map<string, Record>): map<string, Record> {
    var stored := data[HashKeyOf(c, t) := Stored(t)];
    WriteKind(c, RECIPIENT_PREFIX, t, WriteKind(c, SENDER_PREFIX, t, WriteKind(c, HEIGHT_PREFIX, t, stored)))
  }

  /** The store after indexing a log of transactions. */
  function Contents(c: Codec, log: seq<Tx>): map<string, Record> {
    if log == [] then map[] else WriteTx(c, log[|log| - 1], Contents(c, log[..|log| - 1]))
  }

  lemma ContentsNext(c: Codec, log: seq<Tx>, t: Tx)
    ensures Contents(c, log + [t]) == WriteTx(c, t, Contents(c, log))
  {
    assert (log + [t])[..|log|] == log;
  }

  /** The last transaction of the log with a hash, and the last one filed under a key: later writes win. */
  function ByHash(c: Codec, log: seq<Tx>, hash: string): Option<Tx> {
    if log == [] then None
    else if c.hash(log[|log| - 1]) == hash then Some(log[|log| - 1])
    else ByHash(c, log[..|log| - 1], hash)
  }

  function ByKey(c: Codec, log: seq<Tx>, kind: char, key: string): Option<Tx> {
    if log == [] then None
    else if Filed(c, kind, log[|log| - 1]) && KeyOf(c, kind, log[|log| - 1]) == key then Some(log[|log| - 1])
    else ByKey(c, log[..|log| - 1], kind, key)
  }

  lemma FirstChar(c: Codec, kind: char, t: Tx)
    ensures KeyOf(c, kind, t) != [] && KeyOf(c, kind, t)[0] == kind
  {
  }

  predicate SameAt(d: map<string, Record>, data: map<string, Record>, k: string) {
    (k in d <==> k in data) && (k in d ==> d[k] == data[k])
  }

  /** Which keys one transaction writes, and what. */
  lemma WriteTxAt(c: Codec, t: Tx, data: map<string, Record>, k: string)
    requires k != []
    ensures k[0] == HASH_PREFIX ==>
      var d := WriteTx(c, t, data);
      if k == HashKeyOf(c, t) then k in d && d[k] == Stored(t) else SameAt(d, data, k)
    ensures IsKind(k[0]) ==>
      var d := WriteTx(c, t, data);
      if Filed(c, k[0], t) && k == KeyOf(c, k[0], t) then k in d && d[k] == HashKey(HashKeyOf(c, t)) else SameAt(d, data, k)
  {
    hide KeyOf, Filed;
    FirstChar(c, HEIGHT_PREFIX, t);
    FirstChar(c, SENDER_PREFIX, t);
    FirstChar(c, RECIPIENT_PREFIX, t);
    assert HashKeyOf(c, t)[0] == HASH_PREFIX;
  }

  /** Under a hash key lies the last transaction with that hash. */
  lemma {:induction false} StoredByHash(c: Codec, log: seq<Tx>, hash: string)
    ensures var d, k := Contents(c, log), [HASH_PREFIX, '/'] + hash;
      (k in d <==> ByHash(c, log, hash).Some?) && (k in d ==> d[k] == Stored(ByHash(c, log, hash).value))
  {
    hide WriteTx;
    if log != [] {
      var n := |log| - 1;
      StoredByHash(c, log[..n], hash);
      var k := [HASH_PREFIX, '/'] + hash;
      WriteTxAt(c, log[n], Contents(c, log[..n]), k);
      assert k == HashKeyOf(c, log[n]) <==> hash == c.hash(log[n]) by {
        assert k[2..] == hash && HashKeyOf(c, log[n])[2..] == c.hash(log[n]);
      }
    }
  }

  /** Under an ordered key lies a pointer to the last transaction filed there. */
  lemma {:induction false} StoredByKey(c: Codec, log: seq<Tx>, k: string)
    requires k != [] && IsKind(k[0])
    ensures var d, t := Contents(c, log), ByKey(c, log, k[0], k);
      (k in d <==> t.Some?) && (k in d ==> d[k] == HashKey(HashKeyOf(c, t.value)))
  {
    hide WriteTx, KeyOf, Filed;
    if log != [] {
      var n := |log| - 1;
      StoredByKey(c, log[..n], k);
      WriteTxAt(c, log[n], Contents(c, log[..n]), k);
    }
  }

  lemma {:induction false} OnlyKnownKeys(c: Codec, log: seq<Tx>, k: string)
    requires k in Contents(c, log)
    ensures k != [] && (k[0] == HASH_PREFIX || IsKind(k[0]))
  {
    var n := |log| - 1;
    var before := Contents(c, log[..n]);
    FirstChar(c, HEIGHT_PREFIX, log[n]);
    FirstChar(c, SENDER_PREFIX, log[n]);
    FirstChar(c, RECIPIENT_PREFIX, log[n]);
    if k in before {
      OnlyKnownKeys(c, log[..n], k);
    }
  }

  /** What the last ones are: members of the log with that hash or key, and there if any member has it. */
  lemma {:induction false} LastOnes(c: Codec, log: seq<Tx>, kind: char, t: Tx)
    ensures t in log ==> var u := ByHash(c, log, c.hash(t)); u.Some? && u.value in log && c.hash(u.value) == c.hash(t)
    ensures t in log && Filed(c, kind, t) ==>
      var u := ByKey(c, log, kind, KeyOf(c, kind, t));
      u.Some? && u.value in log && Filed(c, kind, u.value) && KeyOf(c, kind, u.value) == KeyOf(c, kind, t)
  {
    hide KeyOf, Filed;
    if log != [] {
      LastOnes(c, log[..|log| - 1], kind, t);
      assert log == log[..|log| - 1] + [log[|log| - 1]];
    }
  }

  lemma {:induction false} ByKeyIsFiled(c: Codec, log: seq<Tx>, kind: char, k: string)
    ensures var u := ByKey(c, log, kind, k);
      u.Some? ==> u.value in log && Filed(c, kind, u.value) && KeyOf(c, kind, u.value) == k
  {
    hide KeyOf, Filed;
    if log != [] {
      ByKeyIsFiled(c, log[..|log| - 1], kind, k);
    }
  }

  // ---------------------------------------------------------------- what a query answers

  /** Some transaction of the log was filed under a name with this key. */
  ghost predicate FiledUnder(c: Codec, log: seq<Tx>, kind: char, a: string, k: string) {
    exists t :: t in log && Filed(c, kind, t) && NameOf(c, kind, t) == a && KeyOf(c, kind, t) == k
  }

  /** The record found by following a key: the latest with the hash of the last transaction filed there. */
  function Latest(c: Codec, log: seq<Tx>, kind: char, k: string): Option<Tx> {
    var t := ByKey(c, log, kind, k);
    if t.None? then None else ByHash(c, log, c.hash(t.value))
  }

  /** An answer for a name: one record per key filed under it, in key order. */
  ghost predicate Answers(c: Codec, log: seq<Tx>, kind: char, a: string, ks: seq<string>, r: seq<Tx>, descending: bool) {
    && Ascending(if descending then Reverse(ks) else ks)
    && (forall k :: k in ks <==> FiledUnder(c, log, kind, a, k))
    && |r| == |ks| && forall i :: 0 <= i < |ks| ==> Latest(c, log, kind, ks[i]) == Some(r[i])
  }

  /** Two transactions with different hashes at different places. */
  predicate Apart(c: Codec, t: Tx, u: Tx) {
    c.hash(t) != c.hash(u) && (t.height != u.height || t.index != u.index)
  }

  ghost predicate AllApart(c: Codec, log: seq<Tx>) {
    forall t, u :: t in log && u in log && t != u ==> Apart(c, t, u)
  }

  ghost predicate AllSlashFree(log: seq<Tx>) {
    forall t :: t in log ==> SlashFree(t)
  }

  /** Every indexed transaction is found: by its hash, and by following each key it was filed under. */
  ghost predicate AllFound(c: Codec, log: seq<Tx>) {
    forall t :: t in log ==> Found(c, log, t)
  }

  ghost predicate Found(c: Codec, log: seq<Tx>, t: Tx) {
    && ByHash(c, log, c.hash(t)) == Some(t)
    && forall kind :: IsKind(kind) && Filed(c, kind, t) ==> Latest(c, log, kind, KeyOf(c, kind, t)) == Some(t)
  }

  /** Nothing is lost in the index exactly when no two transactions share a hash or a place. */
  lemma AllFoundIff(c: Codec, log: seq<Tx>)
    requires GoodCodec(c) && AllSlashFree(log)
    ensures AllFound(c, log) <==> AllApart(c, log)
  {
    hide KeyOf;
    if AllApart(c, log) {
      forall t | t in log ensures Found(c, log, t) {
        ApartIsFound(c, log, t);
      }
    }
    if AllFound(c, log) {
      forall t, u | t in log && u in log && t != u ensures Apart(c, t, u) {
        assert Found(c, log, t) && Found(c, log, u);
        SamePlaceSameKey(c, t, u);
      }
    }
  }

  lemma SamePlaceSameKey(c: Codec, t: Tx, u: Tx)
    ensures t.height == u.height && t.index == u.index ==> KeyOf(c, HEIGHT_PREFIX, t) == KeyOf(c, HEIGHT_PREFIX, u)
  {
  }

  lemma ApartIsFound(c: Codec, log: seq<Tx>, t: Tx)
    requires GoodCodec(c) && AllSlashFree(log) && AllApart(c, log) && t in log
    ensures Found(c, log, t)
  {
    hide KeyOf, Filed, GoodCodec;
    LastOnes(c, log, HEIGHT_PREFIX, t);
    assert ByHash(c, log, c.hash(t)).value == t;
    forall kind | IsKind(kind) && Filed(c, kind, t) ensures Latest(c, log, kind, KeyOf(c, kind, t)) == Some(t) {
      LastOnes(c, log, kind, t);
      var u := ByKey(c, log, kind, KeyOf(c, kind, t)).value;
      KeysDiffer(c, kind, kind, u, t);
      assert u != t ==> Apart(c, u, t);
    }
  }

  /** What a query for one name must return: the transactions filed under it. */
  ghost function Filing(c: Codec, log: seq<Tx>, kind: char, a: string): set<Tx> {
    set t | t in log && Filed(c, kind, t) && NameOf(c, kind, t) == a
  }

  ghost predicate InOrder(r: seq<Tx>, descending: bool) {
    forall i, j :: 0 <= i < j < |r| ==> if descending then Earlier(r[j], r[i]) else Earlier(r[i], r[j])
  }

  /** With all transactions apart, an answer is exactly the filed transactions in order of height and index. */
  lemma AnswersAreExact(c: Codec, log: seq<Tx>, kind: char, a: string, ks: seq<string>, r: seq<Tx>, descending: bool)
    requires GoodCodec(c) && IsKind(kind) && AllSlashFree(log) && AllApart(c, log)
    requires Answers(c, log, kind, a, ks, r, descending)
    ensures Elements(r) == Filing(c, log, kind, a) && InOrder(r, descending)
  {
    hide GoodCodec, Less, KeyOf, Filed, NameOf, Reverse, ByKey, ByHash;
    forall i | 0 <= i < |ks| ensures r[i] in Filing(c, log, kind, a) && KeyOf(c, kind, r[i]) == ks[i] {
      assert ks[i] in ks;
      var t :| t in log && Filed(c, kind, t) && NameOf(c, kind, t) == a && KeyOf(c, kind, t) == ks[i];
      ApartIsFound(c, log, t);
      assert Latest(c, log, kind, KeyOf(c, kind, t)) == Some(t);
    }
    forall t | t in Filing(c, log, kind, a) ensures t in Elements(r) {
      assert FiledUnder(c, log, kind, a, KeyOf(c, kind, t));
      var i :| 0 <= i < |ks| && ks[i] == KeyOf(c, kind, t);
      ApartIsFound(c, log, t);
      assert r[i] == t;
    }
    forall i, j | 0 <= i < j < |r| ensures if descending then Earlier(r[j], r[i]) else Earlier(r[i], r[j]) {
      var up := if descending then Reverse(ks) else ks;
      assert r[i] in Filing(c, log, kind, a) && r[j] in Filing(c, log, kind, a);
      if descending {
        assert ks[j] == up[|ks| - 1 - j] && ks[i] == up[|ks| - 1 - i];
        KeyOrder(c, kind, r[j], r[i]);
      } else {
        KeyOrder(c, kind, r[i], r[j]);
      }
    }
  }

  // ---------------------------------------------------------------- scanning one name's range

  /** A stored key lies under a name's prefix exactly when it was filed under that name. */
  lemma StoredUnderName(c: Codec, log: seq<Tx>, kind: char, a: string, k: string)
    requires GoodCodec(c) && IsKind(kind) && AllSlashFree(log) && NoSlash(a)
    ensures k in Contents(c, log) && Prefix(kind, a) <= k <==> FiledUnder(c, log, kind, a, k)
  {
    hide KeyOf, Filed, GoodCodec, Contents;
    if k in Contents(c, log) && Prefix(kind, a) <= k {
      assert k[0] == Prefix(kind, a)[0] == kind;
      StoredByKey(c, log, k);
      ByKeyIsFiled(c, log, kind, k);
      var t := ByKey(c, log, kind, k).value;
      NameFromPrefix(c, kind, a, t);
    }
    if FiledUnder(c, log, kind, a, k) {
      var t :| t in log && Filed(c, kind, t) && NameOf(c, kind, t) == a && KeyOf(c, kind, t) == k;
      LastOnes(c, log, kind, t);
      FirstChar(c, kind, t);
      StoredByKey(c, log, k);
      NameFromPrefix(c, kind, a, t);
    }
  }

  lemma NameFromPrefix(c: Codec, kind: char, a: string, t: Tx)
    requires GoodCodec(c) && IsKind(kind) && NoSlash(a) && SlashFree(t)
    ensures Prefix(kind, a) <= KeyOf(c, kind, t) <==> NameOf(c, kind, t) == a
  {
    NamesAreSlashFree(c, kind, t);
    var n, k := NameOf(c, kind, t), KeyOf(c, kind, t);
    PrefixMatches(kind, a, kind, n, k[|Prefix(kind, n)|..]);
    assert k == Prefix(kind, n) + k[|Prefix(kind, n)|..];
  }

  /** Following a stored key of a name: its pointer leads to the latest record. */
  lemma PointerLeadsToLatest(c: Codec, log: seq<Tx>, kind: char, k: string)
    requires IsKind(kind) && k != [] && k[0] == kind && k in Contents(c, log)
    ensures var d := Contents(c, log);
      && d[k].HashKey? && d[k].key in d && d[d[k].key].Stored?
      && Latest(c, log, kind, k) == Some(d[d[k].key].tx)
  {
    hide KeyOf, Filed, Contents;
    StoredByKey(c, log, k);
    ByKeyIsFiled(c, log, kind, k);
    var t := ByKey(c, log, kind, k).value;
    LastOnes(c, log, kind, t);
    StoredByHash(c, log, c.hash(t));
  }

  lemma NamePrefixReaches(c: Codec, log: seq<Tx>, kind: char, a: string, keys: seq<string>)
    requires GoodCodec(c) && AllSlashFree(log) && IsKind(kind) && NoSlash(a) && IsBytes(a)
    requires forall k :: k in keys ==> k in Contents(c, log)
    ensures IsBytes(Prefix(kind, a)) && DescendingReaches(keys, Prefix(kind, a))
  {
    hide PrefixEndBytes, KeyOf, Filed, Contents, GoodCodec;
    var end := PrefixEndBytes(Prefix(kind, a));
    EndIsNoKey(c, kind, a, kind, Tx(0, 0, "", "", ""));
    if end in keys {
      StoredByKey(c, log, end);
      ByKeyIsFiled(c, log, kind, end);
      EndIsNoKey(c, kind, a, kind, ByKey(c, log, kind, end).value);
    }
  }

  lemma FilingByHeight(c: Codec, log: seq<Tx>, height: nat)
    requires GoodCodec(c)
    ensures Filing(c, log, HEIGHT_PREFIX, c.enc(height)) == set t | t in log && t.height == height
    ensures NoSlash(c.enc(height)) && IsBytes(c.enc(height))
  {
    hide Less;
    OrderFacts();
    assert forall m, n {:trigger c.enc(m), c.enc(n)} :: c.enc(m) == c.enc(n) ==> m == n;
  }

  lemma ReverseTwice<T>(xs: seq<T>)
    ensures Reverse(Reverse(xs)) == xs
  {
  }

  /** The keys that a scan of a name's prefix returns are those of an answer. */
  lemma ScannedKeys(c: Codec, log: seq<Tx>, keys: seq<string>, kind: char, a: string, ks: seq<string>, descending: bool)
    requires GoodCodec(c) && IsKind(kind) && AllSlashFree(log) && NoSlash(a)
    requires Ascending(keys) && Elements(keys) == Contents(c, log).Keys
    requires ks == if descending then Reverse(WithPrefix(keys, Prefix(kind, a))) else WithPrefix(keys, Prefix(kind, a))
    ensures Ascending(if descending then Reverse(ks) else ks)
    ensures forall k :: k in ks <==> FiledUnder(c, log, kind, a, k)
  {
    hide Less, GoodCodec, Contents, WithPrefix, Reverse, FiledUnder;
    var asc := WithPrefix(keys, Prefix(kind, a));
    WithPrefixSorted(keys, Prefix(kind, a));
    ReverseTwice(asc);
    forall k ensures k in ks <==> FiledUnder(c, log, kind, a, k) {
      InReverse(asc, k);
      assert k in keys <==> k in Elements(keys);
      StoredUnderName(c, log, kind, a, k);
    }
  }

  class TxIndexer {
    const codec: Codec
    const db: KVStore<Record>
    ghost var log: seq<Tx>

    /** The store holds what indexing the log wrote. */
    ghost predicate Valid()
      reads this, db
    {
      GoodCodec(codec) && db.Valid() && AllSlashFree(log) && db.data == Contents(codec, log)
    }

    constructor (c: Codec)
      requires GoodCodec(c)
      ensures Valid() && codec == c && log == [] && fresh(db)
    {
      codec := c;
      db := new KVStore();
      log := [];
    }

    /** File one transaction under its hash, height, sender and recipient; what was there before is overwritten. */
    method Index(t: Tx)
      requires Valid() && SlashFree(t)
      modifies this, db
      ensures Valid() && log == old(log) + [t]
    {
      var hashKey := HashKeyOf(codec, t);
      assert IsBytes(hashKey);
      hide Contents, GoodCodec, WriteKind, SlashFree;
      ContentsNext(codec, log, t);
      db.Set(hashKey, Stored(t));
      IndexUnder(HEIGHT_PREFIX, t, hashKey);
      IndexUnder(SENDER_PREFIX, t, hashKey);
      IndexUnder(RECIPIENT_PREFIX, t, hashKey);
      log := log + [t];
    }

    /** An empty sender or recipient is not filed. */
    method IndexUnder(kind: char, t: Tx, hashKey: string)
      requires GoodCodec(codec) && db.Valid() && IsKind(kind) && SlashFree(t) && hashKey == HashKeyOf(codec, t)
      modifies db
      ensures db.Valid() && db.data == WriteKind(codec, kind, t, old(db.data))
    {
      if kind != HEIGHT_PREFIX && NameOf(codec, kind, t) == "" { return; }
      NamesAreSlashFree(codec, kind, t);
      db.Set(KeyOf(codec, kind, t), HashKey(hashKey));
    }

    /** The last transaction with the hash. */
    method GetByHash(hash: string) returns (r: Option<Tx>)
      requires Valid() && IsBytes(hash)
      ensures r == ByHash(codec, log, hash)
    {
      hide Contents;
      StoredByHash(codec, log, hash);
      var key := [HASH_PREFIX, '/'] + hash;
      if key !in db.data { return None; }
      r := Some(db.data[key].tx);
    }

    method GetByHeight(height: nat, descending: bool) returns (r: seq<Tx>, ghost ks: seq<string>)
      requires Valid()
      ensures Answers(codec, log, HEIGHT_PREFIX, codec.enc(height), ks, r, descending)
      ensures AllApart(codec, log) ==> Elements(r) == (set t | t in log && t.height == height) && InOrder(r, descending)
    {
      hide GoodCodec, Contents, Answers, AllApart, InOrder;
      FilingByHeight(codec, log, height);
      r, ks := Query(HEIGHT_PREFIX, codec.enc(height), descending);
    }

    /** Transactions without a signer are not found under any sender. */
    method GetBySender(sender: string, descending: bool) returns (r: seq<Tx>, ghost ks: seq<string>)
      requires Valid() && NoSlash(sender) && IsBytes(sender)
      ensures Answers(codec, log, SENDER_PREFIX, sender, ks, r, descending)
      ensures AllApart(codec, log) ==> Elements(r) == (set t | t in log && t.signer == sender != "") && InOrder(r, descending)
    {
      hide GoodCodec, Contents, Answers, AllApart, InOrder;
      r, ks := Query(SENDER_PREFIX, sender, descending);
    }

    method GetByRecipient(recipient: string, descending: bool) returns (r: seq<Tx>, ghost ks: seq<string>)
      requires Valid() && NoSlash(recipient) && IsBytes(recipient)
      ensures Answers(codec, log, RECIPIENT_PREFIX, recipient, ks, r, descending)
      ensures AllApart(codec, log) ==> Elements(r) == (set t | t in log && t.recipient == recipient != "") && InOrder(r, descending)
    {
      hide GoodCodec, Contents, Answers, AllApart, InOrder;
      r, ks := Query(RECIPIENT_PREFIX, recipient, descending);
    }

    /** Scan one name's range of keys and fetch what each points to. */
    method Query(kind: char, a: string, descending: bool) returns (r: seq<Tx>, ghost ks: seq<string>)
      requires Valid() && IsKind(kind) && NoSlash(a) && IsBytes(a)
      ensures Answers(codec, log, kind, a, ks, r, descending)
      ensures AllApart(codec, log) ==> Elements(r) == Filing(codec, log, kind, a) && InOrder(r, descending)
    {
      hide KeyOf, GoodCodec, Contents, WithPrefix, Reverse, DescendingReaches, PrefixEndBytes, Less, FiledUnder, Latest, AllApart, Filing, InOrder;
      var prefix := Prefix(kind, a);
      assert forall k :: k in db.keys <==> k in Elements(db.keys);
      NamePrefixReaches(codec, log, kind, a, db.keys);
      var scanned, hashKeys := db.GetAll(prefix, descending);
      ks := scanned;
      ScannedKeys(codec, log, db.keys, kind, a, ks, descending);
      r := [];
      for i := 0 to |hashKeys|
        invariant |r| == i && forall j :: 0 <= j < i ==> Latest(codec, log, kind, ks[j]) == Some(r[j])
      {
        assert ks[i] in ks;
        StoredUnderName(codec, log, kind, a, ks[i]);
        assert ks[i][0] == prefix[0] == kind;
        PointerLeadsToLatest(codec, log, kind, ks[i]);
        r := r + [db.data[hashKeys[i].key].tx];
      }
      if AllApart(codec, log) {
        AnswersAreExact(codec, log, kind, a, ks, r, descending);
      }
    }
  }

  // ---------------------------------------------------------------- what the answers mean

  lemma FirstIsEarliest(r: seq<Tx>, r': seq<Tx>)
    requires InOrder(r, false) && r != [] && r' != [] && Elements(r) == Elements(r')
    ensures !Earlier(r'[0], r[0])
  {
    assert r'[0] in Elements(r);
    var i :| 0 <= i < |r| && r[i] == r'[0];
  }

  lemma TailOfOrder(r: seq<Tx>)
    requires InOrder(r, false) && r != []
    ensures InOrder(r[1..], false) && Elements(r[1..]) == Elements(r) - {r[0]}
  {
    assert r == [r[0]] + r[1..];
  }

  /** A set of transactions at different places has one arrangement by height and index. */
  lemma {:induction false} OrderIsUnique(r: seq<Tx>, r': seq<Tx>)
    requires InOrder(r, false) && InOrder(r', false) && Elements(r) == Elements(r')
    ensures r == r'
    decreases |r|
  {
    NonEmptyElements(r);
    NonEmptyElements(r');
    if r != [] {
      FirstIsEarliest(r, r');
      FirstIsEarliest(r', r);
      assert r[0] in Elements(r');
      var j :| 0 <= j < |r'| && r'[j] == r[0];
      assert r[0] == r'[0];
      TailOfOrder(r);
      TailOfOrder(r');
      OrderIsUnique(r[1..], r'[1..]);
      assert r == [r[0]] + r[1..] && r' == [r'[0]] + r'[1..];
    }
  }

  /** The descending answer to a query is the ascending one reversed. */
  lemma DescendingIsReverse(up: seq<Tx>, down: seq<Tx>)
    requires InOrder(up, false) && InOrder(down, true) && Elements(up) == Elements(down)
    ensures down == Reverse(up)
  {
    var r := Reverse(down);
    assert InOrder(r, false);
    forall t ensures t in r <==> t in down { InReverse(down, t); }
    assert Elements(r) == Elements(down);
    OrderIsUnique(up, r);
    ReverseTwice(down);
  }

  function Unary(n: nat): string {
    seq(n, _ => '1')
  }

  /** Encodings as required of a codec exist. */
  lemma UnaryIsOrdered()
    ensures Ordered(Unary)
  {
    forall m: nat, n: nat | m < n ensures Less(Unary(m), Unary(n)) { UnaryOrder(m, n); }
  }

  lemma {:induction false} UnaryOrder(m: nat, n: nat)
    requires m < n
    ensures Less(Unary(m), Unary(n))
  {
    if m > 0 {
      UnaryOrder(m - 1, n - 1);
      assert Unary(m)[1..] == Unary(m - 1) && Unary(n)[1..] == Unary(n - 1);
    }
  }
}
