/** The object identifier registry: the tables `build_oid_registry_data.py` emits, and
    `Lookup_OID`, which searches them. */
module OidRegistry {
  import opened Octets
  import opened Powers
  import OidCodec

  /** A row of `oid_search_table`. */
  datatype Entry = Entry(hash: nat, oid: nat)

  /** `oid_index`, `oid_data` and `oid_search_table`. */
  datatype Registry = Registry(index: seq<nat>, data: seq<Octet>, table: seq<Entry>)

  // ----- the hash -----------------------------------------------------------------------

  /** `a ^ b`. */
  function Xor(a: nat, b: nat): nat
    decreases a + b
  {
    if a == 0 && b == 0 then 0 else 2 * Xor(a / 2, b / 2) + (a + b) % 2
  }

  /** `(h >> 24) ^ (h >> 16) ^ (h >> 8) ^ h`, cut to its low octet. */
  function Fold(h: nat): nat {
    Xor(Xor(Xor(h / 0x1000000 % 256, h / 0x10000 % 256), h / 0x100 % 256), h % 256)
  }

  function Sum(s: seq<Octet>): nat {
    if s == [] then 0 else Sum(s[..|s| - 1]) + s[|s| - 1] as nat * 33
  }

  /** In 32 bits, as the search computes it: length less one plus 33 times each octet. */
  function Hash(s: seq<Octet>): nat {
    Fold((|s| - 1 + Sum(s)) % 0x1_0000_0000)
  }

  lemma {:induction false} LowOctet(q: nat, r: nat)
    ensures (256 * q + r) % 256 == r % 256
  {
  }

  /** Bits above the 32nd do not reach the octets below it. */
  lemma {:induction false} OctetsBelow(q: nat, r: nat)
    ensures var h := 0x1_0000_0000 * q + r;
            && h / 0x1000000 % 256 == r / 0x1000000 % 256 && h / 0x10000 % 256 == r / 0x10000 % 256
            && h / 0x100 % 256 == r / 0x100 % 256 && h % 256 == r % 256
  {
    var h := 0x1_0000_0000 * q + r;
    assert h / 0x1000000 == 256 * q + r / 0x1000000;
    assert h / 0x10000 == 256 * (256 * q) + r / 0x10000;
    assert h / 0x100 == 256 * (0x10000 * q) + r / 0x100;
    LowOctet(q, r / 0x1000000);
    LowOctet(256 * q, r / 0x10000);
    LowOctet(0x10000 * q, r / 0x100);
    LowOctet(0x1000000 * q, r);
  }

  /** Whether the sum has wrapped around at 32 bits makes no difference. */
  lemma {:induction false} FoldWraps(h: nat)
    ensures Fold(h % 0x1_0000_0000) == Fold(h)
  {
    hide Xor;
    OctetsBelow(h / 0x1_0000_0000, h % 0x1_0000_0000);
  }

  // ----- what the hash is ---------------------------------------------------------------

  /** Bit `i` of `n`. */
  function Bit(n: nat, i: nat): nat {
    if i == 0 then n % 2 else Bit(n / 2, i - 1)
  }

  /** All octets together. */
  function Total(s: seq<Octet>): nat {
    if s == [] then 0 else s[0] + Total(s[1..])
  }

  /** The parity of the bits at place `i` of the four octets of a 32-bit number. */
  function Parity(w: nat, i: nat): nat {
    (Bit(w / 0x1000000 % 256, i) + Bit(w / 0x10000 % 256, i) + Bit(w / 0x100 % 256, i) + Bit(w % 256, i)) % 2
  }

  /** `h` is the exclusive-or of the four octets of `w`. */
  ghost predicate FoldsTo(w: nat, h: nat) {
    h < 256 && forall i :: 0 <= i < 8 ==> Bit(h, i) == Parity(w, i)
  }

  /** ... and that number is the length less one and 33 times all octets together. */
  ghost predicate IsHash(s: seq<Octet>, h: nat) {
    FoldsTo((|s| - 1 + 33 * Total(s)) % 0x1_0000_0000, h)
  }

  lemma {:induction false} XorBit(a: nat, b: nat, i: nat)
    ensures Bit(Xor(a, b), i) == (Bit(a, i) + Bit(b, i)) % 2
    decreases i
  {
    if a == 0 && b == 0 {
      ZeroBit(i);
    } else {
      var x := Xor(a / 2, b / 2);
      assert Xor(a, b) == 2 * x + (a + b) % 2;
      hide Xor;
      if i > 0 {
        XorBit(a / 2, b / 2, i - 1);
        BitBehind(x, (a + b) % 2, i);
      }
    }
  }

  lemma {:induction false} BitBehind(x: nat, p: nat, i: nat)
    requires i > 0 && p < 2
    ensures Bit(2 * x + p, i) == Bit(x, i - 1)
  {
    assert (2 * x + p) / 2 == x;
  }

  lemma {:induction false} ZeroBit(i: nat)
    ensures Bit(0, i) == 0
  {
    if i > 0 {
      ZeroBit(i - 1);
    }
  }

  lemma {:induction false} XorBelow(a: nat, b: nat, k: nat)
    requires a < Pow(2, k) && b < Pow(2, k)
    ensures Xor(a, b) < Pow(2, k)
    decreases k
  {
    if k > 0 && !(a == 0 && b == 0) {
      XorBelow(a / 2, b / 2, k - 1);
    }
  }

  lemma {:induction false} TwoToTheEighth()
    ensures Pow(2, 8) == 256
  {
  }

  lemma {:induction false} FourOctets(a: nat, b: nat, c: nat, d: nat)
    requires a < 256 && b < 256 && c < 256 && d < 256
    ensures Xor(Xor(Xor(a, b), c), d) < 256
    ensures forall i :: Bit(Xor(Xor(Xor(a, b), c), d), i) == (Bit(a, i) + Bit(b, i) + Bit(c, i) + Bit(d, i)) % 2
  {
    TwoToTheEighth();
    hide Bit, Xor, Pow;
    XorBelow(a, b, 8);
    XorBelow(Xor(a, b), c, 8);
    XorBelow(Xor(Xor(a, b), c), d, 8);
    forall i: nat
      ensures Bit(Xor(Xor(Xor(a, b), c), d), i) == (Bit(a, i) + Bit(b, i) + Bit(c, i) + Bit(d, i)) % 2
    {
      FourBits(a, b, c, d, i);
    }
  }

  lemma {:induction false} FourBits(a: nat, b: nat, c: nat, d: nat, i: nat)
    ensures Bit(Xor(Xor(Xor(a, b), c), d), i) == (Bit(a, i) + Bit(b, i) + Bit(c, i) + Bit(d, i)) % 2
  {
    hide Bit, Xor;
    XorBit(a, b, i);
    XorBit(Xor(a, b), c, i);
    XorBit(Xor(Xor(a, b), c), d, i);
    ParityOfSum(Bit(a, i), Bit(b, i), Bit(c, i), Bit(d, i));
  }

  lemma {:induction false} ParityOfSum(a: nat, b: nat, c: nat, d: nat)
    ensures (((a + b) % 2 + c) % 2 + d) % 2 == (a + b + c + d) % 2
  {
  }

  lemma {:induction false} FoldsDown(w: nat)
    ensures FoldsTo(w, Fold(w))
  {
    hide Bit, Xor;
    FourOctets(w / 0x1000000 % 256, w / 0x10000 % 256, w / 0x100 % 256, w % 256);
  }

  lemma {:induction false} TotalSnoc(s: seq<Octet>, o: Octet)
    ensures Total(s + [o]) == Total(s) + o
  {
    if s == [] {
      assert (s + [o])[1..] == [];
    } else {
      assert (s + [o])[1..] == s[1..] + [o];
      TotalSnoc(s[1..], o);
    }
  }

  lemma {:induction false} SumIsTotal(s: seq<Octet>)
    ensures Sum(s) == 33 * Total(s)
    decreases s
  {
    if s != [] {
      var n := |s| - 1;
      assert s == s[..n] + [s[n]];
      SumIsTotal(s[..n]);
      TotalSnoc(s[..n], s[n]);
    }
  }

  /** The hash is what both programs mean by it. */
  lemma {:induction false} HashIs(s: seq<Octet>)
    ensures IsHash(s, Hash(s))
  {
    SumIsTotal(s);
    FoldsDown((|s| - 1 + Sum(s)) % 0x1_0000_0000);
    hide FoldsTo, Fold, Sum, Total;
  }

  /** Nothing else is. */
  lemma {:induction false} HashIsUnique(s: seq<Octet>, h: nat)
    ensures IsHash(s, h) <==> h == Hash(s)
  {
    HashIs(s);
    hide Hash, FoldsTo, Total;
    if IsHash(s, h) {
      FoldIsUnique((|s| - 1 + 33 * Total(s)) % 0x1_0000_0000, h, Hash(s));
    }
  }

  lemma {:induction false} FoldIsUnique(w: nat, a: nat, b: nat)
    requires FoldsTo(w, a) && FoldsTo(w, b)
    ensures a == b
  {
    TwoToTheEighth();
    hide Bit, Pow;
    forall i | 0 <= i < 8
      ensures Bit(a, i) == Bit(b, i)
    {
    }
    BitsDecide(a, b, 8);
  }

  lemma {:induction false} BitsDecide(a: nat, b: nat, k: nat)
    requires a < Pow(2, k) && b < Pow(2, k)
    requires forall i :: 0 <= i < k ==> Bit(a, i) == Bit(b, i)
    ensures a == b
    decreases k
  {
    if k > 0 {
      assert Bit(a, 0) == Bit(b, 0);
      forall i | 0 <= i < k - 1
        ensures Bit(a / 2, i) == Bit(b / 2, i)
      {
        assert Bit(a, i + 1) == Bit(b, i + 1);
      }
      BitsDecide(a / 2, b / 2, k - 1);
    }
  }

  /** The builder's loop; its numbers do not wrap around. */
  method BuilderHash(s: seq<Octet>) returns (h: nat)
    requires |s| >= 1
    ensures h == Hash(s) && IsHash(s, h)
  {
    HashIs(s);
    hide IsHash;
    var sum: nat := |s| - 1;
    for i := 0 to |s|
      invariant sum == |s| - 1 + Sum(s[..i])
    {
      SumNext(s, i);
      sum := sum + s[i] as nat * 33;
    }
    assert s[..|s|] == s;
    FoldWraps(sum);
    return Fold(sum);
  }

  lemma {:induction false} SumNext(s: seq<Octet>, i: nat)
    requires i < |s|
    ensures Sum(s[..i + 1]) == Sum(s[..i]) + s[i] as nat * 33
  {
    assert s[..i + 1][..i] == s[..i];
  }

  // ----- the order ----------------------------------------------------------------------

  function Sign(a: int, b: int): int {
    if a < b then -1 else if a > b then 1 else 0
  }

  /** The last of the first `n` octets that differs decides. */
  function CompareBack(a: seq<Octet>, b: seq<Octet>, n: nat): int
    requires n <= |a| && n <= |b|
  {
    if n == 0 then 0
    else if a[n - 1] != b[n - 1] then Sign(a[n - 1], b[n - 1])
    else CompareBack(a, b, n - 1)
  }

  /** By hash value, then by length, then by content from the end. */
  function Compare(a: seq<Octet>, b: seq<Octet>): int {
    if Hash(a) != Hash(b) then Sign(Hash(a), Hash(b))
    else if |a| != |b| then Sign(|a|, |b|)
    else CompareBack(a, b, |a|)
  }

  lemma {:induction false} CompareBackEqual(a: seq<Octet>, b: seq<Octet>, n: nat)
    requires n <= |a| && n <= |b|
    ensures CompareBack(a, b, n) == 0 <==> a[..n] == b[..n]
  {
    if n > 0 {
      CompareBackEqual(a, b, n - 1);
      assert a[..n] == a[..n - 1] + [a[n - 1]] && b[..n] == b[..n - 1] + [b[n - 1]];
      assert a[..n] == b[..n] ==> a[..n - 1] == a[..n][..n - 1] == b[..n][..n - 1] == b[..n - 1] && a[..n][n - 1] == b[..n][n - 1];
    }
  }

  lemma {:induction false} CompareEqual(a: seq<Octet>, b: seq<Octet>)
    ensures Compare(a, b) == 0 <==> a == b
  {
    if |a| == |b| {
      CompareBackEqual(a, b, |a|);
      assert a[..|a|] == a && b[..|b|] == b;
    }
    hide Hash, CompareBack;
  }

  lemma {:induction false} CompareBackFlips(a: seq<Octet>, b: seq<Octet>, n: nat)
    requires n <= |a| && n <= |b|
    ensures CompareBack(b, a, n) == -CompareBack(a, b, n)
  {
    if n > 0 {
      CompareBackFlips(a, b, n - 1);
    }
  }

  lemma {:induction false} CompareFlips(a: seq<Octet>, b: seq<Octet>)
    ensures Compare(b, a) == -Compare(a, b)
  {
    if |a| == |b| {
      CompareBackFlips(a, b, |a|);
    }
    hide Hash, CompareBack;
  }

  lemma {:induction false} CompareBackTrans(a: seq<Octet>, b: seq<Octet>, c: seq<Octet>, n: nat)
    requires n <= |a| && n <= |b| && n <= |c|
    requires CompareBack(a, b, n) <= 0 && CompareBack(b, c, n) <= 0
    ensures CompareBack(a, c, n) <= 0
  {
    if n > 0 && a[n - 1] == b[n - 1] == c[n - 1] {
      CompareBackTrans(a, b, c, n - 1);
    }
  }

  lemma {:induction false} CompareTrans(a: seq<Octet>, b: seq<Octet>, c: seq<Octet>)
    requires Compare(a, b) <= 0 && Compare(b, c) <= 0
    ensures Compare(a, c) <= 0
  {
    hide Hash, CompareBack;
    if Hash(a) == Hash(b) == Hash(c) && |a| == |b| == |c| {
      CompareBackTrans(a, b, c, |a|);
    }
  }

  /** The comparison block of the builder's sort. */
  method CompareOids(encs: seq<seq<Octet>>, hashes: seq<nat>, a: nat, b: nat) returns (r: int)
    requires a < |encs| && b < |encs| && Hashed(encs, hashes)
    ensures r == Compare(encs[a], encs[b])
  {
    hide Hash;
    var octetsA, octetsB := encs[a], encs[b];
    if hashes[a] != hashes[b] { return Sign(hashes[a], hashes[b]); }
    if |octetsA| != |octetsB| { return Sign(|octetsA|, |octetsB|); }
    var i := |octetsA|;
    while i > 0
      invariant 0 <= i <= |octetsA|
      invariant CompareBack(octetsA, octetsB, i) == CompareBack(octetsA, octetsB, |octetsA|)
    {
      i := i - 1;
      if octetsA[i] != octetsB[i] { return Sign(octetsA[i], octetsB[i]); }
    }
    return 0;
  }

  predicate Hashed(encs: seq<seq<Octet>>, hashes: seq<nat>) {
    |hashes| == |encs| && forall i :: 0 <= i < |encs| ==> hashes[i] == Hash(encs[i])
  }

  // ----- the index table ----------------------------------------------------------------

  function UpTo(n: nat): seq<nat> {
    if n == 0 then [] else UpTo(n - 1) + [n - 1]
  }

  lemma {:induction false} UpToIs(n: nat)
    ensures |UpTo(n)| == n && forall i :: 0 <= i < n ==> UpTo(n)[i] == i
  {
    if n > 0 {
      UpToIs(n - 1);
    }
  }

  ghost predicate Sorted(encs: seq<seq<Octet>>, order: seq<nat>) {
    && (forall i :: 0 <= i < |order| ==> order[i] < |encs|)
    && forall i, j :: 0 <= i < j < |order| ==> Compare(encs[order[i]], encs[order[j]]) <= 0
  }

  /** The numbers of the identifiers in search order. The sort of Perl's library is modelled
      by insertion. */
  method SortIndices(encs: seq<seq<Octet>>, hashes: seq<nat>) returns (order: seq<nat>)
    requires Hashed(encs, hashes)
    ensures Sorted(encs, order) && multiset(order) == multiset(UpTo(|encs|))
  {
    hide Compare, Hashed, Sorted;
    order := [];
    SortedNone(encs);
    for n := 0 to |encs|
      invariant Sorted(encs, order) && multiset(order) == multiset(UpTo(n))
    {
      var p := FindPlace(encs, hashes, order, n);
      Inserted(encs, order, n, p);
      order := order[..p] + [n] + order[p..];
    }
  }

  lemma {:induction false} SortedNone(encs: seq<seq<Octet>>)
    ensures Sorted(encs, [])
  {
  }

  method FindPlace(encs: seq<seq<Octet>>, hashes: seq<nat>, order: seq<nat>, n: nat) returns (p: nat)
    requires Hashed(encs, hashes) && Sorted(encs, order) && n < |encs|
    ensures p <= |order|
    ensures forall i :: 0 <= i < p ==> Compare(encs[order[i]], encs[n]) <= 0
    ensures forall j :: p <= j < |order| ==> Compare(encs[n], encs[order[j]]) <= 0
  {
    hide Compare, Hashed;
    p := 0;
    while p < |order|
      invariant p <= |order|
      invariant forall i :: 0 <= i < p ==> Compare(encs[order[i]], encs[n]) <= 0
    {
      var c := CompareOids(encs, hashes, order[p], n);
      if c > 0 {
        CompareFlips(encs[order[p]], encs[n]);
        forall j | p < j < |order|
          ensures Compare(encs[n], encs[order[j]]) <= 0
        {
          CompareTrans(encs[n], encs[order[p]], encs[order[j]]);
        }
        return;
      }
      p := p + 1;
    }
  }

  lemma {:induction false} Inserted(encs: seq<seq<Octet>>, order: seq<nat>, n: nat, p: nat)
    requires Sorted(encs, order) && n < |encs| && p <= |order|
    requires forall i :: 0 <= i < p ==> Compare(encs[order[i]], encs[n]) <= 0
    requires forall j :: p <= j < |order| ==> Compare(encs[n], encs[order[j]]) <= 0
    ensures var r := order[..p] + [n] + order[p..];
            Sorted(encs, r) && multiset(r) == multiset(order) + multiset{n}
  {
    hide Compare, Sorted;
    assert order == order[..p] + order[p..];
    InsertedSorted(encs, order, n, p, order[..p] + [n] + order[p..]);
  }

  lemma {:induction false} InsertedSorted(encs: seq<seq<Octet>>, order: seq<nat>, n: nat, p: nat, r: seq<nat>)
    requires Sorted(encs, order) && n < |encs| && p <= |order|
    requires r == order[..p] + [n] + order[p..]
    requires forall i :: 0 <= i < p ==> Compare(encs[order[i]], encs[n]) <= 0
    requires forall j :: p <= j < |order| ==> Compare(encs[n], encs[order[j]]) <= 0
    ensures Sorted(encs, r)
  {
    hide Compare;
    forall i, j | 0 <= i < j < |r|
      ensures r[i] < |encs| && r[j] < |encs| && Compare(encs[r[i]], encs[r[j]]) <= 0
    {
      assert r[i] == if i < p then order[i] else if i == p then n else order[i - 1];
      assert r[j] == if j < p then order[j] else if j == p then n else order[j - 1];
    }
    if |r| == 1 {
      assert r[0] == n;
    }
  }

  // ----- the tables ---------------------------------------------------------------------

  ghost predicate AllEncodable(oids: seq<seq<nat>>) {
    forall i :: 0 <= i < |oids| ==> OidCodec.Encodable(oids[i])
  }

  ghost function Encodings(oids: seq<seq<nat>>): (s: seq<seq<Octet>>)
    requires AllEncodable(oids)
    ensures |s| == |oids|
  {
    seq(|oids|, i requires 0 <= i < |oids| && AllEncodable(oids) => OidCodec.Encode(oids[i]))
  }

  function Joined(encs: seq<seq<Octet>>): seq<Octet> {
    if encs == [] then [] else Joined(encs[..|encs| - 1]) + encs[|encs| - 1]
  }

  /** The index cuts encoding `i` out of the data. */
  predicate CutsOut(index: seq<nat>, data: seq<Octet>, encs: seq<seq<Octet>>, i: nat)
    requires i < |encs| && |index| == |encs| + 1
  {
    index[i] <= index[i + 1] <= |data| && data[index[i]..index[i + 1]] == encs[i]
  }

  ghost predicate Indexed(index: seq<nat>, data: seq<Octet>, encs: seq<seq<Octet>>) {
    && |index| == |encs| + 1
    && forall i :: 0 <= i < |encs| ==> CutsOut(index, data, encs, i)
  }

  ghost predicate InTable(table: seq<Entry>, oid: nat) {
    exists j :: 0 <= j < |table| && table[j].oid == oid
  }

  /** The search table is sorted, holds the right hashes, and misses no identifier. */
  ghost predicate Searchable(table: seq<Entry>, encs: seq<seq<Octet>>) {
    && |table| == |encs|
    && (forall j :: 0 <= j < |table| ==> table[j].oid < |encs| && table[j].hash == Hash(encs[table[j].oid]))
    && (forall i, j :: 0 <= i < j < |table| ==> Compare(encs[table[i].oid], encs[table[j].oid]) <= 0)
    && (forall i :: 0 <= i < |encs| ==> InTable(table, i))
  }

  ghost predicate Built(reg: Registry, encs: seq<seq<Octet>>) {
    Indexed(reg.index, reg.data, encs) && Searchable(reg.table, encs)
  }

  /** The index emitted from the lengths computed beforehand cuts the data, emitted later,
      into exactly the encodings. */
  method BuildIndex(oids: seq<seq<nat>>) returns (index: seq<nat>)
    requires AllEncodable(oids)
    ensures |index| == |oids| + 1
    ensures forall i :: 0 <= i <= |oids| ==> index[i] == |Joined(Encodings(oids)[..i])|
  {
    ghost var encs := Encodings(oids);
    hide Encodings, OidCodec.Encode, OidCodec.Encodable;
    var total: nat := 0;
    index := [];
    assert encs[..0] == [];
    for i := 0 to |oids|
      invariant |index| == i && total == |Joined(encs[..i])|
      invariant forall j :: 0 <= j < i ==> index[j] == |Joined(encs[..j])|
    {
      EncodingAt(oids, i);
      var size := OidCodec.ComputeSize(oids[i]);
      JoinedNext(encs, i);
      index := index + [total];
      total := total + size;
    }
    index := index + [total];
  }

  lemma {:induction false} EncodingAt(oids: seq<seq<nat>>, i: nat)
    requires AllEncodable(oids) && i < |oids|
    ensures OidCodec.Encodable(oids[i]) && Encodings(oids)[i] == OidCodec.Encode(oids[i])
  {
  }

  lemma {:induction false} JoinedNext(encs: seq<seq<Octet>>, i: nat)
    requires i < |encs|
    ensures Joined(encs[..i + 1]) == Joined(encs[..i]) + encs[i]
  {
    assert encs[..i + 1][..i] == encs[..i];
  }

  lemma {:induction false} JoinedPrefix(encs: seq<seq<Octet>>, i: nat, n: nat)
    requires i <= n <= |encs|
    ensures Joined(encs[..i]) <= Joined(encs[..n])
    decreases n
  {
    if i < n {
      JoinedPrefix(encs, i, n - 1);
      JoinedNext(encs, n - 1);
    }
  }

  lemma {:induction false} Cuts(index: seq<nat>, encs: seq<seq<Octet>>)
    requires |index| == |encs| + 1
    requires forall i :: 0 <= i <= |encs| ==> index[i] == |Joined(encs[..i])|
    ensures Indexed(index, Joined(encs), encs)
  {
    assert encs[..|encs|] == encs;
    forall i | 0 <= i < |encs|
      ensures CutsOut(index, Joined(encs), encs, i)
    {
      JoinedNext(encs, i);
      JoinedPrefix(encs, i + 1, |encs|);
      assert index[i + 1] == |Joined(encs[..i + 1])|;
      hide Joined;
      var upTo := Joined(encs[..i + 1]);
      assert Joined(encs)[index[i]..index[i + 1]] == upTo[index[i]..];
    }
  }

  method EncodeAll(oids: seq<seq<nat>>) returns (encs: seq<seq<Octet>>, data: seq<Octet>, hashes: seq<nat>)
    requires AllEncodable(oids)
    ensures encs == Encodings(oids) && data == Joined(encs) && Hashed(encs, hashes)
  {
    hide Encodings, OidCodec.Encode, OidCodec.Encodable, Hash;
    ghost var all := Encodings(oids);
    encs, data, hashes := [], [], [];
    for i := 0 to |oids|
      invariant encs == all[..i] && data == Joined(encs) && Hashed(encs, hashes)
    {
      EncodingAt(oids, i);
      var octets := OidCodec.EncodeOid(oids[i]);
      var h := BuilderHash(octets);
      assert (encs + [octets])[..i] == encs;
      encs, data, hashes := encs + [octets], data + octets, hashes + [h];
    }
  }

  /** What the emitted `oid_index` keeps of a position: one octet if all of them fit in
      one, two octets otherwise. */
  function Stored(x: nat, total: nat): nat {
    if total <= 255 then x % 0x100 else x % 0x10000
  }

  /** What the bit field of a table row keeps of an identifier's number. */
  function StoredOid(oid: nat, count: nat): nat {
    if count <= 256 then oid % 0x100 else oid % 0x10000
  }

  /** The whole builder: the emitted tables index and order the encodings of the given
      identifiers, if these have no more than 65535 octets together. */
  method Build(oids: seq<seq<nat>>) returns (reg: Registry)
    requires AllEncodable(oids)
    ensures |Joined(Encodings(oids))| <= 0xffff ==> Built(reg, Encodings(oids))
  {
    hide Encodings, Compare, Hash, Joined, OidCodec.Encodable;
    var indices := BuildIndex(oids);
    var encs, data, hashes := EncodeAll(oids);
    var total := indices[|oids|];
    var order := SortIndices(encs, hashes);
    SortedSize(encs, order);
    var index := seq(|indices|, i requires 0 <= i < |indices| => Stored(indices[i], total));
    var table := seq(|order|, j requires 0 <= j < |order| && Sorted(encs, order) && Hashed(encs, hashes) =>
      Entry(hashes[order[j]], StoredOid(order[j], |encs|)));
    reg := Registry(index, data, table);
    assert encs[..|encs|] == encs;
    if |data| <= 0xffff {
      EachTakesOctets(oids);
      Cuts(indices, encs);
      PositionsFit(indices, encs);
      assert index == indices;
      OidsFit(encs, order);
      TableIsSearchable(encs, hashes, order, table);
    }
  }

  lemma {:induction false} SortedSize(encs: seq<seq<Octet>>, order: seq<nat>)
    requires multiset(order) == multiset(UpTo(|encs|))
    ensures |order| == |encs|
  {
    UpToIs(|encs|);
    assert |order| == |multiset(order)| == |multiset(UpTo(|encs|))| == |encs|;
  }

  lemma {:induction false} EachTakesOctets(oids: seq<seq<nat>>)
    requires AllEncodable(oids)
    ensures |Encodings(oids)| <= |Joined(Encodings(oids))|
    decreases oids
  {
    hide OidCodec.Encode, OidCodec.Encodable;
    if oids != [] {
      var n := |oids| - 1;
      EachTakesOctets(oids[..n]);
      EncodingAt(oids, n);
      assert Encodings(oids)[..n] == Encodings(oids[..n]);
    }
  }

  lemma {:induction false} PositionsFit(indices: seq<nat>, encs: seq<seq<Octet>>)
    requires |indices| == |encs| + 1
    requires forall i :: 0 <= i <= |encs| ==> indices[i] == |Joined(encs[..i])|
    requires |Joined(encs)| <= 0xffff
    ensures forall i :: 0 <= i <= |encs| ==> Stored(indices[i], indices[|encs|]) == indices[i]
  {
    assert encs[..|encs|] == encs;
    forall i | 0 <= i <= |encs|
      ensures Stored(indices[i], indices[|encs|]) == indices[i]
    {
      JoinedPrefix(encs, i, |encs|);
      assert indices[i] <= indices[|encs|];
    }
  }

  lemma {:induction false} OidsFit(encs: seq<seq<Octet>>, order: seq<nat>)
    requires |encs| <= 0xffff && Sorted(encs, order)
    ensures forall j :: 0 <= j < |order| ==> StoredOid(order[j], |encs|) == order[j]
  {
    hide Compare;
  }

  lemma {:induction false} NoneMissed(n: nat, order: seq<nat>, table: seq<Entry>, i: nat)
    requires multiset(order) == multiset(UpTo(n)) && i < n
    requires |table| == |order| && forall j :: 0 <= j < |order| ==> table[j].oid == order[j]
    ensures InTable(table, i)
  {
    UpToIs(n);
    assert UpTo(n)[i] == i;
    assert i in multiset(UpTo(n));
    assert i in order;
    var j :| 0 <= j < |order| && order[j] == i;
    assert table[j].oid == i;
  }

  lemma {:induction false} TableIsSearchable(encs: seq<seq<Octet>>, hashes: seq<nat>, order: seq<nat>, table: seq<Entry>)
    requires Hashed(encs, hashes) && Sorted(encs, order) && multiset(order) == multiset(UpTo(|encs|))
    requires |table| == |order| && forall j :: 0 <= j < |order| ==> table[j] == Entry(hashes[order[j]], order[j])
    ensures Searchable(table, encs)
  {
    hide Compare, Hash, InTable;
    SortedSize(encs, order);
    forall i | 0 <= i < |encs|
      ensures InTable(table, i)
    {
      NoneMissed(|encs|, order, table, i);
    }
  }

  // ----- the search ---------------------------------------------------------------------

  lemma {:induction false} AddInWord(a: int, b: int)
    ensures (a % 0x1_0000_0000 + b) % 0x1_0000_0000 == (a + b) % 0x1_0000_0000
  {
  }

  /** The hash of the search, summed up in 32 bits. */
  method SearchHash(octets: seq<Octet>) returns (hash: nat)
    ensures hash == Hash(octets) && IsHash(octets, hash)
  {
    HashIs(octets);
    hide IsHash;
    var sum := (|octets| - 1) % 0x1_0000_0000;
    for i := 0 to |octets|
      invariant sum == (|octets| - 1 + Sum(octets[..i])) % 0x1_0000_0000
    {
      SumNext(octets, i);
      AddInWord(|octets| - 1 + Sum(octets[..i]), octets[i] as nat * 33);
      sum := (sum + octets[i] as nat * 33) % 0x1_0000_0000;
    }
    assert octets[..|octets|] == octets;
    return Fold(sum);
  }

  /** Compares the encoding in `data[start..end]` with `octets` of the same length, from
      the end. */
  method CompareTail(data: seq<Octet>, start: nat, end: nat, octets: seq<Octet>) returns (r: int)
    requires start <= end <= |data| && end - start == |octets|
    ensures r == CompareBack(data[start..end], octets, |octets|)
  {
    ghost var enc := data[start..end];
    var len := end - start;
    while len > 0
      invariant 0 <= len <= |octets|
      invariant CompareBack(enc, octets, len) == CompareBack(enc, octets, |octets|)
    {
      len := len - 1;
      var a, b := data[start + len], octets[len];
      assert a == enc[len];
      if a > b { return 1; }
      if a < b { return -1; }
    }
    return 0;
  }

  /** Position of `octets` among the encodings, or their number if it is none of them. */
  function LinearSearch(encs: seq<seq<Octet>>, octets: seq<Octet>): (i: nat)
    ensures i <= |encs|
  {
    if encs == [] then 0 else if encs[0] == octets then 0 else 1 + LinearSearch(encs[1..], octets)
  }

  ghost predicate Distinct(encs: seq<seq<Octet>>) {
    forall i, j :: 0 <= i < j < |encs| ==> encs[i] != encs[j]
  }

  /** `Lookup_OID`: the number of the identifier encoded as `octets`, or OID__NR. */
  method LookupOid(reg: Registry, octets: seq<Octet>, ghost encs: seq<seq<Octet>>) returns (oid: nat)
    requires Built(reg, encs)
    ensures oid < |encs| ==> encs[oid] == octets
    ensures oid == |encs| <==> octets !in encs
    ensures oid <= |encs|
    ensures Distinct(encs) ==> oid == LinearSearch(encs, octets)
  {
    hide Hash, Compare, CompareBack;
    var hash := SearchHash(octets);
    var i, k := 0, |reg.table|;
    while i < k
      invariant 0 <= i <= k <= |reg.table|
      invariant forall l :: 0 <= l < i ==> encs[reg.table[l].oid] != octets
      invariant forall l :: k <= l < |reg.table| ==> encs[reg.table[l].oid] != octets
      decreases k - i
    {
      var j := (i + k) / 2;
      var c := Probe(reg, octets, hash, j, encs);
      if c == 0 {
        oid := reg.table[j].oid;
        FoundIsLinear(encs, octets, oid);
        return;
      }
      NotBeyond(reg.table, octets, encs, j);
      if c > 0 { k := j; } else { i := j + 1; }
    }
    NotFound(reg.table, octets, encs);
    return |reg.table|;
  }

  /** The comparison in the body of the search loop. */
  method Probe(reg: Registry, octets: seq<Octet>, hash: nat, j: nat, ghost encs: seq<seq<Octet>>) returns (c: int)
    requires Built(reg, encs) && j < |reg.table| && hash == Hash(octets)
    ensures c == Compare(encs[reg.table[j].oid], octets)
    ensures c == 0 <==> encs[reg.table[j].oid] == octets
  {
    hide Hash, CompareBack;
    var xhash, oid := reg.table[j].hash, reg.table[j].oid;
    CompareEqual(encs[oid], octets);
    if xhash > hash { return 1; }
    if xhash < hash { return -1; }
    var start, end := reg.index[oid], reg.index[oid + 1];
    assert CutsOut(reg.index, reg.data, encs, oid);
    var len := end - start;
    if len > |octets| { return 1; }
    if len < |octets| { return -1; }
    c := CompareTail(reg.data, start, end, octets);
  }

  /** What compares unequal at `j` is not to be found on the far side of `j`. */
  lemma {:induction false} NotBeyond(table: seq<Entry>, octets: seq<Octet>, encs: seq<seq<Octet>>, j: nat)
    requires Searchable(table, encs) && j < |table|
    ensures Compare(encs[table[j].oid], octets) > 0 ==>
              forall l :: j <= l < |table| ==> encs[table[l].oid] != octets
    ensures Compare(encs[table[j].oid], octets) < 0 ==>
              forall l :: 0 <= l <= j ==> encs[table[l].oid] != octets
  {
    hide Hash, Compare;
    CompareEqual(encs[table[j].oid], octets);
    CompareFlips(encs[table[j].oid], octets);
  }

  lemma {:induction false} NotFound(table: seq<Entry>, octets: seq<Octet>, encs: seq<seq<Octet>>)
    requires Searchable(table, encs)
    requires forall l :: 0 <= l < |table| ==> encs[table[l].oid] != octets
    ensures octets !in encs && LinearSearch(encs, octets) == |encs|
  {
    hide Hash, Compare;
    forall i | 0 <= i < |encs|
      ensures encs[i] != octets
    {
      assert InTable(table, i);
      var j :| 0 <= j < |table| && table[j].oid == i;
    }
    NoneIsLinear(encs, octets);
  }

  lemma {:induction false} NoneIsLinear(encs: seq<seq<Octet>>, octets: seq<Octet>)
    requires octets !in encs
    ensures LinearSearch(encs, octets) == |encs|
  {
    if encs != [] {
      NoneIsLinear(encs[1..], octets);
    }
  }

  lemma {:induction false} FoundIsLinear(encs: seq<seq<Octet>>, octets: seq<Octet>, i: nat)
    requires i < |encs| && encs[i] == octets
    ensures Distinct(encs) ==> LinearSearch(encs, octets) == i
  {
    if Distinct(encs) && i > 0 {
      FoundIsLinear(encs[1..], octets, i - 1);
    }
  }

  /** Different identifiers have different encodings, so the search returns the one number
      there is. */
  lemma {:induction false} EncodingsAreDistinct(oids: seq<seq<nat>>)
    requires AllEncodable(oids) && forall i :: 0 <= i < |oids| ==> oids[i][1] < 40
    requires forall i, j :: 0 <= i < j < |oids| ==> oids[i] != oids[j]
    ensures Distinct(Encodings(oids))
  {
    hide OidCodec.Encode;
    var encs := Encodings(oids);
    forall i, j | 0 <= i < j < |encs|
      ensures encs[i] != encs[j]
    {
      if encs[i] == encs[j] {
        OidCodec.EncodeIsInjective(oids[i], oids[j]);
      }
    }
  }
}
