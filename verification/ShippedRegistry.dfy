/** The registry that is shipped: the identifiers of listcerts/oid_registry.h and the tables of
    listcerts/oid_registry_data.h, which are what the builder means. */
module ShippedRegistry {
  import opened Octets
  import opened Powers
  import opened OidRegistry
  import Base128
  import OidCodec

  const COUNT: nat := 52

  // ----- the transcription --------------------------------------------------------------

  /** The identifier in the comment behind member `i` of `enum OID`. */
  function Oid(i: nat): seq<nat> {
    if i < 15 then Oid0(i) else if i < 30 then Oid15(i) else if i < 43 then Oid30(i) else Oid43(i)
  }

  function Oid0(i: nat): seq<nat> {
    match i
    case 0 => [1, 2, 840, 10030, 4, 3]  // id_dsa_with_sha1
    case 1 => [1, 2, 840, 10040, 4, 1]  // id_dsa
    case 2 => [1, 2, 840, 10045, 4, 1]  // id_ecdsa_with_sha1
    case 3 => [1, 2, 840, 10045, 2, 1]  // id_ecPublicKey
    case 4 => [1, 2, 840, 113549, 1, 1, 1]  // rsaEncryption
    case 5 => [1, 2, 840, 113549, 1, 1, 2]  // md2WithRSAEncryption
    case 6 => [1, 2, 840, 113549, 1, 1, 3]  // md3WithRSAEncryption
    case 7 => [1, 2, 840, 113549, 1, 1, 4]  // md4WithRSAEncryption
    case 8 => [1, 2, 840, 113549, 1, 1, 5]  // sha1WithRSAEncryption
    case 9 => [1, 2, 840, 113549, 1, 1, 11]  // sha256WithRSAEncryption
    case 10 => [1, 2, 840, 113549, 1, 1, 12]  // sha384WithRSAEncryption
    case 11 => [1, 2, 840, 113549, 1, 1, 13]  // sha512WithRSAEncryption
    case 12 => [1, 2, 840, 113549, 1, 1, 14]  // sha224WithRSAEncryption
    case 13 => [1, 2, 840, 113549, 1, 7, 1]  // data
    case 14 => [1, 2, 840, 113549, 1, 7, 2]  // signed_data
    case _ => []
  }

  function Oid15(i: nat): seq<nat> {
    match i
    case 15 => [1, 2, 840, 113549, 1, 9, 1]  // email_address
    case 16 => [1, 2, 840, 113549, 1, 9, 3]  // content_type
    case 17 => [1, 2, 840, 113549, 1, 9, 4]  // messageDigest
    case 18 => [1, 2, 840, 113549, 1, 9, 5]  // signingTime
    case 19 => [1, 2, 840, 113549, 1, 9, 15]  // smimeCapabilites
    case 20 => [1, 2, 840, 113549, 1, 9, 16, 2, 11]  // smimeAuthenticatedAttrs
    case 21 => [1, 2, 840, 113549, 2, 2]  // md2
    case 22 => [1, 2, 840, 113549, 2, 4]  // md4
    case 23 => [1, 2, 840, 113549, 2, 5]  // md5
    case 24 => [1, 3, 6, 1, 4, 1, 311, 16, 4]  // msOutlookExpress
    case 25 => [1, 3, 6, 1, 4, 1, 311, 20, 2]  // msEnrollCerttypeExtension
    case 26 => [1, 3, 6, 1, 4, 1, 311, 21, 1]  // msCertsrvCAVersion
    case 27 => [1, 3, 6, 1, 4, 1, 311, 21, 2]  // msCertsrvPreviousCertHash
    case 28 => [1, 3, 6, 1, 5, 5, 7, 1, 1]  // certAuthInfoAccess
    case 29 => [1, 3, 14, 3, 2, 26]  // sha1
    case _ => []
  }

  function Oid30(i: nat): seq<nat> {
    match i
    case 30 => [2, 5, 4, 3]  // commonName
    case 31 => [2, 5, 4, 4]  // surname
    case 32 => [2, 5, 4, 6]  // countryName
    case 33 => [2, 5, 4, 7]  // locality
    case 34 => [2, 5, 4, 8]  // stateOrProvinceName
    case 35 => [2, 5, 4, 10]  // organizationName
    case 36 => [2, 5, 4, 11]  // organizationUnitName
    case 37 => [2, 5, 4, 12]  // title
    case 38 => [2, 5, 4, 13]  // description
    case 39 => [2, 5, 4, 41]  // name
    case 40 => [2, 5, 4, 42]  // givenName
    case 41 => [2, 5, 4, 43]  // initials
    case 42 => [2, 5, 4, 44]  // generationalQualifier
    case _ => []
  }

  function Oid43(i: nat): seq<nat> {
    match i
    case 43 => [2, 5, 29, 14]  // subjectKeyIdentifier
    case 44 => [2, 5, 29, 15]  // keyUsage
    case 45 => [2, 5, 29, 17]  // subjectAltName
    case 46 => [2, 5, 29, 18]  // issuerAltName
    case 47 => [2, 5, 29, 19]  // basicConstraints
    case 48 => [2, 5, 29, 31]  // crlDistributionPoints
    case 49 => [2, 5, 29, 32]  // certPolicies
    case 50 => [2, 5, 29, 35]  // authorityKeyIdentifier
    case 51 => [2, 5, 29, 37]  // extKeyUsage
    case _ => []
  }

  /** Line `i` of `oid_data`. */
  function Line(i: nat): seq<Octet> {
    if i < 15 then Line0(i) else if i < 30 then Line15(i) else if i < 43 then Line30(i) else Line43(i)
  }

  function Line0(i: nat): seq<Octet> {
    match i
    case 0 => [42, 134, 72, 206, 46, 4, 3]
    case 1 => [42, 134, 72, 206, 56, 4, 1]
    case 2 => [42, 134, 72, 206, 61, 4, 1]
    case 3 => [42, 134, 72, 206, 61, 2, 1]
    case 4 => [42, 134, 72, 134, 247, 13, 1, 1, 1]
    case 5 => [42, 134, 72, 134, 247, 13, 1, 1, 2]
    case 6 => [42, 134, 72, 134, 247, 13, 1, 1, 3]
    case 7 => [42, 134, 72, 134, 247, 13, 1, 1, 4]
    case 8 => [42, 134, 72, 134, 247, 13, 1, 1, 5]
    case 9 => [42, 134, 72, 134, 247, 13, 1, 1, 11]
    case 10 => [42, 134, 72, 134, 247, 13, 1, 1, 12]
    case 11 => [42, 134, 72, 134, 247, 13, 1, 1, 13]
    case 12 => [42, 134, 72, 134, 247, 13, 1, 1, 14]
    case 13 => [42, 134, 72, 134, 247, 13, 1, 7, 1]
    case 14 => [42, 134, 72, 134, 247, 13, 1, 7, 2]
    case _ => []
  }

  function Line15(i: nat): seq<Octet> {
    match i
    case 15 => [42, 134, 72, 134, 247, 13, 1, 9, 1]
    case 16 => [42, 134, 72, 134, 247, 13, 1, 9, 3]
    case 17 => [42, 134, 72, 134, 247, 13, 1, 9, 4]
    case 18 => [42, 134, 72, 134, 247, 13, 1, 9, 5]
    case 19 => [42, 134, 72, 134, 247, 13, 1, 9, 15]
    case 20 => [42, 134, 72, 134, 247, 13, 1, 9, 16, 2, 11]
    case 21 => [42, 134, 72, 134, 247, 13, 2, 2]
    case 22 => [42, 134, 72, 134, 247, 13, 2, 4]
    case 23 => [42, 134, 72, 134, 247, 13, 2, 5]
    case 24 => [43, 6, 1, 4, 1, 130, 55, 16, 4]
    case 25 => [43, 6, 1, 4, 1, 130, 55, 20, 2]
    case 26 => [43, 6, 1, 4, 1, 130, 55, 21, 1]
    case 27 => [43, 6, 1, 4, 1, 130, 55, 21, 2]
    case 28 => [43, 6, 1, 5, 5, 7, 1, 1]
    case 29 => [43, 14, 3, 2, 26]
    case _ => []
  }

  function Line30(i: nat): seq<Octet> {
    match i
    case 30 => [85, 4, 3]
    case 31 => [85, 4, 4]
    case 32 => [85, 4, 6]
    case 33 => [85, 4, 7]
    case 34 => [85, 4, 8]
    case 35 => [85, 4, 10]
    case 36 => [85, 4, 11]
    case 37 => [85, 4, 12]
    case 38 => [85, 4, 13]
    case 39 => [85, 4, 41]
    case 40 => [85, 4, 42]
    case 41 => [85, 4, 43]
    case 42 => [85, 4, 44]
    case _ => []
  }

  function Line43(i: nat): seq<Octet> {
    match i
    case 43 => [85, 29, 14]
    case 44 => [85, 29, 15]
    case 45 => [85, 29, 17]
    case 46 => [85, 29, 18]
    case 47 => [85, 29, 19]
    case 48 => [85, 29, 31]
    case 49 => [85, 29, 32]
    case 50 => [85, 29, 35]
    case 51 => [85, 29, 37]
    case _ => []
  }

  /** Entry `i` of `oid_index`. */
  function Start(i: nat): nat {
    match i
    case 0 => 0
    case 1 => 7
    case 2 => 14
    case 3 => 21
    case 4 => 28
    case 5 => 37
    case 6 => 46
    case 7 => 55
    case 8 => 64
    case 9 => 73
    case 10 => 82
    case 11 => 91
    case 12 => 100
    case 13 => 109
    case 14 => 118
    case 15 => 127
    case 16 => 136
    case 17 => 145
    case 18 => 154
    case 19 => 163
    case 20 => 172
    case 21 => 183
    case 22 => 191
    case 23 => 199
    case 24 => 207
    case 25 => 216
    case 26 => 225
    case 27 => 234
    case 28 => 243
    case 29 => 251
    case 30 => 256
    case 31 => 259
    case 32 => 262
    case 33 => 265
    case 34 => 268
    case 35 => 271
    case 36 => 274
    case 37 => 277
    case 38 => 280
    case 39 => 283
    case 40 => 286
    case 41 => 289
    case 42 => 292
    case 43 => 295
    case 44 => 298
    case 45 => 301
    case 46 => 304
    case 47 => 307
    case 48 => 310
    case 49 => 313
    case 50 => 316
    case 51 => 319
    case 52 => 322
    case _ => 0
  }

  /** Row `j` of `oid_search_table`. */
  function Row(j: nat): Entry {
    if j < 13 then Row0(j) else if j < 26 then Row13(j) else if j < 39 then Row26(j) else Row39(j)
  }

  function Row0(j: nat): Entry {
    match j
    case 0 => Entry(10, 37)
    case 1 => Entry(23, 46)
    case 2 => Entry(23, 41)
    case 3 => Entry(29, 5)
    case 4 => Entry(30, 21)
    case 5 => Entry(32, 0)
    case 6 => Entry(35, 16)
    case 7 => Entry(35, 9)
    case 8 => Entry(36, 50)
    case 9 => Entry(37, 38)
    case 10 => Entry(43, 1)
    case 11 => Entry(54, 47)
    case 12 => Entry(54, 42)
    case _ => Entry(0, 0)
  }

  function Row13(j: nat): Entry {
    match j
    case 13 => Entry(60, 6)
    case 14 => Entry(64, 14)
    case 15 => Entry(77, 32)
    case 16 => Entry(77, 2)
    case 17 => Entry(85, 19)
    case 18 => Entry(87, 29)
    case 19 => Entry(97, 15)
    case 20 => Entry(106, 51)
    case 21 => Entry(110, 33)
    case 22 => Entry(126, 4)
    case 23 => Entry(132, 20)
    case 24 => Entry(142, 3)
    case 25 => Entry(142, 12)
    case _ => Entry(0, 0)
  }

  function Row26(j: nat): Entry {
    match j
    case 26 => Entry(143, 34)
    case 27 => Entry(146, 43)
    case 28 => Entry(160, 13)
    case 29 => Entry(161, 48)
    case 30 => Entry(173, 24)
    case 31 => Entry(179, 44)
    case 32 => Entry(195, 7)
    case 33 => Entry(198, 49)
    case 34 => Entry(201, 35)
    case 35 => Entry(204, 17)
    case 36 => Entry(204, 10)
    case 37 => Entry(206, 27)
    case 38 => Entry(212, 39)
    case _ => Entry(0, 0)
  }

  function Row39(j: nat): Entry {
    match j
    case 39 => Entry(213, 30)
    case 40 => Entry(220, 22)
    case 41 => Entry(226, 8)
    case 42 => Entry(227, 23)
    case 43 => Entry(228, 28)
    case 44 => Entry(234, 36)
    case 45 => Entry(237, 18)
    case 46 => Entry(237, 11)
    case 47 => Entry(239, 26)
    case 48 => Entry(239, 25)
    case 49 => Entry(244, 31)
    case 50 => Entry(245, 45)
    case 51 => Entry(245, 40)
    case _ => Entry(0, 0)
  }

  /** The row of identifier `i`. */
  function Place(i: nat): nat {
    match i
    case 0 => 5
    case 1 => 10
    case 2 => 16
    case 3 => 24
    case 4 => 22
    case 5 => 3
    case 6 => 13
    case 7 => 32
    case 8 => 41
    case 9 => 7
    case 10 => 36
    case 11 => 46
    case 12 => 25
    case 13 => 28
    case 14 => 14
    case 15 => 19
    case 16 => 6
    case 17 => 35
    case 18 => 45
    case 19 => 17
    case 20 => 23
    case 21 => 4
    case 22 => 40
    case 23 => 42
    case 24 => 30
    case 25 => 48
    case 26 => 47
    case 27 => 37
    case 28 => 43
    case 29 => 18
    case 30 => 39
    case 31 => 49
    case 32 => 15
    case 33 => 21
    case 34 => 26
    case 35 => 34
    case 36 => 44
    case 37 => 0
    case 38 => 9
    case 39 => 38
    case 40 => 51
    case 41 => 2
    case 42 => 12
    case 43 => 27
    case 44 => 31
    case 45 => 50
    case 46 => 1
    case 47 => 11
    case 48 => 29
    case 49 => 33
    case 50 => 8
    case 51 => 20
    case _ => 0
  }

  // ----- hashes -------------------------------------------------------------------------

  /** What is left of `a` without the bit of weight `m`, the highest there is. */
  function Without(a: nat, m: nat): nat {
    if a >= m then a - m else a
  }

  function Differ(a: nat, b: nat, m: nat): nat {
    if (a >= m) == (b >= m) then 0 else m
  }

  /** The exclusive-or of half octets, bit by bit. */
  function XorHalf(a: nat, b: nat): nat {
    var c, d := Without(a, 8), Without(b, 8);
    var e, f := Without(c, 4), Without(d, 4);
    Differ(a, b, 8) + Differ(c, d, 4) + Differ(e, f, 2) + Differ(Without(e, 2), Without(f, 2), 1)
  }

  function XorOctets(a: nat, b: nat): nat {
    var c, d := Without(a, 128), Without(b, 128);
    var e, f := Without(c, 64), Without(d, 64);
    var g, h := Without(e, 32), Without(f, 32);
    Differ(a, b, 128) + Differ(c, d, 64) + Differ(e, f, 32) + Differ(g, h, 16)
    + XorHalf(Without(g, 16), Without(h, 16))
  }

  lemma {:induction false} XorDoubled(a: nat, b: nat, p: nat, q: nat)
    requires p < 2 && q < 2
    ensures Xor(2 * a + p, 2 * b + q) == 2 * Xor(a, b) + (if p == q then 0 else 1)
  {
    assert (2 * a + p) / 2 == a && (2 * b + q) / 2 == b;
    assert (2 * a + p + (2 * b + q)) % 2 == (p + q) % 2;
    if 2 * a + p == 0 && 2 * b + q == 0 {
      assert Xor(0, 0) == 0;
    }
  }

  lemma {:induction false} XorTop(a: nat, b: nat, k: nat)
    requires a < Pow(2, k) && b < Pow(2, k)
    ensures var m := Pow(2, k);
            && Xor(m + a, m + b) == Xor(a, b)
            && Xor(m + a, b) == m + Xor(a, b) == Xor(a, m + b)
    decreases k
  {
    hide Xor;
    if k == 0 {
      XorZero(0);
      XorDoubled(0, 0, 1, 0);
      XorDoubled(0, 0, 0, 1);
      XorDoubled(0, 0, 1, 1);
    } else {
      var m := Pow(2, k - 1);
      var c, p, d, q := a / 2, a % 2, b / 2, b % 2;
      XorTop(c, d, k - 1);
      hide Pow;
      assert a == 2 * c + p && b == 2 * d + q;
      XorDoubled(c, d, p, q);
      XorDoubled(m + c, m + d, p, q);
      XorDoubled(m + c, d, p, q);
      XorDoubled(c, m + d, p, q);
    }
  }

  lemma {:induction false} XorBySum(a: nat, b: nat, k: nat)
    requires a < Pow(2, k + 1) && b < Pow(2, k + 1)
    ensures var m := Pow(2, k);
            Without(a, m) < m && Without(b, m) < m && Xor(a, b) == Differ(a, b, m) + Xor(Without(a, m), Without(b, m))
  {
    hide Xor;
    var m := Pow(2, k);
    assert Pow(2, k + 1) == 2 * m;
    XorTop(Without(a, m), Without(b, m), k);
    hide Pow;
  }

  lemma {:induction false} PowersOfTwo()
    ensures Pow(2, 0) == 1 && Pow(2, 1) == 2 && Pow(2, 2) == 4 && Pow(2, 3) == 8 && Pow(2, 4) == 16
    ensures Pow(2, 5) == 32 && Pow(2, 6) == 64 && Pow(2, 7) == 128 && Pow(2, 8) == 256
  {
  }

  lemma {:induction false} XorOfHalves(a: nat, b: nat)
    requires a < 16 && b < 16
    ensures Xor(a, b) == XorHalf(a, b)
  {
    XorZero(0);
    PowersOfTwo();
    hide Xor, Pow, Without, Differ;
    var c, d := Without(a, 8), Without(b, 8);
    var e, f := Without(c, 4), Without(d, 4);
    XorBySum(a, b, 3);
    XorBySum(c, d, 2);
    XorBySum(e, f, 1);
    XorBySum(Without(e, 2), Without(f, 2), 0);
  }

  lemma {:induction false} XorOfOctets(a: nat, b: nat)
    requires a < 256 && b < 256
    ensures Xor(a, b) == XorOctets(a, b)
  {
    PowersOfTwo();
    hide Xor, Pow, Without, Differ, XorHalf;
    var c, d := Without(a, 128), Without(b, 128);
    var e, f := Without(c, 64), Without(d, 64);
    var g, h := Without(e, 32), Without(f, 32);
    XorBySum(a, b, 7);
    XorBySum(c, d, 6);
    XorBySum(e, f, 5);
    XorBySum(g, h, 4);
    XorOfHalves(Without(g, 16), Without(h, 16));
  }

  lemma {:induction false} XorZero(b: nat)
    ensures Xor(0, b) == b
    decreases b
  {
    if b > 0 {
      XorZero(b / 2);
    }
  }

  lemma {:induction false} FoldTwoOctets(w: nat)
    requires w < 0x10000
    ensures Fold(w) == Xor(w / 0x100, w % 0x100)
  {
    hide Xor;
    XorZero(0);
    XorZero(w / 0x100);
    assert w / 0x1000000 == 0 && w / 0x10000 == 0 && w / 0x100 % 256 == w / 0x100;
  }

  /** The hash of an encoding from its length and its octets together, in two octets. */
  lemma {:induction false} HashFrom(s: seq<Octet>, c: nat, d: nat, h: nat)
    requires s != [] && 0x100 * c + d == |s| - 1 + 33 * Total(s) && c < 256 && d < 256
    requires h == XorOctets(c, d)
    ensures Hash(s) == h
  {
    hide Total, Sum, Fold, XorOctets, Xor;
    var w := 0x100 * c + d;
    SumIsTotal(s);
    FoldTwoOctets(w);
    XorOfOctets(c, d);
    assert (|s| - 1 + Sum(s)) % 0x1_0000_0000 == w && w / 0x100 == c && w % 0x100 == d;
  }

  function At(s: seq<Octet>, i: nat): nat {
    if i < |s| then s[i] else 0
  }

  function TotalBehind(s: seq<Octet>, i: nat): nat {
    if i < |s| then Total(s[i..]) else 0
  }

  lemma {:induction false} TotalAt(s: seq<Octet>, i: nat)
    ensures TotalBehind(s, i) == At(s, i) + TotalBehind(s, i + 1)
  {
    if i < |s| {
      assert s[i..][1..] == s[i + 1..];
    }
  }

  function Added(s: seq<Octet>): nat {
    At(s, 0) + At(s, 1) + At(s, 2) + At(s, 3) + At(s, 4) + At(s, 5) + At(s, 6) + At(s, 7) + At(s, 8) + At(s, 9)
    + At(s, 10)
  }

  lemma {:induction false} TotalOf(s: seq<Octet>)
    requires |s| <= 11
    ensures Total(s) == Added(s)
  {
    assert s[0..] == s;
    assert TotalBehind(s, 0) == Total(s) && TotalBehind(s, 11) == 0;
    hide At, TotalBehind, Total;
    TotalAt(s, 0);
    TotalAt(s, 1);
    TotalAt(s, 2);
    TotalAt(s, 3);
    TotalAt(s, 4);
    TotalAt(s, 5);
    TotalAt(s, 6);
    TotalAt(s, 7);
    TotalAt(s, 8);
    TotalAt(s, 9);
    TotalAt(s, 10);
  }

  lemma {:induction false} HashOf(s: seq<Octet>, c: nat, d: nat, h: nat)
    requires 1 <= |s| <= 11 && 0x100 * c + d == |s| - 1 + 33 * Added(s) && c < 256 && d < 256
    requires h == XorOctets(c, d)
    ensures Hash(s) == h
  {
    TotalOf(s);
    hide Total, Hash, XorOctets, Added;
    HashFrom(s, c, d, h);
  }

  predicate HashedRow(j: nat) {
    Row(j).oid < COUNT && Row(j).hash == Hash(Line(Row(j).oid))
  }

  lemma {:induction false} Hashes0(i: nat)
    requires i < 4
    ensures HashedRow(i)
  {
    hide Hash;
    match i
    case 0 => HashOf(Line(37), 13, 7, 10);
    case 1 => HashOf(Line(46), 17, 6, 23);
    case 2 => HashOf(Line(41), 17, 6, 23);
    case 3 => HashOf(Line(5), 83, 78, 29);
  }

  lemma {:induction false} Hashes4(i: nat)
    requires 4 <= i < 8
    ensures HashedRow(i)
  {
    hide Hash;
    match i
    case 4 => HashOf(Line(21), 83, 77, 30);
    case 5 => HashOf(Line(0), 65, 97, 32);
    case 6 => HashOf(Line(16), 84, 119, 35);
    case 7 => HashOf(Line(9), 84, 119, 35);
  }

  lemma {:induction false} Hashes8(i: nat)
    requires 8 <= i < 12
    ensures HashedRow(i)
  {
    hide Hash;
    match i
    case 8 => HashOf(Line(50), 19, 55, 36);
    case 9 => HashOf(Line(38), 13, 40, 37);
    case 10 => HashOf(Line(1), 66, 105, 43);
    case 11 => HashOf(Line(47), 17, 39, 54);
  }

  lemma {:induction false} Hashes12(i: nat)
    requires 12 <= i < 16
    ensures HashedRow(i)
  {
    hide Hash;
    match i
    case 12 => HashOf(Line(42), 17, 39, 54);
    case 13 => HashOf(Line(6), 83, 111, 60);
    case 14 => HashOf(Line(14), 84, 20, 64);
    case 15 => HashOf(Line(32), 12, 65, 77);
  }

  lemma {:induction false} Hashes16(i: nat)
    requires 16 <= i < 20
    ensures HashedRow(i)
  {
    hide Hash;
    match i
    case 16 => HashOf(Line(2), 67, 14, 77);
    case 17 => HashOf(Line(19), 86, 3, 85);
    case 18 => HashOf(Line(29), 11, 92, 87);
    case 19 => HashOf(Line(15), 84, 53, 97);
  }

  lemma {:induction false} Hashes20(i: nat)
    requires 20 <= i < 24
    ensures HashedRow(i)
  {
    hide Hash;
    match i
    case 20 => HashOf(Line(51), 19, 121, 106);
    case 21 => HashOf(Line(33), 12, 98, 110);
    case 22 => HashOf(Line(4), 83, 45, 126);
    case 23 => HashOf(Line(20), 87, 211, 132);
  }

  lemma {:induction false} Hashes24(i: nat)
    requires 24 <= i < 28
    ensures HashedRow(i)
  {
    hide Hash;
    match i
    case 24 => HashOf(Line(3), 66, 204, 142);
    case 25 => HashOf(Line(12), 84, 218, 142);
    case 26 => HashOf(Line(34), 12, 131, 143);
    case 27 => HashOf(Line(43), 16, 130, 146);
  }

  lemma {:induction false} Hashes28(i: nat)
    requires 28 <= i < 32
    ensures HashedRow(i)
  {
    hide Hash;
    match i
    case 28 => HashOf(Line(13), 83, 243, 160);
    case 29 => HashOf(Line(48), 18, 179, 161);
    case 30 => HashOf(Line(24), 33, 140, 173);
    case 31 => HashOf(Line(44), 16, 163, 179);
  }

  lemma {:induction false} Hashes32(i: nat)
    requires 32 <= i < 36
    ensures HashedRow(i)
  {
    hide Hash;
    match i
    case 32 => HashOf(Line(7), 83, 144, 195);
    case 33 => HashOf(Line(49), 18, 212, 198);
    case 34 => HashOf(Line(35), 12, 197, 201);
    case 35 => HashOf(Line(17), 84, 152, 204);
  }

  lemma {:induction false} Hashes36(i: nat)
    requires 36 <= i < 40
    ensures HashedRow(i)
  {
    hide Hash;
    match i
    case 36 => HashOf(Line(10), 84, 152, 204);
    case 37 => HashOf(Line(27), 33, 239, 206);
    case 38 => HashOf(Line(39), 16, 196, 212);
    case 39 => HashOf(Line(30), 11, 222, 213);
  }

  lemma {:induction false} Hashes40(i: nat)
    requires 40 <= i < 44
    ensures HashedRow(i)
  {
    hide Hash;
    match i
    case 40 => HashOf(Line(22), 83, 143, 220);
    case 41 => HashOf(Line(8), 83, 177, 226);
    case 42 => HashOf(Line(23), 83, 176, 227);
    case 43 => HashOf(Line(28), 8, 236, 228);
  }

  lemma {:induction false} Hashes44(i: nat)
    requires 44 <= i < 48
    ensures HashedRow(i)
  {
    hide Hash;
    match i
    case 44 => HashOf(Line(36), 12, 230, 234);
    case 45 => HashOf(Line(18), 84, 185, 237);
    case 46 => HashOf(Line(11), 84, 185, 237);
    case 47 => HashOf(Line(26), 33, 206, 239);
  }

  lemma {:induction false} Hashes48(i: nat)
    requires 48 <= i < 52
    ensures HashedRow(i)
  {
    hide Hash;
    match i
    case 48 => HashOf(Line(25), 33, 206, 239);
    case 49 => HashOf(Line(31), 11, 255, 244);
    case 50 => HashOf(Line(45), 16, 229, 245);
    case 51 => HashOf(Line(40), 16, 229, 245);
  }

  /** The hash in each row is that of its identifier. */
  lemma {:induction false} Hashes(i: nat)
    requires i < COUNT
    ensures HashedRow(i)
  {
    hide HashedRow;
    if i < 4 {
      Hashes0(i);
    } else if i < 8 {
      Hashes4(i);
    } else if i < 12 {
      Hashes8(i);
    } else if i < 16 {
      Hashes12(i);
    } else if i < 20 {
      Hashes16(i);
    } else if i < 24 {
      Hashes20(i);
    } else if i < 28 {
      Hashes24(i);
    } else if i < 32 {
      Hashes28(i);
    } else if i < 36 {
      Hashes32(i);
    } else if i < 40 {
      Hashes36(i);
    } else if i < 44 {
      Hashes40(i);
    } else if i < 48 {
      Hashes44(i);
    } else {
      Hashes48(i);
    }
  }

  // ----- encodings ----------------------------------------------------------------------

  lemma {:induction false} RestConcat(a: seq<nat>, b: seq<nat>)
    ensures OidCodec.EncodeRest(a + b) == OidCodec.EncodeRest(a) + OidCodec.EncodeRest(b)
    decreases a
  {
    hide Base128.Encode;
    if a == [] {
      assert [] + b == b;
    } else {
      assert (a + b)[1..] == a[1..] + b;
      RestConcat(a[1..], b);
    }
  }

  /** Components below 128 are octets of their own. */
  lemma {:induction false} SmallRest(tail: seq<Octet>)
    requires forall i :: 0 <= i < |tail| ==> tail[i] < 128
    ensures OidCodec.EncodeRest(tail) == tail
    decreases tail
  {
    if tail != [] {
      SmallRest(tail[1..]);
      assert Base128.Encode(tail[0]) == [tail[0]];
      assert [tail[0]] + tail[1..] == tail;
    }
  }

  /** An identifier in three parts: the two components of the first octet, some that are encoded as
      `octets`, and some below 128. */
  lemma {:induction false} EncodedInParts(oid: seq<nat>, middle: seq<nat>, octets: seq<Octet>, tail: seq<Octet>,
                                          line: seq<Octet>)
    requires |oid| >= 2 && oid[2..] == middle + tail && 40 * oid[0] + oid[1] < 256
    requires OidCodec.EncodeRest(middle) == octets && forall i :: 0 <= i < |tail| ==> tail[i] < 128
    requires line == [40 * oid[0] + oid[1]] + octets + tail
    ensures IsLine(oid, line)
  {
    hide OidCodec.EncodeRest;
    RestConcat(middle, tail);
    SmallRest(tail);
    var first: Octet := 40 * oid[0] + oid[1];
    assert OidCodec.Encode(oid) == [first] + OidCodec.EncodeRest(oid[2..]);
    assert [first] + (octets + tail) == [first] + octets + tail;
  }

  /** An identifier whose components are all octets of their own. */
  lemma {:induction false} EncodedPlainly(oid: seq<nat>, line: seq<Octet>)
    requires |oid| == |line| + 1 >= 2 && 40 * oid[0] + oid[1] == line[0]
    requires forall i :: 1 <= i < |line| ==> oid[i + 1] == line[i] < 128
    ensures IsLine(oid, line)
  {
    assert line == [line[0]] + line[1..];
    assert oid[2..] == line[1..];
    SmallRest(line[1..]);
    hide OidCodec.EncodeRest;
  }

  predicate IsLine(oid: seq<nat>, line: seq<Octet>) {
    OidCodec.Encodable(oid) && OidCodec.Encode(oid) == line
  }

  lemma {:induction false} LongComponents()
    ensures Base128.Encode(311) == [130, 55]
    ensures Base128.Encode(840) == [134, 72]
    ensures Base128.Encode(10030) == [206, 46]
    ensures Base128.Encode(10040) == [206, 56]
    ensures Base128.Encode(10045) == [206, 61]
    ensures Base128.Encode(113549) == [134, 247, 13]
  {
  }

  lemma {:induction false} Components()
    ensures OidCodec.EncodeRest([840, 10030]) == [134, 72, 206, 46]
    ensures OidCodec.EncodeRest([840, 10040]) == [134, 72, 206, 56]
    ensures OidCodec.EncodeRest([840, 10045]) == [134, 72, 206, 61]
    ensures OidCodec.EncodeRest([840, 113549]) == [134, 72, 134, 247, 13]
    ensures OidCodec.EncodeRest([6, 1, 4, 1, 311]) == [6, 1, 4, 1, 130, 55]
    ensures OidCodec.EncodeRest([]) == []
  {
    hide Base128.Encode;
    LongComponents();
    TwoComponents(840, 10030);
    TwoComponents(840, 10040);
    TwoComponents(840, 10045);
    TwoComponents(840, 113549);
    RestConcat([6, 1, 4, 1], [311]);
    assert [6, 1, 4, 1] + [311] == [6, 1, 4, 1, 311];
    SmallRest([6, 1, 4, 1]);
    OneComponent(311);
  }

  lemma {:induction false} OneComponent(c: nat)
    ensures OidCodec.EncodeRest([c]) == Base128.Encode(c)
  {
    hide Base128.Encode;
    assert [c][1..] == [];
    assert OidCodec.EncodeRest([]) == [];
  }

  lemma {:induction false} TwoComponents(c: nat, d: nat)
    ensures OidCodec.EncodeRest([c, d]) == Base128.Encode(c) + Base128.Encode(d)
  {
    hide Base128.Encode;
    assert [c, d] == [c] + [d];
    RestConcat([c], [d]);
    OneComponent(c);
    OneComponent(d);
  }

  lemma {:induction false} Encoded0(i: nat)
    requires i < 4
    ensures IsLine(Oid(i), Line(i))
  {
    Components();
    hide OidCodec.EncodeRest, IsLine;
    match i
    case 0 => EncodedInParts(Oid(0), [840, 10030], [134, 72, 206, 46], [4, 3], Line(0));
    case 1 => EncodedInParts(Oid(1), [840, 10040], [134, 72, 206, 56], [4, 1], Line(1));
    case 2 => EncodedInParts(Oid(2), [840, 10045], [134, 72, 206, 61], [4, 1], Line(2));
    case 3 => EncodedInParts(Oid(3), [840, 10045], [134, 72, 206, 61], [2, 1], Line(3));
  }

  lemma {:induction false} Encoded4(i: nat)
    requires 4 <= i < 8
    ensures IsLine(Oid(i), Line(i))
  {
    Components();
    hide OidCodec.EncodeRest, IsLine;
    match i
    case 4 => EncodedInParts(Oid(4), [840, 113549], [134, 72, 134, 247, 13], [1, 1, 1], Line(4));
    case 5 => EncodedInParts(Oid(5), [840, 113549], [134, 72, 134, 247, 13], [1, 1, 2], Line(5));
    case 6 => EncodedInParts(Oid(6), [840, 113549], [134, 72, 134, 247, 13], [1, 1, 3], Line(6));
    case 7 => EncodedInParts(Oid(7), [840, 113549], [134, 72, 134, 247, 13], [1, 1, 4], Line(7));
  }

  lemma {:induction false} Encoded8(i: nat)
    requires 8 <= i < 12
    ensures IsLine(Oid(i), Line(i))
  {
    Components();
    hide OidCodec.EncodeRest, IsLine;
    match i
    case 8 => EncodedInParts(Oid(8), [840, 113549], [134, 72, 134, 247, 13], [1, 1, 5], Line(8));
    case 9 => EncodedInParts(Oid(9), [840, 113549], [134, 72, 134, 247, 13], [1, 1, 11], Line(9));
    case 10 => EncodedInParts(Oid(10), [840, 113549], [134, 72, 134, 247, 13], [1, 1, 12], Line(10));
    case 11 => EncodedInParts(Oid(11), [840, 113549], [134, 72, 134, 247, 13], [1, 1, 13], Line(11));
  }

  lemma {:induction false} Encoded12(i: nat)
    requires 12 <= i < 16
    ensures IsLine(Oid(i), Line(i))
  {
    Components();
    hide OidCodec.EncodeRest, IsLine;
    match i
    case 12 => EncodedInParts(Oid(12), [840, 113549], [134, 72, 134, 247, 13], [1, 1, 14], Line(12));
    case 13 => EncodedInParts(Oid(13), [840, 113549], [134, 72, 134, 247, 13], [1, 7, 1], Line(13));
    case 14 => EncodedInParts(Oid(14), [840, 113549], [134, 72, 134, 247, 13], [1, 7, 2], Line(14));
    case 15 => EncodedInParts(Oid(15), [840, 113549], [134, 72, 134, 247, 13], [1, 9, 1], Line(15));
  }

  lemma {:induction false} Encoded16(i: nat)
    requires 16 <= i < 20
    ensures IsLine(Oid(i), Line(i))
  {
    Components();
    hide OidCodec.EncodeRest, IsLine;
    match i
    case 16 => EncodedInParts(Oid(16), [840, 113549], [134, 72, 134, 247, 13], [1, 9, 3], Line(16));
    case 17 => EncodedInParts(Oid(17), [840, 113549], [134, 72, 134, 247, 13], [1, 9, 4], Line(17));
    case 18 => EncodedInParts(Oid(18), [840, 113549], [134, 72, 134, 247, 13], [1, 9, 5], Line(18));
    case 19 => EncodedInParts(Oid(19), [840, 113549], [134, 72, 134, 247, 13], [1, 9, 15], Line(19));
  }

  lemma {:induction false} Encoded20(i: nat)
    requires 20 <= i < 24
    ensures IsLine(Oid(i), Line(i))
  {
    Components();
    hide OidCodec.EncodeRest, IsLine;
    match i
    case 20 => EncodedInParts(Oid(20), [840, 113549], [134, 72, 134, 247, 13], [1, 9, 16, 2, 11], Line(20));
    case 21 => EncodedInParts(Oid(21), [840, 113549], [134, 72, 134, 247, 13], [2, 2], Line(21));
    case 22 => EncodedInParts(Oid(22), [840, 113549], [134, 72, 134, 247, 13], [2, 4], Line(22));
    case 23 => EncodedInParts(Oid(23), [840, 113549], [134, 72, 134, 247, 13], [2, 5], Line(23));
  }

  lemma {:induction false} Encoded24(i: nat)
    requires 24 <= i < 28
    ensures IsLine(Oid(i), Line(i))
  {
    Components();
    hide OidCodec.EncodeRest, IsLine;
    match i
    case 24 => EncodedInParts(Oid(24), [6, 1, 4, 1, 311], [6, 1, 4, 1, 130, 55], [16, 4], Line(24));
    case 25 => EncodedInParts(Oid(25), [6, 1, 4, 1, 311], [6, 1, 4, 1, 130, 55], [20, 2], Line(25));
    case 26 => EncodedInParts(Oid(26), [6, 1, 4, 1, 311], [6, 1, 4, 1, 130, 55], [21, 1], Line(26));
    case 27 => EncodedInParts(Oid(27), [6, 1, 4, 1, 311], [6, 1, 4, 1, 130, 55], [21, 2], Line(27));
  }

  lemma {:induction false} Encoded28(i: nat)
    requires 28 <= i < 32
    ensures IsLine(Oid(i), Line(i))
  {
    Components();
    hide OidCodec.EncodeRest, IsLine;
    match i
    case 28 => EncodedPlainly(Oid(28), Line(28));
    case 29 => EncodedPlainly(Oid(29), Line(29));
    case 30 => EncodedPlainly(Oid(30), Line(30));
    case 31 => EncodedPlainly(Oid(31), Line(31));
  }

  lemma {:induction false} Encoded32(i: nat)
    requires 32 <= i < 36
    ensures IsLine(Oid(i), Line(i))
  {
    Components();
    hide OidCodec.EncodeRest, IsLine;
    match i
    case 32 => EncodedPlainly(Oid(32), Line(32));
    case 33 => EncodedPlainly(Oid(33), Line(33));
    case 34 => EncodedPlainly(Oid(34), Line(34));
    case 35 => EncodedPlainly(Oid(35), Line(35));
  }

  lemma {:induction false} Encoded36(i: nat)
    requires 36 <= i < 40
    ensures IsLine(Oid(i), Line(i))
  {
    Components();
    hide OidCodec.EncodeRest, IsLine;
    match i
    case 36 => EncodedPlainly(Oid(36), Line(36));
    case 37 => EncodedPlainly(Oid(37), Line(37));
    case 38 => EncodedPlainly(Oid(38), Line(38));
    case 39 => EncodedPlainly(Oid(39), Line(39));
  }

  lemma {:induction false} Encoded40(i: nat)
    requires 40 <= i < 44
    ensures IsLine(Oid(i), Line(i))
  {
    Components();
    hide OidCodec.EncodeRest, IsLine;
    match i
    case 40 => EncodedPlainly(Oid(40), Line(40));
    case 41 => EncodedPlainly(Oid(41), Line(41));
    case 42 => EncodedPlainly(Oid(42), Line(42));
    case 43 => EncodedPlainly(Oid(43), Line(43));
  }

  lemma {:induction false} Encoded44(i: nat)
    requires 44 <= i < 48
    ensures IsLine(Oid(i), Line(i))
  {
    Components();
    hide OidCodec.EncodeRest, IsLine;
    match i
    case 44 => EncodedPlainly(Oid(44), Line(44));
    case 45 => EncodedPlainly(Oid(45), Line(45));
    case 46 => EncodedPlainly(Oid(46), Line(46));
    case 47 => EncodedPlainly(Oid(47), Line(47));
  }

  lemma {:induction false} Encoded48(i: nat)
    requires 48 <= i < 52
    ensures IsLine(Oid(i), Line(i))
  {
    Components();
    hide OidCodec.EncodeRest, IsLine;
    match i
    case 48 => EncodedPlainly(Oid(48), Line(48));
    case 49 => EncodedPlainly(Oid(49), Line(49));
    case 50 => EncodedPlainly(Oid(50), Line(50));
    case 51 => EncodedPlainly(Oid(51), Line(51));
  }

  /** Each line is the encoding of its identifier. */
  lemma {:induction false} Encoded(i: nat)
    requires i < COUNT
    ensures IsLine(Oid(i), Line(i))
  {
    hide IsLine;
    if i < 4 {
      Encoded0(i);
    } else if i < 8 {
      Encoded4(i);
    } else if i < 12 {
      Encoded8(i);
    } else if i < 16 {
      Encoded12(i);
    } else if i < 20 {
      Encoded16(i);
    } else if i < 24 {
      Encoded20(i);
    } else if i < 28 {
      Encoded24(i);
    } else if i < 32 {
      Encoded28(i);
    } else if i < 36 {
      Encoded32(i);
    } else if i < 40 {
      Encoded36(i);
    } else if i < 44 {
      Encoded40(i);
    } else if i < 48 {
      Encoded44(i);
    } else {
      Encoded48(i);
    }
  }

  // ----- the order ----------------------------------------------------------------------

  /** Row `j` comes before the next one: by length, or by the last octet, where the hashes are equal. */
  predicate InOrder(j: nat) {
    var a, b := Line(Row(j).oid), Line(Row(j + 1).oid);
    || Row(j).hash < Row(j + 1).hash
    || (Row(j).hash == Row(j + 1).hash && (|a| < |b| || (|a| == |b| > 0 && a[|a| - 1] < b[|b| - 1])))
  }

  lemma {:induction false} HashesAscend(j: nat)
    requires j + 1 < COUNT && j !in {1, 6, 11, 15, 24, 35, 45, 47, 50}
    ensures Row(j).hash < Row(j + 1).hash
  {
  }

  lemma {:induction false} Ties(j: nat)
    requires j in {1, 6, 11, 15, 24, 35, 45, 47, 50}
    ensures InOrder(j)
  {
  }

  lemma {:induction false} RowsInOrder(j: nat)
    requires j + 1 < COUNT
    ensures InOrder(j)
  {
    if j in {1, 6, 11, 15, 24, 35, 45, 47, 50} {
      Ties(j);
    } else {
      HashesAscend(j);
    }
    hide Row, Line;
  }

  lemma {:induction false} Ascends(j: nat)
    requires j + 1 < COUNT
    ensures Compare(Line(Row(j).oid), Line(Row(j + 1).oid)) < 0
  {
    hide Row, Line, Hash;
    RowsInOrder(j);
    Hashes(j);
    Hashes(j + 1);
  }

  lemma {:induction false} Ascending(i: nat, j: nat)
    requires i < j < COUNT
    ensures Compare(Line(Row(i).oid), Line(Row(j).oid)) < 0
    decreases j
  {
    hide Row, Line, Compare;
    Ascends(j - 1);
    if i < j - 1 {
      Ascending(i, j - 1);
      StrictlyBefore(Line(Row(i).oid), Line(Row(j - 1).oid), Line(Row(j).oid));
    }
  }

  lemma {:induction false} StrictlyBefore(a: seq<Octet>, b: seq<Octet>, c: seq<Octet>)
    requires Compare(a, b) < 0 && Compare(b, c) < 0
    ensures Compare(a, c) < 0
  {
    hide Compare;
    CompareTrans(a, b, c);
    CompareEqual(a, c);
    CompareFlips(a, b);
  }

  // ----- the registry -------------------------------------------------------------------

  lemma {:induction false} StartsAdd(i: nat)
    requires i < COUNT
    ensures Start(i + 1) == Start(i) + |Line(i)|
  {
  }

  lemma {:induction false} Places(i: nat)
    requires i < COUNT
    ensures Place(i) < COUNT && Row(Place(i)).oid == i
  {
  }

  function Oids(): seq<seq<nat>> {
    seq(COUNT, (i: nat) => Oid(i))
  }

  function Lines(): seq<seq<Octet>> {
    seq(COUNT, (i: nat) => Line(i))
  }

  /** The three tables; `oid_data` is its lines one behind the other. */
  function Shipped(): Registry {
    Registry(seq(COUNT + 1, (i: nat) => Start(i)), Joined(Lines()), seq(COUNT, (j: nat) => Row(j)))
  }

  lemma {:induction false} StartsAreSums(i: nat)
    requires i <= COUNT
    ensures Start(i) == |Joined(Lines()[..i])|
    decreases i
  {
    hide Line;
    if i > 0 {
      StartsAreSums(i - 1);
      StartsAdd(i - 1);
      JoinedNext(Lines(), i - 1);
      hide Joined, Start;
    } else {
      assert Lines()[..0] == [];
    }
  }

  lemma {:induction false} LinesAreEncodings()
    ensures AllEncodable(Oids()) && Encodings(Oids()) == Lines()
  {
    hide Oid, Line, OidCodec.Encode, OidCodec.Encodable;
    forall i: nat | i < COUNT
      ensures OidCodec.Encodable(Oid(i)) && OidCodec.Encode(Oid(i)) == Line(i)
    {
      Encoded(i);
    }
  }

  lemma {:induction false} TableSearches()
    ensures Searchable(Shipped().table, Lines()) && Distinct(Lines())
  {
    hide Row, Line, Place, Start, Joined, Compare, Hash;
    var table := Shipped().table;
    forall j: nat | j < COUNT
      ensures table[j].oid < COUNT && table[j].hash == Hash(Lines()[table[j].oid])
    {
      Hashes(j);
    }
    forall i: nat, j: nat | i < j < COUNT
      ensures Compare(Lines()[table[i].oid], Lines()[table[j].oid]) <= 0
    {
      Ascending(i, j);
    }
    forall i: nat | i < COUNT
      ensures InTable(table, i)
    {
      Places(i);
      assert table[Place(i)].oid == i;
    }
    LinesDiffer();
  }

  lemma {:induction false} LinesDiffer()
    ensures Distinct(Lines())
  {
    hide Row, Line, Place, Compare;
    forall i: nat, j: nat | i < j < COUNT
      ensures Line(i) != Line(j)
    {
      Places(i);
      Places(j);
      var p, q := Place(i), Place(j);
      CompareEqual(Line(i), Line(j));
      CompareFlips(Line(i), Line(j));
      if p < q {
        Ascending(p, q);
      } else {
        Ascending(q, p);
      }
    }
  }

  /** The tables in the repository are those the builder means for the identifiers in the header;
      by the contract of `LookupOid` each of these is found under its own number. */
  lemma {:induction false} ShippedIsBuilt()
    ensures AllEncodable(Oids()) && Built(Shipped(), Encodings(Oids())) && Distinct(Encodings(Oids()))
  {
    LinesAreEncodings();
    TableSearches();
    hide Searchable, Distinct, Line, Row, Oid, Joined, OidCodec.Encode, OidCodec.Encodable;
    forall i: nat | i <= COUNT
      ensures Start(i) == |Joined(Lines()[..i])|
    {
      StartsAreSums(i);
    }
    hide Start;
    Cuts(Shipped().index, Lines());
  }
}
