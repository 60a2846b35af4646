/** Numbers in base 128, as subidentifiers of object identifiers are encoded (X.690
    section 8.19.2): the sizes the registry builder computes beforehand with a logarithm,
    the encoding loop, and the decoding loop of `Sprint_OID`. */
module Base128 {
  import opened Octets
  import opened Powers

  // ----- the logarithm ------------------------------------------------------------------

  /** The exponent of the highest power of two in `c`. */
  function Log2(c: nat): nat {
    if c <= 1 then 0 else 1 + Log2(c / 2)
  }

  /** It is the integer part of the binary logarithm. */
  lemma {:induction false} Log2IsFloor(c: nat)
    requires c > 0
    ensures Pow(2, Log2(c)) <= c < 2 * Pow(2, Log2(c))
  {
    if c > 1 {
      Log2IsFloor(c / 2);
    }
  }

  /** The number of octets before the last one, as both loops over the components find it. */
  function Groups(c: nat): nat {
    if c == 0 then 0 else Log2(c) / 7
  }

  lemma {:induction false} Log2Shift(c: nat)
    requires c >= 128
    ensures Log2(c) == 7 + Log2(c / 128)
  {
    Log2Eighth(c);
    Log2Eighth(c / 8);
    assert Log2(c / 64) == 1 + Log2(c / 64 / 2);
    assert c / 8 / 8 == c / 64 && c / 64 / 2 == c / 128;
  }

  lemma {:induction false} Log2Eighth(c: nat)
    requires c >= 8
    ensures Log2(c) == 3 + Log2(c / 8)
  {
    assert Log2(c) == 1 + Log2(c / 2);
    assert Log2(c / 2) == 1 + Log2(c / 2 / 2);
    assert Log2(c / 4) == 1 + Log2(c / 4 / 2);
    assert c / 2 / 2 == c / 4 && c / 4 / 2 == c / 8;
  }

  lemma {:induction false} GroupsStep(c: nat)
    ensures c < 128 ==> Groups(c) == 0
    ensures c >= 128 ==> Groups(c) == 1 + Groups(c / 128)
  {
    if c >= 128 {
      Log2Shift(c);
    } else if c > 0 {
      Small(c);
    }
  }

  lemma {:induction false} Tiny(c: nat)
    requires c < 8
    ensures Log2(c) <= 2
  {
    if c > 1 {
      assert Log2(c) == 1 + Log2(c / 2);
      assert c / 2 > 1 ==> Log2(c / 2) == 1 + Log2(c / 2 / 2);
      assert c / 2 / 2 <= 1;
    }
  }

  lemma {:induction false} Small(c: nat)
    requires c < 128
    ensures Log2(c) < 7
  {
    Tiny(c % 8);
    if c >= 64 {
      Log2Eighth(c);
      Log2Eighth(c / 8);
      assert c / 8 / 8 == 1;
    } else if c >= 8 {
      Log2Eighth(c);
      Tiny(c / 8);
    }
  }

  // ----- the encoding -------------------------------------------------------------------

  /** The octets of `h` in base 128, all with bit 8 set; none for zero. */
  function Leading(h: nat): seq<Octet> {
    if h == 0 then [] else Leading(h / 128) + [128 + h % 128]
  }

  function Encode(c: nat): (s: seq<Octet>)
    ensures |s| >= 1
  {
    Leading(c / 128) + [c % 128]
  }

  /** X.690 section 8.19.2: bit 8 marks all octets but the last, and the first is not 0x80. */
  predicate IsSubidentifier(s: seq<Octet>) {
    |s| >= 1 && s[|s| - 1] < 128 && (forall i :: 0 <= i < |s| - 1 ==> s[i] >= 128) && s[0] != 128
  }

  /** The number the seven low bits of the octets make. */
  function ValueOf(s: seq<Octet>): nat {
    if s == [] then 0 else 128 * ValueOf(s[..|s| - 1]) + s[|s| - 1] % 128
  }

  predicate AllHigh(s: seq<Octet>) {
    forall i :: 0 <= i < |s| ==> s[i] >= 128
  }

  lemma {:induction false} ValueOfSnoc(s: seq<Octet>, o: Octet)
    ensures ValueOf(s + [o]) == 128 * ValueOf(s) + o % 128
  {
    assert (s + [o])[..|s|] == s;
  }

  lemma {:induction false} LeadingMeans(h: nat)
    ensures ValueOf(Leading(h)) == h && AllHigh(Leading(h))
    ensures h > 0 ==> |Leading(h)| > 0 && Leading(h)[0] != 128
  {
    if h > 0 {
      var q, r := h / 128, h % 128;
      var t, o: Octet := Leading(q), 128 + r;
      LeadingMeans(q);
      assert Leading(h) == t + [o];
      hide Leading, ValueOf;
      ValueOfSnoc(t, o);
      LowBits(r);
      if q == 0 {
        NothingLeading(t, q);
      }
    }
  }

  lemma {:induction false} LowBits(d: nat)
    requires d < 128
    ensures (128 + d) % 128 == d
  {
  }

  lemma {:induction false} DivMod(q: nat, r: nat)
    requires r < 128
    ensures (128 * q + r) / 128 == q && (128 * q + r) % 128 == r && r % 128 == r
  {
  }

  lemma {:induction false} NothingLeading(t: seq<Octet>, h: nat)
    requires t == Leading(h)
    ensures h == 0 ==> t == []
  {
  }

  /** The encoding is a minimal subidentifier of value `c`. */
  lemma {:induction false} EncodeMeans(c: nat)
    ensures IsSubidentifier(Encode(c)) && ValueOf(Encode(c)) == c
  {
    var q, r := c / 128, c % 128;
    var t, o: Octet := Leading(q), r;
    LeadingMeans(q);
    NothingLeading(t, q);
    assert Encode(c) == t + [o];
    hide Leading, ValueOf, Encode, IsSubidentifier, AllHigh;
    ValueOfSnoc(t, o);
    DivMod(q, r);
    LastIsLow(t, o);
  }

  lemma {:induction false} LastIsLow(t: seq<Octet>, o: Octet)
    requires AllHigh(t) && (t != [] ==> t[0] != 128) && o < 128
    ensures IsSubidentifier(t + [o])
  {
  }

  lemma {:induction false} LeadingIsUnique(s: seq<Octet>)
    requires AllHigh(s) && (s != [] ==> s[0] != 128)
    ensures Leading(ValueOf(s)) == s && (s != [] ==> ValueOf(s) > 0)
  {
    if s != [] {
      var t, o := s[..|s| - 1], s[|s| - 1];
      LeadingIsUnique(t);
      assert s == t + [o];
      ValueOfSnoc(t, o);
      LeadingSnoc(ValueOf(t), o);
      if t == [] {
        assert o > 128;
      }
      hide Leading;
    }
  }

  lemma {:induction false} LeadingSnoc(h: nat, o: Octet)
    requires o >= 128
    ensures var n := 128 * h + o % 128; n > 0 ==> Leading(n) == Leading(h) + [o]
  {
  }

  /** It is the only minimal subidentifier of its value. */
  lemma {:induction false} EncodeIsUnique(s: seq<Octet>)
    requires IsSubidentifier(s)
    ensures Encode(ValueOf(s)) == s
  {
    var t, o := s[..|s| - 1], s[|s| - 1];
    LeadingIsUnique(t);
    assert s == t + [o];
    ValueOfSnoc(t, o);
    DivMod(ValueOf(t), o);
    hide Leading, ValueOf;
    assert ValueOf(s) == 128 * ValueOf(t) + o;
  }

  lemma {:induction false} EncodeSize(c: nat)
    ensures |Encode(c)| == Groups(c) + 1
  {
    GroupsStep(c);
    if c >= 128 {
      EncodeSize(c / 128);
    }
  }

  // ----- the encoding loop --------------------------------------------------------------

  /** `c` shifted right by `n` groups of seven bits. */
  function Shift(c: nat, n: nat): nat {
    if n == 0 then c else Shift(c, n - 1) / 128
  }

  lemma {:induction false} ShiftFirst(c: nat, n: nat)
    ensures Shift(c, n + 1) == Shift(c / 128, n)
  {
    if n > 0 {
      ShiftFirst(c, n - 1);
    }
  }

  /** `Groups(c)` is the right number of groups. */
  lemma {:induction false} GroupsFit(c: nat, n: nat)
    ensures Shift(c, n) == 0 <==> c == 0 || n > Groups(c)
    decreases c, n
  {
    GroupsStep(c);
    if n > 0 {
      ShiftFirst(c, n - 1);
      if c >= 128 {
        GroupsFit(c / 128, n - 1);
      } else {
        assert c / 128 == 0;
        ShiftZero(n - 1);
      }
    }
  }

  lemma {:induction false} ShiftZero(n: nat)
    ensures Shift(0, n) == 0
  {
    if n > 0 {
      ShiftZero(n - 1);
    }
  }

  /** The loop over the groups of a component, highest first. */
  method EncodeComponent(c: nat) returns (octets: seq<Octet>)
    ensures octets == Encode(c)
  {
    var tmp := Groups(c);
    octets := [];
    GroupsFit(c, tmp + 1);
    while tmp > 0
      invariant 0 <= tmp <= Groups(c)
      invariant octets == Leading(Shift(c, tmp + 1))
    {
      GroupsFit(c, tmp);
      octets := octets + [128 + Shift(c, tmp) % 128];
      tmp := tmp - 1;
    }
    octets := octets + [c % 128];
  }
}
