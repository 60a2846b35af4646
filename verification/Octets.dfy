/** Slices of sequences. */
module Slices {
  /** A slice that is a concatenation falls into the slices that are its parts. */
  lemma {:induction false} Cut<T>(s: seq<T>, p: int, q: int, a: seq<T>, b: seq<T>)
    requires 0 <= p <= q <= |s| && s[p..q] == a + b
    ensures p + |a| <= q && s[p..p + |a|] == a && s[p + |a|..q] == b
  {
    assert s[p..p + |a|] == s[p..q][..|a|];
    assert s[p + |a|..q] == s[p..q][|a|..];
  }

  lemma {:induction false} At<T>(s: seq<T>, p: int, q: int, a: seq<T>)
    requires 0 <= p <= q <= |s| && s[p..q] == a
    ensures forall i :: 0 <= i < |a| ==> s[p + i] == a[i]
  {
    assert forall i :: 0 <= i < |a| ==> s[p + i] == s[p..q][i];
  }
}

/** Octets and the identifier and length rules of ITU-T X.690, section 8.1, as the decoder
    in listcerts/asn1_ber_decoder.c reads them. */
module Octets {
  type Octet = x: int | 0 <= x < 256

  /** ASN1_CONS_BIT. */
  predicate HasConsBit(tag: int) {
    tag / 32 % 2 == 1
  }

  /** The number bits of an identifier octet are all ones: a long-form tag follows. */
  predicate IsLongTag(tag: int) {
    tag % 32 == 31
  }

  /** The low 0x1f and the class bits of two identifier octets agree: they differ at most
      in the CONS bit. */
  predicate SameTagButCons(a: int, b: int) {
    a / 64 == b / 64 && a % 32 == b % 32
  }

  /** Whether data tag `tag` satisfies op tag `optag`: a primitive op tag wants exactly its
      own octet, a constructed one ignores the CONS bit of the data. */
  predicate TagMatches(optag: int, tag: int) {
    if HasConsBit(optag) then SameTagButCons(optag, tag) else optag == tag
  }

  /** An op tag matches its own octet and, if it is constructed, that octet without the CONS bit. */
  lemma {:induction false} MatchingTags(optag: Octet, tag: Octet)
    ensures TagMatches(optag, tag) <==> tag == optag || (optag / 32 % 2 == 1 && tag == optag - 32)
  {
    var c, d := optag / 64, optag % 64;
    var e, f := tag / 64, tag % 64;
    assert optag == 64 * c + d && tag == 64 * e + f;
    assert optag / 32 == 2 * c + d / 32 && tag / 32 == 2 * e + f / 32;
  }

  /** Big-endian value of a string of octets. */
  function BigEndian(s: seq<Octet>): (n: nat)
  {
    if s == [] then 0 else 256 * BigEndian(s[..|s| - 1]) + s[|s| - 1]
  }
}
