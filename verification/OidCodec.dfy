/** Object identifiers (X.690 section 8.19): the encoder of the registry builder and the
    decoder `Sprint_OID`. */
module OidCodec {
  import opened Octets
  import opened Grammar
  import Base128
  import Decimal

  // ----- encoding -----------------------------------------------------------------------

  /** What the builder can encode: two components at least, and the octet they share fits. */
  predicate Encodable(arcs: seq<nat>) {
    |arcs| >= 2 && 40 * arcs[0] + arcs[1] < 256
  }

  function EncodeRest(cs: seq<nat>): seq<Octet> {
    if cs == [] then [] else Base128.Encode(cs[0]) + EncodeRest(cs[1..])
  }

  function Encode(arcs: seq<nat>): (s: seq<Octet>)
    requires Encodable(arcs)
    ensures |s| >= 1
  {
    [40 * arcs[0] + arcs[1]] + EncodeRest(arcs[2..])
  }

  lemma {:induction false} EncodeRestSnoc(cs: seq<nat>, c: nat)
    ensures EncodeRest(cs + [c]) == EncodeRest(cs) + Base128.Encode(c)
  {
    if cs == [] {
      assert [c][1..] == [];
      assert EncodeRest([]) == [];
    } else {
      assert (cs + [c])[1..] == cs[1..] + [c];
      EncodeRestSnoc(cs[1..], c);
      hide Base128.Encode;
    }
  }

  /** The length the builder computes before it encodes anything. */
  method ComputeSize(arcs: seq<nat>) returns (size: nat)
    requires Encodable(arcs)
    ensures size == |Encode(arcs)|
  {
    hide Base128.Encode, Base128.Groups;
    size := |arcs| - 1;
    for i := 2 to |arcs|
      invariant size == |arcs| - i + 1 + |EncodeRest(arcs[2..i])|
    {
      assert arcs[2..i + 1] == arcs[2..i] + [arcs[i]];
      EncodeRestSnoc(arcs[2..i], arcs[i]);
      Base128.EncodeSize(arcs[i]);
      size := size + Base128.Groups(arcs[i]);
    }
    assert arcs[2..|arcs|] == arcs[2..];
  }

  /** The loop that encodes one identifier. */
  method EncodeOid(arcs: seq<nat>) returns (octets: seq<Octet>)
    requires Encodable(arcs)
    ensures octets == Encode(arcs)
  {
    hide Base128.Encode;
    octets := [40 * arcs[0] + arcs[1]];
    for i := 2 to |arcs|
      invariant octets == [40 * arcs[0] + arcs[1]] + EncodeRest(arcs[2..i])
    {
      assert arcs[2..i + 1] == arcs[2..i] + [arcs[i]];
      EncodeRestSnoc(arcs[2..i], arcs[i]);
      var c := Base128.EncodeComponent(arcs[i]);
      octets := octets + c;
    }
    assert arcs[2..|arcs|] == arcs[2..];
  }

  // ----- decoding -----------------------------------------------------------------------

  const WORD := 0x1_0000_0000_0000_0000

  /** What a 64-bit variable keeps of `n`. */
  function Low64(n: nat): nat {
    n % WORD
  }

  /** The first number that is negative when a 64-bit variable is printed as a signed one. */
  const SIGN := 0x8000_0000_0000_0000

  /** What `%ld` shows of the 64-bit variable `n`. */
  function Signed(n: nat): int {
    if n < SIGN then n else n - WORD
  }

  /** The inner loop: the number read so far is `num`, in 64 bits. */
  function Continue(data: seq<Octet>, v: nat, num: nat): (r: Option<(nat, nat)>)
    ensures r.Some? ==> v < r.value.1 <= |data|
    decreases |data| - v
  {
    if v >= |data| then None
    else
      var next := Low64(num * 128) + data[v] % 128;
      if data[v] >= 128 then Continue(data, v + 1, next) else Some((next, v + 1))
  }

  /** The components from `v` on, as they are printed. */
  function ArcsFrom(data: seq<Octet>, v: nat): Option<seq<int>>
    decreases |data| - v
  {
    if v >= |data| then Some([])
    else
      var r := Continue(data, v, 0);
      if r.None? then None else
      var rest := ArcsFrom(data, r.value.1);
      if rest.None? then None else Some([Signed(r.value.0)] + rest.value)
  }

  /** The numbers `Sprint_OID` prints; none stands for -EBADMSG. */
  function Decode(data: seq<Octet>): Option<seq<int>> {
    if data == [] then None
    else
      var rest := ArcsFrom(data, 1);
      if rest.None? then None else Some([data[0] / 40, data[0] % 40] + rest.value)
  }

  /** "a.b.c" */
  function Dotted(arcs: seq<int>): string {
    if arcs == [] then ""
    else Dotted(arcs[..|arcs| - 1]) + (if |arcs| == 1 then "" else ".") + Decimal.Text(arcs[|arcs| - 1])
  }

  /** What `Sprint_OID` prints, into a buffer that is large enough. */
  function Printed(data: seq<Octet>): Option<string> {
    if Decode(data).None? then None else Some(Dotted(Decode(data).value))
  }

  function Behind(arcs: seq<int>, rest: Option<seq<int>>): Option<seq<int>> {
    if rest.None? then None else Some(arcs + rest.value)
  }

  lemma {:induction false} OneMoreArc(arcs: seq<int>, n: int)
    requires arcs != []
    ensures Dotted(arcs + [n]) == Dotted(arcs) + "." + Decimal.Text(n)
  {
    assert (arcs + [n])[..|arcs|] == arcs;
  }

  lemma {:induction false} FirstArcs(a: int, b: int)
    ensures Dotted([a, b]) == Decimal.Text(a) + "." + Decimal.Text(b)
  {
    assert [a, b][..1] == [a] && [a][..0] == [];
    assert Dotted([a]) == Dotted([]) + "" + Decimal.Text(a);
  }

  /** The inner loop ends with the first octet that has bit 8 clear, if there is one. */
  lemma {:induction false} ContinueEnds(data: seq<Octet>, v: nat, num: nat)
    requires v < |data|
    ensures var r := Continue(data, v, num);
            && (r.Some? ==> data[r.value.1 - 1] < 128)
            && (r.None? ==> data[|data| - 1] >= 128)
    decreases |data| - v
  {
    hide Low64;
    if data[v] >= 128 && v + 1 < |data| {
      ContinueEnds(data, v + 1, Low64(num * 128) + data[v] % 128);
    }
  }

  lemma {:induction false} ArcsRefused(data: seq<Octet>, v: nat)
    requires v <= |data|
    ensures ArcsFrom(data, v).None? <==> v < |data| && data[|data| - 1] >= 128
    decreases |data| - v
  {
    hide Continue;
    if v < |data| {
      ContinueEnds(data, v, 0);
      var r := Continue(data, v, 0);
      if r.Some? {
        ArcsRefused(data, r.value.1);
      }
    }
  }

  /** Exactly empty and truncated data are refused. */
  lemma {:induction false} RefusedIfCut(data: seq<Octet>)
    ensures Printed(data).None? <==> data == [] || (|data| >= 2 && data[|data| - 1] >= 128)
  {
    hide ArcsFrom, Dotted;
    if data != [] {
      ArcsRefused(data, 1);
    }
  }

  method SprintOid(data: seq<Octet>) returns (r: Option<string>)
    ensures r == Printed(data)
    ensures r.None? <==> data == [] || (|data| >= 2 && data[|data| - 1] >= 128)
  {
    RefusedIfCut(data);
    hide Low64, Dotted, Decimal.Text;
    ZeroFits();
    if data == [] { return None; }
    FirstArcs(data[0] / 40, data[0] % 40);
    var v, out := 1, Decimal.Text(data[0] / 40) + "." + Decimal.Text(data[0] % 40);
    ghost var arcs: seq<int> := [data[0] / 40, data[0] % 40];
    while v < |data|
      invariant 1 <= v <= |data| && arcs != [] && out == Dotted(arcs)
      invariant Decode(data) == Behind(arcs, ArcsFrom(data, v))
      decreases |data| - v
    {
      ghost var start := v;
      var n, num := data[v], 0;
      v := v + 1;
      if n < 128 {
        num := n as nat;
      } else {
        num := n as nat % 128;
        while n >= 128
          invariant start < v <= |data| && num >= 0
          invariant Continue(data, start, 0) == if n >= 128 then Continue(data, v, num) else Some((num, v))
          decreases |data| - v, n
        {
          if v >= |data| { return None; }
          n := data[v];
          v := v + 1;
          num := Low64(num * 128) + n as nat % 128;
        }
      }
      assert Continue(data, start, 0) == Some((num, v));
      OneMoreArc(arcs, Signed(num));
      MoreBehind(arcs, Signed(num), ArcsFrom(data, v));
      out := out + "." + Decimal.Text(Signed(num));
      arcs := arcs + [Signed(num)];
    }
    assert arcs + [] == arcs;
    return Some(out);
  }

  lemma {:induction false} MoreBehind(arcs: seq<int>, n: int, rest: Option<seq<int>>)
    ensures rest.Some? ==> Behind(arcs, Some([n] + rest.value)) == Behind(arcs + [n], rest)
  {
    if rest.Some? {
      assert arcs + ([n] + rest.value) == (arcs + [n]) + rest.value;
    }
  }

  // ----- reading the text ---------------------------------------------------------------

  predicate NoDots(s: string) {
    forall i :: 0 <= i < |s| ==> s[i] != '.'
  }

  lemma {:induction false} NumbersHaveNoDots(n: int)
    ensures Decimal.Text(n) != [] && NoDots(Decimal.Text(n))
  {
    Decimal.TextParses(n);
    hide Decimal.Text, Decimal.Parsed;
    var s := Decimal.Text(n);
    assert s[0] == '-' ==> forall i :: 1 <= i < |s| ==> s[i] == s[1..][i - 1];
  }

  lemma {:induction false} TextIsInjective(m: int, n: int)
    requires Decimal.Text(m) == Decimal.Text(n)
    ensures m == n
  {
    Decimal.TextParses(m);
    Decimal.TextParses(n);
    hide Decimal.Text, Decimal.Parsed;
  }

  /** The text behind the last dot. */
  lemma {:induction false} LastDot(a: string, s: string, b: string, t: string)
    requires NoDots(s) && NoDots(t) && a + "." + s == b + "." + t
    ensures a == b && s == t
  {
    var all := a + "." + s;
    assert all[|a|] == '.' && all[|b|] == '.';
    assert forall i :: |a| < i < |all| ==> all[i] == s[i - |a| - 1];
    assert forall i :: |b| < i < |all| ==> all[i] == t[i - |b| - 1];
    assert |a| == |b|;
    assert a == all[..|a|] && b == all[..|b|];
    assert s == all[|a| + 1..] && t == all[|b| + 1..];
  }

  /** Texts of different lists of numbers differ. */
  lemma {:induction false} DottedIsInjective(a: seq<int>, b: seq<int>)
    requires a != [] && b != [] && Dotted(a) == Dotted(b)
    ensures a == b
    decreases |a| + |b|
  {
    hide Decimal.Text, Dotted;
    var m, n := a[|a| - 1], b[|b| - 1];
    var c, d := a[..|a| - 1], b[..|b| - 1];
    assert a == c + [m] && b == d + [n];
    NumbersHaveNoDots(m);
    NumbersHaveNoDots(n);
    OneArc(m);
    OneArc(n);
    assert c == [] ==> a == [m];
    assert d == [] ==> b == [n];
    if c != [] { OneMoreArc(c, m); HasDot(Dotted(c), Decimal.Text(m)); }
    if d != [] { OneMoreArc(d, n); HasDot(Dotted(d), Decimal.Text(n)); }
    if c != [] && d != [] {
      LastDot(Dotted(c), Decimal.Text(m), Dotted(d), Decimal.Text(n));
      DottedIsInjective(c, d);
    }
    TextsDecide(m, n);
  }

  lemma {:induction false} OneArc(n: int)
    ensures Dotted([n]) == Decimal.Text(n)
  {
    assert [n][..0] == [];
    hide Decimal.Text;
    assert Dotted([]) == "" && Dotted([n]) == "" + "" + Decimal.Text(n);
  }

  lemma {:induction false} HasDot(a: string, s: string)
    ensures !NoDots(a + "." + s)
  {
    assert (a + "." + s)[|a|] == '.';
  }

  lemma {:induction false} TextsDecide(m: int, n: int)
    ensures Decimal.Text(m) == Decimal.Text(n) <==> m == n
  {
    if Decimal.Text(m) == Decimal.Text(n) {
      TextIsInjective(m, n);
    }
  }

  // ----- round trip ---------------------------------------------------------------------

  /** The number after the octets `s`, all with bit 8 set, have been read behind `num`. */
  function Folded(num: nat, s: seq<Octet>): nat {
    if s == [] then num else Low64(Folded(num, s[..|s| - 1]) * 128) + s[|s| - 1] % 128
  }

  lemma {:induction false} ContinueOver(data: seq<Octet>, v: nat, s: seq<Octet>, num: nat)
    requires Base128.AllHigh(s) && v + |s| <= |data| && data[v..v + |s|] == s
    ensures Continue(data, v, num) == Continue(data, v + |s|, Folded(num, s))
    decreases |s|
  {
    if s != [] {
      var t := s[..|s| - 1];
      assert data[v..v + |t|] == data[v..v + |s|][..|t|];
      assert s[|s| - 1] == data[v..v + |s|][|s| - 1];
      ContinueOver(data, v, t, num);
    }
  }

  lemma {:induction false} WordStep(q: nat, r: nat)
    requires r < 128
    ensures Low64(Low64(q) * 128) + r == Low64(128 * q + r)
  {
    var half := WORD / 128;
    var c, x := q / WORD, q % WORD;
    var d, b := x / half, x % half;
    WordMod(x * 128, d, 128 * b);
    WordMod(128 * q + r, 128 * c + d, 128 * b + r);
  }

  lemma {:induction false} WordMod(n: int, a: int, r: nat)
    requires n == WORD * a + r && r < WORD
    ensures n % WORD == r
  {
  }

  lemma {:induction false} FoldedSnoc(num: nat, s: seq<Octet>, o: Octet)
    ensures Folded(num, s + [o]) == Low64(Folded(num, s) * 128) + o % 128
  {
    assert (s + [o])[..|s|] == s;
  }

  lemma {:induction false} ZeroFits()
    ensures Low64(0) == 0
  {
  }

  lemma {:induction false} FoldedLeading(h: nat)
    ensures Folded(0, Base128.Leading(h)) == Low64(h)
  {
    hide Low64;
    if h == 0 {
      ZeroFits();
    } else {
      var q, r := h / 128, h % 128;
      QuotRem(h);
      FoldedLeading(q);
      FoldedSnoc(0, Base128.Leading(q), 128 + r);
      Base128.LowBits(r);
      WordStep(q, r);
    }
  }

  lemma {:induction false} QuotRem(c: nat)
    ensures 128 * (c / 128) + c % 128 == c
  {
  }

  lemma {:induction false} LastOctet(data: seq<Octet>, v: nat, num: nat, r: nat)
    requires v < |data| && data[v] == r < 128
    ensures Continue(data, v, num) == Some((Low64(num * 128) + r, v + 1))
  {
  }

  /** Reading the encoding of `c` gives `c` in 64 bits. */
  lemma {:induction false} ContinueReads(data: seq<Octet>, v: nat, c: nat)
    requires var s := Base128.Encode(c); v + |s| <= |data| && data[v..v + |s|] == s
    ensures Continue(data, v, 0) == Some((Low64(c), v + |Base128.Encode(c)|))
  {
    hide Base128.Leading, Folded, Base128.Encode, Low64, Continue, Base128.AllHigh;
    var q, r := EncodeParts(c);
    var t, s := Base128.Leading(q), Base128.Encode(c);
    assert data[v..v + |t|] == data[v..v + |s|][..|t|];
    assert data[v + |t|] == data[v..v + |s|][|t|];
    ContinueOver(data, v, t, 0);
    FoldedLeading(q);
    WordStep(q, r);
    LastOctet(data, v + |t|, Low64(q), r);
  }

  lemma {:induction false} EncodeParts(c: nat) returns (q: nat, r: Octet)
    ensures c == 128 * q + r && r < 128
    ensures Base128.Encode(c) == Base128.Leading(q) + [r] && Base128.AllHigh(Base128.Leading(q))
  {
    q, r := c / 128, c % 128;
    Base128.LeadingMeans(q);
    QuotRem(c);
  }

  /** The components as they come out. */
  function Shown(cs: seq<nat>): seq<int> {
    if cs == [] then [] else [Signed(Low64(cs[0]))] + Shown(cs[1..])
  }

  lemma {:induction false} ArcsRead(data: seq<Octet>, v: nat, cs: seq<nat>)
    requires v <= |data| && data[v..] == EncodeRest(cs)
    ensures ArcsFrom(data, v) == Some(Shown(cs))
    decreases cs
  {
    if cs != [] {
      var a, b := Base128.Encode(cs[0]), EncodeRest(cs[1..]);
      assert data[v..] == a + b;
      assert data[v..v + |a|] == data[v..][..|a|] && data[v + |a|..] == data[v..][|a|..];
      ContinueReads(data, v, cs[0]);
      ArcsRead(data, v + |a|, cs[1..]);
      hide Base128.Encode, Continue;
    }
  }

  lemma {:induction false} ShownSame(cs: seq<nat>)
    ensures |Shown(cs)| == |cs| && (Shown(cs) == cs <==> forall i :: 0 <= i < |cs| ==> cs[i] < SIGN)
  {
    if cs != [] {
      var c, rest := cs[0], cs[1..];
      ShownSame(rest);
      SignedSame(c);
      assert Shown(cs) == [Signed(Low64(c))] + Shown(rest) && cs == [c] + rest;
      hide Signed, Low64, Shown;
      assert Shown(cs) == cs <==> Signed(Low64(c)) == c && Shown(rest) == rest by {
        assert Shown(cs) == cs ==> Shown(cs)[1..] == cs[1..] && Shown(cs)[0] == cs[0];
      }
      assert (forall i :: 0 <= i < |cs| ==> cs[i] < SIGN)
        <==> c < SIGN && forall i :: 0 <= i < |rest| ==> rest[i] < SIGN by {
        assert forall i :: 0 <= i < |rest| ==> rest[i] == cs[i + 1];
        assert forall i :: 0 < i < |cs| ==> cs[i] == rest[i - 1];
      }
    }
  }

  lemma {:induction false} SignedSame(c: nat)
    ensures Signed(Low64(c)) == c <==> c < SIGN
  {
  }

  /** The numbers come back exactly if the second is below 40 and the later ones below 2^63. */
  lemma {:induction false} NumbersReturn(arcs: seq<nat>)
    requires Encodable(arcs)
    ensures Decode(Encode(arcs)).Some?
    ensures Decode(Encode(arcs)) == Some(arcs)
            <==> arcs[1] < 40 && forall i :: 2 <= i < |arcs| ==> arcs[i] < SIGN
  {
    var rest := arcs[2..];
    EncodedShows(arcs);
    ShownSame(rest);
    var first: nat := 40 * arcs[0] + arcs[1];
    var got := [first / 40, first % 40] + Shown(rest);
    assert first / 40 == arcs[0] && first % 40 == arcs[1] <==> arcs[1] < 40;
    assert got[2..] == Shown(rest) && arcs == arcs[..2] + rest;
    assert got == arcs <==> got[0] == arcs[0] && got[1] == arcs[1] && Shown(rest) == rest;
    hide EncodeRest, ArcsFrom, Shown, Decode, Encode;
    assert (forall i :: 0 <= i < |rest| ==> rest[i] < SIGN) <==> (forall i :: 2 <= i < |arcs| ==> arcs[i] < SIGN) by {
      assert forall i :: 0 <= i < |rest| ==> rest[i] == arcs[i + 2];
      assert forall i :: 2 <= i < |arcs| ==> arcs[i] == rest[i - 2];
    }
  }

  lemma {:induction false} EncodedShows(arcs: seq<nat>)
    requires Encodable(arcs)
    ensures var first := 40 * arcs[0] + arcs[1];
            Decode(Encode(arcs)) == Some([first / 40, first % 40] + Shown(arcs[2..]))
  {
    var s := Encode(arcs);
    assert s[1..] == EncodeRest(arcs[2..]);
    ArcsRead(s, 1, arcs[2..]);
    hide EncodeRest, ArcsFrom, Shown;
  }

  /** Printing what the builder has encoded gives the text of the identifier exactly if its second
      component is below 40 and the later ones are below 2^63. */
  lemma {:induction false} RoundTrip(arcs: seq<nat>)
    requires Encodable(arcs)
    ensures Printed(Encode(arcs)).Some?
    ensures Printed(Encode(arcs)) == Some(Dotted(arcs))
            <==> arcs[1] < 40 && forall i :: 2 <= i < |arcs| ==> arcs[i] < SIGN
  {
    NumbersReturn(arcs);
    EncodedShows(arcs);
    hide Decode, Encode, Dotted, Shown;
    var got := Decode(Encode(arcs)).value;
    if Dotted(got) == Dotted(arcs) {
      DottedIsInjective(got, arcs);
    }
  }

  /** The conversion is a signed one: the component 2^63, which fits the 64 bits it is read
      into, is printed as -2^63. */
  lemma {:induction false} LargeIsNegative()
    ensures var arcs := [0, 0, SIGN]; Encodable(arcs) && Printed(Encode(arcs)) == Some(Dotted([0, 0, -SIGN]))
  {
    var arcs := [0, 0, SIGN];
    hide Dotted;
    EncodedShows(arcs);
    assert arcs[2..] == [SIGN] && [SIGN][1..] == [];
    assert Shown([SIGN]) == [-SIGN];
    assert [0, 0] + [-SIGN] == [0, 0, -SIGN];
    hide Decode, Encode, Shown;
    assert Decode(Encode(arcs)) == Some([0, 0] + Shown([SIGN]));
  }

  // ----- injectivity --------------------------------------------------------------------

  lemma {:induction false} SameLength(a: seq<Octet>, b: seq<Octet>, all: seq<Octet>)
    requires Base128.IsSubidentifier(a) && Base128.IsSubidentifier(b)
    requires |a| <= |all| && |b| <= |all| && a == all[..|a|] && b == all[..|b|]
    ensures |a| == |b|
  {
    assert forall i :: 0 <= i < |a| ==> a[i] == all[i];
    assert forall i :: 0 <= i < |b| ==> b[i] == all[i];
  }

  /** No subidentifier is the beginning of another. */
  lemma {:induction false} PrefixFree(x: nat, y: nat, r: seq<Octet>, s: seq<Octet>)
    requires Base128.Encode(x) + r == Base128.Encode(y) + s
    ensures x == y && r == s
  {
    var a, b := Base128.Encode(x), Base128.Encode(y);
    Base128.EncodeMeans(x);
    Base128.EncodeMeans(y);
    hide Base128.Encode, Base128.ValueOf;
    var all := a + r;
    SameLength(a, b, all);
    assert a == all[..|a|] == b && r == all[|a|..] == s;
  }

  lemma {:induction false} RestIsInjective(cs: seq<nat>, ds: seq<nat>)
    requires EncodeRest(cs) == EncodeRest(ds)
    ensures cs == ds
  {
    if cs != [] && ds != [] {
      PrefixFree(cs[0], ds[0], EncodeRest(cs[1..]), EncodeRest(ds[1..]));
      RestIsInjective(cs[1..], ds[1..]);
      assert cs == [cs[0]] + cs[1..] && ds == [ds[0]] + ds[1..];
    }
  }

  /** Identifiers with different components have different encodings. */
  lemma {:induction false} EncodeIsInjective(a: seq<nat>, b: seq<nat>)
    requires Encodable(a) && Encodable(b) && a[1] < 40 && b[1] < 40 && Encode(a) == Encode(b)
    ensures a == b
  {
    assert Encode(a)[0] == Encode(b)[0] && Encode(a)[1..] == EncodeRest(a[2..]) && Encode(b)[1..] == EncodeRest(b[2..]);
    RestIsInjective(a[2..], b[2..]);
    hide EncodeRest;
    assert a == [a[0], a[1]] + a[2..] && b == [b[0], b[1]] + b[2..];
  }
}
