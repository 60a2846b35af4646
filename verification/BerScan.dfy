/** `asn1_find_indefinite_length`: the flat scan that looks for the end-of-contents octets
    matching an indefinite-length element, and the BER grammar it has to agree with. */
module BerScan {
  import opened Octets
  import opened Slices

  datatype ScanError =
    | LengthTooLong
    | IndefinitePrimitive
    | InvalidEoc
    | DataOverrun
    | MissingEoc

  /** `End(dp)` is success with the cursor behind the end-of-contents octets; `Outside` is a
      read beyond the buffer, which the C code does not guard against when `datalen` exceeds
      the buffer. */
  datatype ScanResult = End(dp: int) | Error(error: ScanError) | Outside

  /** What stands at the cursor: end-of-contents, an element of definite length (`dp` is
      then behind its contents), the header of an indefinite one (`dp` behind that header),
      or nothing the scan can go on from. */
  datatype Token =
    | Eoc(dp: int)
    | Whole(dp: int)
    | Opening(dp: int)
    | Stop(result: ScanResult)

  // ----- the scan as a function ---------------------------------------------------------

  function AfterLongTag(data: seq<Octet>, datalen: int, dp: int): (r: ScanResult)
    ensures r.End? ==> 0 <= dp < r.dp <= |data| && r.dp < datalen
    decreases datalen - dp
  {
    if datalen - dp < 2 then Error(DataOverrun)
    else if dp < 0 || dp >= |data| then Outside
    else if data[dp] >= 0x80 then AfterLongTag(data, datalen, dp + 1)
    else End(dp + 1)
  }

  /** The identifier octets at `dp`. */
  function AfterTag(data: seq<Octet>, datalen: int, dp: int): (r: ScanResult)
    requires 0 <= dp < |data| && datalen - dp >= 2
    ensures r.End? ==> dp < r.dp <= |data| && r.dp < datalen
  {
    if IsLongTag(data[dp]) then AfterLongTag(data, datalen, dp + 1) else End(dp + 1)
  }

  /** The length octets at `dp` of an element with leading identifier octet `tag`. */
  function AfterLength(data: seq<Octet>, datalen: int, dp: int, tag: Octet): (t: Token)
    requires 0 <= dp
    ensures !t.Eoc?
    ensures t.Whole? || t.Opening? ==> dp < t.dp
    ensures t.Opening? ==> t.dp <= |data|
  {
    if dp >= |data| then Stop(Outside)
    else
      var len: int := data[dp];
      if len < 0x7f then Whole(dp + 1 + len)
      else if len == 0x80 then
        if !HasConsBit(tag) then Stop(Error(IndefinitePrimitive)) else Opening(dp + 1)
      else
        // A length octet of 0x7f gives n = -1, which the unsigned comparison also refuses.
        var n := len - 0x80;
        if n < 0 || n > 7 then Stop(Error(LengthTooLong))
        else if n > datalen - (dp + 1) then Stop(Error(DataOverrun))
        else if dp + 1 + n > |data| then Stop(Outside)
        else Whole(dp + 1 + n + BigEndian(data[dp + 1..dp + 1 + n]))
  }

  function Look(data: seq<Octet>, datalen: int, dp: int): (t: Token)
    requires 0 <= dp
    ensures !t.Stop? ==> dp + 1 < t.dp && datalen - dp >= 2
    ensures t.Eoc? ==> t.dp == dp + 2 <= |data| && t.dp <= datalen
    ensures t.Opening? ==> t.dp <= |data|
  {
    if datalen - dp < 2 then Stop(Error(if datalen == dp then MissingEoc else DataOverrun))
    else if dp >= |data| then Stop(Outside)
    else if data[dp] == 0 then
      if dp + 1 >= |data| then Stop(Outside)
      else if data[dp + 1] != 0 then Stop(Error(InvalidEoc))
      else Eoc(dp + 2)
    else
      var r := AfterTag(data, datalen, dp);
      if r.End? then AfterLength(data, datalen, r.dp, data[dp]) else Stop(r)
  }

  /** The loop from `next_tag`, with `level` elements still open. */
  function Scan(data: seq<Octet>, datalen: int, dp: int, level: nat): (r: ScanResult)
    requires 0 <= dp && level >= 1
    decreases datalen - dp
  {
    match Look(data, datalen, dp)
    case Eoc(q) => if level == 1 then End(q) else Scan(data, datalen, q, level - 1)
    case Whole(q) => Scan(data, datalen, q, level)
    case Opening(q) => Scan(data, datalen, q, level + 1)
    case Stop(r) => r
  }

  // ----- the loop -----------------------------------------------------------------------

  /** The C function: `r` is its outcome, and `len` the length it reports on success. */
  method FindIndefiniteLength(data: seq<Octet>, datalen: int, start: int) returns (r: ScanResult, len: int)
    requires 0 <= start
    ensures r == Scan(data, datalen, start, 1)
    ensures r.End? ==> len == r.dp - start
  {
    var dp, level := start, 1;
    while true
      invariant start <= dp && level >= 1
      invariant Scan(data, datalen, dp, level) == Scan(data, datalen, start, 1)
      decreases datalen - dp
    {
      if datalen - dp < 2 {
        return Error(if datalen == dp then MissingEoc else DataOverrun), 0;
      }
      if dp >= |data| { return Outside, 0; }
      var tag := data[dp];
      if tag == 0 {
        if dp + 1 >= |data| { return Outside, 0; }
        if data[dp + 1] != 0 { return Error(InvalidEoc), 0; }
        assert Look(data, datalen, dp) == Eoc(dp + 2);
        level := level - 1;
        dp := dp + 2;
        if level <= 0 { return End(dp), dp - start; }
      } else {
        var afterTag := End(dp + 1);
        if IsLongTag(tag) {
          afterTag := SkipLongTag(data, datalen, dp + 1);
        }
        if !afterTag.End? { return afterTag, 0; }
        var next := SkipLength(data, datalen, afterTag.dp, tag);
        assert Look(data, datalen, dp) == next;
        if next.Stop? { return next.result, 0; }
        if next.Opening? { level := level + 1; }
        dp := next.dp;
      }
    }
  }

  /** The do-while loop over the octets of a long-form tag. */
  method SkipLongTag(data: seq<Octet>, datalen: int, start: int) returns (r: ScanResult)
    requires 0 <= start
    ensures r == AfterLongTag(data, datalen, start)
  {
    var dp, more := start, true;
    while more
      invariant start <= dp
      invariant AfterLongTag(data, datalen, start) == if more then AfterLongTag(data, datalen, dp) else End(dp)
      decreases more, datalen - dp
    {
      if datalen - dp < 2 { return Error(DataOverrun); }
      if dp >= |data| { return Outside; }
      more := data[dp] >= 0x80;
      dp := dp + 1;
    }
    return End(dp);
  }

  /** The length octets, with the shift-and-or loop of the long form. */
  method SkipLength(data: seq<Octet>, datalen: int, start: int, tag: Octet) returns (t: Token)
    requires 0 <= start
    ensures t == AfterLength(data, datalen, start, tag)
  {
    var dp := start;
    if dp >= |data| { return Stop(Outside); }
    var first: int := data[dp];
    dp := dp + 1;
    if first < 0x7f { return Whole(dp + first); }
    if first == 0x80 {
      return if !HasConsBit(tag) then Stop(Error(IndefinitePrimitive)) else Opening(dp);
    }
    var n := first - 0x80;
    if n < 0 || n > 7 { return Stop(Error(LengthTooLong)); }
    if n > datalen - dp { return Stop(Error(DataOverrun)); }
    var len: int := 0;
    while n > 0
      invariant 0 <= n <= first - 0x80 && dp + n == start + 1 + first - 0x80
      invariant dp <= |data| && len == BigEndian(data[start + 1..dp])
    {
      if dp >= |data| { return Stop(Outside); }
      assert data[start + 1..dp + 1][..dp - (start + 1)] == data[start + 1..dp];
      len := 256 * len + data[dp];
      dp := dp + 1;
      n := n - 1;
    }
    return Whole(dp + len);
  }

  // ----- the grammar (X.690 sections 8.1.2, 8.1.3 and 8.1.5) -----------------------------

  /** A BER element. `id` are its identifier octets, `len` the length octets of the
      definite form. */
  datatype Element =
    | Def(id: seq<Octet>, len: seq<Octet>, contents: seq<Octet>)
    | Indef(id: seq<Octet>, kids: seq<Element>)

  /** Octets that continue a long-form tag number and the one that ends it. */
  predicate LongTagTail(s: seq<Octet>) {
    |s| >= 1 && s[|s| - 1] < 0x80 && forall i :: 0 <= i < |s| - 1 ==> s[i] >= 0x80
  }

  /** Identifier octets, low-tag or high-tag form; not the octet of end-of-contents. */
  predicate Identifier(id: seq<Octet>) {
    && |id| >= 1
    && id[0] != 0
    && if id[0] % 32 == 31 then LongTagTail(id[1..]) else |id| == 1
  }

  /** Length octets for `n` contents octets: short form below 0x7f, or long form with one
      to seven octets, not necessarily the shortest. */
  predicate LengthOctets(s: seq<Octet>, n: nat) {
    || (|s| == 1 && s[0] < 0x7f && n == s[0])
    || (2 <= |s| <= 8 && s[0] == 0x80 + |s| - 1 && n == BigEndian(s[1..]))
  }

  ghost predicate WellFormed(e: Element) {
    && Identifier(e.id)
    && match e
       case Def(_, len, contents) => LengthOctets(len, |contents|)
       case Indef(id, kids) => HasConsBit(id[0]) && AllWellFormed(kids)
  }

  ghost predicate AllWellFormed(es: seq<Element>) {
    es == [] || (WellFormed(es[0]) && AllWellFormed(es[1..]))
  }

  function Encoded(e: Element): (s: seq<Octet>) {
    match e
    case Def(id, len, contents) => id + len + contents
    case Indef(id, kids) => id + [0x80] + EncodedAll(kids) + [0, 0]
  }

  function EncodedAll(es: seq<Element>): (s: seq<Octet>) {
    if es == [] then [] else Encoded(es[0]) + EncodedAll(es[1..])
  }

  /** The octets from `dp` up to `q` are the well-formed elements `es`, then end-of-contents. */
  ghost predicate Reads(data: seq<Octet>, dp: int, q: int, es: seq<Element>) {
    && 0 <= dp <= q <= |data|
    && AllWellFormed(es)
    && data[dp..q] == EncodedAll(es) + [0, 0]
  }

  /** The octets from `dp` up to `q` are some series of well-formed elements followed by
      end-of-contents. */
  ghost predicate ContentsThenEoc(data: seq<Octet>, dp: int, q: int) {
    exists es: seq<Element> :: Reads(data, dp, q, es)
  }

  // ----- the flat counter is recursive descent ------------------------------------------

  /** Recursive descent: reads elements up to and including end-of-contents. */
  function Descend(data: seq<Octet>, datalen: int, dp: int): (r: ScanResult)
    requires 0 <= dp
    ensures r.End? ==> dp < r.dp <= datalen && r.dp <= |data|
    decreases datalen - dp
  {
    match Look(data, datalen, dp)
    case Eoc(q) => End(q)
    case Whole(q) => Descend(data, datalen, q)
    case Opening(q) =>
      var inner := Descend(data, datalen, q);
      if inner.End? then Descend(data, datalen, inner.dp) else inner
    case Stop(r) => r
  }

  lemma {:induction false} LookStops(data: seq<Octet>, datalen: int, dp: int)
    requires 0 <= dp
    ensures Look(data, datalen, dp).Stop? ==> !Look(data, datalen, dp).result.End?
  {
  }

  /** One counter does the work of the recursion: scanning with `level` open elements is a
      descent followed by the scan for the remaining ones. */
  lemma {:induction false} ScanIsDescent(data: seq<Octet>, datalen: int, dp: int, level: nat)
    requires 0 <= dp && level >= 1
    ensures Scan(data, datalen, dp, level) ==
            var r := Descend(data, datalen, dp);
            if r.End? && level > 1 then Scan(data, datalen, r.dp, level - 1) else r
    decreases datalen - dp
  {
    LookStops(data, datalen, dp);
    match Look(data, datalen, dp)
    case Whole(q) => ScanIsDescent(data, datalen, q, level);
    case Opening(q) =>
      ScanIsDescent(data, datalen, q, level + 1);
      var inner := Descend(data, datalen, q);
      if inner.End? {
        ScanIsDescent(data, datalen, inner.dp, level);
      }
    case _ =>
  }

  // ----- soundness: what descent accepts is well formed ---------------------------------

  lemma {:induction false} LongTagTailRead(data: seq<Octet>, datalen: int, dp: int)
    requires 0 <= dp
    requires AfterLongTag(data, datalen, dp).End?
    ensures LongTagTail(data[dp..AfterLongTag(data, datalen, dp).dp])
    decreases datalen - dp
  {
    var q := AfterLongTag(data, datalen, dp).dp;
    if data[dp] >= 0x80 {
      LongTagTailRead(data, datalen, dp + 1);
      var t, s := data[dp..q], data[dp + 1..q];
      assert forall i :: 1 <= i < |t| ==> t[i] == s[i - 1];
    }
  }

  lemma {:induction false} IdentifierRead(data: seq<Octet>, datalen: int, dp: int)
    requires 0 <= dp < |data| && datalen - dp >= 2 && data[dp] != 0
    requires AfterTag(data, datalen, dp).End?
    ensures Identifier(data[dp..AfterTag(data, datalen, dp).dp])
  {
    var m := AfterTag(data, datalen, dp).dp;
    if IsLongTag(data[dp]) {
      LongTagTailRead(data, datalen, dp + 1);
      assert data[dp..m][1..] == data[dp + 1..m];
    }
  }

  /** The start of the contents when `AfterLength` reports a definite length. */
  function ContentsStart(data: seq<Octet>, dp: int): (q: int)
    requires 0 <= dp < |data|
  {
    if data[dp] < 0x7f then dp + 1 else dp + 1 + (data[dp] as int - 0x80)
  }

  lemma {:induction false} LengthRead(data: seq<Octet>, datalen: int, dp: int, tag: Octet)
    requires 0 <= dp
    requires AfterLength(data, datalen, dp, tag).Whole?
    ensures dp < |data|
    ensures var q, end := ContentsStart(data, dp), AfterLength(data, datalen, dp, tag).dp;
            dp < q <= |data| && q <= end && LengthOctets(data[dp..q], end - q)
  {
    var q := ContentsStart(data, dp);
    assert data[dp..q][1..] == data[dp + 1..q];
  }

  lemma {:induction false} DescentIsSound(data: seq<Octet>, datalen: int, dp: int) returns (es: seq<Element>)
    requires 0 <= dp
    requires Descend(data, datalen, dp).End?
    ensures Reads(data, dp, Descend(data, datalen, dp).dp, es)
    decreases datalen - dp
  {
    hide Look;
    LookStops(data, datalen, dp);
    var r := Descend(data, datalen, dp).dp;
    match Look(data, datalen, dp)
    case Eoc(q) =>
      es := EocRead(data, datalen, dp);
    case Whole(end) =>
      var rest := DescentIsSound(data, datalen, end);
      var m, q := WholeRead(data, datalen, dp);
      es := DefFound(data, dp, m, q, end, r, rest);
    case Opening(q) =>
      OpeningRead(data, datalen, dp);
      var inner := Descend(data, datalen, q).dp;
      var kids := DescentIsSound(data, datalen, q);
      var rest := DescentIsSound(data, datalen, inner);
      es := IndefFound(data, dp, q - 1, inner, r, kids, rest);
    case Stop(_) =>
      assert false;
  }

  lemma {:induction false} EocRead(data: seq<Octet>, datalen: int, dp: int) returns (es: seq<Element>)
    requires 0 <= dp
    requires Look(data, datalen, dp).Eoc?
    ensures Reads(data, dp, dp + 2, es)
  {
    es := [];
  }

  lemma {:induction false} OpeningRead(data: seq<Octet>, datalen: int, dp: int)
    requires 0 <= dp
    requires Look(data, datalen, dp).Opening?
    ensures var m := Look(data, datalen, dp).dp - 1;
            && dp < m < |data| && data[m] == 0x80
            && Identifier(data[dp..m]) && HasConsBit(data[dp])
  {
    IdentifierRead(data, datalen, dp);
  }

  lemma {:induction false} WholeRead(data: seq<Octet>, datalen: int, dp: int) returns (m: int, q: int)
    requires 0 <= dp
    requires Look(data, datalen, dp).Whole?
    ensures var end := Look(data, datalen, dp).dp;
            && dp < m < q <= |data| && q <= end
            && Identifier(data[dp..m]) && LengthOctets(data[m..q], end - q)
  {
    IdentifierRead(data, datalen, dp);
    m := AfterTag(data, datalen, dp).dp;
    LengthRead(data, datalen, m, data[dp]);
    q := ContentsStart(data, m);
  }

  lemma {:induction false} DefFound(data: seq<Octet>, dp: int, m: int, q: int, end: int, r: int, rest: seq<Element>)
    returns (es: seq<Element>)
    requires 0 <= dp < m <= q <= end <= r <= |data|
    requires Identifier(data[dp..m]) && LengthOctets(data[m..q], end - q)
    requires Reads(data, end, r, rest)
    ensures Reads(data, dp, r, es)
  {
    var e := Def(data[dp..m], data[m..q], data[q..end]);
    es := [e] + rest;
    assert es[1..] == rest;
    assert Encoded(e) == data[dp..end];
    assert data[dp..r] == data[dp..end] + data[end..r];
  }

  lemma {:induction false} IndefFound(data: seq<Octet>, dp: int, m: int, inner: int, r: int,
                   kids: seq<Element>, rest: seq<Element>)
    returns (es: seq<Element>)
    requires 0 <= dp < m < inner <= r <= |data|
    requires Identifier(data[dp..m]) && HasConsBit(data[dp]) && data[m] == 0x80
    requires Reads(data, m + 1, inner, kids) && Reads(data, inner, r, rest)
    ensures Reads(data, dp, r, es)
  {
    var e := Indef(data[dp..m], kids);
    es := [e] + rest;
    assert es[1..] == rest;
    assert data[dp..inner] == data[dp..m] + [0x80] + data[m + 1..inner];
    assert Encoded(e) == data[dp..inner];
    assert data[dp..r] == data[dp..inner] + data[inner..r];
  }

  // ----- completeness: descent accepts everything well formed ----------------------------

  lemma {:induction false} LongTagTailAccepted(data: seq<Octet>, datalen: int, dp: int, q: int)
    requires 0 <= dp < q <= |data| && q < datalen
    requires LongTagTail(data[dp..q])
    ensures AfterLongTag(data, datalen, dp) == End(q)
    decreases q - dp
  {
    var t := data[dp..q];
    assert t[0] == data[dp] && t[|t| - 1] == data[q - 1];
    if q - dp > 1 {
      var s := data[dp + 1..q];
      assert forall i :: 0 <= i < |s| ==> s[i] == t[i + 1];
      LongTagTailAccepted(data, datalen, dp + 1, q);
    }
  }

  lemma {:induction false} IdentifierAccepted(data: seq<Octet>, datalen: int, dp: int, m: int)
    requires 0 <= dp < m < |data| && m < datalen
    requires Identifier(data[dp..m])
    ensures data[dp] != 0 && AfterTag(data, datalen, dp) == End(m)
  {
    if IsLongTag(data[dp]) {
      assert data[dp..m][1..] == data[dp + 1..m];
      LongTagTailAccepted(data, datalen, dp + 1, m);
    }
  }

  lemma {:induction false} DescentIsComplete(data: seq<Octet>, datalen: int, dp: int, es: seq<Element>, q: int)
    requires q <= datalen
    requires Reads(data, dp, q, es)
    ensures Descend(data, datalen, dp) == End(q)
    decreases es, 1
  {
    if es == [] {
      assert data[dp] == data[dp..q][0] && data[dp + 1] == data[dp..q][1];
    } else {
      var n := FirstRead(data, dp, q, es);
      ElementIsSkipped(data, datalen, dp, es[0], n);
      DescentIsComplete(data, datalen, n, es[1..], q);
    }
  }

  lemma {:induction false} ElementIsSkipped(data: seq<Octet>, datalen: int, dp: int, e: Element, n: int)
    requires 0 <= dp <= n <= |data| && n <= datalen
    requires WellFormed(e) && data[dp..n] == Encoded(e)
    ensures Descend(data, datalen, dp) == Descend(data, datalen, n)
    decreases e, 0
  {
    hide Look;
    if e.Def? {
      DefAccepted(data, datalen, dp, n, e);
    } else {
      var m := IndefAccepted(data, datalen, dp, n, e);
      DescentIsComplete(data, datalen, m + 1, e.kids, n);
    }
  }

  lemma {:induction false} FirstRead(data: seq<Octet>, dp: int, q: int, es: seq<Element>) returns (n: int)
    requires Reads(data, dp, q, es) && es != []
    ensures dp <= n <= q && data[dp..n] == Encoded(es[0])
    ensures WellFormed(es[0]) && Reads(data, n, q, es[1..])
  {
    var tail := EncodedAll(es[1..]) + [0, 0];
    assert EncodedAll(es) + [0, 0] == Encoded(es[0]) + tail;
    Cut(data, dp, q, Encoded(es[0]), tail);
    n := dp + |Encoded(es[0])|;
  }

  lemma {:induction false} DefAccepted(data: seq<Octet>, datalen: int, dp: int, n: int, e: Element)
    requires 0 <= dp <= n <= |data| && n <= datalen
    requires e.Def? && WellFormed(e) && data[dp..n] == Encoded(e)
    ensures Look(data, datalen, dp) == Whole(n)
  {
    DefSplit(data, dp, n, e);
    var m := dp + |e.id|;
    IdentifierAccepted(data, datalen, dp, m);
    var q := m + |e.len|;
    assert data[m..q][0] == data[m];
    assert data[m..q][1..] == data[m + 1..q];
  }

  lemma {:induction false} IndefAccepted(data: seq<Octet>, datalen: int, dp: int, n: int, e: Element) returns (m: int)
    requires 0 <= dp <= n <= |data| && n <= datalen
    requires e.Indef? && WellFormed(e) && data[dp..n] == Encoded(e)
    ensures dp < m < n && Look(data, datalen, dp) == Opening(m + 1)
    ensures Reads(data, m + 1, n, e.kids)
  {
    m := IndefSplit(data, dp, n, e);
    IdentifierAccepted(data, datalen, dp, m);
  }

  lemma {:induction false} DefSplit(data: seq<Octet>, dp: int, n: int, e: Element)
    requires e.Def? && 0 <= dp <= n <= |data| && data[dp..n] == Encoded(e)
    ensures var m := dp + |e.id|;
            m + |e.len| + |e.contents| == n && data[dp..m] == e.id && data[m..m + |e.len|] == e.len
  {
    assert Encoded(e) == e.id + (e.len + e.contents);
    Cut(data, dp, n, e.id, e.len + e.contents);
    Cut(data, dp + |e.id|, n, e.len, e.contents);
  }

  lemma {:induction false} IndefSplit(data: seq<Octet>, dp: int, n: int, e: Element) returns (m: int)
    requires e.Indef? && WellFormed(e) && 0 <= dp <= n <= |data| && data[dp..n] == Encoded(e)
    ensures dp < m < n && data[dp..m] == e.id && data[dp] == e.id[0] && data[m] == 0x80
    ensures Reads(data, m + 1, n, e.kids)
  {
    var tail := EncodedAll(e.kids) + [0, 0];
    m := dp + |e.id|;
    assert Encoded(e) == e.id + ([0x80] + tail);
    Cut(data, dp, n, e.id, [0x80] + tail);
    Cut(data, m, n, [0x80], tail);
    assert data[m..m + 1][0] == 0x80 && data[dp..m][0] == e.id[0];
  }

  /** The scan succeeds with cursor `q` exactly when the octets from `dp` to `q` are a series
      of BER elements, nested indefinite ones included, closed by end-of-contents; then `q`
      lies inside both the enclosing element and the buffer. */
  lemma {:induction false} ScanRefinesGrammar(data: seq<Octet>, datalen: int, dp: int, q: int)
    requires 0 <= dp
    ensures Scan(data, datalen, dp, 1) == End(q) <==> q <= datalen && ContentsThenEoc(data, dp, q)
  {
    ScanIsDescent(data, datalen, dp, 1);
    if Descend(data, datalen, dp) == End(q) {
      var es := DescentIsSound(data, datalen, dp);
    }
    if q <= datalen && ContentsThenEoc(data, dp, q) {
      var es: seq<Element> :| Reads(data, dp, q, es);
      DescentIsComplete(data, datalen, dp, es, q);
    }
  }

  /** No octet at or behind `datalen` influences the scan, and none behind the buffer is
      read, as long as the enclosing element lies inside the buffer. */
  lemma {:induction false} ScanStaysInside(data: seq<Octet>, other: seq<Octet>, datalen: int, dp: int, level: nat)
    requires 0 <= dp && level >= 1 && datalen <= |data| && datalen <= |other|
    requires forall i :: 0 <= i < datalen ==> data[i] == other[i]
    ensures Scan(data, datalen, dp, level) != Outside
    ensures Scan(data, datalen, dp, level) == Scan(other, datalen, dp, level)
    decreases datalen - dp
  {
    LookStaysInside(data, other, datalen, dp);
    match Look(data, datalen, dp)
    case Eoc(q) => if level > 1 { ScanStaysInside(data, other, datalen, q, level - 1); }
    case Whole(q) => ScanStaysInside(data, other, datalen, q, level);
    case Opening(q) => ScanStaysInside(data, other, datalen, q, level + 1);
    case Stop(_) =>
  }

  lemma {:induction false} LookStaysInside(data: seq<Octet>, other: seq<Octet>, datalen: int, dp: int)
    requires 0 <= dp && datalen <= |data| && datalen <= |other|
    requires forall i :: 0 <= i < datalen ==> data[i] == other[i]
    ensures Look(data, datalen, dp) != Stop(Outside)
    ensures Look(data, datalen, dp) == Look(other, datalen, dp)
  {
    if datalen - dp >= 2 && data[dp] != 0 {
      LongTagStaysInside(data, other, datalen, dp + 1);
      var r := AfterTag(data, datalen, dp);
      if r.End? {
        var n := data[r.dp] as int - 0x80;
        if 0 <= n <= datalen - (r.dp + 1) {
          assert data[r.dp + 1..r.dp + 1 + n] == other[r.dp + 1..r.dp + 1 + n];
        }
      }
    }
  }

  lemma {:induction false} LongTagStaysInside(data: seq<Octet>, other: seq<Octet>, datalen: int, dp: int)
    requires 0 <= dp && datalen <= |data| && datalen <= |other|
    requires forall i :: 0 <= i < datalen ==> data[i] == other[i]
    ensures AfterLongTag(data, datalen, dp) != Outside
    ensures AfterLongTag(data, datalen, dp) == AfterLongTag(other, datalen, dp)
    decreases datalen - dp
  {
    if datalen - dp >= 2 && data[dp] >= 0x80 {
      LongTagStaysInside(data, other, datalen, dp + 1);
    }
  }

  /** A successful scan has just passed two zero octets. */
  lemma {:induction false} ScanEndsInEoc(data: seq<Octet>, datalen: int, dp: int, level: nat)
    requires 0 <= dp && level >= 1
    requires Scan(data, datalen, dp, level).End?
    ensures var q := Scan(data, datalen, dp, level).dp;
            dp + 2 <= q <= |data| && q <= datalen && data[q - 2] == 0 && data[q - 1] == 0
    decreases datalen - dp
  {
    LookStops(data, datalen, dp);
    EocIsZeros(data, datalen, dp);
    hide Look;
    match Look(data, datalen, dp)
    case Eoc(q) => if level > 1 { ScanEndsInEoc(data, datalen, q, level - 1); }
    case Whole(q) => ScanEndsInEoc(data, datalen, q, level);
    case Opening(q) => ScanEndsInEoc(data, datalen, q, level + 1);
    case Stop(_) =>
  }

  lemma {:induction false} EocIsZeros(data: seq<Octet>, datalen: int, dp: int)
    requires 0 <= dp
    ensures Look(data, datalen, dp).Eoc? ==> dp + 2 <= |data| && data[dp] == 0 && data[dp + 1] == 0
  {
  }
}
