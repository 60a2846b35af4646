/** The SMBIOS table walk of showfirmware.c: structures (SMBIOS 2.7 section 6.1.2) with their
    unformed sections of strings (section 6.1.3), found one after the other by handle. */
module Smbios {
  import opened Octets
  import opened Slices

  const INVALID_HANDLE := 0xffff

  // ----- the table ----------------------------------------------------------------------

  /** A structure: `body` is the formatted area behind the four octets of the header. */
  datatype Structure = Structure(kind: Octet, handle: nat, body: seq<Octet>, strings: seq<seq<Octet>>)

  predicate IsText(s: seq<Octet>) {
    s != [] && forall i :: 0 <= i < |s| ==> s[i] != 0
  }

  predicate AllText(strings: seq<seq<Octet>>) {
    forall i :: 0 <= i < |strings| ==> IsText(strings[i])
  }

  predicate WellFormed(s: Structure) {
    && s.handle < 0x10000 && 4 + |s.body| < 256 && |s.strings| < 0xffff
    && AllText(s.strings)
  }

  /** The strings, each with its terminator. */
  function Texts(strings: seq<seq<Octet>>): seq<Octet> {
    if strings == [] then [] else strings[0] + [0] + Texts(strings[1..])
  }

  /** The strings and the zero behind them. */
  function Section(strings: seq<seq<Octet>>): (r: seq<Octet>)
    ensures |r| >= 1
  {
    Texts(strings) + [0]
  }

  /** The unformed section: the strings and one more zero, or two zeros if there are none. */
  function Unformed(strings: seq<seq<Octet>>): seq<Octet> {
    if strings == [] then [0, 0] else Section(strings)
  }

  function Formed(s: Structure): seq<Octet>
    requires WellFormed(s)
  {
    [s.kind, 4 + |s.body|, s.handle % 256, s.handle / 256] + s.body
  }

  function Encode(s: Structure): seq<Octet>
    requires WellFormed(s)
  {
    Formed(s) + Unformed(s.strings)
  }

  // ----- strings ------------------------------------------------------------------------

  /** `Found` is the start of the string, `Past` the end of a section with fewer strings,
      `None` the answer to string number zero, `Outside` a read behind the memory given. */
  datatype StringResult = Found(pos: nat) | Past(end: nat) | NoString | Outside

  function ZeroFrom(data: seq<Octet>, pos: nat): (z: nat)
    ensures pos <= |data| ==> pos <= z <= |data|
    ensures z < |data| ==> data[z] == 0
    decreases |data| - pos
  {
    if pos >= |data| || data[pos] == 0 then pos else ZeroFrom(data, pos + 1)
  }

  /** String `number` of a section, when `index` is the number of the one at `pos`. */
  function StringFrom(data: seq<Octet>, pos: nat, index: nat, number: nat): (r: StringResult)
    requires pos <= |data|
    ensures r.Past? ==> pos + 2 <= r.end <= |data|
    decreases number + 1 - index
  {
    if index > number then NoString
    else if index == number then Found(pos)
    else
      var z := ZeroFrom(data, pos);
      if z + 1 >= |data| then Outside
      else if data[z + 1] == 0 then Past(z + 2)
      else StringFrom(data, z + 1, index + 1, number)
  }

  /** `LibGetSmbiosString`: a string by its number, or the end of the section. */
  method GetString(data: seq<Octet>, raw: nat, number: nat) returns (r: StringResult)
    requires raw + 1 < |data|
    ensures r == if raw + data[raw + 1] as int > |data| then Outside
                 else StringFrom(data, raw + data[raw + 1] as int, 1, number)
  {
    var pos: nat := raw + data[raw + 1] as nat;
    if pos > |data| { return Outside; }
    ghost var first := pos;
    for index := 1 to number + 1
      invariant pos <= |data|
      invariant StringFrom(data, first, 1, number) == StringFrom(data, pos, index, number)
    {
      if number == index { return Found(pos); }
      ghost var start := pos;
      while pos < |data| && data[pos] != 0
        invariant start <= pos <= |data| && ZeroFrom(data, start) == ZeroFrom(data, pos)
      {
        pos := pos + 1;
      }
      pos := pos + 1;
      if pos >= |data| { return Outside; }
      if data[pos] == 0 { return Past(pos + 1); }
    }
    return NoString;
  }

  lemma {:induction false} ZeroBehind(data: seq<Octet>, pos: nat, s: seq<Octet>)
    requires pos + |s| < |data| && data[pos..pos + |s|] == s && data[pos + |s|] == 0
    requires forall i :: 0 <= i < |s| ==> s[i] != 0
    ensures ZeroFrom(data, pos) == pos + |s|
    decreases |s|
  {
    if s != [] {
      assert data[pos] == data[pos..pos + |s|][0];
      assert data[pos + 1..pos + |s|] == data[pos..pos + |s|][1..];
      ZeroBehind(data, pos + 1, s[1..]);
    }
  }

  /** Where string number `k`, counted from zero, begins in a section. */
  function Offset(strings: seq<seq<Octet>>, k: nat): nat
    requires k <= |strings|
  {
    |Texts(strings[..k])|
  }

  lemma {:induction false} OffsetStep(strings: seq<seq<Octet>>, k: nat)
    requires k <= |strings|
    ensures k == 0 ==> Offset(strings, k) == 0
    ensures k > 0 ==> Offset(strings, k) == |strings[0]| + 1 + Offset(strings[1..], k - 1)
  {
    if k > 0 {
      assert strings[..k][1..] == strings[1..][..k - 1];
    }
  }

  lemma {:induction false} StringStep(data: seq<Octet>, pos: nat, index: nat, number: nat)
    requires pos <= |data| && index <= number
    ensures index == number ==> StringFrom(data, pos, index, number) == Found(pos)
    ensures var z := ZeroFrom(data, pos);
            index < number && z + 1 < |data| ==>
              StringFrom(data, pos, index, number) ==
              if data[z + 1] == 0 then Past(z + 2) else StringFrom(data, z + 1, index + 1, number)
  {
  }

  /** Through a non-empty section: string `number` if it is there, else the very end. */
  lemma {:induction false} SectionScanned(data: seq<Octet>, pos: nat, strings: seq<seq<Octet>>, index: nat, number: nat)
    requires strings != [] && AllText(strings) && index <= number
    requires pos + |Section(strings)| <= |data| && data[pos..pos + |Section(strings)|] == Section(strings)
    ensures StringFrom(data, pos, index, number) ==
            if number < index + |strings| then Found(pos + Offset(strings, number - index))
            else Past(pos + |Section(strings)|)
    decreases strings
  {
    hide AllText, Section, Offset, StringFrom, ZeroFrom;
    var rest, z := strings[1..], pos + |strings[0]|;
    StringStep(data, pos, index, number);
    FirstText(data, pos, strings);
    AllTextRest(strings);
    if number < index + |strings| {
      OffsetStep(strings, number - index);
    }
    if index < number && rest != [] {
      SectionScanned(data, z + 1, rest, index + 1, number);
    }
  }

  lemma {:induction false} AllTextRest(strings: seq<seq<Octet>>)
    requires AllText(strings) && strings != []
    ensures AllText(strings[1..])
  {
  }

  /** The first string of a section, its terminator, and what follows. */
  lemma {:induction false} FirstText(data: seq<Octet>, pos: nat, strings: seq<seq<Octet>>)
    requires strings != [] && AllText(strings)
    requires pos + |Section(strings)| <= |data|
    requires data[pos..pos + |Section(strings)|] == Section(strings)
    ensures var rest, z := strings[1..], pos + |strings[0]|;
            && ZeroFrom(data, pos) == z && z + 1 < |data| && data[z] == 0
            && z + 1 + |Section(rest)| == pos + |Section(strings)|
            && data[z + 1..z + 1 + |Section(rest)|] == Section(rest)
            && (rest == [] <==> data[z + 1] == 0)
            && (rest == [] ==> z + 2 == pos + |Section(strings)|)
  {
    hide *;
    var s, rest := strings[0], strings[1..];
    FirstIsText(strings);
    RestText(strings);
    SectionSplit(strings);
    HeadAndTail(data, pos, Section(strings), s, Section(rest));
    ZeroBehind(data, pos, s);
  }

  lemma {:induction false} FirstIsText(strings: seq<seq<Octet>>)
    requires strings != [] && AllText(strings)
    ensures IsText(strings[0])
  {
  }

  lemma {:induction false} SectionSplit(strings: seq<seq<Octet>>)
    requires strings != []
    ensures Section(strings) == strings[0] + ([0] + Section(strings[1..]))
  {
  }

  lemma {:induction false} HeadAndTail(data: seq<Octet>, pos: nat, whole: seq<Octet>, s: seq<Octet>, tail: seq<Octet>)
    requires whole == s + ([0] + tail) && tail != []
    requires pos + |whole| <= |data| && data[pos..pos + |whole|] == whole
    ensures |whole| == |s| + 1 + |tail|
    ensures data[pos..pos + |s|] == s && data[pos + |s|] == 0
    ensures data[pos + |s| + 1..pos + |s| + 1 + |tail|] == tail && data[pos + |s| + 1] == tail[0]
  {
    var z := pos + |s|;
    Cut(data, pos, pos + |whole|, s, [0] + tail);
    Cut(data, z, z + 1 + |tail|, [0], tail);
    assert data[z] == data[z..z + 1][0];
    assert data[z + 1] == data[z + 1..z + 1 + |tail|][0];
  }

  lemma {:induction false} RestText(strings: seq<seq<Octet>>)
    requires strings != [] && AllText(strings)
    ensures var rest := strings[1..]; (rest == [] <==> Section(rest)[0] == 0) && (rest == [] ==> |Section(rest)| == 1)
  {
    if |strings| > 1 {
      assert strings[1..][0] == strings[1] && IsText(strings[1]);
      assert Texts(strings[1..])[0] == strings[1][0];
    }
  }

  /** A structure lies at `at`. */
  predicate Lies(data: seq<Octet>, at: nat, s: Structure) {
    WellFormed(s) && at + |Encode(s)| <= |data| && data[at..at + |Encode(s)|] == Encode(s)
  }

  lemma {:induction false} HeaderLies(data: seq<Octet>, at: nat, s: Structure)
    requires Lies(data, at, s)
    ensures at + 4 <= |data| && data[at] == s.kind && data[at + 1] as int == 4 + |s.body|
    ensures data[at + 2] as nat + 256 * data[at + 3] as nat == s.handle
    ensures var p := at + 4 + |s.body|;
            && p + |Unformed(s.strings)| == at + |Encode(s)| <= |data|
            && data[p..p + |Unformed(s.strings)|] == Unformed(s.strings)
  {
    var f, u := Formed(s), Unformed(s.strings);
    Cut(data, at, at + |Encode(s)|, f, u);
    At(data, at, at + |f|, f);
    assert data[at + 0] == f[0] && data[at + 1] == f[1] && data[at + 2] == f[2] && data[at + 3] == f[3];
  }

  /** What string `number` of a structure is: the string with that number if there is one.
      A structure without strings answers number one with an empty string; every other
      missing number is answered with the end of the structure. */
  lemma {:induction false} StringOfStructure(data: seq<Octet>, at: nat, s: Structure, number: nat)
    requires Lies(data, at, s) && number >= 1
    ensures var p := at + 4 + |s.body|;
            var r := StringFrom(data, p, 1, number);
            && (number <= |s.strings| ==> r == Found(p + Offset(s.strings, number - 1)))
            && (number > |s.strings| && number > 1 ==> r == Past(at + |Encode(s)|))
            && (s.strings == [] && number == 1 ==> r == Found(p) && p < |data| && data[p] == 0)
  {
    HeaderLies(data, at, s);
    var p := at + 4 + |s.body|;
    if s.strings == [] {
      At(data, p, p + 2, [0, 0]);
      assert data[p + 0] == [0, 0][0] && data[p + 1] == [0, 0][1];
    } else {
      SectionScanned(data, p, s.strings, 1, number);
    }
    hide Encode, Texts, Unformed, Section;
  }

  // ----- structures by handle -----------------------------------------------------------

  /** The end of the structure at `at`, found by asking for a string no structure has. */
  function Skip(data: seq<Octet>, at: nat): (r: StringResult)
    ensures r.Past? ==> at < r.end <= |data|
  {
    if at + 1 >= |data| || at + data[at + 1] as nat > |data| then Outside
    else StringFrom(data, at + data[at + 1] as nat, 1, 0xffff)
  }

  function HandleAt(data: seq<Octet>, at: nat): nat
    requires at + 3 < |data|
  {
    data[at + 2] as nat + 256 * data[at + 3] as nat
  }

  /** A structure and the start of the next one; `Beyond` is a read behind the memory given,
      `Endless` a loop that does not get past a structure of 65535 strings. */
  datatype Hit = Hit(start: nat, next: nat) | Miss | Beyond | Endless

  function FindFrom(data: seq<Octet>, at: nat, end: nat, handle: nat): Hit
    decreases |data| - at
  {
    if at >= end then Miss
    else if at + 3 >= |data| then Beyond
    else
      match Skip(data, at)
      case Past(next) => if HandleAt(data, at) == handle then Hit(at, next) else FindFrom(data, next, end, handle)
      case Found(_) => if HandleAt(data, at) == handle then Hit(at, at) else Endless
      case _ => Beyond
  }

  /** `Success` carries the handle of the next structure and the range of this one. */
  datatype Answer = Success(handle: nat, buffer: nat, length: nat) | Failure | Stuck

  function Ask(data: seq<Octet>, end: nat, handle: nat): Answer {
    match FindFrom(data, 0, end, handle)
    case Miss => Failure
    case Hit(start, next) =>
      if next >= end then Success(INVALID_HANDLE, start, (next - start) % 0x10000)
      else if next + 3 >= |data| then Stuck
      else Success(HandleAt(data, next), start, (next - start) % 0x10000)
    case _ => Stuck
  }

  /** `LibGetSmbiosStructure` for a valid handle, over a table of `end` octets. */
  method GetStructure(data: seq<Octet>, end: nat, handle: nat) returns (r: Answer)
    ensures r == Ask(data, end, handle)
  {
    hide StringFrom;
    var at := 0;
    while at < end
      invariant 0 <= at && FindFrom(data, 0, end, handle) == FindFrom(data, at, end, handle)
      decreases |data| - at
    {
      if at + 3 >= |data| { return Stuck; }
      var found := HandleAt(data, at) == handle;
      var next := at;
      if at + data[at + 1] as nat > |data| { return Stuck; }
      var s := GetString(data, at, 0xffff);
      match s {
        case Past(e) => next := e;
        case Found(_) => if !found { return Stuck; }
        case _ => return Stuck;
      }
      if found {
        if next >= end { return Success(INVALID_HANDLE, at, (next - at) % 0x10000); }
        if next + 3 >= |data| { return Stuck; }
        return Success(HandleAt(data, next), at, (next - at) % 0x10000);
      }
      at := next;
    }
    return Failure;
  }

  // ----- well-formed tables -------------------------------------------------------------

  /** The structures lie one behind the other from `at` to `end`. */
  predicate Lie(data: seq<Octet>, at: nat, structs: seq<Structure>, end: nat)
    decreases structs
  {
    if structs == [] then at == end
    else Lies(data, at, structs[0]) && Lie(data, at + |Encode(structs[0])|, structs[1..], end)
  }

  /** Where structure `i` starts. */
  function StartOf(structs: seq<Structure>, i: nat): nat
    requires i <= |structs| && forall k :: 0 <= k < |structs| ==> WellFormed(structs[k])
  {
    if i == 0 then 0 else |Encode(structs[0])| + StartOf(structs[1..], i - 1)
  }

  ghost predicate GoodTable(data: seq<Octet>, structs: seq<Structure>, end: nat) {
    && Lie(data, 0, structs, end) && (forall k :: 0 <= k < |structs| ==> WellFormed(structs[k]))
    && (forall i, j :: 0 <= i < j < |structs| ==> structs[i].handle != structs[j].handle)
    && (forall i :: 0 <= i < |structs| ==> structs[i].handle != INVALID_HANDLE)
  }

  lemma {:induction false} SkipsStructure(data: seq<Octet>, at: nat, s: Structure)
    requires Lies(data, at, s)
    ensures at + 3 < |data| && HandleAt(data, at) == s.handle && Skip(data, at) == Past(at + |Encode(s)|)
  {
    hide Encode, Unformed, StringFrom, Offset, WellFormed, Section;
    FewStrings(data, at, s);
    HeaderLies(data, at, s);
    StringOfStructure(data, at, s, 0xffff);
  }

  lemma {:induction false} FewStrings(data: seq<Octet>, at: nat, s: Structure)
    requires Lies(data, at, s)
    ensures WellFormed(s) && |s.strings| < 0xffff
  {
    hide Encode;
  }

  lemma {:induction false} LieEnds(data: seq<Octet>, at: nat, structs: seq<Structure>, end: nat)
    requires Lie(data, at, structs, end)
    ensures at <= end && (structs != [] ==> at < end <= |data|)
    decreases structs
  {
    if structs != [] {
      LieEnds(data, at + |Encode(structs[0])|, structs[1..], end);
      HeaderLies(data, at, structs[0]);
      hide Encode, Unformed;
    }
  }

  lemma {:induction false} FoundAt(data: seq<Octet>, at: nat, structs: seq<Structure>, end: nat, i: nat)
    requires Lie(data, at, structs, end) && (forall k :: 0 <= k < |structs| ==> WellFormed(structs[k]))
    requires forall i, j :: 0 <= i < j < |structs| ==> structs[i].handle != structs[j].handle
    requires i < |structs|
    ensures FindFrom(data, at, end, structs[i].handle) == Hit(at + StartOf(structs, i), at + StartOf(structs, i + 1))
    ensures i + 1 == |structs| <==> at + StartOf(structs, i + 1) == end
    ensures at + StartOf(structs, i + 1) <= end
    ensures i + 1 < |structs| ==> Lies(data, at + StartOf(structs, i + 1), structs[i + 1])
    decreases structs
  {
    hide Encode, Skip, HandleAt, Lies;
    var s, rest := structs[0], structs[1..];
    SkipsStructure(data, at, s);
    LieEnds(data, at, structs, end);
    var next := at + |Encode(s)|;
    LieEnds(data, next, rest, end);
    assert forall k :: 0 <= k < |rest| ==> rest[k] == structs[k + 1];
    if i > 0 {
      FoundAt(data, next, rest, end, i - 1);
    }
  }

  /** Asking for the handle of structure `i` yields exactly the octets of that structure and
      the handle of the next one. */
  lemma {:induction false} HandlesChain(data: seq<Octet>, structs: seq<Structure>, end: nat, i: nat)
    requires GoodTable(data, structs, end) && i < |structs|
    ensures Ask(data, end, structs[i].handle) ==
            Success(if i + 1 < |structs| then structs[i + 1].handle else INVALID_HANDLE,
                    StartOf(structs, i), |Encode(structs[i])| % 0x10000)
  {
    hide Encode, FindFrom, Lies;
    FoundAt(data, 0, structs, end, i);
    StartNext(structs, i);
    if i + 1 < |structs| {
      SkipsStructure(data, StartOf(structs, i + 1), structs[i + 1]);
    }
  }

  /** A handle that no structure has is answered with failure. */
  lemma {:induction false} UnknownHandle(data: seq<Octet>, structs: seq<Structure>, end: nat, handle: nat)
    requires GoodTable(data, structs, end) && forall k :: 0 <= k < |structs| ==> structs[k].handle != handle
    ensures Ask(data, end, handle) == Failure
  {
    hide Lie, FindFrom;
    NotFound(data, 0, structs, end, handle);
  }

  lemma {:induction false} NotFound(data: seq<Octet>, at: nat, structs: seq<Structure>, end: nat, handle: nat)
    requires Lie(data, at, structs, end) && (forall k :: 0 <= k < |structs| ==> WellFormed(structs[k]))
    requires forall k :: 0 <= k < |structs| ==> structs[k].handle != handle
    ensures FindFrom(data, at, end, handle) == Miss
    decreases structs
  {
    hide Encode, Skip, HandleAt, Lies;
    LieEnds(data, at, structs, end);
    if structs != [] {
      SkipsStructure(data, at, structs[0]);
      NotFound(data, at + |Encode(structs[0])|, structs[1..], end, handle);
    }
  }

  /** The ranges tile the table. */
  lemma {:induction false} StartNext(structs: seq<Structure>, i: nat)
    requires i < |structs| && forall k :: 0 <= k < |structs| ==> WellFormed(structs[k])
    ensures StartOf(structs, i + 1) == StartOf(structs, i) + |Encode(structs[i])|
  {
    hide Encode, WellFormed;
    if i > 0 {
      assert structs[1..][i - 1] == structs[i];
      StartNext(structs[1..], i - 1);
    }
  }

  // ----- the program --------------------------------------------------------------------

  /** The structures looked at, by their start: at most `count` along the chain of handles,
      up to the first one of type 0. */
  function Visit(data: seq<Octet>, end: nat, handle: nat, count: nat): seq<nat>
    decreases count
  {
    if count == 0 || handle == INVALID_HANDLE then []
    else
      match Ask(data, end, handle)
      case Success(next, buffer, _) =>
        [buffer] + (if buffer < |data| && data[buffer] == 0 then [] else Visit(data, end, next, count - 1))
      case _ => []
  }

  /** The loop of `efi_main`, from the handle of the first structure. */
  method FindBios(data: seq<Octet>, end: nat, count: nat) returns (visited: seq<nat>)
    requires |data| >= 4
    ensures visited == Visit(data, end, HandleAt(data, 0), count)
  {
    hide Ask;
    visited := [];
    var handle := HandleAt(data, 0);
    for index := 0 to count
      invariant visited + Visit(data, end, handle, count - index) == Visit(data, end, HandleAt(data, 0), count)
    {
      if handle == INVALID_HANDLE { return; }
      var r := GetStructure(data, end, handle);
      if !r.Success? { return; }
      assert visited + ([r.buffer] + Visit(data, end, r.handle, count - index - 1))
          == (visited + [r.buffer]) + Visit(data, end, r.handle, count - index - 1);
      visited := visited + [r.buffer];
      if r.buffer < |data| && data[r.buffer] == 0 { return; }
      handle := r.handle;
    }
  }

  /** The starts of the structures from number `i` on, up to the first one of type 0. */
  function StartsFrom(structs: seq<Structure>, i: nat, count: nat): seq<nat>
    requires forall k :: 0 <= k < |structs| ==> WellFormed(structs[k])
    decreases |structs| - i
  {
    if i >= |structs| || count == 0 then []
    else [StartOf(structs, i)] + (if structs[i].kind == 0 then [] else StartsFrom(structs, i + 1, count - 1))
  }

  /** On a well-formed table with distinct handles the program looks at the structures in
      table order, each once, up to the first of type 0. */
  lemma {:induction false} VisitsInOrder(data: seq<Octet>, structs: seq<Structure>, end: nat, i: nat, count: nat)
    requires GoodTable(data, structs, end) && i <= |structs|
    ensures Visit(data, end, if i < |structs| then structs[i].handle else INVALID_HANDLE, count)
            == StartsFrom(structs, i, count)
    decreases |structs| - i
  {
    hide Ask, Encode, Lie, StartOf;
    if i < |structs| && count > 0 {
      HandlesChain(data, structs, end, i);
      KindAt(data, structs, end, i);
      VisitsInOrder(data, structs, end, i + 1, count - 1);
    }
  }

  lemma {:induction false} KindAt(data: seq<Octet>, structs: seq<Structure>, end: nat, i: nat)
    requires GoodTable(data, structs, end) && i < |structs|
    ensures StartOf(structs, i) < |data| && data[StartOf(structs, i)] == structs[i].kind
  {
    hide Encode, FindFrom, Lies;
    if i == 0 {
      FirstLies(data, structs, end);
    } else {
      FoundAt(data, 0, structs, end, i - 1);
    }
    HeaderLies(data, StartOf(structs, i), structs[i]);
  }

  lemma {:induction false} FirstLies(data: seq<Octet>, structs: seq<Structure>, end: nat)
    requires GoodTable(data, structs, end) && structs != []
    ensures Lies(data, 0, structs[0])
  {
    hide Encode, Lies;
  }
}
