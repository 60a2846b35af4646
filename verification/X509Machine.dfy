/** The machine of the certificate grammar: what goes out of line, how long the table is, and that
    everything proved about valid machines holds of it. */
module X509Machine {
  import opened Grammar
  import opened Code
  import opened Layout
  import opened Queue
  import opened SupportedGrammars
  import opened RegularGrammars
  import opened ReadableValues
  import opened TerminatingGrammars
  import opened BerMachine
  import opened Steps
  import opened X509
  import Correct
  import Definitions
  import Der
  import Firm
  import Parser
  import Renderer
  import Safety
  import Syntax
  import Toolchain
  import X509Source

  // ----- sizes and calls of rendered code -----------------------------------------------

  /** The code of `e` has `size` entries and calls `calls`. */
  ghost predicate Takes(e: Element, fuel: nat, size: nat, calls: seq<Element>) {
    var c := Render(Certificates(), e, None, fuel);
    Size(c) == size && Targets(c) == calls
  }

  ghost predicate AllTake(es: seq<Element>, fuel: nat, size: nat, calls: seq<Element>) {
    var c := RenderAll(Certificates(), es, fuel);
    Size(c) == size && Targets(c) == calls
  }

  const NONE: seq<Element> := []

  function ActSize(action: Option<nat>): nat {
    if action.Some? then 1 else 0
  }

  lemma {:induction false} LeafTakes(e: Element, fuel: nat)
    ensures e.compound.NotCompound? ==> Takes(e, fuel, 2 + ActSize(e.action), [])
    ensures e.compound.Any? ==> Takes(e, fuel, 1 + ActSize(e.action), [])
  {
    hide Certificates;
  }

  lemma {:induction false} RefTakes(id: nat, target: nat, action: Option<nat>, fuel: nat, size: nat, calls: seq<Element>)
    requires fuel > 0 && target < 14 == |Types()| && Certificates().types == Types()
    requires Takes(Types()[target], fuel - 1, size, calls)
    ensures Takes(Ref(id, target, action), fuel, size + 2 * ActSize(action), calls)
  {
    hide Certificates, Types;
    var c := Render(Certificates(), Types()[target], None, fuel - 1);
    assert Render(Certificates(), Ref(id, target, action), None, fuel) == Then(c, ActCode(action));
    assert Targets(ActCode(action)) == [] && Size(ActCode(action)) == 2 * ActSize(action);
    assert calls + [] == calls;
  }

  /** An element referred to more than once, or an optional one, is called. */
  lemma {:induction false} CallTakes(e: Element, fuel: nat)
    requires e.compound.Sequence? || e.compound.SequenceOf? || e.compound.SetOf?
    requires OutOfLine(Certificates(), e, None)
    ensures Takes(e, fuel, 3, [e])
  {
    hide Certificates;
  }

  lemma {:induction false} FieldsTake(e: Element, fuel: nat, size: nat, calls: seq<Element>)
    requires e.compound.Sequence? && !OutOfLine(Certificates(), e, None) && e.action.None?
    requires AllTake(e.compound.fields, fuel, size, calls)
    ensures Takes(e, fuel, 2 + size + 1, calls)
  {
    hide Certificates, RenderAll;
  }

  lemma {:induction false} LoopTakes(e: Element, item: Element, fuel: nat, size: nat, calls: seq<Element>)
    requires e.compound == Compound.SequenceOf(item) || e.compound == Compound.SetOf(item)
    requires !OutOfLine(Certificates(), e, None) && e.action.None? && Takes(item, fuel, size, calls)
    ensures Takes(e, fuel, 2 + size + 2, calls)
  {
    hide Certificates;
  }

  lemma {:induction false} NoneTake(fuel: nat)
    ensures AllTake([], fuel, 0, [])
  {
  }

  lemma {:induction false} FirstTakes(e: Element, es: seq<Element>, fuel: nat, m: nat, a: seq<Element>, n: nat,
                                      b: seq<Element>)
    requires Takes(e, fuel, m, a) && AllTake(es, fuel, n, b)
    ensures AllTake([e] + es, fuel, m + n, a + b)
  {
    hide Certificates, Render;
    assert ([e] + es)[1..] == es;
  }

  lemma {:induction false} OneTakes(e: Element, fuel: nat, m: nat, a: seq<Element>)
    requires Takes(e, fuel, m, a)
    ensures AllTake([e], fuel, m, a)
  {
    hide Takes, AllTake;
    NoneTake(fuel);
    FirstTakes(e, [], fuel, m, a, 0, []);
    assert [e] + [] == [e] && a + [] == a;
  }

  lemma {:induction false} TwoTake(e: Element, f: Element, fuel: nat, m: nat, a: seq<Element>, n: nat, b: seq<Element>)
    requires Takes(e, fuel, m, a) && Takes(f, fuel, n, b)
    ensures AllTake([e, f], fuel, m + n, a + b)
  {
    hide Takes, AllTake;
    OneTakes(f, fuel, n, b);
    FirstTakes(e, [f], fuel, m, a, n, b);
    assert [e] + [f] == [e, f];
  }

  lemma {:induction false} ThreeTake(e: Element, f: Element, g: Element, fuel: nat, m: nat, a: seq<Element>, n: nat,
                                     b: seq<Element>, o: nat, c: seq<Element>)
    requires Takes(e, fuel, m, a) && Takes(f, fuel, n, b) && Takes(g, fuel, o, c)
    ensures AllTake([e, f, g], fuel, m + n + o, a + (b + c))
  {
    hide Takes, AllTake;
    TwoTake(f, g, fuel, n, b, o, c);
    FirstTakes(e, [f, g], fuel, m, a, n + o, b + c);
    assert [e] + [f, g] == [e, f, g];
  }

  lemma {:induction false} BothTake(es: seq<Element>, fs: seq<Element>, fuel: nat, m: nat, a: seq<Element>, n: nat,
                                    b: seq<Element>)
    requires AllTake(es, fuel, m, a) && AllTake(fs, fuel, n, b)
    ensures AllTake(es + fs, fuel, m + n, a + b)
    decreases es
  {
    hide Certificates, Render;
    if es == [] {
      assert es + fs == fs && a + b == b;
    } else {
      var c, rest := Render(Certificates(), es[0], None, fuel), RenderAll(Certificates(), es[1..], fuel);
      BothTake(es[1..], fs, fuel, Size(rest), Targets(rest), n, b);
      assert (es + fs)[1..] == es[1..] + fs;
      assert Targets(c) + (Targets(rest) + b) == (Targets(c) + Targets(rest)) + b;
    }
  }

  // ----- what is out of line ------------------------------------------------------------

  function TaggedVersion(): Element {
    X509.Tagged(5, 0, Ref(6, 2, None))
  }

  function TaggedExtensions(): Element {
    X509.Tagged(17, 3, Ref(18, 12, Some(DO_EXTENSIONS)))
  }

  lemma {:induction false} Lines()
    ensures var g := Certificates();
            && OutOfLine(g, AlgorithmIdentifier(), None) && OutOfLine(g, Name(), None)
            && OutOfLine(g, TaggedVersion(), None) && OutOfLine(g, TaggedExtensions(), None)
            && !OutOfLine(g, Certificate(), None) && !OutOfLine(g, TBSCertificate(), None)
            && !OutOfLine(g, Validity(), None) && !OutOfLine(g, SubjectPublicKeyInfo(), None)
            && !OutOfLine(g, RelativeDistinguishedName(), None) && !OutOfLine(g, AttributeValueAssertion(), None)
            && !OutOfLine(g, Extensions(), None) && !OutOfLine(g, Extension(), None)
  {
  }

  // ----- the main code ------------------------------------------------------------------

  lemma {:induction false} CalledTypesTake(fuel: nat)
    ensures Takes(AlgorithmIdentifier(), fuel, 3, [AlgorithmIdentifier()]) && Takes(Name(), fuel, 3, [Name()])
    ensures Takes(TaggedVersion(), fuel, 3, [TaggedVersion()])
    ensures Takes(TaggedExtensions(), fuel, 3, [TaggedExtensions()])
  {
    Lines();
    hide Certificates, Takes, OutOfLine;
    CallTakes(AlgorithmIdentifier(), fuel);
    CallTakes(Name(), fuel);
    CallTakes(TaggedVersion(), fuel);
    CallTakes(TaggedExtensions(), fuel);
  }

  lemma {:induction false} TimeTakes(fuel: nat)
    ensures Takes(Time(), fuel, 5, [])
  {
    var es := Time().compound.alternatives;
    LeafTakes(es[0], fuel);
    LeafTakes(es[1], fuel);
    TwoTake(es[0], es[1], fuel, 2, [], 2, []);
    assert [es[0], es[1]] == es && NONE + NONE == NONE;
    hide Certificates, RenderAll;
    var all := RenderAll(Certificates(), es, fuel);
    assert Render(Certificates(), Time(), None, fuel) == Then(all, Then(CondFail, Nil));
    assert Targets(Then(CondFail, Nil)) == [] && Targets(all) + [] == Targets(all);
    assert Size(Then(CondFail, Nil)) == 1;
  }

  lemma {:induction false} ValidityTakes(fuel: nat)
    requires fuel > 0
    ensures Takes(Validity(), fuel, 17, [])
  {
    TypesAre();
    Lines();
    TimeTakes(fuel - 1);
    var es := Validity().compound.fields;
    hide Certificates, Types, Takes, AllTake, Time, OutOfLine;
    RefTakes(32, 9, Some(DO_VALIDITY_NOT_BEFORE), fuel, 5, []);
    RefTakes(33, 9, Some(DO_VALIDITY_NOT_AFTER), fuel, 5, []);
    TwoTake(es[0], es[1], fuel, 7, [], 7, []);
    assert [es[0], es[1]] == es && NONE + NONE == NONE;
    FieldsTake(Validity(), fuel, 14, []);
  }

  lemma {:induction false} SubjectPublicKeyInfoTakes(fuel: nat)
    requires fuel > 0
    ensures Takes(SubjectPublicKeyInfo(), fuel, 8, [AlgorithmIdentifier()])
  {
    TypesAre();
    Lines();
    CalledTypesTake(fuel - 1);
    var es, a := SubjectPublicKeyInfo().compound.fields, [AlgorithmIdentifier()];
    LeafTakes(es[1], fuel);
    hide Certificates, Types, Takes, AllTake, AlgorithmIdentifier, OutOfLine;
    RefTakes(38, 4, None, fuel, 3, a);
    TwoTake(es[0], es[1], fuel, 3, a, 2, []);
    assert [es[0], es[1]] == es && a + [] == a;
    FieldsTake(SubjectPublicKeyInfo(), fuel, 5, a);
  }

  lemma {:induction false} OneMatch(optag: nat)
    ensures var c := Then(MatchPrim(optag, false, true, None), Nil); Size(c) == 2 && Targets(c) == []
  {
  }

  lemma {:induction false} RetaggedTakes(id: nat, number: nat, from: nat, fuel: nat)
    requires fuel > 0
    ensures Takes(Retagged(id, number, Ref(from, 11, None)), fuel, 2, [])
  {
    TypesAre();
    hide Certificates, Types;
    var r := Ref(from, 11, None);
    var e := Retagged(id, number, r);
    var code := MatchPrim(2 * 64 + number, false, true, None);
    assert Render(Certificates(), UniqueIdentifier(), Some(e), fuel - 1) == code;
    assert Render(Certificates(), r, Some(e), fuel) == Then(code, Nil);
    OneMatch(2 * 64 + number);
    assert e.compound == TagOverride(r);
    hide Retagged, Size, Targets;
    assert Render(Certificates(), e, None, fuel) == Render(Certificates(), r, Some(e), fuel);
  }

  /** `version`, `serialNumber` and `signature`. */
  lemma {:induction false} TBSFirstTake(fuel: nat)
    requires fuel > 1
    ensures var f := TBSFields();
            AllTake([f[0], f[1], f[2]], fuel, 11, [TaggedVersion(), AlgorithmIdentifier()])
  {
    TypesAre();
    var f, v, a := TBSFields(), [TaggedVersion()], [AlgorithmIdentifier()];
    CalledTypesTake(fuel);
    CalledTypesTake(fuel - 1);
    LeafTakes(CertificateSerialNumber(), fuel - 1);
    assert f[0] == TaggedVersion() && f[1] == Ref(7, 3, None) && f[2] == Ref(8, 4, Some(DO_SIGNATURE));
    hide Certificates, Types, Takes, AllTake, AlgorithmIdentifier, TaggedVersion, TBSFields, Ref;
    RefTakes(7, 3, None, fuel, 3, []);
    RefTakes(8, 4, Some(DO_SIGNATURE), fuel, 3, a);
    ThreeTake(f[0], f[1], f[2], fuel, 3, v, 3, [], 5, a);
    assert v + ([] + a) == [TaggedVersion(), AlgorithmIdentifier()];
  }

  /** `issuer` and `validity`, `subject` and the key. */
  lemma {:induction false} TBSMiddleTake(fuel: nat)
    requires fuel > 1
    ensures var f := TBSFields();
            && AllTake([f[3], f[4]], fuel, 22, [Name()])
            && AllTake([f[5], f[6]], fuel, 15, [Name(), AlgorithmIdentifier()])
  {
    TypesAre();
    var f, a, n := TBSFields(), [AlgorithmIdentifier()], [Name()];
    CalledTypesTake(fuel - 1);
    ValidityTakes(fuel - 1);
    SubjectPublicKeyInfoTakes(fuel - 1);
    assert f[3] == Ref(9, 5, Some(DO_ISSUER)) && f[4] == Ref(10, 8, None) && f[5] == Ref(11, 5, Some(DO_SUBJECT));
    assert f[6] == Ref(12, 10, Some(DO_SUBJECT_PUBLIC_KEY_INFO));
    hide Certificates, Types, Takes, AllTake, AlgorithmIdentifier, Name, Validity, SubjectPublicKeyInfo, TBSFields, Ref;
    RefTakes(9, 5, Some(DO_ISSUER), fuel, 3, n);
    RefTakes(10, 8, None, fuel, 17, []);
    RefTakes(11, 5, Some(DO_SUBJECT), fuel, 3, n);
    RefTakes(12, 10, Some(DO_SUBJECT_PUBLIC_KEY_INFO), fuel, 8, a);
    TwoTake(f[3], f[4], fuel, 5, n, 17, []);
    TwoTake(f[5], f[6], fuel, 5, n, 10, a);
    assert n + [] == n && n + a == [Name(), AlgorithmIdentifier()];
  }

  lemma {:induction false} TBSTailTakes(fuel: nat)
    requires fuel > 0
    ensures AllTake(UniqueIds(), fuel, 7, [TaggedExtensions()])
  {
    var u, e := UniqueIds(), [TaggedExtensions()];
    CalledTypesTake(fuel);
    assert u[2] == TaggedExtensions();
    hide Certificates, Takes, AllTake, TaggedExtensions;
    RetaggedTakes(13, 1, 14, fuel);
    RetaggedTakes(15, 2, 16, fuel);
    ThreeTake(u[0], u[1], u[2], fuel, 2, [], 2, [], 3, e);
    assert [u[0], u[1], u[2]] == u && [] + ([] + e) == e;
  }

  /** What the certificate proper calls, in order. */
  function TBSCalls(): seq<Element> {
    [TaggedVersion(), AlgorithmIdentifier(), Name(), Name(), AlgorithmIdentifier(), TaggedExtensions()]
  }

  lemma {:induction false} TBSCertificateTakes(fuel: nat)
    requires fuel > 1
    ensures Takes(TBSCertificate(), fuel, 58, TBSCalls())
  {
    TBSFirstTake(fuel);
    TBSMiddleTake(fuel);
    TBSTailTakes(fuel);
    Lines();
    var f, u := TBSFields(), UniqueIds();
    var a, b, c := [f[0], f[1], f[2]], [f[3], f[4]], [f[5], f[6]];
    assert f == a + (b + (c + u));
    assert TBSCalls() == [TaggedVersion(), AlgorithmIdentifier()]
                         + ([Name()] + ([Name(), AlgorithmIdentifier()] + [TaggedExtensions()]));
    hide Certificates, Takes, AllTake, TBSFields, UniqueIds, OutOfLine, TaggedVersion, AlgorithmIdentifier, Name,
      TaggedExtensions;
    BothTake(c, u, fuel, 15, [Name(), AlgorithmIdentifier()], 7, [TaggedExtensions()]);
    BothTake(b, c + u, fuel, 22, [Name()], 22, [Name(), AlgorithmIdentifier()] + [TaggedExtensions()]);
    BothTake(a, b + (c + u), fuel, 11, [TaggedVersion(), AlgorithmIdentifier()], 44,
             [Name()] + ([Name(), AlgorithmIdentifier()] + [TaggedExtensions()]));
    FieldsTake(TBSCertificate(), fuel, 55, TBSCalls());
  }

  lemma {:induction false} CertificateTakes()
    ensures Takes(Certificate(), DEPTH, 66, TBSCalls() + [AlgorithmIdentifier()])
  {
    TypesAre();
    Lines();
    TBSCertificateTakes(3);
    CalledTypesTake(3);
    var es, a := Certificate().compound.fields, [AlgorithmIdentifier()];
    LeafTakes(es[2], DEPTH);
    hide Certificates, Types, Takes, AllTake, TBSCertificate, TBSCalls, AlgorithmIdentifier, OutOfLine;
    RefTakes(1, 1, None, DEPTH, 58, TBSCalls());
    RefTakes(2, 4, None, DEPTH, 3, a);
    ThreeTake(es[0], es[1], es[2], DEPTH, 58, TBSCalls(), 3, a, 2, []);
    assert [es[0], es[1], es[2]] == es && TBSCalls() + (a + []) == TBSCalls() + a;
    FieldsTake(Certificate(), DEPTH, 63, TBSCalls() + a);
  }

  // ----- the code out of line -----------------------------------------------------------

  /** The out-of-line code of `e` has `size` entries and calls nothing. */
  ghost predicate BodyTakes(e: Element, size: nat) {
    var c := RenderBody(Certificates(), e, DEPTH);
    Size(c) == size && Targets(c) == []
  }

  lemma {:induction false} FieldsBody(e: Element, size: nat)
    requires e.compound.Sequence? && e.action.None? && AllTake(e.compound.fields, DEPTH, size, [])
    ensures BodyTakes(e, size + 2)
  {
    hide Certificates, RenderAll;
  }

  lemma {:induction false} LoopBody(e: Element, item: Element, size: nat)
    requires e.compound == Compound.SequenceOf(item) && e.action.None? && Takes(item, DEPTH, size, [])
    ensures BodyTakes(e, size + 3)
  {
    hide Certificates, Render;
  }

  lemma {:induction false} TaggedVersionBody()
    ensures BodyTakes(TaggedVersion(), 5)
  {
    TypesAre();
    LeafTakes(Version(), 3);
    hide Certificates, Types, Takes, AllTake;
    RefTakes(6, 2, None, DEPTH, 3, []);
    OneTakes(Ref(6, 2, None), DEPTH, 3, []);
    FieldsBody(TaggedVersion(), 3);
  }

  lemma {:induction false} AlgorithmIdentifierBody()
    ensures BodyTakes(AlgorithmIdentifier(), 6)
  {
    var es := AlgorithmIdentifier().compound.fields;
    LeafTakes(es[0], DEPTH);
    LeafTakes(es[1], DEPTH);
    hide Certificates, Takes, AllTake;
    TwoTake(es[0], es[1], DEPTH, 3, [], 1, []);
    assert [es[0], es[1]] == es && NONE + NONE == NONE;
    FieldsBody(AlgorithmIdentifier(), 4);
  }

  lemma {:induction false} NameBody()
    ensures BodyTakes(Name(), 15)
  {
    TypesAre();
    Lines();
    var es := AttributeValueAssertion().compound.fields;
    LeafTakes(es[0], 2);
    LeafTakes(es[1], 2);
    hide Certificates, Types, Takes, AllTake, OutOfLine;
    TwoTake(es[0], es[1], 2, 3, [], 2, []);
    assert [es[0], es[1]] == es && NONE + NONE == NONE;
    FieldsTake(AttributeValueAssertion(), 2, 5, []);
    RefTakes(27, 7, None, 3, 8, []);
    LoopTakes(RelativeDistinguishedName(), Ref(27, 7, None), 3, 8, []);
    RefTakes(25, 6, None, DEPTH, 12, []);
    LoopBody(Name(), Ref(25, 6, None), 12);
  }

  lemma {:induction false} TaggedExtensionsBody()
    ensures BodyTakes(TaggedExtensions(), 18)
  {
    TypesAre();
    Lines();
    var es := Extension().compound.fields;
    LeafTakes(es[0], 2);
    LeafTakes(es[1], 2);
    LeafTakes(es[2], 2);
    hide Certificates, Types, Takes, AllTake, OutOfLine;
    ThreeTake(es[0], es[1], es[2], 2, 3, [], 2, [], 2, []);
    assert [es[0], es[1], es[2]] == es && NONE + (NONE + NONE) == NONE;
    FieldsTake(Extension(), 2, 7, []);
    RefTakes(42, 13, None, 3, 10, []);
    LoopTakes(Extensions(), Ref(42, 13, None), 3, 10, []);
    RefTakes(18, 12, Some(DO_EXTENSIONS), DEPTH, 14, []);
    OneTakes(Ref(18, 12, Some(DO_EXTENSIONS)), DEPTH, 16, []);
    FieldsBody(TaggedExtensions(), 16);
  }

  // ----- the queue ----------------------------------------------------------------------

  /** What is rendered out of line, in this order. */
  function Order(): (order: seq<Element>)
    ensures |order| == 4
  {
    [TaggedVersion(), AlgorithmIdentifier(), Name(), TaggedExtensions()]
  }

  function BodySize(i: nat): nat {
    match i case 0 => 5 case 1 => 6 case 2 => 15 case _ => 18
  }

  lemma {:induction false} Bodies(i: nat)
    requires i < 4
    ensures BodyTakes(Order()[i], BodySize(i))
  {
    TaggedVersionBody();
    AlgorithmIdentifierBody();
    NameBody();
    TaggedExtensionsBody();
    hide BodyTakes, TaggedVersion, AlgorithmIdentifier, Name, TaggedExtensions;
  }

  lemma {:induction false} OrderIds()
    ensures var o := Order(); o[0].id == 5 && o[1].id == 21 && o[2].id == 24 && o[3].id == 17
  {
  }

  lemma {:induction false} Queued()
    ensures AddAll([], TBSCalls() + [AlgorithmIdentifier()]) == Order()
  {
    OrderIds();
    var v, a, n, e := TaggedVersion(), AlgorithmIdentifier(), Name(), TaggedExtensions();
    assert TBSCalls() + [a] == [v, a, n, n, a, e, a];
    assert v != a && v != n && v != e && a != n && a != e && n != e;
    hide TaggedVersion, AlgorithmIdentifier, Name, TaggedExtensions, AddAll;
    FourQueued(v, a, n, e);
  }

  lemma {:induction false} FourQueued(v: Element, a: Element, n: Element, e: Element)
    requires v != a && v != n && v != e && a != n && a != e && n != e
    ensures AddAll([], [v, a, n, n, a, e, a]) == [v, a, n, e]
  {
    hide AddAll;
    AddFirst([], [v, a, n, n, a, e, a], [a, n, n, a, e, a]);
    AddFirst([v], [a, n, n, a, e, a], [n, n, a, e, a]);
    AddFirst([v, a], [n, n, a, e, a], [n, a, e, a]);
    AddSeen(v, a, n, e);
    assert [] + [v] == [v] && [v] + [a] == [v, a] && [v, a] + [n] == [v, a, n];
  }

  lemma {:induction false} AddSeen(v: Element, a: Element, n: Element, e: Element)
    requires v != e && a != e && n != e
    ensures AddAll([v, a, n], [n, a, e, a]) == [v, a, n, e]
  {
    hide AddAll;
    AddFirst([v, a, n], [n, a, e, a], [a, e, a]);
    AddFirst([v, a, n], [a, e, a], [e, a]);
    AddFirst([v, a, n], [e, a], [a]);
    AddFirst([v, a, n, e], [a], []);
    assert [v, a, n] + [e] == [v, a, n, e];
  }

  lemma {:induction false} AddFirst(order: seq<Element>, es: seq<Element>, rest: seq<Element>)
    requires es != [] && es[1..] == rest
    ensures AddAll(order, es) == AddAll(Add(order, es[0]), rest)
    ensures AddAll(order, []) == order
  {
  }

  lemma {:induction false} OrderStays(k: nat)
    requires Certificates().types != []
    ensures OrderAfter(Certificates(), DEPTH, k) == Order()
    decreases k
  {
    if k == 0 {
      TypesAre();
      CertificateTakes();
      Queued();
      hide Certificates, Render, AddAll, Order, TBSCalls, AlgorithmIdentifier, Certificate, Types;
    } else {
      OrderStays(k - 1);
      if k - 1 < 4 { Bodies(k - 1); }
      hide Certificates, Render, RenderBody, Order;
    }
  }

  // ----- the machine --------------------------------------------------------------------

  const SIZE: nat := 111

  lemma {:induction false} SubsSize(i: nat)
    requires i <= 4
    ensures Size(RenderBodies(Certificates(), Order()[i..], DEPTH)) ==
            match i case 0 => 44 case 1 => 39 case 2 => 33 case 3 => 18 case _ => 0
    decreases 4 - i
  {
    hide Certificates, RenderBody, Order;
    if i < 4 {
      Bodies(i);
      SubsSize(i + 1);
      assert Order()[i..][1..] == Order()[i + 1..];
    }
  }

  lemma {:induction false} MainSize()
    ensures Certificates().types != [] && Size(Render(Certificates(), Certificates().types[0], None, DEPTH)) == 66
  {
    TypesAre();
    CertificateTakes();
    hide Certificates, Render, Types, Certificate;
  }

  /** The table has 111 entries: 66 of main code, COMPLETE, and 44 out of line. */
  lemma {:induction false} TableSize()
    ensures Certificates().types != [] && Size(RenderMachine(Certificates(), Order(), DEPTH)) == SIZE
  {
    MainSize();
    SubsSize(0);
    hide Certificates, Render, RenderBodies, Order, Size;
    assert Order()[0..] == Order();
    var main := Render(Certificates(), Certificates().types[0], None, DEPTH);
    ThreeParts(main, RenderBodies(Certificates(), Order(), DEPTH));
  }

  lemma {:induction false} ThreeParts(main: Code, subs: Code)
    ensures Size(Then(main, Then(Complete, subs))) == Size(main) + 1 + Size(subs)
  {
    assert Size(Then(Complete, subs)) == 1 + Size(subs);
  }

  /** Where the four pieces of out-of-line code stand. */
  function Places(): map<Element, int> {
    var o := Order();
    map[o[0] := 67, o[1] := 72, o[2] := 78, o[3] := 93]
  }

  lemma {:induction false} PlacesFrom(i: nat)
    requires i <= 4
    ensures EntriesFrom(Certificates(), Order()[i..], DEPTH, Places(),
                        match i case 0 => 67 case 1 => 72 case 2 => 78 case 3 => 93 case _ => 111)
    decreases 4 - i
  {
    OrderIds();
    hide Certificates, RenderBody, Order;
    if i < 4 {
      Bodies(i);
      PlacesFrom(i + 1);
      assert Order()[i..][1..] == Order()[i + 1..];
    }
  }

  /** The machine the compiler makes of the certificate grammar. */
  function CertificateMachine(): Machine
    requires Certificates().types != []
  {
    Machine(Certificates(), DEPTH, Order(), Places(), NR_ACTIONS,
            Emit(RenderMachine(Certificates(), Order(), DEPTH), Places(), 0))
  }

  lemma {:induction false} MachineIsValid()
    ensures Certificates().types != []
    ensures var k := CertificateMachine();
            k.Valid() && |k.m| == SIZE && IsFinal(k.g, k.fuel, k.order)
  {
    TableSize();
    MainSize();
    PlacesFrom(0);
    X509IsSupported();
    OrderStays(4);
    hide Certificates, Render, RenderBodies, RenderMachine, Order, Places, Emit, Supported, EntriesFrom, OrderAfter,
      Machine.Valid;
    assert Order()[0..] == Order();
    CompiledIsValid(Certificates(), DEPTH, NR_ACTIONS, Order(), Places(), CertificateMachine().m);
  }

  // ----- what holds of it ---------------------------------------------------------------

  /** The environment runs the machine of the certificate grammar. */
  ghost predicate RunsCertificates(env: Env) {
    Certificates().types != [] && env.machine == CertificateMachine().m && env.nrActions == NR_ACTIONS
  }

  lemma {:induction false} ForCertificates(env: Env)
    requires RunsCertificates(env)
    ensures Safety.For(CertificateMachine(), env)
  {
    MachineIsValid();
    hide Machine.Valid, Certificates, Order, Places, Emit, RenderMachine;
  }

  /** Every certificate in DER can be read as it is meant. */
  lemma {:induction false} DerCertificatesAreReadable(v: Der.Value)
    requires Der.IsDer(v)
    ensures Readable(Certificates(), DEPTH, Certificates().types[0], v)
  {
    CertificateChoices();
    hide Certificates;
    NoAnyChoiceAt(Certificates().types, 0);
    DerIsReadable(Certificates(), DEPTH, Certificates().types[0], v);
  }

  /** Every readable certificate that nests at most ten deep and fits 65535 octets is decoded: its
      encoding is accepted at its end, with exactly the calls of its parts. */
  lemma {:induction false} CertificatesAreDecoded(env: Env, v: Der.Value)
    requires RunsCertificates(env) && Willing(env)
    requires Der.Conforms(Certificates(), Certificates().types[0], v) && Der.Nesting(v) <= NR_CONS_STACK
    requires Readable(Certificates(), DEPTH, Certificates().types[0], v)
    requires env.data == Der.Encode(Certificates(), Certificates().types[0], None, v) && |env.data| <= 65535
    ensures exists t :: Reaches(env, Start(env), Halt(Accepted, t))
                        && t.dp == |env.data| && Seen(t.trace) == Der.Calls(Certificates(), Certificates().types[0], v, 0)
  {
    ForCertificates(env);
    X509IsSupported();
    X509IsRegular();
    var k := CertificateMachine();
    assert k.g == Certificates() && k.fuel == DEPTH && k.nrActions == NR_ACTIONS;
    hide Machine.Valid, Certificates, CertificateMachine, Reaches, Der.Conforms, Der.Encode, Der.Nesting, Der.Calls, Seen,
      RegularGrammar, AllOk, Renderer.AllFinite, Willing;
    Correct.CompilerIsCorrect(k, env, v);
  }

  /** On every input and whatever the actions return, the decoder of certificates stops without a
      fault of its own. */
  lemma {:induction false} CertificatesStop(env: Env) returns (n: nat)
    requires RunsCertificates(env)
    ensures After(env, Start(env), n).Halt? && !Safety.MachineFault(After(env, Start(env), n).out)
  {
    ForCertificates(env);
    MachineIsValid();
    X509IsSupported();
    X509Terminates();
    var k := CertificateMachine();
    assert k.g == Certificates() && k.fuel == DEPTH && k.nrActions == NR_ACTIONS;
    hide Machine.Valid, Certificates, CertificateMachine, After, AllRepeatsMandatory, Supported, IsFinal,
      RunsCertificates;
    CompiledTerminates(k, env);
    n :| After(env, Start(env), n).Halt?;
    Safety.EveryRun(k, env, n);
  }

  // ----- from the tokens to the machine -------------------------------------------------

  /** The compiler, fed with the tokens of listcerts/x509.asn1, emits exactly this table. */
  method CompileCertificates(tags: Syntax.Token -> nat, find: string -> nat) returns (m: seq<int>, nrActions: nat)
    requires X509Source.UniversalTags(tags) && Parser.Finds(X509Source.Names(), find)
    ensures Certificates().types != [] && m == CertificateMachine().m && nrActions == NR_ACTIONS
  {
    hide X509Source.UniversalTags, Parser.Finds, X509Source.Source, X509Source.Defs, Toolchain.Translatable,
      Toolchain.GrammarOf, Certificates, Machine.Valid, IsFinal, Order, Places, Supported, Emit, RenderMachine,
      Definitions.Meaning, Definitions.ContextOf;
    X509Source.SourceIsTranslatable(tags, find);
    SourceActions(tags, find);
    MachineIsValid();
    TableSize();
    ghost var k;
    m, nrActions, k := Toolchain.Translate(X509Source.Source(), tags, find, X509Source.Defs(), DEPTH);
    OneOrder(k.g, DEPTH, k.order, Order());
    OneTable(k, CertificateMachine());
  }

  lemma {:induction false} SourceActions(tags: Syntax.Token -> nat, find: string -> nat)
    requires X509Source.UniversalTags(tags) && Parser.Finds(X509Source.Names(), find)
    ensures var x := Definitions.ContextOf(X509Source.Source(), tags, find);
            |Definitions.Meaning(x, X509Source.Defs()).actions| == NR_ACTIONS
  {
    hide X509Source.UniversalTags, Parser.Finds, X509Source.Source, X509Source.Defs, Definitions.Meaning,
      Definitions.ContextOf, X509Source.Names, Certificates;
    var x := Parser.Context(tags, X509Source.Names(), find);
    X509Source.DefsMeanX509(x);
    X509Source.SourceIsTiled(tags, find);
  }

  /** Types of one token or two, or references. */
  predicate IsFlatCore(c: Syntax.Core) {
    c.Single? || c.Double? || c.Reference?
  }

  lemma {:induction false} FlatFields(fields: seq<Syntax.Field>)
    requires forall i :: 0 <= i < |fields| ==> IsFlatCore(fields[i].content.core)
    ensures Firm.ItemsRequiredInAll(fields)
    decreases fields
  {
    if fields != [] {
      FlatFields(fields[1..]);
      assert Firm.ItemsRequiredInField(fields[0]);
    }
  }

  /** Not marked itself, and repeats nothing marked. */
  predicate IsRequired(t: Syntax.Type) {
    t.presence == Syntax.Required && Firm.ItemsRequired(t)
  }

  lemma {:induction false} FlatSequence(fields: seq<Syntax.Field>)
    requires forall i :: 0 <= i < |fields| ==> IsFlatCore(fields[i].content.core)
    ensures IsRequired(X509Source.Bare(Syntax.SequenceWith(fields)))
  {
    FlatFields(fields);
    hide Firm.ItemsRequiredInAll;
    var t := X509Source.Bare(Syntax.SequenceWith(fields));
    assert Firm.ItemsRequiredIn(t.core);
    assert Firm.ItemsRequired(t);
  }

  lemma {:induction false} SequencesRequired()
    ensures IsRequired(X509Source.CertificateDef())
    ensures IsRequired(X509Source.TBSCertificateDef())
    ensures IsRequired(X509Source.AlgorithmIdentifierDef())
    ensures IsRequired(X509Source.AttributeValueAssertionDef())
    ensures IsRequired(X509Source.ValidityDef())
    ensures IsRequired(X509Source.SubjectPublicKeyInfoDef())
    ensures IsRequired(X509Source.ExtensionDef())
  {
    hide X509Source.Names, X509Source.Actions, X509Source.ActionName;
    X509Source.CertificateSpelled();
    X509Source.TBSCertificateSpelled();
    X509Source.AlgorithmIdentifierSpelled();
    X509Source.AttributeValueAssertionSpelled();
    X509Source.ValiditySpelled();
    X509Source.SubjectPublicKeyInfoSpelled();
    X509Source.ExtensionSpelled();
    hide X509Source.CertificateDef, X509Source.TBSCertificateDef, X509Source.AlgorithmIdentifierDef,
      X509Source.AttributeValueAssertionDef, X509Source.ValidityDef, X509Source.SubjectPublicKeyInfoDef,
      X509Source.ExtensionDef, Firm.ItemsRequired, IsRequired;
    FlatSequence(X509Source.CertificateFields());
    FlatSequence(X509Source.TBSCertificateFields());
    FlatSequence(X509Source.AlgorithmIdentifierFields());
    FlatSequence(X509Source.AttributeValueAssertionFields());
    FlatSequence(X509Source.ValidityFields());
    FlatSequence(X509Source.SubjectPublicKeyInfoFields());
    FlatSequence(X509Source.ExtensionFields());
  }

  lemma {:induction false} OthersRequired()
    ensures forall t :: t in {X509Source.VersionDef(), X509Source.CertificateSerialNumberDef(), X509Source.NameDef(),
                              X509Source.RelativeDistinguishedNameDef(), X509Source.TimeDef(),
                              X509Source.UniqueIdentifierDef(), X509Source.ExtensionsDef()} ==>
              IsRequired(t)
  {
    FlatFields(X509Source.TimeDef().core.fields);
    hide Firm.ItemsRequiredInAll;
  }

  /** Nothing repeated in the file and no definition is OPTIONAL or DEFAULT. */
  lemma {:induction false} SourceIsRequired()
    ensures Firm.AllRequired(X509Source.Defs())
  {
    SequencesRequired();
    OthersRequired();
    X509Source.DefsAre();
    hide Firm.ItemsRequired, X509Source.Defs, X509Source.CertificateDef, X509Source.TBSCertificateDef,
      X509Source.VersionDef, X509Source.CertificateSerialNumberDef, X509Source.AlgorithmIdentifierDef,
      X509Source.NameDef, X509Source.RelativeDistinguishedNameDef, X509Source.AttributeValueAssertionDef,
      X509Source.ValidityDef, X509Source.TimeDef, X509Source.SubjectPublicKeyInfoDef, X509Source.UniqueIdentifierDef,
      X509Source.ExtensionsDef, X509Source.ExtensionDef;
    assert forall k :: 0 <= k < 14 ==> IsRequired(X509Source.Defs()[k]);
  }

  /** So `Toolchain.TranslatedStops` speaks of it. */
  lemma {:induction false} TranslatedCertificatesStop(tags: Syntax.Token -> nat, find: string -> nat, env: Env)
    requires X509Source.UniversalTags(tags) && Parser.Finds(X509Source.Names(), find) && RunsCertificates(env)
    ensures exists n: nat :: After(env, Start(env), n).Halt?
  {
    X509Source.SourceIsTranslatable(tags, find);
    SourceIsRequired();
    ForCertificates(env);
    MachineIsValid();
    X509IsSupported();
    var k := CertificateMachine();
    assert k.g == Certificates() && k.fuel == DEPTH && k.nrActions == NR_ACTIONS;
    hide *;
    Toolchain.TranslatedStops(X509Source.Source(), tags, find, X509Source.Defs(), k, env);
  }
}
