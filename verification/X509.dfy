/** The grammar of listcerts/x509.asn1 as a worked instance: it is supported, regular and
    terminating, so every result about such grammars applies to it. */
module X509 {
  import opened Octets
  import opened Grammar
  import opened Code
  import opened SupportedGrammars
  import opened RegularGrammars
  import opened ReadableValues
  import opened TerminatingGrammars
  import opened Acyclic
  import Layout
  import Renderer

  const NR_ACTIONS := 13

  // Tags of X.680 section 8.4.
  const BOOLEAN := 1
  const INTEGER := 2
  const BIT_STRING := 3
  const OCTET_STRING := 4
  const OBJECT_IDENTIFIER := 6
  const SEQUENCE := 16
  const SET := 17
  const UTC_TIME := 23
  const GENERALIZED_TIME := 24

  // The actions by their places in the sorted list.
  const DO_ALGORITHM := 0
  const DO_ATTRIBUTE_TYPE := 1
  const DO_ATTRIBUTE_VALUE := 2
  const DO_EXTENSION_ID := 3
  const DO_EXTENSIONS := 4
  const DO_ISSUER := 5
  const DO_SERIALNUMBER := 6
  const DO_SIGNATURE := 7
  const DO_SUBJECT := 8
  const DO_SUBJECT_PUBLIC_KEY_INFO := 9
  const DO_VALIDITY_NOT_AFTER := 10
  const DO_VALIDITY_NOT_BEFORE := 11
  const DO_VERSION := 12

  function Prim(id: nat, number: nat, action: Option<nat>): Element {
    Element(id, 0, false, number, false, false, action, None, NotCompound)
  }

  function Ref(id: nat, target: nat, action: Option<nat>): Element {
    Element(id, 0, false, 0, false, false, action, None, TypeRef(target))
  }

  function AnyOf(id: nat, skippable: bool, action: Option<nat>): Element {
    Element(id, 0, false, 0, skippable, false, action, None, Any)
  }

  function Seq(id: nat, fields: seq<Element>): Element {
    Element(id, 0, true, SEQUENCE, false, false, None, None, Sequence(fields))
  }

  /** `[number] type`, optional. */
  function Tagged(id: nat, number: nat, inner: Element): Element {
    Element(id, 2, true, number, true, false, None, None, Sequence([inner]))
  }

  /** `[number] IMPLICIT type`, optional. */
  function Retagged(id: nat, number: nat, inner: Element): Element {
    Element(id, 2, false, number, true, false, None, None, TagOverride(inner))
  }

  function Define(e: Element, number: nat): Element {
    e.(typeDef := Some(number))
  }

  function Certificate(): Element {
    Define(Seq(0, [Ref(1, 1, None), Ref(2, 4, None), Prim(3, BIT_STRING, None)]), 0)
  }

  /** The fields of TBSCertificate from the seventh and from the first on. */
  function UniqueIds(): seq<Element> {
    [Retagged(13, 1, Ref(14, 11, None)), Retagged(15, 2, Ref(16, 11, None)),
     Tagged(17, 3, Ref(18, 12, Some(DO_EXTENSIONS)))]
  }

  function TBSFields(): seq<Element> {
    [Tagged(5, 0, Ref(6, 2, None)), Ref(7, 3, None), Ref(8, 4, Some(DO_SIGNATURE)), Ref(9, 5, Some(DO_ISSUER)),
     Ref(10, 8, None), Ref(11, 5, Some(DO_SUBJECT)), Ref(12, 10, Some(DO_SUBJECT_PUBLIC_KEY_INFO))]
    + UniqueIds()
  }

  function TBSCertificate(): Element {
    Define(Seq(4, TBSFields()), 1)
  }

  function Version(): Element {
    Define(Prim(19, INTEGER, Some(DO_VERSION)), 2)
  }

  function CertificateSerialNumber(): Element {
    Define(Prim(20, INTEGER, Some(DO_SERIALNUMBER)), 3)
  }

  function AlgorithmIdentifier(): Element {
    Define(Seq(21, [Prim(22, OBJECT_IDENTIFIER, Some(DO_ALGORITHM)), AnyOf(23, true, None)]), 4)
  }

  function Name(): Element {
    Element(24, 0, true, SEQUENCE, false, false, None, Some(5), SequenceOf(Ref(25, 6, None)))
  }

  function RelativeDistinguishedName(): Element {
    Element(26, 0, true, SET, false, false, None, Some(6), SetOf(Ref(27, 7, None)))
  }

  function AttributeValueAssertion(): Element {
    Define(Seq(28, [Prim(29, OBJECT_IDENTIFIER, Some(DO_ATTRIBUTE_TYPE)), AnyOf(30, false, Some(DO_ATTRIBUTE_VALUE))]), 7)
  }

  function Validity(): Element {
    Define(Seq(31, [Ref(32, 9, Some(DO_VALIDITY_NOT_BEFORE)), Ref(33, 9, Some(DO_VALIDITY_NOT_AFTER))]), 8)
  }

  function Time(): Element {
    var utc := Prim(35, UTC_TIME, None).(skippable := true);
    var general := Prim(36, GENERALIZED_TIME, None).(skippable := true, conditional := true);
    Element(34, 0, false, 0, false, false, None, Some(9), Choice([utc, general]))
  }

  function SubjectPublicKeyInfo(): Element {
    Define(Seq(37, [Ref(38, 4, None), Prim(39, BIT_STRING, None)]), 10)
  }

  function UniqueIdentifier(): Element {
    Define(Prim(40, BIT_STRING, None), 11)
  }

  function Extensions(): Element {
    Element(41, 0, true, SEQUENCE, false, false, None, Some(12), SequenceOf(Ref(42, 13, None)))
  }

  function Extension(): Element {
    Define(Seq(43, [Prim(44, OBJECT_IDENTIFIER, Some(DO_EXTENSION_ID)), Prim(45, BOOLEAN, None).(skippable := true),
                    Prim(46, OCTET_STRING, None)]), 13)
  }

  function Types(): seq<Element> {
    [Certificate(), TBSCertificate(), Version(), CertificateSerialNumber(), AlgorithmIdentifier(), Name(),
     RelativeDistinguishedName(), AttributeValueAssertion(), Validity(), Time(), SubjectPublicKeyInfo(),
     UniqueIdentifier(), Extensions(), Extension()]
  }

  /** The grammar with its reference counts. */
  function Certificates(): Grammar {
    Grammar(Types(), [0, 1, 1, 1, 3, 2, 1, 1, 1, 2, 1, 2, 1, 1])
  }

  /** Types refer to types of lower rank only. */
  const RANK: seq<nat> := [4, 3, 0, 0, 0, 2, 1, 0, 1, 0, 1, 0, 1, 0]

  const DEPTH: nat := 4

  lemma {:induction false} TypesAre()
    ensures var t := Types();
            && |t| == 14 && Certificates().types == t
            && t[0] == Certificate() && t[1] == TBSCertificate() && t[2] == Version()
            && t[3] == CertificateSerialNumber() && t[4] == AlgorithmIdentifier() && t[5] == Name()
            && t[6] == RelativeDistinguishedName() && t[7] == AttributeValueAssertion() && t[8] == Validity()
            && t[9] == Time() && t[10] == SubjectPublicKeyInfo() && t[11] == UniqueIdentifier()
            && t[12] == Extensions() && t[13] == Extension()
  {
    hide Certificate, TBSCertificate, Version, CertificateSerialNumber, AlgorithmIdentifier, Name,
      RelativeDistinguishedName, AttributeValueAssertion, Validity, Time, SubjectPublicKeyInfo, UniqueIdentifier,
      Extensions, Extension;
  }

  // ----- supported ----------------------------------------------------------------------

  lemma {:induction false} AllOkFrom(es: seq<Element>)
    requires forall i :: 0 <= i < |es| ==> ElementOk(es[i], NR_ACTIONS)
    ensures AllOk(es, NR_ACTIONS)
    decreases es
  {
    hide ElementOk;
    if es != [] {
      AllOkFrom(es[1..]);
    }
  }

  lemma {:induction false} SeqOk(e: Element)
    requires e.compound.Sequence? && e.cons && TagOk(e) && e.action.None?
    requires forall i :: 0 <= i < |e.compound.fields| ==> ElementOk(e.compound.fields[i], NR_ACTIONS)
    ensures ElementOk(e, NR_ACTIONS)
  {
    AllOkFrom(e.compound.fields);
    hide AllOk;
  }

  lemma {:induction false} TaggedOk(id: nat, number: nat, inner: Element)
    requires number < 31 && ElementOk(inner, NR_ACTIONS)
    ensures ElementOk(Tagged(id, number, inner), NR_ACTIONS) && ElementOk(Retagged(id, number, inner), NR_ACTIONS)
  {
    SeqOk(Tagged(id, number, inner));
  }

  lemma {:induction false} TBSFieldsOk()
    ensures forall i :: 0 <= i < |TBSFields()| ==> ElementOk(TBSFields()[i], NR_ACTIONS)
  {
    TaggedOk(5, 0, Ref(6, 2, None));
    TaggedOk(13, 1, Ref(14, 11, None));
    TaggedOk(15, 2, Ref(16, 11, None));
    TaggedOk(17, 3, Ref(18, 12, Some(DO_EXTENSIONS)));
    hide Tagged, Retagged;
  }

  lemma {:induction false} SequencesOk()
    ensures ElementOk(Certificate(), NR_ACTIONS) && ElementOk(AlgorithmIdentifier(), NR_ACTIONS)
    ensures ElementOk(AttributeValueAssertion(), NR_ACTIONS) && ElementOk(Validity(), NR_ACTIONS)
    ensures ElementOk(SubjectPublicKeyInfo(), NR_ACTIONS) && ElementOk(Extension(), NR_ACTIONS)
  {
    hide ElementOk;
    SmallSeqOk(Certificate());
    SmallSeqOk(AlgorithmIdentifier());
    SmallSeqOk(AttributeValueAssertion());
    SmallSeqOk(Validity());
    SmallSeqOk(SubjectPublicKeyInfo());
    SmallSeqOk(Extension());
  }

  predicate IsLeaf(e: Element) {
    && e.cls == 0 && !e.cons && e.number < 31 && !e.conditional
    && (e.compound.NotCompound? || e.compound.Any? || e.compound.TypeRef?)
  }

  lemma {:induction false} SmallSeqOk(e: Element)
    requires e.compound.Sequence? && e.cons && TagOk(e) && e.action.None?
    requires forall i :: 0 <= i < |e.compound.fields| ==>
               IsLeaf(e.compound.fields[i]) && Layout.ActionOk(e.compound.fields[i].action, NR_ACTIONS)
    ensures ElementOk(e, NR_ACTIONS)
  {
    SeqOk(e);
  }

  lemma {:induction false} OthersOk()
    ensures ElementOk(Version(), NR_ACTIONS) && ElementOk(CertificateSerialNumber(), NR_ACTIONS)
    ensures ElementOk(Name(), NR_ACTIONS) && ElementOk(RelativeDistinguishedName(), NR_ACTIONS)
    ensures ElementOk(UniqueIdentifier(), NR_ACTIONS) && ElementOk(Extensions(), NR_ACTIONS)
  {
  }

  lemma {:induction false} TypesOk()
    ensures forall i :: 0 <= i < |Types()| ==> ElementOk(Types()[i], NR_ACTIONS)
  {
    hide Certificate, TBSCertificate, Version, CertificateSerialNumber, AlgorithmIdentifier, Name,
      RelativeDistinguishedName, AttributeValueAssertion, Validity, Time, SubjectPublicKeyInfo, UniqueIdentifier,
      Extensions, Extension, ElementOk;
    TBSOk();
    SequencesOk();
    OthersOk();
    TimeOk();
  }

  lemma {:induction false} TBSOk()
    ensures ElementOk(TBSCertificate(), NR_ACTIONS)
  {
    TBSFieldsOk();
    hide TBSFields, ElementOk;
    SeqOk(TBSCertificate());
  }

  lemma {:induction false} TimeOk()
    ensures ElementOk(Time(), NR_ACTIONS)
  {
    AllOkFrom(Time().compound.alternatives);
    hide AllOk;
  }

  lemma {:induction false} RefsFrom(es: seq<Element>, r: nat)
    requires forall i :: 0 <= i < |es| ==> RefsBelow(es[i], RANK, r)
    ensures AllRefsBelow(es, RANK, r)
    decreases es
  {
    hide RefsBelow;
    if es != [] {
      RefsFrom(es[1..], r);
    }
  }

  lemma {:induction false} SeqRefs(e: Element, r: nat)
    requires e.compound.Sequence?
    requires forall i :: 0 <= i < |e.compound.fields| ==> RefsBelow(e.compound.fields[i], RANK, r)
    ensures RefsBelow(e, RANK, r)
  {
    RefsFrom(e.compound.fields, r);
    hide AllRefsBelow;
  }

  lemma {:induction false} TBSRefs()
    ensures RefsBelow(TBSCertificate(), RANK, 3)
  {
    SeqRefs(Tagged(5, 0, Ref(6, 2, None)), 3);
    SeqRefs(Tagged(17, 3, Ref(18, 12, Some(DO_EXTENSIONS))), 3);
    hide Tagged;
    SeqRefs(TBSCertificate(), 3);
  }

  lemma {:induction false} SmallSeqRefs(e: Element, r: nat)
    requires e.compound.Sequence?
    requires forall i :: 0 <= i < |e.compound.fields| ==>
               var c := e.compound.fields[i].compound;
               c.NotCompound? || c.Any? || (c.TypeRef? && c.target < |RANK| && RANK[c.target] < r)
    ensures RefsBelow(e, RANK, r)
  {
    SeqRefs(e, r);
  }

  lemma {:induction false} SequencesRefs()
    ensures RefsBelow(Certificate(), RANK, 4) && RefsBelow(AlgorithmIdentifier(), RANK, 0)
    ensures RefsBelow(AttributeValueAssertion(), RANK, 0) && RefsBelow(Validity(), RANK, 1)
    ensures RefsBelow(SubjectPublicKeyInfo(), RANK, 1) && RefsBelow(Extension(), RANK, 0)
  {
    hide RefsBelow;
    SmallSeqRefs(Certificate(), 4);
    SmallSeqRefs(AlgorithmIdentifier(), 0);
    SmallSeqRefs(AttributeValueAssertion(), 0);
    SmallSeqRefs(Validity(), 1);
    SmallSeqRefs(SubjectPublicKeyInfo(), 1);
    SmallSeqRefs(Extension(), 0);
  }

  lemma {:induction false} OthersRefs()
    ensures RefsBelow(Version(), RANK, 0) && RefsBelow(CertificateSerialNumber(), RANK, 0)
    ensures RefsBelow(Name(), RANK, 2) && RefsBelow(RelativeDistinguishedName(), RANK, 1)
    ensures RefsBelow(UniqueIdentifier(), RANK, 0) && RefsBelow(Extensions(), RANK, 1) && RefsBelow(Time(), RANK, 0)
  {
    RefsFrom(Time().compound.alternatives, 0);
    hide AllRefsBelow;
  }

  lemma {:induction false} TypesRefs()
    ensures forall i :: 0 <= i < |Types()| ==> RefsBelow(Types()[i], RANK, RANK[i])
  {
    hide Certificate, TBSCertificate, Version, CertificateSerialNumber, AlgorithmIdentifier, Name,
      RelativeDistinguishedName, AttributeValueAssertion, Validity, Time, SubjectPublicKeyInfo, UniqueIdentifier,
      Extensions, Extension, RefsBelow;
    TBSRefs();
    SequencesRefs();
    OthersRefs();
  }

  lemma {:induction false} TypesCount()
    ensures |Types()| == 14 == |RANK| && forall i :: 0 <= i < |RANK| ==> RANK[i] <= DEPTH
  {
  }

  /** References are not cyclic. */
  lemma {:induction false} X509IsAcyclic()
    ensures IsAcyclic(Certificates(), RANK, DEPTH)
  {
    TypesRefs();
    hide RefsBelow, Types;
    TypesCount();
  }

  lemma {:induction false} X509IsSupported()
    ensures Supported(Certificates(), DEPTH, NR_ACTIONS)
  {
    X509IsAcyclic();
    AcyclicIsFinite(Certificates(), RANK, DEPTH, DEPTH);
    TypesOk();
    hide ElementOk, IsAcyclic, Renderer.AllFinite;
    AllOkFrom(Types());
  }

  // ----- regular ------------------------------------------------------------------------

  lemma {:induction false} AllRegularFrom(es: seq<Element>)
    requires forall i :: 0 <= i < |es| ==> RegularGrammars.FieldOk(es[i]) && Regular(Certificates(), DEPTH, es[i])
    ensures AllRegular(Certificates(), DEPTH, es)
    decreases es
  {
    hide Regular, Certificates;
    if es != [] {
      AllRegularFrom(es[1..]);
    }
  }

  /** What is asked of the field at `i`. */
  ghost predicate SeparateAt(es: seq<Element>, i: nat)
    requires i < |es|
  {
    es[i].skippable ==>
      forall o: Octet ::
        Grabs(Render(Certificates(), es[i], None, DEPTH), o) ==> !MayBegin(Certificates(), DEPTH, es[i + 1..], o)
  }

  lemma {:induction false} SeparateFrom(es: seq<Element>, n: nat)
    requires n <= |es| && forall i :: n <= i < |es| ==> SeparateAt(es, i)
    ensures Separate(Certificates(), DEPTH, es[n..])
    decreases |es| - n
  {
    hide Certificates, Render, Grabs, MayBegin;
    if n < |es| {
      assert SeparateAt(es, n);
      SeparateFrom(es, n + 1);
      assert es[n..][1..] == es[n + 1..];
    }
  }

  lemma {:induction false} SeqRegular(e: Element)
    requires e.compound.Sequence?
    requires var es := e.compound.fields;
             forall i :: 0 <= i < |es| ==>
               RegularGrammars.FieldOk(es[i]) && Regular(Certificates(), DEPTH, es[i]) && SeparateAt(es, i)
    ensures Regular(Certificates(), DEPTH, e)
  {
    var es := e.compound.fields;
    AllRegularFrom(es);
    SeparateFrom(es, 0);
    hide Certificates, AllRegular, Separate, SeparateAt;
    assert es[0..] == es;
  }

  /** A sequence of references and leaves of which only the last may be optional. */
  lemma {:induction false} PlainSeqRegular(e: Element)
    requires e.compound.Sequence?
    requires var es := e.compound.fields;
             forall i :: 0 <= i < |es| ==>
               && IsLeaf(es[i]) && (es[i].compound.TypeRef? ==> !es[i].skippable)
               && (es[i].skippable ==> i == |es| - 1)
    ensures Regular(Certificates(), DEPTH, e)
  {
    var es := e.compound.fields;
    hide Certificates, Regular, SeparateAt;
    forall i | 0 <= i < |es|
      ensures RegularGrammars.FieldOk(es[i]) && Regular(Certificates(), DEPTH, es[i]) && SeparateAt(es, i)
    {
      LeafRegular(es, i);
    }
    SeqRegular(e);
  }

  lemma {:induction false} LeafRegular(es: seq<Element>, i: nat)
    requires i < |es| && IsLeaf(es[i]) && (es[i].compound.TypeRef? ==> !es[i].skippable)
    requires es[i].skippable ==> i == |es| - 1
    ensures RegularGrammars.FieldOk(es[i]) && Regular(Certificates(), DEPTH, es[i]) && SeparateAt(es, i)
  {
    hide Certificates, Render, Grabs;
    if es[i].skippable {
      assert es[i + 1..] == [];
    }
  }

  lemma {:induction false} PlainSequencesRegular()
    ensures Regular(Certificates(), DEPTH, Certificate()) && Regular(Certificates(), DEPTH, AlgorithmIdentifier())
    ensures Regular(Certificates(), DEPTH, AttributeValueAssertion()) && Regular(Certificates(), DEPTH, Validity())
    ensures Regular(Certificates(), DEPTH, SubjectPublicKeyInfo())
  {
    hide Certificates, Regular;
    PlainSeqRegular(Certificate());
    PlainSeqRegular(AlgorithmIdentifier());
    PlainSeqRegular(AttributeValueAssertion());
    PlainSeqRegular(Validity());
    PlainSeqRegular(SubjectPublicKeyInfo());
  }

  /** BOOLEAN DEFAULT in front of OCTET STRING. */
  lemma {:induction false} ExtensionRegular()
    ensures Regular(Certificates(), DEPTH, Extension())
  {
    hide Certificates;
    var es := Extension().compound.fields;
    assert es[2..][0] == es[2];
    assert Render(Certificates(), es[1], None, DEPTH) == MatchPrim(BOOLEAN, false, true, None);
    assert Render(Certificates(), es[2], None, DEPTH) == MatchPrim(OCTET_STRING, false, false, None);
    assert SeparateAt(es, 0) && SeparateAt(es, 1) && SeparateAt(es, 2);
    hide Extension;
    SeqRegular(Extension());
  }

  // The code of the optional fields of TBSCertificate, and of the one behind `version`.

  lemma {:induction false} TaggedCode(id: nat, number: nat, inner: Element)
    ensures var e := Tagged(id, number, inner);
            Render(Certificates(), e, None, DEPTH) == Call(2 * 64 + 32 + number, false, true, e)
  {
    hide Certificates;
  }

  lemma {:induction false} RetaggedCode(id: nat, number: nat, from: nat)
    ensures var e := Retagged(id, number, Ref(from, 11, None));
            Render(Certificates(), e, None, DEPTH) == Then(MatchPrim(2 * 64 + number, false, true, None), Nil)
  {
    TypesAre();
    hide Certificates, Types;
    var r := Ref(from, 11, None);
    var e := Retagged(id, number, r);
    var code := MatchPrim(2 * 64 + number, false, true, None);
    assert Render(Certificates(), UniqueIdentifier(), Some(e), DEPTH - 1) == code;
    assert Render(Certificates(), r, Some(e), DEPTH) == Then(code, Nil);
  }

  lemma {:induction false} SerialCode()
    ensures Render(Certificates(), Ref(7, 3, None), None, DEPTH)
            == Then(MatchPrim(INTEGER, false, false, Some(DO_SERIALNUMBER)), Nil)
  {
    TypesAre();
    hide Certificates, Types;
    assert Render(Certificates(), CertificateSerialNumber(), None, DEPTH - 1)
        == MatchPrim(INTEGER, false, false, Some(DO_SERIALNUMBER));
  }

  lemma {:induction false} TagsApart(o: Octet)
    ensures TagMatches(0xa0, o) ==> o != INTEGER
    ensures TagMatches(0x81, o) ==> !TagMatches(0x82, o) && !TagMatches(0xa3, o)
    ensures TagMatches(0x82, o) ==> !TagMatches(0xa3, o)
    ensures TagMatches(INTEGER, o) <==> o == INTEGER
  {
  }

  lemma {:induction false} VersionApart(es: seq<Element>)
    requires |es| > 1 && es[0] == Tagged(5, 0, Ref(6, 2, None)) && es[1] == Ref(7, 3, None)
    ensures SeparateAt(es, 0)
  {
    TaggedCode(5, 0, Ref(6, 2, None));
    SerialCode();
    assert !es[1].skippable;
    hide Certificates, Render, TagMatches, Tagged, Ref;
    forall o: Octet | Grabs(Render(Certificates(), es[0], None, DEPTH), o)
      ensures !MayBegin(Certificates(), DEPTH, es[1..], o)
    {
      TagsApart(o);
      assert !Grabs(Render(Certificates(), es[1], None, DEPTH), o);
      assert es[1..][0] == es[1];
    }
  }

  lemma {:induction false} UniqueIdsApart(es: seq<Element>, n: nat)
    requires |es| == n + 3 && es[n..] == UniqueIds()
    ensures SeparateAt(es, n) && SeparateAt(es, n + 1) && SeparateAt(es, n + 2)
  {
    RetaggedCode(13, 1, 14);
    RetaggedCode(15, 2, 16);
    TaggedCode(17, 3, Ref(18, 12, Some(DO_EXTENSIONS)));
    hide Certificates, Render, TagMatches, Tagged, Retagged, Ref;
    var u, g := UniqueIds(), Certificates();
    assert es[n] == u[0] && es[n + 1] == u[1] && es[n + 2] == u[2];
    assert es[n + 1..] == [u[1], u[2]] && es[n + 2..] == [u[2]] && es[n + 3..] == [];
    forall o: Octet
      ensures !MayBegin(g, DEPTH, [], o)
      ensures MayBegin(g, DEPTH, [u[2]], o) ==> Grabs(Render(g, u[2], None, DEPTH), o)
      ensures MayBegin(g, DEPTH, [u[1], u[2]], o) ==>
                Grabs(Render(g, u[1], None, DEPTH), o) || Grabs(Render(g, u[2], None, DEPTH), o)
      ensures Grabs(Render(g, u[0], None, DEPTH), o) <==> TagMatches(0x81, o)
      ensures Grabs(Render(g, u[1], None, DEPTH), o) <==> TagMatches(0x82, o)
      ensures Grabs(Render(g, u[2], None, DEPTH), o) <==> TagMatches(0xa3, o)
    {
      assert [u[1], u[2]][1..] == [u[2]] && [u[2]][1..] == [];
    }
    forall o: Octet { TagsApart(o); }
  }

  lemma {:induction false} FieldsRegular(es: seq<Element>)
    requires es == TBSFields()
    ensures forall i :: 0 <= i < |es| ==> RegularGrammars.FieldOk(es[i]) && Regular(Certificates(), DEPTH, es[i])
  {
    TaggedRegular(5, 0, Ref(6, 2, None));
    TaggedRegular(17, 3, Ref(18, 12, Some(DO_EXTENSIONS)));
    RetaggedRegular(13, 1, 14);
    RetaggedRegular(15, 2, 16);
    hide Certificates;
  }

  lemma {:induction false} TaggedRegular(id: nat, number: nat, inner: Element)
    requires inner.compound.TypeRef? && !inner.skippable && !inner.conditional
    ensures Regular(Certificates(), DEPTH, Tagged(id, number, inner))
  {
    hide Certificates;
    var es := [inner];
    assert SeparateAt(es, 0);
    SeqRegular(Tagged(id, number, inner));
  }

  lemma {:induction false} RetaggedRegular(id: nat, number: nat, from: nat)
    ensures Regular(Certificates(), DEPTH, Retagged(id, number, Ref(from, 11, None)))
  {
    TypesAre();
    hide Certificates, Types;
    var r := Ref(from, 11, None);
    assert Overridable(Certificates(), UniqueIdentifier(), DEPTH - 1);
    assert Quiet(Certificates(), UniqueIdentifier(), DEPTH - 1);
    assert Overridable(Certificates(), r, DEPTH) && Quiet(Certificates(), r, DEPTH);
  }

  lemma {:induction false} TBSRegular()
    ensures Regular(Certificates(), DEPTH, TBSCertificate())
  {
    var es := TBSFields();
    assert es[7..] == UniqueIds();
    FieldsRegular(es);
    VersionApart(es);
    UniqueIdsApart(es, 7);
    assert |es| == 10 && forall i :: 1 <= i < 7 ==> !es[i].skippable;
    hide TBSFields, Certificates, Regular, RegularGrammars.FieldOk, SeparateAt;
    forall i | 1 <= i < 7
      ensures SeparateAt(es, i)
    {
      MandatoryApart(es, i);
    }
    SeqRegular(TBSCertificate());
  }

  lemma {:induction false} MandatoryApart(es: seq<Element>, i: nat)
    requires i < |es| && !es[i].skippable
    ensures SeparateAt(es, i)
  {
  }

  lemma {:induction false} OthersRegular()
    ensures Regular(Certificates(), DEPTH, Version()) && Regular(Certificates(), DEPTH, CertificateSerialNumber())
    ensures Regular(Certificates(), DEPTH, Name()) && Regular(Certificates(), DEPTH, RelativeDistinguishedName())
    ensures Regular(Certificates(), DEPTH, UniqueIdentifier()) && Regular(Certificates(), DEPTH, Extensions())
  {
    hide Certificates;
  }

  lemma {:induction false} LastAlternative(g: Grammar, fuel: nat, e: Element)
    requires IsAlternative(e) && Regular(g, fuel, e) && e.skippable && e.conditional
    ensures Alternatives(g, fuel, [e], false)
  {
    assert [e][1..] == [];
    hide Regular;
  }

  lemma {:induction false} TimeRegular()
    ensures Regular(Certificates(), DEPTH, Time())
  {
    hide Certificates;
    var es := Time().compound.alternatives;
    assert |es| == 2 && IsAlternative(es[0]) && IsAlternative(es[1]);
    assert es[0].skippable && !es[0].conditional && es[1].skippable && es[1].conditional;
    assert Regular(Certificates(), DEPTH, es[0]) && Regular(Certificates(), DEPTH, es[1]);
    LastAlternative(Certificates(), DEPTH, es[1]);
    assert es[1..] == [es[1]];
    assert Alternatives(Certificates(), DEPTH, es, true);
    assert Render(Certificates(), es[0], None, DEPTH) == MatchPrim(UTC_TIME, false, true, es[0].action);
    assert Render(Certificates(), es[1], None, DEPTH) == MatchPrim(GENERALIZED_TIME, true, true, es[1].action);
    assert Apart(Certificates(), DEPTH, es);
  }

  lemma {:induction false} TypesUnflagged()
    ensures forall i :: 0 <= i < |Types()| ==> Unflagged(Types()[i])
  {
  }

  lemma {:induction false} X509IsRegular()
    ensures RegularGrammar(Certificates(), DEPTH)
  {
    TypesUnflagged();
    PlainSequencesRegular();
    ExtensionRegular();
    TBSRegular();
    OthersRegular();
    TimeRegular();
    TypesAre();
    hide Certificate, TBSCertificate, Version, CertificateSerialNumber, AlgorithmIdentifier, Name,
      RelativeDistinguishedName, AttributeValueAssertion, Validity, Time, SubjectPublicKeyInfo, UniqueIdentifier,
      Extensions, Extension, Regular, Certificates, Unflagged;
  }

  // ----- terminating --------------------------------------------------------------------

  lemma {:induction false} RepeatsFrom(es: seq<Element>)
    requires forall i :: 0 <= i < |es| ==> RepeatsOk(Certificates(), es[i], DEPTH)
    ensures AllRepeatsOk(Certificates(), es, DEPTH)
    decreases es
  {
    hide RepeatsOk, Certificates;
    if es != [] {
      RepeatsFrom(es[1..]);
    }
  }

  /** A sequence that nests no repetition deeper than the references in it. */
  lemma {:induction false} SeqRepeats(e: Element)
    requires e.compound.Sequence?
    requires forall i :: 0 <= i < |e.compound.fields| ==> FlatField(e.compound.fields[i])
    ensures RepeatsOk(Certificates(), e, DEPTH)
  {
    hide Certificates;
    forall i | 0 <= i < |e.compound.fields|
      ensures RepeatsOk(Certificates(), e.compound.fields[i], DEPTH)
    {
      FlatRepeats(e.compound.fields[i]);
    }
    RepeatsFrom(e.compound.fields);
    hide AllRepeatsOk;
  }

  predicate IsFlat(c: Compound) {
    c.NotCompound? || c.Any? || c.TypeRef?
  }

  predicate FlatField(e: Element) {
    match e.compound
    case TagOverride(inner) => IsFlat(inner.compound)
    case Sequence(es) => |es| == 1 && IsFlat(es[0].compound)
    case c => IsFlat(c)
  }

  lemma {:induction false} FlatRepeats(e: Element)
    requires FlatField(e)
    ensures RepeatsOk(Certificates(), e, DEPTH)
  {
    hide Certificates;
    if e.compound.Sequence? {
      RepeatsFrom(e.compound.fields);
      hide AllRepeatsOk;
    }
  }

  lemma {:induction false} SequencesRepeat()
    ensures RepeatsOk(Certificates(), Certificate(), DEPTH) && RepeatsOk(Certificates(), TBSCertificate(), DEPTH)
    ensures RepeatsOk(Certificates(), AlgorithmIdentifier(), DEPTH)
    ensures RepeatsOk(Certificates(), AttributeValueAssertion(), DEPTH)
    ensures RepeatsOk(Certificates(), Validity(), DEPTH) && RepeatsOk(Certificates(), SubjectPublicKeyInfo(), DEPTH)
    ensures RepeatsOk(Certificates(), Extension(), DEPTH)
  {
    hide Certificates, RepeatsOk;
    SeqRepeats(Certificate());
    SeqRepeats(TBSCertificate());
    SeqRepeats(AlgorithmIdentifier());
    SeqRepeats(AttributeValueAssertion());
    SeqRepeats(Validity());
    SeqRepeats(SubjectPublicKeyInfo());
    SeqRepeats(Extension());
  }

  lemma {:induction false} OthersRepeat()
    ensures RepeatsOk(Certificates(), Version(), DEPTH) && RepeatsOk(Certificates(), CertificateSerialNumber(), DEPTH)
    ensures RepeatsOk(Certificates(), Name(), DEPTH) && RepeatsOk(Certificates(), RelativeDistinguishedName(), DEPTH)
    ensures RepeatsOk(Certificates(), UniqueIdentifier(), DEPTH) && RepeatsOk(Certificates(), Extensions(), DEPTH)
    ensures RepeatsOk(Certificates(), Time(), DEPTH)
  {
    TypesAre();
    hide Certificates, Types;
    assert Mandatory(Certificates(), RelativeDistinguishedName(), DEPTH - 1);
    assert Mandatory(Certificates(), AttributeValueAssertion(), DEPTH - 1);
    assert Mandatory(Certificates(), Extension(), DEPTH - 1);
    TimeRepeats();
  }

  lemma {:induction false} TimeRepeats()
    ensures RepeatsOk(Certificates(), Time(), DEPTH)
  {
    hide Certificates;
    RepeatsFrom(Time().compound.alternatives);
    hide AllRepeatsOk;
  }

  lemma {:induction false} X509Terminates()
    ensures AllRepeatsMandatory(Certificates(), DEPTH)
  {
    SequencesRepeat();
    OthersRepeat();
    TypesAre();
    hide Certificate, TBSCertificate, Version, CertificateSerialNumber, AlgorithmIdentifier, Name,
      RelativeDistinguishedName, AttributeValueAssertion, Validity, Time, SubjectPublicKeyInfo, UniqueIdentifier,
      Extensions, Extension, Certificates, RepeatsOk, AllRepeatsMandatory;
    RepeatsFrom(Types());
    RepeatsOkDecides(Certificates(), DEPTH);
  }

  // ----- no CHOICE of ANY ---------------------------------------------------------------

  lemma {:induction false} ChoicesFrom(es: seq<Element>)
    requires forall i :: 0 <= i < |es| ==> NoAnyChoice(es[i])
    ensures AllNoAnyChoice(es)
    decreases es
  {
    hide NoAnyChoice;
    if es != [] {
      ChoicesFrom(es[1..]);
    }
  }

  lemma {:induction false} SeqChoices(e: Element)
    requires e.compound.Sequence?
    requires forall i :: 0 <= i < |e.compound.fields| ==> FlatField(e.compound.fields[i])
    ensures NoAnyChoice(e)
  {
    forall i | 0 <= i < |e.compound.fields|
      ensures NoAnyChoice(e.compound.fields[i])
    {
      FlatChoices(e.compound.fields[i]);
    }
    ChoicesFrom(e.compound.fields);
  }

  lemma {:induction false} FlatChoices(e: Element)
    requires FlatField(e)
    ensures NoAnyChoice(e)
  {
    if e.compound.Sequence? {
      ChoicesFrom(e.compound.fields);
      hide AllNoAnyChoice;
    }
  }

  lemma {:induction false} TimeChoices()
    ensures NoAnyChoice(Time())
  {
    ChoicesFrom(Time().compound.alternatives);
    hide AllNoAnyChoice;
  }

  lemma {:induction false} SequenceChoices()
    ensures NoAnyChoice(Certificate()) && NoAnyChoice(TBSCertificate()) && NoAnyChoice(AlgorithmIdentifier())
    ensures NoAnyChoice(AttributeValueAssertion()) && NoAnyChoice(Validity())
    ensures NoAnyChoice(SubjectPublicKeyInfo()) && NoAnyChoice(Extension())
  {
    hide NoAnyChoice, Certificates;
    SeqChoices(Certificate());
    SeqChoices(TBSCertificate());
    SeqChoices(AlgorithmIdentifier());
    SeqChoices(AttributeValueAssertion());
    SeqChoices(Validity());
    SeqChoices(SubjectPublicKeyInfo());
    SeqChoices(Extension());
  }

  lemma {:induction false} OtherChoices()
    ensures NoAnyChoice(Version()) && NoAnyChoice(CertificateSerialNumber()) && NoAnyChoice(Name())
    ensures NoAnyChoice(RelativeDistinguishedName()) && NoAnyChoice(UniqueIdentifier()) && NoAnyChoice(Extensions())
  {
    hide Certificates;
  }

  lemma {:induction false} CertificateChoices()
    ensures AllNoAnyChoice(Certificates().types) && Certificates().types != []
  {
    SequenceChoices();
    OtherChoices();
    TimeChoices();
    TypesAre();
    hide Certificate, TBSCertificate, Version, CertificateSerialNumber, AlgorithmIdentifier, Name,
      RelativeDistinguishedName, AttributeValueAssertion, Validity, Time, SubjectPublicKeyInfo, UniqueIdentifier,
      Extensions, Extension, Certificates, NoAnyChoice, AllNoAnyChoice;
    ChoicesFrom(Types());
  }

  /** The hypotheses of the main theorems hold of the grammar of certificates. */
  lemma {:induction false} X509MeetsAll()
    ensures IsAcyclic(Certificates(), RANK, DEPTH) && Supported(Certificates(), DEPTH, NR_ACTIONS)
    ensures RegularGrammar(Certificates(), DEPTH) && AllRepeatsMandatory(Certificates(), DEPTH)
  {
    hide Certificates, IsAcyclic, Supported, RegularGrammar, AllRepeatsMandatory;
    X509IsAcyclic();
    X509IsSupported();
    X509IsRegular();
    X509Terminates();
  }
}
