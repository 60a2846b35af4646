/** The notation of listcerts/x509.asn1, and that the front end turns it into the grammar of
    module X509: action numbers, type numbers and reference counts are computed. */
module X509Source {
  import opened Grammar
  import opened Syntax
  import opened Parser
  import opened Definitions
  import opened FrontEnd
  import opened X509
  import Renderer
  import SupportedGrammars
  import Toolchain

  // ----- the source ---------------------------------------------------------------------

  function Names(): (names: seq<string>)
    ensures |names| == 14
  {
    ["Certificate", "TBSCertificate", "Version", "CertificateSerialNumber", "AlgorithmIdentifier", "Name",
     "RelativeDistinguishedName", "AttributeValueAssertion", "Validity", "Time", "SubjectPublicKeyInfo",
     "UniqueIdentifier", "Extensions", "Extension"]
  }

  /** The action names in the order of `strcmp`. */
  function Actions(): (actions: seq<string>)
    ensures |actions| == NR_ACTIONS
  {
    ["do_algorithm", "do_attribute_type", "do_attribute_value", "do_extension_id", "do_extensions", "do_issuer",
     "do_serialnumber", "do_signature", "do_subject", "do_subject_public_key_info", "do_validity_not_after",
     "do_validity_not_before", "do_version"]
  }

  function Bare(core: Core): Type {
    Type(None, NoMarker, core, Required, None)
  }

  function Acting(core: Core, action: string): Type {
    Type(None, NoMarker, core, Required, Some(action))
  }

  function Named(name: string, content: Type): Field {
    Field(Some(name), content)
  }

  function InContext(number: nat): Option<Label> {
    Some(Label(ContextSpecific, number))
  }

  function CertificateDef(): Type {
    Bare(SequenceWith([
      Named("tbsCertificate", Bare(Reference("TBSCertificate"))),
      Named("signatureAlgorithm", Bare(Reference("AlgorithmIdentifier"))),
      Named("signature", Bare(Double(BitWord)))]))
  }

  function TBSCertificateDef(): Type {
    Bare(SequenceWith([
      Named("version", Type(InContext(0), NoMarker, Reference("Version"), Default, None)),
      Named("serialNumber", Bare(Reference("CertificateSerialNumber"))),
      Named("signature", Acting(Reference("AlgorithmIdentifier"), "do_signature")),
      Named("issuer", Acting(Reference("Name"), "do_issuer")),
      Named("validity", Bare(Reference("Validity"))),
      Named("subject", Acting(Reference("Name"), "do_subject")),
      Named("subjectPublicKeyInfo", Acting(Reference("SubjectPublicKeyInfo"), "do_subject_public_key_info")),
      Named("issuerUniqueID", Type(InContext(1), Implicit, Reference("UniqueIdentifier"), Optional, None)),
      Named("subjectUniqueID", Type(InContext(2), Implicit, Reference("UniqueIdentifier"), Optional, None)),
      Named("extensions", Type(InContext(3), NoMarker, Reference("Extensions"), Optional, Some("do_extensions")))]))
  }

  function VersionDef(): Type {
    Acting(Single(Word(INTEGER)), "do_version")
  }

  function CertificateSerialNumberDef(): Type {
    Acting(Single(Word(INTEGER)), "do_serialnumber")
  }

  function AlgorithmIdentifierDef(): Type {
    Bare(SequenceWith([
      Named("algorithm", Acting(Double(ObjectWord), "do_algorithm")),
      Named("parameters", Type(None, NoMarker, Single(AnyWord), Optional, None))]))
  }

  function NameDef(): Type {
    Bare(Core.SequenceOf(Bare(Reference("RelativeDistinguishedName"))))
  }

  function RelativeDistinguishedNameDef(): Type {
    Bare(Core.SetOf(Bare(Reference("AttributeValueAssertion"))))
  }

  function AttributeValueAssertionDef(): Type {
    Bare(SequenceWith([
      Named("attributeType", Acting(Double(ObjectWord), "do_attribute_type")),
      Named("attributeValue", Acting(Single(AnyWord), "do_attribute_value"))]))
  }

  function ValidityDef(): Type {
    Bare(SequenceWith([
      Named("notBefore", Acting(Reference("Time"), "do_validity_not_before")),
      Named("notAfter", Acting(Reference("Time"), "do_validity_not_after"))]))
  }

  function TimeDef(): Type {
    Bare(ChoiceOf([
      Named("utcTime", Bare(Single(Word(UTC_TIME)))),
      Named("generalTime", Bare(Single(Word(GENERALIZED_TIME))))]))
  }

  function SubjectPublicKeyInfoDef(): Type {
    Bare(SequenceWith([
      Named("algorithm", Bare(Reference("AlgorithmIdentifier"))),
      Named("subjectPublicKey", Bare(Double(BitWord)))]))
  }

  function UniqueIdentifierDef(): Type {
    Bare(Double(BitWord))
  }

  function ExtensionsDef(): Type {
    Bare(Core.SequenceOf(Bare(Reference("Extension"))))
  }

  function ExtensionDef(): Type {
    Bare(SequenceWith([
      Named("extId", Acting(Double(ObjectWord), "do_extension_id")),
      Named("critical", Type(None, NoMarker, Single(Word(BOOLEAN)), Default, None)),
      Named("extValue", Bare(Double(OctetWord)))]))
  }

  function Defs(): (defs: seq<Type>)
    ensures |defs| == 14
  {
    [CertificateDef(), TBSCertificateDef(), VersionDef(), CertificateSerialNumberDef(), AlgorithmIdentifierDef(),
     NameDef(), RelativeDistinguishedNameDef(), AttributeValueAssertionDef(), ValidityDef(), TimeDef(),
     SubjectPublicKeyInfoDef(), UniqueIdentifierDef(), ExtensionsDef(), ExtensionDef()]
  }

  /** The tokens of the file. */
  function Source(): seq<Token> {
    PrintDefs(Names(), Defs())
  }

  /** What `token_to_tag` holds for the tokens of the file; types are coded by their tag. */
  ghost predicate UniversalTags(tags: Token -> nat) {
    && tags(Word(BOOLEAN)) == BOOLEAN && tags(Word(INTEGER)) == INTEGER
    && tags(Word(UTC_TIME)) == UTC_TIME && tags(Word(GENERALIZED_TIME)) == GENERALIZED_TIME
    && tags(BitWord) == BIT_STRING && tags(OctetWord) == OCTET_STRING && tags(ObjectWord) == OBJECT_IDENTIFIER
    && tags(SequenceWord) == SEQUENCE && tags(SetWord) == SET
    && tags(ChoiceWord) == 0 && tags(AnyWord) == 0 && tags(ImplicitWord) == 0
    && forall n :: tags(TypeName(n)) == 0
  }

  // ----- names and actions --------------------------------------------------------------

  lemma {:induction false} IndexOfDistinct(names: seq<string>, i: nat)
    requires i < |names| && forall j :: 0 <= j < i ==> names[j] != names[i]
    ensures IndexOf(names, names[i]) == i
  {
    if i > 0 {
      IndexOfDistinct(names[1..], i - 1);
    }
  }

  /** Lengths and first letters tell the names apart. */
  const LENGTHS: seq<nat> := [11, 14, 7, 23, 19, 4, 25, 23, 8, 4, 20, 16, 10, 9]

  lemma {:induction false} NameLengths()
    ensures forall i :: 0 <= i < 14 ==> |Names()[i]| == LENGTHS[i]
    ensures Names()[3][0] == 'C' && Names()[7][0] == 'A' && Names()[5][0] == 'N' && Names()[9][0] == 'T'
  {
  }

  lemma {:induction false} NamesDistinct(i: nat, j: nat)
    requires i < j < 14
    ensures Names()[i] != Names()[j]
  {
    NameLengths();
    hide Names;
  }

  lemma {:induction false} TypeNumber(x: Context, i: nat)
    requires x.types == Names() && Finds(x.types, x.find) && i < 14
    ensures x.find(Names()[i]) == i && Names()[i] in Defined(Names())
  {
    var n := Names()[i];
    var j := x.find(n);
    assert n in Names();
    if j < i {
      NamesDistinct(j, i);
    } else if i < j {
      NamesDistinct(i, j);
    }
    hide Names;
  }

  /** `a` and `b` agree before `n`, where `a` ends or has the lesser character. */
  lemma {:induction false} Differs(a: string, b: string, n: nat)
    requires n <= |a| && n < |b| && (forall k :: 0 <= k < n ==> a[k] == b[k]) && (n == |a| || a[n] < b[n])
    ensures StrCmp(a, b) < 0
  {
    if n > 0 {
      Differs(a[1..], b[1..], n - 1);
    }
  }

  lemma {:induction false} FirstAscend()
    ensures forall i :: 0 <= i < 4 ==> StrCmp(Actions()[i], Actions()[i + 1]) < 0
  {
    hide StrCmp;
    Differs(Actions()[0], Actions()[1], 4);
    Differs(Actions()[1], Actions()[2], 13);
    Differs(Actions()[2], Actions()[3], 3);
    Differs(Actions()[3], Actions()[4], 12);
  }

  lemma {:induction false} NextAscend()
    ensures forall i :: 4 <= i < 8 ==> StrCmp(Actions()[i], Actions()[i + 1]) < 0
  {
    hide StrCmp;
    Differs(Actions()[4], Actions()[5], 3);
    Differs(Actions()[5], Actions()[6], 3);
    Differs(Actions()[6], Actions()[7], 4);
    Differs(Actions()[7], Actions()[8], 4);
  }

  lemma {:induction false} LastAscend()
    ensures forall i :: 8 <= i < 12 ==> StrCmp(Actions()[i], Actions()[i + 1]) < 0
  {
    hide StrCmp;
    Differs(Actions()[8], Actions()[9], 10);
    Differs(Actions()[9], Actions()[10], 3);
    Differs(Actions()[10], Actions()[11], 16);
    Differs(Actions()[11], Actions()[12], 4);
  }

  lemma {:induction false} ActionsAscend()
    ensures forall i :: 0 <= i < NR_ACTIONS - 1 ==> StrCmp(Actions()[i], Actions()[i + 1]) < 0
  {
    hide StrCmp, Actions;
    FirstAscend();
    NextAscend();
    LastAscend();
  }

  lemma {:induction false} NeighboursAscend(names: seq<string>, i: nat, j: nat)
    requires i < j < |names| && forall k :: 0 <= k < |names| - 1 ==> StrCmp(names[k], names[k + 1]) < 0
    ensures StrCmp(names[i], names[j]) < 0
    decreases j - i
  {
    hide StrCmp;
    if i + 1 < j {
      NeighboursAscend(names, i + 1, j);
      assert StrCmp(names[i], names[i + 1]) < 0;
      StrCmpTrans(names[i], names[i + 1], names[j]);
    }
  }

  lemma {:induction false} ActionsAreAscending()
    ensures Ascending(Actions())
  {
    ActionsAscend();
    hide Actions, StrCmp;
    forall i, j | 0 <= i < j < NR_ACTIONS
      ensures StrCmp(Actions()[i], Actions()[j]) < 0
    {
      NeighboursAscend(Actions(), i, j);
    }
  }

  lemma {:induction false} ActionNumber(i: nat)
    requires i < NR_ACTIONS
    ensures ActionIndex(Actions(), Actions()[i]) == i
  {
    ActionsAreAscending();
    hide Actions, StrCmp;
    forall j | 0 <= j < i
      ensures Actions()[j] != Actions()[i]
    {
      StrCmpEqual(Actions()[j], Actions()[i]);
    }
    IndexOfDistinct(Actions(), i);
  }

  // ----- one type -----------------------------------------------------------------------

  ghost predicate Setting(x: Context) {
    x.types == Names() && UniversalTags(x.tags) && Finds(x.types, x.find)
  }

  function ActionName(action: Option<nat>): Option<string>
    requires action.Some? ==> action.value < NR_ACTIONS
  {
    if action.Some? then Some(Actions()[action.value]) else None
  }

  /** The only action met in `t` is number `action`, if any. */
  ghost predicate Calls(t: Type, action: Option<nat>) {
    && (action.Some? ==> action.value < NR_ACTIONS && ActionsOf(t) == [Actions()[action.value]])
    && (action.None? ==> ActionsOf(t) == [])
  }

  /** `t` is a plain type that becomes element `e`, with addresses from `id` to `next`. */
  ghost predicate Becomes(x: Context, t: Type, name: Option<string>, def: Option<nat>, id: nat, e: Element,
                          next: nat)
  {
    && WellFormed(t, Defined(Names())) && Plain(x, t)
    && Lower(Build(x, t, name), id, def, Actions()) == (e, next)
  }

  lemma {:induction false} LowerFlat(t: Tree, id: nat, def: Option<nat>, action: Option<nat>)
    requires t.body.Leaf? || t.body.Whatever? || t.body.RefTo?
    requires (action.Some? ==> action.value < NR_ACTIONS) && t.action == ActionName(action)
    ensures Lower(t, id, def, Actions()) ==
            (Element(id, t.cls, t.cons, t.tag, t.skippable, t.conditional, action, def,
                     match t.body case Leaf => NotCompound case Whatever => Any case _ => TypeRef(t.body.target)), id + 1)
  {
    if action.Some? { ActionNumber(action.value); }
    hide Actions, ActionIndex;
  }

  function RefType(target: nat, action: Option<nat>): Type
    requires target < 14 && (action.Some? ==> action.value < NR_ACTIONS)
  {
    Type(None, NoMarker, Reference(Names()[target]), Required, ActionName(action))
  }

  function RefTree(target: nat, action: Option<nat>, name: Option<string>): Tree
    requires action.Some? ==> action.value < NR_ACTIONS
  {
    Tree(0, false, 0, false, false, false, false, ActionName(action), name, RefTo(target))
  }

  lemma {:induction false} ReferenceCore(x: Context, target: nat, action: Option<nat>, name: Option<string>)
    requires Setting(x) && target < 14 && (action.Some? ==> action.value < NR_ACTIONS)
    ensures BuildCore(x, Reference(Names()[target]), name).(action := ActionName(action)) == RefTree(target, action, name)
    ensures Names()[target] in Defined(Names())
  {
    TypeNumber(x, target);
    hide Names, Actions, Defined, ActionName, Finds;
  }

  lemma {:induction false} ReferenceBuilt(x: Context, target: nat, action: Option<nat>, name: Option<string>)
    requires Setting(x) && target < 14 && (action.Some? ==> action.value < NR_ACTIONS)
    ensures var t := RefType(target, action);
            && Build(x, t, name) == RefTree(target, action, name)
            && WellFormed(t, Defined(Names())) && Plain(x, t) && Calls(t, action)
  {
    ReferenceCore(x, target, action, name);
    TagsAreLow(x, NoMarker, target);
    ReferenceFine(x, Names()[target]);
    var t := RefType(target, action);
    NoTagTree(x, t, name, RefTree(target, action, name));
    assert ActionsIn(t.core) == [];
    assert t.core == Reference(Names()[target]);
    hide Names, Actions, Setting, Build, PlainCore, CoreOk, CanFollowCore, PrintSuffix;
  }

  lemma {:induction false} NoTagTree(x: Context, t: Type, name: Option<string>, inner: Tree)
    requires t.tagging.None? && t.marker.NoMarker? && t.presence.Required?
    requires BuildCore(x, t.core, name).(action := t.action) == inner
    requires inner.tag == x.tags(CoreToken(t.core)) && !inner.implicit && !inner.explicit && !inner.skippable
    ensures Build(x, t, name) == inner
  {
    hide BuildCore, CoreToken;
  }

  lemma {:induction false} ReferenceBecomes(x: Context, target: nat, action: Option<nat>, name: Option<string>, id: nat)
    requires Setting(x) && target < 14 && (action.Some? ==> action.value < NR_ACTIONS)
    ensures Becomes(x, RefType(target, action), name, None, id, Ref(id, target, action), id + 1)
    ensures Calls(RefType(target, action), action)
  {
    ReferenceBuilt(x, target, action, name);
    LowerFlat(RefTree(target, action, name), id, None, action);
    hide Names, Actions, Defined, Build, Lower, WellFormed, Plain, Calls, RefType;
  }

  predicate IsLeafCore(core: Core) {
    core in {Single(Word(BOOLEAN)), Single(Word(INTEGER)), Double(BitWord), Double(OctetWord), Double(ObjectWord),
             Single(AnyWord)}
  }

  function LeafType(core: Core, presence: Presence, action: Option<nat>): Type
    requires action.Some? ==> action.value < NR_ACTIONS
  {
    Type(None, NoMarker, core, presence, ActionName(action))
  }

  function TagOf(core: Core): nat
    requires IsLeafCore(core)
  {
    match core
    case Single(AnyWord) => 0
    case Single(t) => t.code
    case Double(t) => if t.BitWord? then BIT_STRING else if t.OctetWord? then OCTET_STRING else OBJECT_IDENTIFIER
  }

  function LeafElement(core: Core, presence: Presence, action: Option<nat>, def: Option<nat>, id: nat): Element
    requires IsLeafCore(core)
  {
    Element(id, 0, false, TagOf(core), presence != Required, false, action, def,
            if core == Single(AnyWord) then Any else NotCompound)
  }

  lemma {:induction false} LeafBuilt(x: Context, core: Core, presence: Presence, action: Option<nat>,
                                     name: Option<string>)
    requires Setting(x) && (action.Some? ==> action.value < NR_ACTIONS) && IsLeafCore(core)
    ensures var t := LeafType(core, presence, action);
            && Build(x, t, name) == Tree(0, false, x.tags(CoreToken(core)), false, false, presence != Required, false,
                                         ActionName(action), name, if core == Single(AnyWord) then Whatever else Leaf)
            && Plain(x, t) && Calls(t, action)
  {
    hide Names, Actions, Defined;
  }

  lemma {:induction false} LeafWellFormed(core: Core, presence: Presence, action: Option<nat>)
    requires (action.Some? ==> action.value < NR_ACTIONS) && IsLeafCore(core)
    ensures WellFormed(LeafType(core, presence, action), Defined(Names()))
  {
    hide Names, Actions, Defined, PrintSuffix, ActionName;
  }

  lemma {:induction false} LeafBecomes(x: Context, core: Core, presence: Presence, action: Option<nat>,
                                       name: Option<string>, def: Option<nat>, id: nat)
    requires Setting(x) && (action.Some? ==> action.value < NR_ACTIONS) && IsLeafCore(core)
    ensures Becomes(x, LeafType(core, presence, action), name, def, id,
                    LeafElement(core, presence, action, def, id), id + 1)
    ensures Calls(LeafType(core, presence, action), action)
  {
    LeafBuilt(x, core, presence, action, name);
    LeafWellFormed(core, presence, action);
    hide Names, Actions, Defined, Lower, WellFormed, Plain, Calls, LeafType;
    LowerFlat(Build(x, LeafType(core, presence, action), name), id, def, action);
    hide Build;
  }

  /** `[number] type` or `[number] IMPLICIT type`, OPTIONAL or DEFAULT. */
  function TaggedType(number: nat, marker: Marker, target: nat, presence: Presence, action: Option<nat>): Type
    requires target < 14 && (action.Some? ==> action.value < NR_ACTIONS)
  {
    Type(InContext(number), marker, Reference(Names()[target]), presence, ActionName(action))
  }

  lemma {:induction false} TaggedBuilt(x: Context, number: nat, marker: Marker, target: nat, presence: Presence,
                                       action: Option<nat>, name: Option<string>)
    requires Setting(x) && number < 31 && target < 14 && (action.Some? ==> action.value < NR_ACTIONS)
    requires presence != Required && marker != Explicit
    ensures var t, inner := TaggedType(number, marker, target, presence, action), RefTree(target, action, name);
            Build(x, t, name) == Tree(2, marker != Implicit, number, marker == Implicit, false, true, false, None, name,
                                      if marker == Implicit then Override(inner) else AllOf([inner]))
  {
    ReferenceCore(x, target, action, name);
    hide Names, Actions, ActionName;
    TaggedTree(x, TaggedType(number, marker, target, presence, action), name, RefTree(target, action, name));
  }

  lemma {:induction false} TaggedTree(x: Context, t: Type, name: Option<string>, inner: Tree)
    requires t.tagging.Some? && t.tagging.value.cls == ContextSpecific && t.tagging.value.number < 31
    requires t.presence != Required && t.marker != Explicit
    requires BuildCore(x, t.core, name).(action := t.action) == inner
    ensures Build(x, t, name) ==
            Tree(2, t.marker != Implicit, t.tagging.value.number, t.marker == Implicit, false, true, false, None, name,
                 if t.marker == Implicit then Override(inner) else AllOf([inner]))
  {
    hide BuildCore;
  }

  lemma {:induction false} NothingAround(t: Type)
    requires t.presence == Required && t.action.None?
    ensures PrintSuffix(t) == []
  {
  }

  lemma {:induction false} TaggedIsPlain(x: Context, number: nat, marker: Marker, target: nat, presence: Presence,
                                         action: Option<nat>)
    requires Setting(x) && number < 31 && target < 14 && (action.Some? ==> action.value < NR_ACTIONS)
    requires marker != Explicit
    ensures var t := TaggedType(number, marker, target, presence, action);
            WellFormed(t, Defined(Names())) && Plain(x, t)
  {
    var t := TaggedType(number, marker, target, presence, action);
    TypeNumber(x, target);
    TagsAreLow(x, marker, target);
    ReferenceFine(x, Names()[target]);
    assert t.core == Reference(Names()[target]) && t.marker == marker && t.tagging.value.number == number;
    hide Names, Setting, TaggedType, MarkerToken, CoreToken;
    PlainByParts(x, t);
    FineByParts(t);
  }

  lemma {:induction false} PlainByParts(x: Context, t: Type)
    requires t.tagging.Some? && t.tagging.value.number < 31 && PlainCore(x, t.core)
    requires x.tags(MarkerToken(t.marker, t.core)) < 31 && x.tags(CoreToken(t.core)) < 31
    ensures Plain(x, t)
  {
    hide MarkerToken, CoreToken, PlainCore;
  }

  lemma {:induction false} FineByParts(t: Type)
    requires CoreOk(t.core, Defined(Names())) && forall next :: CanFollowCore(t.core, next)
    ensures WellFormed(t, Defined(Names()))
  {
    hide CoreOk, CanFollowCore, PrintSuffix, Names, Defined;
  }

  lemma {:induction false} TagsAreLow(x: Context, marker: Marker, target: nat)
    requires Setting(x) && marker != Explicit && target < 14
    ensures var core := Reference(Names()[target]); x.tags(MarkerToken(marker, core)) < 31 && x.tags(CoreToken(core)) < 31
  {
    hide Names;
  }

  lemma {:induction false} ReferenceFine(x: Context, name: string)
    requires name in Defined(Names())
    ensures PlainCore(x, Reference(name)) && CoreOk(Reference(name), Defined(Names()))
    ensures forall next :: CanFollowCore(Reference(name), next)
  {
    hide Names, Defined;
  }

  lemma {:induction false} TaggedCalls(number: nat, marker: Marker, target: nat, presence: Presence, action: Option<nat>)
    requires target < 14 && (action.Some? ==> action.value < NR_ACTIONS)
    ensures Calls(TaggedType(number, marker, target, presence, action), action)
  {
    hide Names, Actions;
    var t := TaggedType(number, marker, target, presence, action);
    assert ActionsIn(t.core) == [];
  }

  lemma {:induction false} TaggedBecomes(x: Context, number: nat, marker: Marker, target: nat, presence: Presence,
                                         action: Option<nat>, name: Option<string>, id: nat)
    requires Setting(x) && number < 31 && target < 14 && (action.Some? ==> action.value < NR_ACTIONS)
    requires presence != Required && marker != Explicit
    ensures var t, inner := TaggedType(number, marker, target, presence, action), Ref(id + 1, target, action);
            var e := if marker == Implicit then Retagged(id, number, inner) else Tagged(id, number, inner);
            Becomes(x, t, name, None, id, e, id + 2) && Calls(t, action)
  {
    TaggedBuilt(x, number, marker, target, presence, action, name);
    TaggedIsPlain(x, number, marker, target, presence, action);
    TaggedCalls(number, marker, target, presence, action);
    var t, inner, e := TaggedType(number, marker, target, presence, action), RefTree(target, action, name),
      Ref(id + 1, target, action);
    LowerFlat(inner, id + 1, None, action);
    hide Names, Actions, Defined, WellFormed, Plain, Calls, TaggedType, RefTree, Lower;
    WrapLowered(Build(x, t, name), id, inner, e);
    hide Build;
  }

  /** An element around a single other one. */
  lemma {:induction false} WrapLowered(t: Tree, id: nat, inner: Tree, e: Element)
    requires t.action.None? && (t.body == Override(inner) || t.body == AllOf([inner]))
    requires Lower(inner, id + 1, None, Actions()) == (e, id + 2)
    ensures Lower(t, id, None, Actions()) ==
            (Element(id, t.cls, t.cons, t.tag, t.skippable, t.conditional, None, None,
                     if t.body.Override? then TagOverride(e) else Compound.Sequence([e])), id + 2)
  {
    OneLowered(inner, id + 1, e);
    hide Actions;
    if t.body.Override? {
      assert LowerBody(t.body, id + 1, Actions()) == (TagOverride(e), id + 2);
    } else {
      assert LowerBody(t.body, id + 1, Actions()) == (Compound.Sequence([e]), id + 2);
    }
  }

  lemma {:induction false} OneLowered(t: Tree, id: nat, e: Element)
    requires Lower(t, id, None, Actions()) == (e, id + 1)
    ensures LowerAll([t], id, Actions()) == ([e], id + 1)
  {
    hide Lower, Actions;
    assert [t][1..] == [];
    assert LowerAll([], id + 1, Actions()) == ([], id + 1);
    assert [e] + [] == [e];
  }

  // ----- the fields of a SEQUENCE -------------------------------------------------------

  /** Field `k` becomes `es[k]`, with addresses from `ids[k]`. */
  ghost predicate FieldsBecome(x: Context, fs: seq<Field>, ids: seq<nat>, es: seq<Element>) {
    && |es| == |fs| > 0 && |ids| == |fs| + 1
    && forall k :: 0 <= k < |fs| ==> Becomes(x, fs[k].content, fs[k].name, None, ids[k], es[k], ids[k + 1])
  }

  lemma {:induction false} LowerCons(t: Tree, ts: seq<Tree>, id: nat, e: Element, mid: nat, es: seq<Element>, next: nat)
    requires Lower(t, id, None, Actions()) == (e, mid) && LowerAll(ts, mid, Actions()) == (es, next)
    ensures LowerAll([t] + ts, id, Actions()) == ([e] + es, next)
  {
    hide Lower, Actions;
    assert ([t] + ts)[1..] == ts;
  }

  lemma {:induction false} FieldsFrom(x: Context, fs: seq<Field>, ids: seq<nat>, es: seq<Element>, n: nat)
    requires FieldsBecome(x, fs, ids, es) && n <= |fs|
    ensures LowerAll(BuildAll(x, fs[n..], false), ids[n], Actions()) == (es[n..], ids[|fs|])
    decreases |fs| - n
  {
    hide Build, Names, Actions, Defined, Lower, Plain, WellFormed;
    if n < |fs| {
      FieldsFrom(x, fs, ids, es, n + 1);
      assert Becomes(x, fs[n].content, fs[n].name, None, ids[n], es[n], ids[n + 1]);
      var t, ts := Build(x, fs[n].content, fs[n].name), BuildAll(x, fs[n + 1..], false);
      LowerCons(t, ts, ids[n], es[n], ids[n + 1], es[n + 1..], ids[|fs|]);
      assert fs[n..][1..] == fs[n + 1..];
      assert BuildAll(x, fs[n..], false) == [BuildField(x, fs[n], false)] + ts;
      assert [es[n]] + es[n + 1..] == es[n..];
    } else {
      assert fs[n..] == [] && es[n..] == [];
    }
  }

  lemma {:induction false} FieldsFine(x: Context, fs: seq<Field>, n: nat)
    requires n <= |fs|
    requires forall k :: 0 <= k < |fs| ==> WellFormed(fs[k].content, Defined(Names())) && Plain(x, fs[k].content)
    ensures AllPlain(x, fs[n..]) && (n < |fs| ==> FieldsOk(fs[n..], Defined(Names())))
    decreases |fs| - n
  {
    hide Names, Defined, Plain, WellFormed;
    if n < |fs| {
      FieldsFine(x, fs, n + 1);
      assert fs[n..][1..] == fs[n + 1..];
      assert PlainField(x, fs[n]) && FieldOk(fs[n], Defined(Names()));
    }
  }

  lemma {:induction false} BuiltUnconditional(x: Context, t: Type, name: Option<string>)
    ensures !Build(x, t, name).conditional
  {
    var core := BuildCore(x, t.core, name);
    assert !core.conditional;
  }

  lemma {:induction false} FirstIsUnconditional(x: Context, fs: seq<Field>)
    ensures BuildFields(x, fs, false) == BuildAll(x, fs, false)
  {
    if fs != [] {
      var ts := BuildAll(x, fs, false);
      assert ts[0] == BuildField(x, fs[0], false) == Build(x, fs[0].content, fs[0].name);
      BuiltUnconditional(x, fs[0].content, fs[0].name);
      hide BuildAll, Build;
      assert [ts[0]] + ts[1..] == ts;
    }
  }

  lemma {:induction false} SequenceBecomes(x: Context, fs: seq<Field>, ids: seq<nat>, es: seq<Element>, id: nat, def: nat)
    requires Setting(x) && FieldsBecome(x, fs, ids, es) && ids[0] == id + 1
    ensures Becomes(x, Bare(SequenceWith(fs)), None, Some(def), id, Define(Seq(id, es), def), ids[|fs|])
  {
    SequenceLowered(x, fs, ids, es, id, def);
    hide Build, Lower, Names, Actions, Defined, AllPlain, FieldsOk;
    forall k | 0 <= k < |fs|
      ensures WellFormed(fs[k].content, Defined(Names())) && Plain(x, fs[k].content)
    {
      assert Becomes(x, fs[k].content, fs[k].name, None, ids[k], es[k], ids[k + 1]);
    }
    FieldsFine(x, fs, 0);
    assert fs[0..] == fs;
    hide FieldsBecome, Plain, WellFormed;
    SequenceIsPlain(x, fs);
  }

  lemma {:induction false} SequenceIsPlain(x: Context, fs: seq<Field>)
    requires Setting(x) && AllPlain(x, fs) && FieldsOk(fs, Defined(Names()))
    ensures var t := Bare(SequenceWith(fs)); WellFormed(t, Defined(Names())) && Plain(x, t)
  {
    NothingAround(Bare(SequenceWith(fs)));
    hide Names, Defined, AllPlain, FieldsOk, PrintSuffix;
    assert CoreOk(SequenceWith(fs), Defined(Names())) && PlainCore(x, SequenceWith(fs));
  }

  lemma {:induction false} SequenceLowered(x: Context, fs: seq<Field>, ids: seq<nat>, es: seq<Element>, id: nat, def: nat)
    requires Setting(x) && FieldsBecome(x, fs, ids, es) && ids[0] == id + 1
    ensures Lower(Build(x, Bare(SequenceWith(fs)), None), id, Some(def), Actions())
            == (Define(Seq(id, es), def), ids[|fs|])
  {
    FieldsFrom(x, fs, ids, es, 0);
    FirstIsUnconditional(x, fs);
    hide BuildAll, Names, Actions, LowerAll, FieldsBecome, BuildFields;
    assert fs[0..] == fs && es[0..] == es;
    var t := Tree(0, true, SEQUENCE, false, false, false, false, None, None, AllOf(BuildFields(x, fs, false)));
    assert Build(x, Bare(SequenceWith(fs)), None) == t;
    hide Build;
    assert LowerBody(t.body, id + 1, Actions()) == (Compound.Sequence(es), ids[|fs|]);
  }

  /** The actions of a SEQUENCE are those of its fields. */
  lemma {:induction false} SequenceCalls(fs: seq<Field>, actions: seq<Option<nat>>, n: nat)
    requires |actions| == |fs| && n <= |fs| && forall k :: 0 <= k < |fs| ==> Calls(fs[k].content, actions[k])
    ensures forall a :: a in ActionsInAll(fs[n..]) <==>
              exists k :: n <= k < |fs| && actions[k].Some? && actions[k].value < NR_ACTIONS
                          && Actions()[actions[k].value] == a
    decreases |fs| - n
  {
    hide Actions, ActionsOf;
    if n < |fs| {
      assert Calls(fs[n].content, actions[n]);
      SequenceCalls(fs, actions, n + 1);
      assert fs[n..][1..] == fs[n + 1..];
    }
  }

  // ----- the definitions one by one -----------------------------------------------------

  lemma {:induction false} NamesAre()
    ensures var n := Names();
            && n[0] == "Certificate" && n[1] == "TBSCertificate" && n[2] == "Version" && n[3] == "CertificateSerialNumber"
            && n[4] == "AlgorithmIdentifier" && n[5] == "Name" && n[6] == "RelativeDistinguishedName"
            && n[7] == "AttributeValueAssertion" && n[8] == "Validity" && n[9] == "Time"
            && n[10] == "SubjectPublicKeyInfo" && n[11] == "UniqueIdentifier" && n[12] == "Extensions"
            && n[13] == "Extension"
  {
  }

  lemma {:induction false} ActionsAre()
    ensures var a := Actions();
            && a[0] == "do_algorithm" && a[1] == "do_attribute_type" && a[2] == "do_attribute_value"
            && a[3] == "do_extension_id" && a[4] == "do_extensions" && a[5] == "do_issuer" && a[6] == "do_serialnumber"
            && a[7] == "do_signature" && a[8] == "do_subject" && a[9] == "do_subject_public_key_info"
            && a[10] == "do_validity_not_after" && a[11] == "do_validity_not_before" && a[12] == "do_version"
  {
  }

  /** The actions of `t` are those numbered. */
  ghost predicate Acts(t: Type, actions: seq<Option<nat>>) {
    forall a :: a in ActionsOf(t) <==>
      exists k :: 0 <= k < |actions| && actions[k].Some? && actions[k].value < NR_ACTIONS
                  && Actions()[actions[k].value] == a
  }

  lemma {:induction false} SequenceActs(fs: seq<Field>, actions: seq<Option<nat>>)
    requires |actions| == |fs| && forall k :: 0 <= k < |fs| ==> Calls(fs[k].content, actions[k])
    ensures Acts(Bare(SequenceWith(fs)), actions)
  {
    SequenceCalls(fs, actions, 0);
    assert fs[0..] == fs;
    hide Calls, Actions, ActionsInAll;
    assert ActionsOf(Bare(SequenceWith(fs))) == ActionsInAll(fs) + [];
  }

  lemma {:induction false} OneActs(t: Type, action: Option<nat>)
    requires Calls(t, action)
    ensures Acts(t, [action])
  {
    hide Actions, ActionsOf;
    assert [action][0] == action;
  }

  // The fields of each SEQUENCE with type and action names by number, and what it becomes.

  function CertificateFields(): seq<Field> {
    [Named("tbsCertificate", RefType(1, None)),
     Named("signatureAlgorithm", RefType(4, None)),
     Named("signature", LeafType(Double(BitWord), Required, None))]
  }

  lemma {:induction false} CertificateSpelled()
    ensures CertificateDef() == Bare(SequenceWith(CertificateFields()))
  {
    NamesAre();
    ActionsAre();
    hide Names, Actions;
  }

  lemma {:induction false} CertificateBecomes(x: Context)
    requires Setting(x)
    ensures Becomes(x, CertificateDef(), None, Some(0), 0, Certificate(), 4)
    ensures Acts(CertificateDef(), [None, None, None])
  {
    CertificateSpelled();
    hide CertificateDef, Becomes, Setting, Actions, Names, RefType, LeafType, TaggedType, Calls;
    ReferenceBecomes(x, 1, None, Some("tbsCertificate"), 1);
    ReferenceBecomes(x, 4, None, Some("signatureAlgorithm"), 2);
    LeafBecomes(x, Double(BitWord), Required, None, Some("signature"), None, 3);
    var fs, ids := CertificateFields(), [1, 2, 3, 4];
    var es := Certificate().compound.fields;
    assert FieldsBecome(x, fs, ids, es);
    SequenceActs(fs, [None, None, None]);
    hide FieldsBecome, Acts;
    SequenceBecomes(x, fs, ids, es, 0, 0);
  }

  function TBSCertificateFields(): seq<Field> {
    [Named("version", TaggedType(0, NoMarker, 2, Default, None)),
     Named("serialNumber", RefType(3, None)),
     Named("signature", RefType(4, Some(7))),
     Named("issuer", RefType(5, Some(5))),
     Named("validity", RefType(8, None)),
     Named("subject", RefType(5, Some(8))),
     Named("subjectPublicKeyInfo", RefType(10, Some(9))),
     Named("issuerUniqueID", TaggedType(1, Implicit, 11, Optional, None)),
     Named("subjectUniqueID", TaggedType(2, Implicit, 11, Optional, None)),
     Named("extensions", TaggedType(3, NoMarker, 12, Optional, Some(4)))]
  }

  lemma {:induction false} TBSCertificateSpelled()
    ensures TBSCertificateDef() == Bare(SequenceWith(TBSCertificateFields()))
  {
    NamesAre();
    ActionsAre();
    hide Names, Actions;
  }

  lemma {:induction false} TBSCertificateBecomes(x: Context)
    requires Setting(x)
    ensures Becomes(x, TBSCertificateDef(), None, Some(1), 4, TBSCertificate(), 19)
    ensures Acts(TBSCertificateDef(), [None, None, Some(7), Some(5), None, Some(8), Some(9), None, None, Some(4)])
  {
    TBSCertificateSpelled();
    hide TBSCertificateDef, Becomes, Setting, Actions, Names, RefType, LeafType, TaggedType, Calls;
    TaggedBecomes(x, 0, NoMarker, 2, Default, None, Some("version"), 5);
    ReferenceBecomes(x, 3, None, Some("serialNumber"), 7);
    ReferenceBecomes(x, 4, Some(7), Some("signature"), 8);
    ReferenceBecomes(x, 5, Some(5), Some("issuer"), 9);
    ReferenceBecomes(x, 8, None, Some("validity"), 10);
    ReferenceBecomes(x, 5, Some(8), Some("subject"), 11);
    ReferenceBecomes(x, 10, Some(9), Some("subjectPublicKeyInfo"), 12);
    TaggedBecomes(x, 1, Implicit, 11, Optional, None, Some("issuerUniqueID"), 13);
    TaggedBecomes(x, 2, Implicit, 11, Optional, None, Some("subjectUniqueID"), 15);
    TaggedBecomes(x, 3, NoMarker, 12, Optional, Some(4), Some("extensions"), 17);
    var fs, ids := TBSCertificateFields(), [5, 7, 8, 9, 10, 11, 12, 13, 15, 17, 19];
    var es := [Tagged(5, 0, Ref(6, 2, None)),
      Ref(7, 3, None),
      Ref(8, 4, Some(7)),
      Ref(9, 5, Some(5)),
      Ref(10, 8, None),
      Ref(11, 5, Some(8)),
      Ref(12, 10, Some(9)),
      Retagged(13, 1, Ref(14, 11, None)),
      Retagged(15, 2, Ref(16, 11, None)),
      Tagged(17, 3, Ref(18, 12, Some(4)))];
    assert es == TBSFields();
    assert FieldsBecome(x, fs, ids, es);
    SequenceActs(fs, [None, None, Some(7), Some(5), None, Some(8), Some(9), None, None, Some(4)]);
    hide FieldsBecome, Acts;
    SequenceBecomes(x, fs, ids, es, 4, 1);
  }

  function AlgorithmIdentifierFields(): seq<Field> {
    [Named("algorithm", LeafType(Double(ObjectWord), Required, Some(0))),
     Named("parameters", LeafType(Single(AnyWord), Optional, None))]
  }

  lemma {:induction false} AlgorithmIdentifierSpelled()
    ensures AlgorithmIdentifierDef() == Bare(SequenceWith(AlgorithmIdentifierFields()))
  {
    NamesAre();
    ActionsAre();
    hide Names, Actions;
  }

  lemma {:induction false} AlgorithmIdentifierBecomes(x: Context)
    requires Setting(x)
    ensures Becomes(x, AlgorithmIdentifierDef(), None, Some(4), 21, AlgorithmIdentifier(), 24)
    ensures Acts(AlgorithmIdentifierDef(), [Some(0), None])
  {
    AlgorithmIdentifierSpelled();
    hide AlgorithmIdentifierDef, Becomes, Setting, Actions, Names, RefType, LeafType, TaggedType, Calls;
    LeafBecomes(x, Double(ObjectWord), Required, Some(0), Some("algorithm"), None, 22);
    LeafBecomes(x, Single(AnyWord), Optional, None, Some("parameters"), None, 23);
    var fs, ids := AlgorithmIdentifierFields(), [22, 23, 24];
    var es := AlgorithmIdentifier().compound.fields;
    assert FieldsBecome(x, fs, ids, es);
    SequenceActs(fs, [Some(0), None]);
    hide FieldsBecome, Acts;
    SequenceBecomes(x, fs, ids, es, 21, 4);
  }

  function AttributeValueAssertionFields(): seq<Field> {
    [Named("attributeType", LeafType(Double(ObjectWord), Required, Some(1))),
     Named("attributeValue", LeafType(Single(AnyWord), Required, Some(2)))]
  }

  lemma {:induction false} AttributeValueAssertionSpelled()
    ensures AttributeValueAssertionDef() == Bare(SequenceWith(AttributeValueAssertionFields()))
  {
    NamesAre();
    ActionsAre();
    hide Names, Actions;
  }

  lemma {:induction false} AttributeValueAssertionBecomes(x: Context)
    requires Setting(x)
    ensures Becomes(x, AttributeValueAssertionDef(), None, Some(7), 28, AttributeValueAssertion(), 31)
    ensures Acts(AttributeValueAssertionDef(), [Some(1), Some(2)])
  {
    AttributeValueAssertionSpelled();
    hide AttributeValueAssertionDef, Becomes, Setting, Actions, Names, RefType, LeafType, TaggedType, Calls;
    LeafBecomes(x, Double(ObjectWord), Required, Some(1), Some("attributeType"), None, 29);
    LeafBecomes(x, Single(AnyWord), Required, Some(2), Some("attributeValue"), None, 30);
    var fs, ids := AttributeValueAssertionFields(), [29, 30, 31];
    var es := AttributeValueAssertion().compound.fields;
    assert FieldsBecome(x, fs, ids, es);
    SequenceActs(fs, [Some(1), Some(2)]);
    hide FieldsBecome, Acts;
    SequenceBecomes(x, fs, ids, es, 28, 7);
  }

  function ValidityFields(): seq<Field> {
    [Named("notBefore", RefType(9, Some(11))),
     Named("notAfter", RefType(9, Some(10)))]
  }

  lemma {:induction false} ValiditySpelled()
    ensures ValidityDef() == Bare(SequenceWith(ValidityFields()))
  {
    NamesAre();
    ActionsAre();
    hide Names, Actions;
  }

  lemma {:induction false} ValidityBecomes(x: Context)
    requires Setting(x)
    ensures Becomes(x, ValidityDef(), None, Some(8), 31, Validity(), 34)
    ensures Acts(ValidityDef(), [Some(11), Some(10)])
  {
    ValiditySpelled();
    hide ValidityDef, Becomes, Setting, Actions, Names, RefType, LeafType, TaggedType, Calls;
    ReferenceBecomes(x, 9, Some(11), Some("notBefore"), 32);
    ReferenceBecomes(x, 9, Some(10), Some("notAfter"), 33);
    var fs, ids := ValidityFields(), [32, 33, 34];
    var es := Validity().compound.fields;
    assert FieldsBecome(x, fs, ids, es);
    SequenceActs(fs, [Some(11), Some(10)]);
    hide FieldsBecome, Acts;
    SequenceBecomes(x, fs, ids, es, 31, 8);
  }

  function SubjectPublicKeyInfoFields(): seq<Field> {
    [Named("algorithm", RefType(4, None)),
     Named("subjectPublicKey", LeafType(Double(BitWord), Required, None))]
  }

  lemma {:induction false} SubjectPublicKeyInfoSpelled()
    ensures SubjectPublicKeyInfoDef() == Bare(SequenceWith(SubjectPublicKeyInfoFields()))
  {
    NamesAre();
    ActionsAre();
    hide Names, Actions;
  }

  lemma {:induction false} SubjectPublicKeyInfoBecomes(x: Context)
    requires Setting(x)
    ensures Becomes(x, SubjectPublicKeyInfoDef(), None, Some(10), 37, SubjectPublicKeyInfo(), 40)
    ensures Acts(SubjectPublicKeyInfoDef(), [None, None])
  {
    SubjectPublicKeyInfoSpelled();
    hide SubjectPublicKeyInfoDef, Becomes, Setting, Actions, Names, RefType, LeafType, TaggedType, Calls;
    ReferenceBecomes(x, 4, None, Some("algorithm"), 38);
    LeafBecomes(x, Double(BitWord), Required, None, Some("subjectPublicKey"), None, 39);
    var fs, ids := SubjectPublicKeyInfoFields(), [38, 39, 40];
    var es := SubjectPublicKeyInfo().compound.fields;
    assert FieldsBecome(x, fs, ids, es);
    SequenceActs(fs, [None, None]);
    hide FieldsBecome, Acts;
    SequenceBecomes(x, fs, ids, es, 37, 10);
  }

  function ExtensionFields(): seq<Field> {
    [Named("extId", LeafType(Double(ObjectWord), Required, Some(3))),
     Named("critical", LeafType(Single(Word(BOOLEAN)), Default, None)),
     Named("extValue", LeafType(Double(OctetWord), Required, None))]
  }

  lemma {:induction false} ExtensionSpelled()
    ensures ExtensionDef() == Bare(SequenceWith(ExtensionFields()))
  {
    NamesAre();
    ActionsAre();
    hide Names, Actions;
  }

  lemma {:induction false} ExtensionBecomes(x: Context)
    requires Setting(x)
    ensures Becomes(x, ExtensionDef(), None, Some(13), 43, Extension(), 47)
    ensures Acts(ExtensionDef(), [Some(3), None, None])
  {
    ExtensionSpelled();
    hide ExtensionDef, Becomes, Setting, Actions, Names, RefType, LeafType, TaggedType, Calls;
    LeafBecomes(x, Double(ObjectWord), Required, Some(3), Some("extId"), None, 44);
    LeafBecomes(x, Single(Word(BOOLEAN)), Default, None, Some("critical"), None, 45);
    LeafBecomes(x, Double(OctetWord), Required, None, Some("extValue"), None, 46);
    var fs, ids := ExtensionFields(), [44, 45, 46, 47];
    var es := Extension().compound.fields;
    assert FieldsBecome(x, fs, ids, es);
    SequenceActs(fs, [Some(3), None, None]);
    hide FieldsBecome, Acts;
    SequenceBecomes(x, fs, ids, es, 43, 13);
  }

  // ----- the other definitions ----------------------------------------------------------

  lemma {:induction false} LeafDefsBecome(x: Context)
    requires Setting(x)
    ensures Becomes(x, VersionDef(), None, Some(2), 19, Version(), 20) && Acts(VersionDef(), [Some(12)])
    ensures Becomes(x, CertificateSerialNumberDef(), None, Some(3), 20, CertificateSerialNumber(), 21)
    ensures Acts(CertificateSerialNumberDef(), [Some(6)])
    ensures Becomes(x, UniqueIdentifierDef(), None, Some(11), 40, UniqueIdentifier(), 41)
    ensures Acts(UniqueIdentifierDef(), [None])
  {
    ActionsAre();
    hide Becomes, Setting, Actions, Calls, Acts;
    LeafBecomes(x, Single(Word(INTEGER)), Required, Some(12), None, Some(2), 19);
    OneActs(VersionDef(), Some(12));
    LeafBecomes(x, Single(Word(INTEGER)), Required, Some(6), None, Some(3), 20);
    OneActs(CertificateSerialNumberDef(), Some(6));
    LeafBecomes(x, Double(BitWord), Required, None, None, Some(11), 40);
    OneActs(UniqueIdentifierDef(), None);
  }

  /** SEQUENCE OF or SET OF a type referred to. */
  function RepeatedType(ofSet: bool, target: nat): Type
    requires target < 14
  {
    Bare(if ofSet then Core.SetOf(RefType(target, None)) else Core.SequenceOf(RefType(target, None)))
  }

  function RepeatedElement(ofSet: bool, target: nat, id: nat, def: nat): Element {
    var item := Ref(id + 1, target, None);
    Element(id, 0, true, if ofSet then SET else SEQUENCE, false, false, None, Some(def),
            if ofSet then Compound.SetOf(item) else Compound.SequenceOf(item))
  }

  lemma {:induction false} RepeatedIsPlain(x: Context, ofSet: bool, target: nat)
    requires Setting(x) && target < 14
    requires WellFormed(RefType(target, None), Defined(Names())) && Plain(x, RefType(target, None))
    ensures WellFormed(RepeatedType(ofSet, target), Defined(Names())) && Plain(x, RepeatedType(ofSet, target))
  {
    NothingAround(RepeatedType(ofSet, target));
    hide Names, Defined, PrintSuffix, RefType;
    var t := RepeatedType(ofSet, target);
    assert CoreOk(t.core, Defined(Names())) && PlainCore(x, t.core);
  }

  lemma {:induction false} RepeatedBecomes(x: Context, ofSet: bool, target: nat, id: nat, def: nat)
    requires Setting(x) && target < 14
    ensures Becomes(x, RepeatedType(ofSet, target), None, Some(def), id, RepeatedElement(ofSet, target, id, def), id + 2)
    ensures Calls(RepeatedType(ofSet, target), None)
  {
    ReferenceBecomes(x, target, None, None, id + 1);
    RepeatedIsPlain(x, ofSet, target);
    RepeatedCalls(ofSet, target);
    hide Names, Actions, Defined, WellFormed, Plain, RefType, Calls;
    var item := RefType(target, None);
    var inner := Build(x, item, None);
    var t := Tree(0, true, if ofSet then SET else SEQUENCE, false, false, false, false, None, None,
                  if ofSet then SetFrom(inner) else ManyOf(inner));
    assert Build(x, RepeatedType(ofSet, target), None) == t;
    hide Build, RepeatedType;
    RepeatedLowered(t, inner, ofSet, target, id, def);
  }

  lemma {:induction false} RepeatedLowered(t: Tree, inner: Tree, ofSet: bool, target: nat, id: nat, def: nat)
    requires t == Tree(0, true, if ofSet then SET else SEQUENCE, false, false, false, false, None, None,
                       if ofSet then SetFrom(inner) else ManyOf(inner))
    requires Lower(inner, id + 1, None, Actions()) == (Ref(id + 1, target, None), id + 2)
    ensures Lower(t, id, Some(def), Actions()) == (RepeatedElement(ofSet, target, id, def), id + 2)
  {
    hide Actions;
    var item := Ref(id + 1, target, None);
    if ofSet {
      assert LowerBody(t.body, id + 1, Actions()) == (Compound.SetOf(item), id + 2);
    } else {
      assert LowerBody(t.body, id + 1, Actions()) == (Compound.SequenceOf(item), id + 2);
    }
  }

  lemma {:induction false} RepeatedCalls(ofSet: bool, target: nat)
    requires target < 14
    ensures Calls(RepeatedType(ofSet, target), None)
  {
    hide Names, Actions;
    var item := RefType(target, None);
    assert ActionsIn(item.core) == [] && ActionsOf(item) == [];
    assert ActionsIn(RepeatedType(ofSet, target).core) == [];
  }

  lemma {:induction false} RepeatedDefsBecome(x: Context)
    requires Setting(x)
    ensures Becomes(x, NameDef(), None, Some(5), 24, Name(), 26) && Acts(NameDef(), [None])
    ensures Becomes(x, RelativeDistinguishedNameDef(), None, Some(6), 26, RelativeDistinguishedName(), 28)
    ensures Acts(RelativeDistinguishedNameDef(), [None])
    ensures Becomes(x, ExtensionsDef(), None, Some(12), 41, Extensions(), 43) && Acts(ExtensionsDef(), [None])
  {
    NamesAre();
    hide Becomes, Setting, Names, Calls, Acts;
    RepeatedBecomes(x, false, 6, 24, 5);
    OneActs(NameDef(), None);
    RepeatedBecomes(x, true, 7, 26, 6);
    OneActs(RelativeDistinguishedNameDef(), None);
    RepeatedBecomes(x, false, 13, 41, 12);
    OneActs(ExtensionsDef(), None);
  }

  // The CHOICE.

  lemma {:induction false} TimeIsPlain(x: Context)
    requires Setting(x)
    ensures WellFormed(TimeDef(), Defined(Names())) && Plain(x, TimeDef()) && Calls(TimeDef(), None)
  {
    NothingAround(TimeDef());
    var fs := TimeDef().core.fields;
    NothingAround(fs[0].content);
    NothingAround(fs[1].content);
    hide Names, Defined, PrintSuffix, Actions;
    assert fs[1..] == [fs[1]] && fs[1..][1..] == [];
    forall k | 0 <= k < 2
      ensures WellFormed(fs[k].content, Defined(Names())) && Plain(x, fs[k].content)
    {
      assert CoreOk(fs[k].content.core, Defined(Names())) && PlainCore(x, fs[k].content.core);
    }
    FieldsFine(x, fs, 0);
    assert fs[0..] == fs;
    assert CoreOk(TimeDef().core, Defined(Names())) && PlainCore(x, TimeDef().core);
    assert ActionsInAll(fs[1..]) == [] && ActionsInAll(fs) == [];
  }

  function TimeTree(): Tree {
    var utc := Tree(0, false, UTC_TIME, false, false, true, false, None, Some("utcTime"), Leaf);
    var general := Tree(0, false, GENERALIZED_TIME, false, false, true, true, None, Some("generalTime"), Leaf);
    Tree(0, false, 0, false, false, false, false, None, None, OneOf([utc, general]))
  }

  lemma {:induction false} TimeBuilt(x: Context)
    requires Setting(x)
    ensures Build(x, TimeDef(), None) == TimeTree()
  {
    hide Names;
    var fs, ts := TimeDef().core.fields, TimeTree().body.children;
    assert fs[1..] == [fs[1]] && fs[1..][1..] == [];
    assert BuildField(x, fs[0], true) == ts[0].(conditional := true) && BuildField(x, fs[1], true) == ts[1];
    assert BuildAll(x, fs[1..], true) == [ts[1]];
    assert BuildAll(x, fs, true) == [ts[0].(conditional := true), ts[1]];
    assert BuildFields(x, fs, true) == ts;
  }

  lemma {:induction false} TimeLowered()
    ensures Lower(TimeTree(), 34, Some(9), Actions()) == (Time(), 37)
  {
    hide Actions;
    var ts, es := TimeTree().body.children, Time().compound.alternatives;
    assert ActionName(None) == None;
    LowerFlat(ts[0], 35, None, None);
    LowerFlat(ts[1], 36, None, None);
    hide Lower;
    assert LowerAll([], 37, Actions()) == ([], 37);
    assert [ts[1]] + [] == [ts[1]] && [es[1]] + [] == [es[1]];
    LowerCons(ts[1], [], 36, es[1], 37, [], 37);
    LowerCons(ts[0], [ts[1]], 35, es[0], 36, [es[1]], 37);
    assert [ts[0]] + [ts[1]] == ts && [es[0]] + [es[1]] == es;
    hide Lower, LowerAll;
    TimeWrapped(ts, es);
  }

  lemma {:induction false} TimeWrapped(ts: seq<Tree>, es: seq<Element>)
    requires LowerAll(ts, 35, Actions()) == (es, 37)
    ensures Lower(Tree(0, false, 0, false, false, false, false, None, None, OneOf(ts)), 34, Some(9), Actions()) ==
            (Element(34, 0, false, 0, false, false, None, Some(9), Choice(es)), 37)
  {
    hide LowerAll, Actions;
    assert LowerBody(OneOf(ts), 35, Actions()) == (Choice(es), 37);
  }

  lemma {:induction false} TimeBecomes(x: Context)
    requires Setting(x)
    ensures Becomes(x, TimeDef(), None, Some(9), 34, Time(), 37) && Acts(TimeDef(), [None])
  {
    TimeIsPlain(x);
    TimeBuilt(x);
    TimeLowered();
    OneActs(TimeDef(), None);
    hide TimeDef, TimeTree, Time, Calls, Names, Actions, Lower, Build, WellFormed, Plain;
  }

  // ----- the whole grammar --------------------------------------------------------------

  function FirstIds(): (ids: seq<nat>)
    ensures |ids| == 15
  {
    [0, 4, 19, 20, 21, 24, 26, 28, 31, 34, 37, 40, 41, 43, 47]
  }

  function ActionsByDef(): (rows: seq<seq<Option<nat>>>)
    ensures |rows| == 14
  {
    [[None, None, None],
     [None, None, Some(7), Some(5), None, Some(8), Some(9), None, None, Some(4)],
     [Some(12)], [Some(6)], [Some(0), None], [None], [None], [Some(1), Some(2)], [Some(11), Some(10)], [None],
     [None, None], [None], [None], [Some(3), None, None]]
  }

  /** Definition `k` becomes type `k`. */
  ghost predicate DefBecomes(x: Context, k: nat)
    requires k < 14 == |Types()|
  {
    && Becomes(x, Defs()[k], None, Some(k), FirstIds()[k], Types()[k], FirstIds()[k + 1])
    && Acts(Defs()[k], ActionsByDef()[k])
  }

  lemma {:induction false} DefsAre()
    ensures var d := Defs();
            && d[0] == CertificateDef() && d[1] == TBSCertificateDef() && d[2] == VersionDef()
            && d[3] == CertificateSerialNumberDef() && d[4] == AlgorithmIdentifierDef() && d[5] == NameDef()
            && d[6] == RelativeDistinguishedNameDef() && d[7] == AttributeValueAssertionDef() && d[8] == ValidityDef()
            && d[9] == TimeDef() && d[10] == SubjectPublicKeyInfoDef() && d[11] == UniqueIdentifierDef()
            && d[12] == ExtensionsDef() && d[13] == ExtensionDef()
  {
    hide CertificateDef, TBSCertificateDef, VersionDef, CertificateSerialNumberDef, AlgorithmIdentifierDef, NameDef,
      RelativeDistinguishedNameDef, AttributeValueAssertionDef, ValidityDef, TimeDef, SubjectPublicKeyInfoDef,
      UniqueIdentifierDef, ExtensionsDef, ExtensionDef;
  }

  lemma {:induction false} RowsAre()
    ensures var ids := FirstIds();
            && ids[0] == 0 && ids[1] == 4 && ids[2] == 19 && ids[3] == 20 && ids[4] == 21 && ids[5] == 24 && ids[6] == 26
            && ids[7] == 28 && ids[8] == 31 && ids[9] == 34 && ids[10] == 37 && ids[11] == 40 && ids[12] == 41
            && ids[13] == 43 && ids[14] == 47
    ensures var rows := ActionsByDef();
            && rows[0] == [None, None, None]
            && rows[1] == [None, None, Some(7), Some(5), None, Some(8), Some(9), None, None, Some(4)]
            && rows[2] == [Some(12)] && rows[3] == [Some(6)] && rows[4] == [Some(0), None] && rows[5] == [None]
            && rows[6] == [None] && rows[7] == [Some(1), Some(2)] && rows[8] == [Some(11), Some(10)] && rows[9] == [None]
            && rows[10] == [None, None] && rows[11] == [None] && rows[12] == [None] && rows[13] == [Some(3), None, None]
  {
  }

  lemma {:induction false} DefAt(x: Context, k: nat, t: Type, e: Element)
    requires k < 14 == |Types()| && Defs()[k] == t && Types()[k] == e
    requires Becomes(x, t, None, Some(k), FirstIds()[k], e, FirstIds()[k + 1]) && Acts(t, ActionsByDef()[k])
    ensures DefBecomes(x, k)
  {
    hide Becomes, Acts, Types, Defs, FirstIds, ActionsByDef;
  }

  lemma {:induction false} FirstDefs(x: Context)
    requires Setting(x) && |Types()| == 14
    ensures forall k :: 0 <= k < 5 ==> DefBecomes(x, k)
  {
    hide *;
    assert Defs()[0] == CertificateDef() && Types()[0] == Certificate() by { DefsAre(); TypesAre(); }
    assert Becomes(x, CertificateDef(), None, Some(0), FirstIds()[0], Certificate(), FirstIds()[1]) by {
      RowsAre();
      CertificateBecomes(x);
    }
    assert Acts(CertificateDef(), ActionsByDef()[0]) by { RowsAre(); CertificateBecomes(x); }
    DefAt(x, 0, CertificateDef(), Certificate());
    assert Defs()[1] == TBSCertificateDef() && Types()[1] == TBSCertificate() by { DefsAre(); TypesAre(); }
    assert Becomes(x, TBSCertificateDef(), None, Some(1), FirstIds()[1], TBSCertificate(), FirstIds()[2]) by {
      RowsAre();
      TBSCertificateBecomes(x);
    }
    assert Acts(TBSCertificateDef(), ActionsByDef()[1]) by { RowsAre(); TBSCertificateBecomes(x); }
    DefAt(x, 1, TBSCertificateDef(), TBSCertificate());
    assert Defs()[2] == VersionDef() && Types()[2] == Version() by { DefsAre(); TypesAre(); }
    assert Becomes(x, VersionDef(), None, Some(2), FirstIds()[2], Version(), FirstIds()[3]) by {
      RowsAre();
      LeafDefsBecome(x);
    }
    assert Acts(VersionDef(), ActionsByDef()[2]) by { RowsAre(); LeafDefsBecome(x); }
    DefAt(x, 2, VersionDef(), Version());
    assert Defs()[3] == CertificateSerialNumberDef() && Types()[3] == CertificateSerialNumber() by {
      DefsAre();
      TypesAre();
    }
    assert Becomes(x, CertificateSerialNumberDef(), None, Some(3), FirstIds()[3], CertificateSerialNumber(), FirstIds()[4]) by {
      RowsAre();
      LeafDefsBecome(x);
    }
    assert Acts(CertificateSerialNumberDef(), ActionsByDef()[3]) by { RowsAre(); LeafDefsBecome(x); }
    DefAt(x, 3, CertificateSerialNumberDef(), CertificateSerialNumber());
    assert Defs()[4] == AlgorithmIdentifierDef() && Types()[4] == AlgorithmIdentifier() by { DefsAre(); TypesAre(); }
    assert Becomes(x, AlgorithmIdentifierDef(), None, Some(4), FirstIds()[4], AlgorithmIdentifier(), FirstIds()[5]) by {
      RowsAre();
      AlgorithmIdentifierBecomes(x);
    }
    assert Acts(AlgorithmIdentifierDef(), ActionsByDef()[4]) by { RowsAre(); AlgorithmIdentifierBecomes(x); }
    DefAt(x, 4, AlgorithmIdentifierDef(), AlgorithmIdentifier());
  }

  lemma {:induction false} MiddleDefs(x: Context)
    requires Setting(x) && |Types()| == 14
    ensures forall k :: 5 <= k < 10 ==> DefBecomes(x, k)
  {
    hide *;
    assert Defs()[5] == NameDef() && Types()[5] == Name() by { DefsAre(); TypesAre(); }
    assert Becomes(x, NameDef(), None, Some(5), FirstIds()[5], Name(), FirstIds()[6]) by {
      RowsAre();
      RepeatedDefsBecome(x);
    }
    assert Acts(NameDef(), ActionsByDef()[5]) by { RowsAre(); RepeatedDefsBecome(x); }
    DefAt(x, 5, NameDef(), Name());
    assert Defs()[6] == RelativeDistinguishedNameDef() && Types()[6] == RelativeDistinguishedName() by {
      DefsAre();
      TypesAre();
    }
    assert Becomes(x, RelativeDistinguishedNameDef(), None, Some(6), FirstIds()[6], RelativeDistinguishedName(), FirstIds()[7]) by {
      RowsAre();
      RepeatedDefsBecome(x);
    }
    assert Acts(RelativeDistinguishedNameDef(), ActionsByDef()[6]) by { RowsAre(); RepeatedDefsBecome(x); }
    DefAt(x, 6, RelativeDistinguishedNameDef(), RelativeDistinguishedName());
    assert Defs()[7] == AttributeValueAssertionDef() && Types()[7] == AttributeValueAssertion() by {
      DefsAre();
      TypesAre();
    }
    assert Becomes(x, AttributeValueAssertionDef(), None, Some(7), FirstIds()[7], AttributeValueAssertion(), FirstIds()[8]) by {
      RowsAre();
      AttributeValueAssertionBecomes(x);
    }
    assert Acts(AttributeValueAssertionDef(), ActionsByDef()[7]) by { RowsAre(); AttributeValueAssertionBecomes(x); }
    DefAt(x, 7, AttributeValueAssertionDef(), AttributeValueAssertion());
    assert Defs()[8] == ValidityDef() && Types()[8] == Validity() by { DefsAre(); TypesAre(); }
    assert Becomes(x, ValidityDef(), None, Some(8), FirstIds()[8], Validity(), FirstIds()[9]) by {
      RowsAre();
      ValidityBecomes(x);
    }
    assert Acts(ValidityDef(), ActionsByDef()[8]) by { RowsAre(); ValidityBecomes(x); }
    DefAt(x, 8, ValidityDef(), Validity());
    assert Defs()[9] == TimeDef() && Types()[9] == Time() by { DefsAre(); TypesAre(); }
    assert Becomes(x, TimeDef(), None, Some(9), FirstIds()[9], Time(), FirstIds()[10]) by {
      RowsAre();
      TimeBecomes(x);
    }
    assert Acts(TimeDef(), ActionsByDef()[9]) by { RowsAre(); TimeBecomes(x); }
    DefAt(x, 9, TimeDef(), Time());
  }

  lemma {:induction false} LastDefs(x: Context)
    requires Setting(x) && |Types()| == 14
    ensures forall k :: 10 <= k < 14 ==> DefBecomes(x, k)
  {
    hide *;
    assert Defs()[10] == SubjectPublicKeyInfoDef() && Types()[10] == SubjectPublicKeyInfo() by {
      DefsAre();
      TypesAre();
    }
    assert Becomes(x, SubjectPublicKeyInfoDef(), None, Some(10), FirstIds()[10], SubjectPublicKeyInfo(), FirstIds()[11]) by {
      RowsAre();
      SubjectPublicKeyInfoBecomes(x);
    }
    assert Acts(SubjectPublicKeyInfoDef(), ActionsByDef()[10]) by { RowsAre(); SubjectPublicKeyInfoBecomes(x); }
    DefAt(x, 10, SubjectPublicKeyInfoDef(), SubjectPublicKeyInfo());
    assert Defs()[11] == UniqueIdentifierDef() && Types()[11] == UniqueIdentifier() by { DefsAre(); TypesAre(); }
    assert Becomes(x, UniqueIdentifierDef(), None, Some(11), FirstIds()[11], UniqueIdentifier(), FirstIds()[12]) by {
      RowsAre();
      LeafDefsBecome(x);
    }
    assert Acts(UniqueIdentifierDef(), ActionsByDef()[11]) by { RowsAre(); LeafDefsBecome(x); }
    DefAt(x, 11, UniqueIdentifierDef(), UniqueIdentifier());
    assert Defs()[12] == ExtensionsDef() && Types()[12] == Extensions() by { DefsAre(); TypesAre(); }
    assert Becomes(x, ExtensionsDef(), None, Some(12), FirstIds()[12], Extensions(), FirstIds()[13]) by {
      RowsAre();
      RepeatedDefsBecome(x);
    }
    assert Acts(ExtensionsDef(), ActionsByDef()[12]) by { RowsAre(); RepeatedDefsBecome(x); }
    DefAt(x, 12, ExtensionsDef(), Extensions());
    assert Defs()[13] == ExtensionDef() && Types()[13] == Extension() by { DefsAre(); TypesAre(); }
    assert Becomes(x, ExtensionDef(), None, Some(13), FirstIds()[13], Extension(), FirstIds()[14]) by {
      RowsAre();
      ExtensionBecomes(x);
    }
    assert Acts(ExtensionDef(), ActionsByDef()[13]) by { RowsAre(); ExtensionBecomes(x); }
    DefAt(x, 13, ExtensionDef(), Extension());
  }

  lemma {:induction false} AllBecome(x: Context, k: nat)
    requires Setting(x) && k < 14
    ensures |Types()| == 14 && DefBecomes(x, k)
  {
    TypesAre();
    hide *;
    FirstDefs(x);
    MiddleDefs(x);
    LastDefs(x);
  }

  lemma {:induction false} LowerDefsFrom(x: Context, n: nat)
    requires Setting(x) && n <= 14 == |Types()|
    ensures LowerDefs(BuildDefs(x, Defs())[n..], n, FirstIds()[n], Actions()) == Types()[n..]
    decreases 14 - n
  {
    hide Build, BuildDefs, Lower, Actions, Names, Types, Defs, FirstIds, Setting, WellFormed, Plain, Acts;
    var ts := BuildDefs(x, Defs());
    if n < 14 {
      AllBecome(x, n);
      BuildDefsAt(x, Defs(), n);
      LowerDefsFrom(x, n + 1);
      assert ts[n..][1..] == ts[n + 1..] && ts[n..][0] == ts[n];
      assert [Types()[n]] + Types()[n + 1..] == Types()[n..];
    } else {
      assert ts[n..] == [] && Types()[n..] == [];
    }
  }

  /** An action is met in the file if and only if it is met in some definition. */
  lemma {:induction false} MetInSome(defs: seq<Type>, a: string)
    ensures a in AllActions(defs) <==> exists k :: 0 <= k < |defs| && a in ActionsOf(defs[k])
    decreases defs
  {
    hide ActionsOf;
    if defs != [] {
      MetInSome(defs[..|defs| - 1], a);
    }
  }

  /** Where each action is met: definition and field. */
  function MetAt(): (at: seq<(nat, nat)>)
    ensures |at| == NR_ACTIONS
  {
    [(4, 0), (7, 0), (7, 1), (13, 0), (1, 9), (1, 3), (3, 0), (1, 2), (1, 5), (1, 6), (8, 1), (8, 0), (2, 0)]
  }

  lemma {:induction false} MetThere(k: nat)
    requires k < NR_ACTIONS
    ensures var (d, f) := MetAt()[k]; d < 14 && f < |ActionsByDef()[d]| && ActionsByDef()[d][f] == Some(k)
  {
    RowsAre();
    var rows := ActionsByDef();
    hide ActionsByDef;
    assert rows[4][0] == Some(0) && rows[7][0] == Some(1) && rows[7][1] == Some(2) && rows[13][0] == Some(3);
    assert rows[1][9] == Some(4) && rows[1][3] == Some(5) && rows[3][0] == Some(6) && rows[1][2] == Some(7);
    assert rows[1][5] == Some(8) && rows[1][6] == Some(9) && rows[8][1] == Some(10) && rows[8][0] == Some(11);
    assert rows[2][0] == Some(12);
  }

  lemma {:induction false} ActionsMet(x: Context, a: string)
    requires Setting(x)
    ensures a in AllActions(Defs()) <==> a in Actions()
  {
    MetInSome(Defs(), a);
    hide ActionsOf, Actions, Defs, Setting, ActionsByDef, MetAt, Becomes, AllActions, Types, FirstIds;
    if a in AllActions(Defs()) {
      var k :| 0 <= k < 14 && a in ActionsOf(Defs()[k]);
      AllBecome(x, k);
    }
    if a in Actions() {
      var i :| 0 <= i < NR_ACTIONS && Actions()[i] == a;
      MetThere(i);
      AllBecome(x, MetAt()[i].0);
      assert a in ActionsOf(Defs()[MetAt()[i].0]);
    }
  }

  lemma {:induction false} ActionListIs(x: Context)
    requires Setting(x)
    ensures WithActions([], AllActions(Defs())) == Actions()
  {
    hide Actions, Defs, AllActions, WithActions, Setting, Ascending;
    ActionsAreAscending();
    ActionList(AllActions(Defs()));
    forall a
      ensures a in WithActions([], AllActions(Defs())) <==> a in Actions()
    {
      ActionsMet(x, a);
    }
    AscendingIsUnique(WithActions([], AllActions(Defs())), Actions());
  }

  // ----- the reference counts -----------------------------------------------------------

  function One(yes: bool): nat {
    if yes then 1 else 0
  }

  /** References from type `k` to type `i`. */
  function RefsTo(k: nat, i: nat): nat {
    match k
    case 0 => One(i == 1) + One(i == 4)
    case 1 =>
      One(i == 2) + One(i == 3) + One(i == 4) + 2 * One(i == 5) + One(i == 8) + One(i == 10) + 2 * One(i == 11)
      + One(i == 12)
    case 5 => One(i == 6)
    case 6 => One(i == 7)
    case 8 => 2 * One(i == 9)
    case 10 => One(i == 4)
    case 12 => One(i == 13)
    case _ => 0
  }

  lemma {:induction false} RefsJoined(a: seq<Element>, b: seq<Element>, i: nat)
    ensures RefElementsAll(a + b, i) == RefElementsAll(a, i) + RefElementsAll(b, i)
  {
    hide RefElements;
    if a == [] {
      assert a + b == b;
    } else {
      assert (a + b)[1..] == a[1..] + b;
      RefsJoined(a[1..], b, i);
    }
  }

  lemma {:induction false} RefsInTwo(a: Element, b: Element, i: nat)
    ensures RefElementsAll([a, b], i) == RefElements(a, i) + RefElements(b, i)
  {
    OneRef(b, i);
    assert [a, b][1..] == [b];
    hide RefElements;
    assert RefElementsAll([a, b], i) == RefElements([a, b][0], i) + RefElementsAll([a, b][1..], i);
  }

  lemma {:induction false} RefsInThree(a: Element, b: Element, c: Element, i: nat)
    ensures RefElementsAll([a, b, c], i) == RefElements(a, i) + RefElements(b, i) + RefElements(c, i)
  {
    RefsInTwo(b, c, i);
    assert [a, b, c][1..] == [b, c];
    hide RefElements;
  }

  lemma {:induction false} RefsInOne(id: nat, number: nat, inner: Element, i: nat)
    ensures RefElements(Tagged(id, number, inner), i) == RefElements(inner, i)
    ensures RefElements(Retagged(id, number, inner), i) == RefElements(inner, i)
  {
    OneRef(inner, i);
    hide RefElementsAll;
    var t, r := Tagged(id, number, inner), Retagged(id, number, inner);
    assert RefElements(t, i) == RefElementsAll([inner], i) by { assert t.compound.fields == [inner]; }
    assert RefElements(r, i) == RefElements(inner, i);
  }

  lemma {:induction false} OneRef(e: Element, i: nat)
    ensures RefElementsAll([e], i) == RefElements(e, i)
  {
    hide RefElements;
    assert [e][1..] == [];
  }

  lemma {:induction false} HeadRefsTo(i: nat)
    ensures var f := TBSFields(); RefElementsAll([f[0], f[1], f[2]], i) == One(i == 2) + One(i == 3) + One(i == 4)
  {
    var f := TBSFields();
    RefsInOne(5, 0, Ref(6, 2, None), i);
    RefsInThree(f[0], f[1], f[2], i);
    hide Tagged, Retagged, RefElementsAll;
  }

  lemma {:induction false} MiddleRefsTo(i: nat)
    ensures var f := TBSFields();
            && RefElementsAll([f[3], f[4]], i) == One(i == 5) + One(i == 8)
            && RefElementsAll([f[5], f[6]], i) == One(i == 5) + One(i == 10)
  {
    var f := TBSFields();
    RefsInTwo(f[3], f[4], i);
    RefsInTwo(f[5], f[6], i);
    hide Tagged, Retagged, RefElementsAll;
  }

  lemma {:induction false} TailRefsTo(i: nat)
    ensures RefElementsAll(UniqueIds(), i) == 2 * One(i == 11) + One(i == 12)
  {
    var u := UniqueIds();
    RefsInOne(13, 1, Ref(14, 11, None), i);
    RefsInOne(15, 2, Ref(16, 11, None), i);
    RefsInOne(17, 3, Ref(18, 12, Some(DO_EXTENSIONS)), i);
    RefsInThree(u[0], u[1], u[2], i);
    hide Tagged, Retagged, RefElementsAll;
    assert u == [u[0], u[1], u[2]];
  }

  lemma {:induction false} TBSRefsTo(i: nat)
    ensures RefElementsAll(TBSFields(), i) == RefsTo(1, i)
  {
    HeadRefsTo(i);
    MiddleRefsTo(i);
    TailRefsTo(i);
    hide Tagged, Retagged, RefElementsAll;
    var f, u := TBSFields(), UniqueIds();
    var a, b, c := [f[0], f[1], f[2]], [f[3], f[4]], [f[5], f[6]];
    assert f == a + (b + (c + u));
    hide TBSFields, UniqueIds;
    RefsJoined(c, u, i);
    RefsJoined(b, c + u, i);
    RefsJoined(a, b + (c + u), i);
  }

  lemma {:induction false} SequenceRefsTo(i: nat)
    ensures RefElements(Certificate(), i) == RefsTo(0, i) && RefElements(AlgorithmIdentifier(), i) == 0
    ensures RefElements(AttributeValueAssertion(), i) == 0 && RefElements(Validity(), i) == RefsTo(8, i)
    ensures RefElements(SubjectPublicKeyInfo(), i) == RefsTo(10, i) && RefElements(Extension(), i) == 0
    ensures RefElements(Time(), i) == 0
  {
    var f := Certificate().compound.fields;
    RefsInThree(f[0], f[1], f[2], i);
    var g := AlgorithmIdentifier().compound.fields;
    RefsInTwo(g[0], g[1], i);
    var h := AttributeValueAssertion().compound.fields;
    RefsInTwo(h[0], h[1], i);
    var v := Validity().compound.fields;
    RefsInTwo(v[0], v[1], i);
    var p := SubjectPublicKeyInfo().compound.fields;
    RefsInTwo(p[0], p[1], i);
    var x := Extension().compound.fields;
    RefsInThree(x[0], x[1], x[2], i);
    var t := Time().compound.alternatives;
    RefsInTwo(t[0], t[1], i);
    hide RefElementsAll;
  }

  lemma {:induction false} TypeRefsTo(k: nat, i: nat)
    requires k < 14 == |Types()|
    ensures RefElements(Types()[k], i) == RefsTo(k, i)
  {
    hide Types, RefElementsAll, Certificate, AlgorithmIdentifier, AttributeValueAssertion, Validity,
      SubjectPublicKeyInfo, Extension, Time, TBSFields;
    TypesAre();
    TBSRefsTo(i);
    SequenceRefsTo(i);
  }

  function SumFrom(n: nat, i: nat): nat
    decreases 14 - n
  {
    if n >= 14 then 0 else RefsTo(n, i) + SumFrom(n + 1, i)
  }

  lemma {:induction false} AllRefsTo(n: nat, i: nat)
    requires n <= 14 == |Types()|
    ensures RefElementsAll(Types()[n..], i) == SumFrom(n, i)
    decreases 14 - n
  {
    hide Types, RefElements, RefsTo;
    if n < 14 {
      TypeRefsTo(n, i);
      AllRefsTo(n + 1, i);
      assert Types()[n..][1..] == Types()[n + 1..];
    }
  }

  lemma {:induction false} SumIs(i: nat)
    requires i < 14
    ensures SumFrom(0, i) == Certificates().refCounts[i]
  {
    hide Types;
    SumsAre(i);
    hide SumFrom;
  }

  lemma {:induction false} SumsAre(i: nat)
    ensures SumFrom(0, i) == RefsTo(0, i) + RefsTo(1, i) + RefsTo(2, i) + RefsTo(3, i) + RefsTo(4, i) + RefsTo(5, i)
                             + RefsTo(6, i) + RefsTo(7, i) + RefsTo(8, i) + RefsTo(9, i) + RefsTo(10, i) + RefsTo(11, i)
                             + RefsTo(12, i) + RefsTo(13, i)
  {
    hide RefsTo;
    assert SumFrom(7, i) == RefsTo(7, i) + RefsTo(8, i) + RefsTo(9, i) + RefsTo(10, i) + RefsTo(11, i) + RefsTo(12, i)
                            + RefsTo(13, i);
    assert SumFrom(0, i) == RefsTo(0, i) + RefsTo(1, i) + RefsTo(2, i) + RefsTo(3, i) + RefsTo(4, i) + RefsTo(5, i)
                            + RefsTo(6, i) + SumFrom(7, i);
  }

  // ----- from the tokens to the grammar -------------------------------------------------

  /** The front end, applied to the definitions, yields the grammar of module X509, with every number
      computed: types, actions, addresses and reference counts. */
  lemma {:induction false} DefsMeanX509(x: Context)
    requires Setting(x)
    ensures ToGrammar(Meaning(x, Defs())) == Certificates() && Meaning(x, Defs()).actions == Actions()
    ensures forall k :: 0 <= k < 14 ==> WellFormed(Defs()[k], Defined(Names())) && Plain(x, Defs()[k])
  {
    TypesAre();
    ActionListIs(x);
    forall k | 0 <= k < 14
      ensures WellFormed(Defs()[k], Defined(Names())) && Plain(x, Defs()[k])
    {
      hide Defs, Names, WellFormed, Plain, Types, FirstIds, Lower, Build, Setting;
      AllBecome(x, k);
    }
    TypesFrom(x);
    hide Defs, Names, Defined, WellFormed, Plain, Types, LowerDefs, BuildDefs, Counted, WithActions, Actions;
    CountsAre(x);
  }

  lemma {:induction false} TypesFrom(x: Context)
    requires Setting(x)
    ensures LowerDefs(BuildDefs(x, Defs()), 0, 0, Actions()) == Types()
  {
    TypesAre();
    RowsAre();
    LowerDefsFrom(x, 0);
    hide Defs, Types, LowerDefs, BuildDefs, Actions, FirstIds, Setting;
    assert BuildDefs(x, Defs())[0..] == BuildDefs(x, Defs()) && Types()[0..] == Types();
  }

  lemma {:induction false} CountAt(x: Context, i: nat)
    requires Setting(x) && i < 14
    requires forall k :: 0 <= k < 14 ==> WellFormed(Defs()[k], Defined(Names()))
    requires ToGrammar(Meaning(x, Defs())).types == Types()
    ensures |Certificates().refCounts| == 14 == |Meaning(x, Defs()).refCounts|
    ensures Meaning(x, Defs()).refCounts[i] == Certificates().refCounts[i]
  {
    SumIs(i);
    TypesAre();
    DefsFine(x);
    hide *;
    CountsAreReferences(x, Defs(), i);
    CountOfTypes(i);
  }

  lemma {:induction false} DefsFine(x: Context)
    requires Setting(x) && forall k :: 0 <= k < 14 ==> WellFormed(Defs()[k], Defined(Names()))
    ensures forall k :: 0 <= k < |Defs()| ==> WellFormed(Defs()[k], Defined(x.types))
    ensures x.types == Names() && |Meaning(x, Defs()).refCounts| == |x.types|
    ensures ToGrammar(Meaning(x, Defs())).refCounts == Meaning(x, Defs()).refCounts
  {
    hide Defs, Names, Defined, WellFormed, BuildDefs, WithActions, Counted, LowerDefs, AllActions, AllRefs, Zeros;
  }

  lemma {:induction false} CountOfTypes(i: nat)
    requires |Types()| == 14
    ensures RefElementsAll(Types(), i) == SumFrom(0, i)
  {
    hide Types, RefElementsAll, SumFrom;
    AllRefsTo(0, i);
    assert Types()[0..] == Types();
  }

  lemma {:induction false} CountsAre(x: Context)
    requires Setting(x)
    requires forall k :: 0 <= k < 14 ==> WellFormed(Defs()[k], Defined(Names()))
    requires ToGrammar(Meaning(x, Defs())).types == Types()
    ensures Meaning(x, Defs()).refCounts == Certificates().refCounts
  {
    hide Defs, Names, Defined, WellFormed, Setting, Types, ToGrammar, Meaning, Certificates;
    CountAt(x, 0);
    forall i | 0 <= i < 14
      ensures Meaning(x, Defs()).refCounts[i] == Certificates().refCounts[i]
    {
      CountAt(x, i);
    }
  }

  /** The tokens of listcerts/x509.asn1 are translated to the machine of module X509, to which
      all results about machines apply. */
  lemma {:induction false} SourceIsTranslatable(tags: Token -> nat, find: string -> nat)
    requires UniversalTags(tags) && Finds(Names(), find)
    ensures Toolchain.Translatable(Source(), tags, find, Defs(), DEPTH)
    ensures Toolchain.GrammarOf(Source(), tags, find, Defs()) == Certificates()
  {
    hide Defs, Names, Actions, Defined, WellFormed, Plain, Certificates, Source, StartsOf, NamesAt, Tiles, Meaning,
      ToGrammar, UniversalTags, ContextOf, Finds, Renderer.AllFinite;
    var x := Context(tags, Names(), find);
    SomeOfEach();
    DefsMeanX509(x);
    SourceIsTiled(tags, find);
    IsFinite();
  }

  lemma {:induction false} SomeOfEach()
    ensures |Actions()| <= 256 && |Defs()| == 14
  {
  }

  lemma {:induction false} SourceIsTiled(tags: Token -> nat, find: string -> nat)
    requires forall k :: 0 <= k < 14 ==> WellFormed(Defs()[k], Defined(Names()))
    ensures StartsOf(Source()) != [] && Tiles(Source(), StartsOf(Source()), Defs())
    ensures ContextOf(Source(), tags, find) == Context(tags, Names(), find)
  {
    hide Defs, Names, Defined, WellFormed, PrintDefs, StartsOf, NamesAt, Tiles;
    PrintedIsTiled(Names(), Defs());
  }

  lemma {:induction false} IsFinite()
    ensures Certificates().types != [] && Renderer.AllFinite(Certificates(), DEPTH)
  {
    X509IsSupported();
    GrammarHasTypes();
    hide Certificates, Renderer.AllFinite, SupportedGrammars.AllOk;
  }

  lemma {:induction false} GrammarHasTypes()
    ensures Certificates().types != []
  {
    TypesAre();
    hide Types;
  }
}
