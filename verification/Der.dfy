/** Values of a grammar, their BER encodings (X.690 sections 8.1 and 8.9 to 8.13) with the shortest
    definite lengths or indefinite ones, and the action calls a decoder owes them. An encoding
    without indefinite lengths is the DER one (section 10.1). */
module Der {
  import opened Octets
  import opened Grammar

  /** How the length of a constructed element is given. */
  datatype Form = Definite | Indefinite

  /** `Contents` is a value of a primitive type, `AnyTlv` any definite-length element for
      ANY, `Ref` a value of a referenced type; a constructed element has the form it is to be
      encoded in. */
  datatype Value =
    | Contents(octets: seq<Octet>)
    | AnyTlv(id: Octet, octets: seq<Octet>)
    | Fields(vals: seq<Value>, form: Form)
    | Items(vals: seq<Value>, form: Form)
    | Chosen(index: nat, val: Value)
    | Ref(val: Value)
    | Absent

  /** A call of an action: on the contents octets from `start`, `len` of them, behind `hdr` octets
      of identifier and length. */
  datatype Call = Call(action: int, hdr: int, start: int, len: int)

  // ----- encoding -----------------------------------------------------------------------

  predicate IsConstructed(c: Compound) {
    c.Sequence? || c.SequenceOf? || c.SetOf? || c.Set?
  }

  /** The identifier octet: class and number come from an IMPLICIT tag if there is one. */
  function Identifier(e: Element, tag: Override): Octet {
    var t := if tag.Some? then tag.value else e;
    t.cls % 4 * 64 + (if IsConstructed(e.compound) then 32 else 0) + t.number % 32
  }

  /** The shortest length octets, for lengths below 2^24. */
  function LengthOctets(n: nat): seq<Octet> {
    if n < 0x80 then [n]
    else if n < 0x100 then [0x81, n]
    else if n < 0x10000 then [0x82, n / 0x100, n % 0x100]
    else [0x83, n / 0x10000 % 0x100, n / 0x100 % 0x100, n % 0x100]
  }

  function HeaderSize(n: nat): nat {
    1 + |LengthOctets(n)|
  }

  function Tlv(id: Octet, contents: seq<Octet>): (s: seq<Octet>)
    ensures |s| == HeaderSize(|contents|) + |contents|
  {
    [id] + LengthOctets(|contents|) + contents
  }

  /** A constructed element; the indefinite form ends with two zero octets. */
  function Wrap(id: Octet, form: Form, contents: seq<Octet>): seq<Octet> {
    match form
    case Definite => Tlv(id, contents)
    case Indefinite => [id, 0x80] + contents + [0, 0]
  }

  /** Octets in front of `n` contents octets, and behind them. */
  function HeadSize(form: Form, n: nat): nat {
    match form case Definite => HeaderSize(n) case Indefinite => 2
  }

  function TailSize(form: Form): nat {
    match form case Definite => 0 case Indefinite => 2
  }

  /** The form of the element a value is encoded as. */
  function FormOf(v: Value): Form {
    match v
    case Fields(_, form) => form
    case Items(_, form) => form
    case Chosen(_, w) => FormOf(w)
    case Ref(w) => FormOf(w)
    case _ => Definite
  }

  /** All lengths are definite: the encoding is the DER one. */
  predicate IsDer(v: Value) {
    match v
    case Fields(vs, form) => form == Definite && AllDer(vs)
    case Items(vs, form) => form == Definite && AllDer(vs)
    case Chosen(_, w) => IsDer(w)
    case Ref(w) => IsDer(w)
    case _ => true
  }

  predicate AllDer(vs: seq<Value>) {
    vs == [] || (IsDer(vs[0]) && AllDer(vs[1..]))
  }

  function Encode(g: Grammar, e: Element, tag: Override, v: Value): seq<Octet>
    decreases v, e, 1
  {
    match e.compound
    case NotCompound => if v.Contents? then Tlv(Identifier(e, tag), v.octets) else []
    case Any => if v.AnyTlv? then Tlv(v.id, v.octets) else []
    case TypeRef(t) => if v.Ref? && t < |g.types| then Encode(g, g.types[t], tag, v.val) else []
    case Choice(es) => if v.Chosen? && v.index < |es| then Encode(g, es[v.index], None, v.val) else []
    case Sequence(es) => if v.Fields? then Wrap(Identifier(e, tag), v.form, EncodeFields(g, es, v.vals)) else []
    case SequenceOf(item) => if v.Items? then Wrap(Identifier(e, tag), v.form, EncodeItems(g, item, v.vals)) else []
    case SetOf(item) => if v.Items? then Wrap(Identifier(e, tag), v.form, EncodeItems(g, item, v.vals)) else []
    case Set(_) => []
    case TagOverride(inner) => Encode(g, inner, if tag.Some? then tag else Some(e), v)
  }

  /** The fields of a SEQUENCE; an absent one has no octets. */
  function EncodeFields(g: Grammar, es: seq<Element>, vs: seq<Value>): seq<Octet>
    decreases vs, es, 0
  {
    if es == [] || vs == [] then []
    else Encode(g, es[0], None, vs[0]) + EncodeFields(g, es[1..], vs[1..])
  }

  function EncodeItems(g: Grammar, item: Element, vs: seq<Value>): seq<Octet>
    decreases vs, item, 0
  {
    if vs == [] then [] else Encode(g, item, None, vs[0]) + EncodeItems(g, item, vs[1..])
  }

  // ----- conformance --------------------------------------------------------------------

  /** `v`, which is present, is a value of the type `e`. */
  predicate Conforms(g: Grammar, e: Element, v: Value)
    decreases v, e, 1
  {
    match e.compound
    case NotCompound => v.Contents?
    case Any => v.AnyTlv? && v.id % 32 != 31
    case TypeRef(t) => v.Ref? && t < |g.types| && Conforms(g, g.types[t], v.val)
    case Choice(es) => v.Chosen? && v.index < |es| && Conforms(g, es[v.index], v.val)
    case Sequence(es) => v.Fields? && FieldsConform(g, es, v.vals)
    case SequenceOf(item) => v.Items? && v.vals != [] && ItemsConform(g, item, v.vals)
    case SetOf(item) => v.Items? && v.vals != [] && ItemsConform(g, item, v.vals)
    case Set(_) => false
    case TagOverride(inner) => Conforms(g, inner, v)
  }

  /** Fields marked OPTIONAL or DEFAULT may be absent. */
  predicate FieldsConform(g: Grammar, es: seq<Element>, vs: seq<Value>)
    decreases vs, es, 0
  {
    |es| == |vs| &&
    (es == [] ||
     (&& (if vs[0].Absent? then es[0].skippable else Conforms(g, es[0], vs[0]))
      && FieldsConform(g, es[1..], vs[1..])))
  }

  predicate ItemsConform(g: Grammar, item: Element, vs: seq<Value>)
    decreases vs, item, 0
  {
    vs == [] || (Conforms(g, item, vs[0]) && ItemsConform(g, item, vs[1..]))
  }

  // ----- the action calls ---------------------------------------------------------------

  /** Number of contents octets of the element that `v` is encoded as. */
  function Length(g: Grammar, e: Element, v: Value): nat
    decreases v, e, 1
  {
    match e.compound
    case NotCompound => if v.Contents? then |v.octets| else 0
    case Any => if v.AnyTlv? then |v.octets| else 0
    case TypeRef(t) => if v.Ref? && t < |g.types| then Length(g, g.types[t], v.val) else 0
    case Choice(es) => if v.Chosen? && v.index < |es| then Length(g, es[v.index], v.val) else 0
    case Sequence(es) => if v.Fields? then |EncodeFields(g, es, v.vals)| else 0
    case SequenceOf(item) => if v.Items? then |EncodeItems(g, item, v.vals)| else 0
    case SetOf(item) => if v.Items? then |EncodeItems(g, item, v.vals)| else 0
    case Set(_) => 0
    case TagOverride(inner) => Length(g, inner, v)
  }

  function OwnCall(g: Grammar, e: Element, v: Value, at: int): seq<Call> {
    var hdr := HeadSize(FormOf(v), Length(g, e, v));
    if e.action.Some? then [Call(e.action.value, hdr, at + hdr, Length(g, e, v))] else []
  }

  /** The calls for `v` encoded from position `at`: children before parents, each on exactly
      the contents of its own element. */
  function Calls(g: Grammar, e: Element, v: Value, at: int): seq<Call>
    decreases v, e, 1
  {
    match e.compound
    case NotCompound => OwnCall(g, e, v, at)
    case Any => OwnCall(g, e, v, at)
    case TypeRef(t) =>
      if v.Ref? && t < |g.types| then Calls(g, g.types[t], v.val, at) + OwnCall(g, e, v, at) else []
    case Choice(es) =>
      if v.Chosen? && v.index < |es| then Calls(g, es[v.index], v.val, at) + OwnCall(g, e, v, at) else []
    case Sequence(es) =>
      if v.Fields? then
        FieldCalls(g, es, v.vals, at + HeadSize(v.form, Length(g, e, v))) + OwnCall(g, e, v, at)
      else []
    case SequenceOf(item) =>
      if v.Items? then
        ItemCalls(g, item, v.vals, at + HeadSize(v.form, Length(g, e, v))) + OwnCall(g, e, v, at)
      else []
    case SetOf(item) =>
      if v.Items? then
        ItemCalls(g, item, v.vals, at + HeadSize(v.form, Length(g, e, v))) + OwnCall(g, e, v, at)
      else []
    case Set(_) => []
    case TagOverride(inner) => Calls(g, inner, v, at)
  }

  function FieldCalls(g: Grammar, es: seq<Element>, vs: seq<Value>, at: int): seq<Call>
    decreases vs, es, 0
  {
    if es == [] || vs == [] then []
    else
      (if vs[0].Absent? then [] else Calls(g, es[0], vs[0], at))
      + FieldCalls(g, es[1..], vs[1..], at + |Encode(g, es[0], None, vs[0])|)
  }

  function ItemCalls(g: Grammar, item: Element, vs: seq<Value>, at: int): seq<Call>
    decreases vs, item, 0
  {
    if vs == [] then []
    else
      Calls(g, item, vs[0], at)
      + ItemCalls(g, item, vs[1..], at + |Encode(g, item, None, vs[0])|)
  }

  // ----- size and nesting ---------------------------------------------------------------

  /** How many constructed elements of SEQUENCE, SEQUENCE OF and SET OF lie inside each
      other in `v`. */
  function Nesting(v: Value): nat {
    match v
    case Fields(vs, _) => 1 + NestingAll(vs)
    case Items(vs, _) => 1 + NestingAll(vs)
    case Chosen(_, w) => Nesting(w)
    case Ref(w) => Nesting(w)
    case _ => 0
  }

  function NestingAll(vs: seq<Value>): nat {
    if vs == [] then 0 else
      var a, b := Nesting(vs[0]), NestingAll(vs[1..]);
      if a > b then a else b
  }

  /** ANY never stands for an element whose tag takes more octets than one. */
  lemma {:induction false} AnyIsShort(g: Grammar, e: Element, v: Value)
    requires e.compound.Any? && Conforms(g, e, v)
    ensures v.AnyTlv? && !IsLongTag(v.id)
  {
  }

  lemma {:induction false} HeaderHasTwo(n: nat)
    ensures HeaderSize(n) >= 2
  {
  }

  /** A present value is one tag-length-value element. */
  lemma {:induction false} EncodeIsTlv(g: Grammar, e: Element, tag: Override, v: Value)
    requires Conforms(g, e, v)
    ensures |Encode(g, e, tag, v)| == HeadSize(FormOf(v), Length(g, e, v)) + Length(g, e, v) + TailSize(FormOf(v))
    ensures |Encode(g, e, tag, v)| >= 2
    decreases v, e
  {
    HeaderHasTwo(Length(g, e, v));
    hide LengthOctets, HeaderSize, Identifier, EncodeFields, EncodeItems, FieldsConform, ItemsConform;
    match e.compound
    case TypeRef(t) => EncodeIsTlv(g, g.types[t], tag, v.val);
    case Choice(es) => EncodeIsTlv(g, es[v.index], None, v.val);
    case TagOverride(inner) => EncodeIsTlv(g, inner, if tag.Some? then tag else Some(e), v);
    case _ =>
  }

  /** What is encoded as nothing are absent fields. */
  lemma {:induction false} NothingEncoded(g: Grammar, es: seq<Element>, vs: seq<Value>)
    requires FieldsConform(g, es, vs)
    ensures EncodeFields(g, es, vs) == [] ==> forall i :: 0 <= i < |vs| ==> vs[i].Absent?
    decreases vs
  {
    if vs != [] {
      if !vs[0].Absent? {
        EncodeIsTlv(g, es[0], None, vs[0]);
      }
      NothingEncoded(g, es[1..], vs[1..]);
      hide Encode, Conforms;
      assert forall i :: 0 < i < |vs| ==> vs[i] == vs[1..][i - 1];
    }
  }
}
