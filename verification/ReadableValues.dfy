/** The values whose encodings the machine of a regular grammar reads as they are meant. What the
    definite lengths say by themselves it has to tell from the octets in the indefinite form: that
    no optional field is behind the last one, and no item. */
module ReadableValues {
  import opened Octets
  import opened Grammar
  import opened Code
  import opened RegularGrammars
  import Der

  // ----- the match flag -----------------------------------------------------------------

  /** Whether the machine still knows, behind the encoding of `v`, that it has matched something:
      the search for an absent field in front of end-of-contents octets makes it forget. */
  predicate Settled(v: Der.Value) {
    match v
    case Fields(vs, form) => MatchedAfter(vs, true, form)
    case Items(vs, form) => MatchedAfter(vs, true, form)
    case Chosen(_, w) => Settled(w)
    case Ref(w) => Settled(w)
    case _ => true
  }

  /** The same behind some of the contents, `matched` being so in front of them. */
  predicate MatchedAfter(vs: seq<Der.Value>, matched: bool, form: Der.Form) {
    if vs == [] then matched
    else MatchedAfter(vs[1..], if vs[0].Absent? then matched && form.Definite? else Settled(vs[0]), form)
  }

  lemma {:induction false} MatchedMore(vs: seq<Der.Value>, a: bool, b: bool, form: Der.Form)
    requires MatchedAfter(vs, a, form) && (a ==> b)
    ensures MatchedAfter(vs, b, form)
    decreases vs
  {
    if vs != [] && vs[0].Absent? {
      MatchedMore(vs[1..], a && form.Definite?, b && form.Definite?, form);
    }
  }

  /** Behind a field that is there nothing depends on what was in front of it. */
  lemma {:induction false} MatchedAnew(vs: seq<Der.Value>, a: bool, b: bool, form: Der.Form, i: nat)
    requires i < |vs| && !vs[i].Absent?
    ensures MatchedAfter(vs, a, form) == MatchedAfter(vs, b, form)
    decreases vs
  {
    if vs[0].Absent? {
      assert vs[i] == vs[1..][i - 1];
      MatchedAnew(vs[1..], a && form.Definite?, b && form.Definite?, form, i - 1);
    }
  }

  // ----- the conditions -----------------------------------------------------------------

  predicate StartsWithZero(b: seq<Octet>) {
    b != [] && b[0] == 0
  }

  /** A chosen ANY is none of the alternatives in front of it, and a chosen alternative leaves the
      match flag set. In a constructed element of indefinite length no item is taken for
      end-of-contents octets, and no absent field takes them where nothing else follows. */
  predicate Readable(g: Grammar, fuel: nat, e: Element, v: Der.Value)
    decreases v, e, 1
  {
    match e.compound
    case TypeRef(t) => v.Ref? && t < |g.types| ==> Readable(g, fuel, g.types[t], v.val)
    case TagOverride(inner) => Readable(g, fuel, inner, v)
    case Choice(es) =>
      v.Chosen? && v.index < |es| ==>
        && Readable(g, fuel, es[v.index], v.val) && Settled(v.val)
        && (es[v.index].compound.Any? && v.val.AnyTlv? ==> Unclaimed(g, fuel, es, v.index, v.val.id))
    case Sequence(es) => v.Fields? ==> FieldsReadable(g, fuel, es, v.vals, v.form)
    case SequenceOf(item) => v.Items? ==> ItemsReadable(g, fuel, item, v.vals, v.form)
    case SetOf(item) => v.Items? ==> ItemsReadable(g, fuel, item, v.vals, v.form)
    case _ => true
  }

  predicate FieldsReadable(g: Grammar, fuel: nat, es: seq<Element>, vs: seq<Der.Value>, form: Der.Form)
    decreases vs, es, 0
  {
    es == [] || vs == [] ||
    (&& (if vs[0].Absent? then
           form.Indefinite? && Der.EncodeFields(g, es[1..], vs[1..]) == [] ==> !Grabs(Render(g, es[0], None, fuel), 0)
         else Readable(g, fuel, es[0], vs[0]))
     && FieldsReadable(g, fuel, es[1..], vs[1..], form))
  }

  predicate ItemsReadable(g: Grammar, fuel: nat, item: Element, vs: seq<Der.Value>, form: Der.Form)
    decreases vs, item, 0
  {
    vs == [] ||
    (&& Readable(g, fuel, item, vs[0])
     && (form.Indefinite? ==> !StartsWithZero(Der.Encode(g, item, None, vs[0])))
     && ItemsReadable(g, fuel, item, vs[1..], form))
  }

  // ----- definite lengths ---------------------------------------------------------------

  /** ANY is no alternative of a CHOICE. */
  predicate NoAnyChoice(e: Element) {
    match e.compound
    case Choice(es) => AllNoAnyChoice(es) && forall i :: 0 <= i < |es| ==> !es[i].compound.Any?
    case Sequence(es) => AllNoAnyChoice(es)
    case SequenceOf(item) => NoAnyChoice(item)
    case SetOf(item) => NoAnyChoice(item)
    case TagOverride(inner) => NoAnyChoice(inner)
    case _ => true
  }

  predicate AllNoAnyChoice(es: seq<Element>) {
    es == [] || (NoAnyChoice(es[0]) && AllNoAnyChoice(es[1..]))
  }

  lemma {:induction false} NoAnyChoiceAt(es: seq<Element>, i: nat)
    requires AllNoAnyChoice(es) && i < |es|
    ensures NoAnyChoice(es[i])
    decreases es
  {
    if i > 0 {
      NoAnyChoiceAt(es[1..], i - 1);
    }
  }

  lemma {:induction false} DerIsSettled(v: Der.Value)
    requires Der.IsDer(v)
    ensures Settled(v)
    decreases v, 1
  {
    match v
    case Fields(vs, _) => DerStaysMatched(vs);
    case Items(vs, _) => DerStaysMatched(vs);
    case Chosen(_, w) => DerIsSettled(w);
    case Ref(w) => DerIsSettled(w);
    case _ =>
  }

  lemma {:induction false} DerStaysMatched(vs: seq<Der.Value>)
    requires Der.AllDer(vs)
    ensures MatchedAfter(vs, true, Der.Definite)
    decreases vs, 0
  {
    if vs != [] {
      DerIsSettled(vs[0]);
      DerStaysMatched(vs[1..]);
    }
  }

  /** Every value in the definite form is read as it is meant, in a grammar that does not have ANY
      stand for what no other alternative is. */
  lemma {:induction false} DerIsReadable(g: Grammar, fuel: nat, e: Element, v: Der.Value)
    requires AllNoAnyChoice(g.types) && NoAnyChoice(e) && Der.IsDer(v)
    ensures Readable(g, fuel, e, v)
    decreases v, e, 1
  {
    match e.compound
    case TypeRef(t) =>
      if v.Ref? && t < |g.types| {
        NoAnyChoiceAt(g.types, t);
        DerIsReadable(g, fuel, g.types[t], v.val);
      }
    case TagOverride(inner) => DerIsReadable(g, fuel, inner, v);
    case Choice(es) =>
      if v.Chosen? && v.index < |es| {
        NoAnyChoiceAt(es, v.index);
        DerIsReadable(g, fuel, es[v.index], v.val);
        DerIsSettled(v.val);
      }
    case Sequence(es) => if v.Fields? { DerFieldsReadable(g, fuel, es, v.vals); }
    case SequenceOf(item) => if v.Items? { DerItemsReadable(g, fuel, item, v.vals); }
    case SetOf(item) => if v.Items? { DerItemsReadable(g, fuel, item, v.vals); }
    case _ =>
  }

  lemma {:induction false} DerFieldsReadable(g: Grammar, fuel: nat, es: seq<Element>, vs: seq<Der.Value>)
    requires AllNoAnyChoice(g.types) && AllNoAnyChoice(es) && Der.AllDer(vs)
    ensures FieldsReadable(g, fuel, es, vs, Der.Definite)
    decreases vs, es, 0
  {
    if es != [] && vs != [] {
      DerIsReadable(g, fuel, es[0], vs[0]);
      DerFieldsReadable(g, fuel, es[1..], vs[1..]);
    }
  }

  lemma {:induction false} DerItemsReadable(g: Grammar, fuel: nat, item: Element, vs: seq<Der.Value>)
    requires AllNoAnyChoice(g.types) && NoAnyChoice(item) && Der.AllDer(vs)
    ensures ItemsReadable(g, fuel, item, vs, Der.Definite)
    decreases vs, item, 0
  {
    if vs != [] {
      DerIsReadable(g, fuel, item, vs[0]);
      DerItemsReadable(g, fuel, item, vs[1..]);
    }
  }
}
