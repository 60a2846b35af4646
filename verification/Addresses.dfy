/** Addresses in a parsed grammar. The compiler tells elements apart by their address, the
    model by their value, address included: no two elements of a grammar share one. */
module Addresses {
  import opened Grammar
  import opened Parser
  import opened FrontEnd
  import opened Queue
  import Definitions

  /** Everything strictly below an element with these children. */
  function Under(c: Compound): set<Element> {
    match c
    case Choice(es) => BelowAll(es)
    case Sequence(es) => BelowAll(es)
    case SequenceOf(k) => Below(k)
    case SetOf(k) => Below(k)
    case Set(es) => BelowAll(es)
    case TagOverride(k) => Below(k)
    case _ => {}
  }

  lemma {:induction false} BelowIs(e: Element)
    ensures Below(e) == {e} + Under(e.compound)
  {
  }

  /** All addresses lie in `from`..`to`. */
  ghost predicate InRange(es: set<Element>, from: nat, to: nat) {
    forall y :: y in es ==> from <= y.id < to
  }

  /** The elements of `a` come before those of `b`. */
  ghost predicate Precedes(a: set<Element>, b: set<Element>) {
    forall y, z :: y in a && z in b ==> y.id < z.id
  }

  /** An element has an address before all that is below it, and so has every element below;
      the ranges of siblings follow each other. */
  ghost predicate Addressed(e: Element)
    decreases e, 1
  {
    && Precedes({e}, Under(e.compound))
    && match e.compound
       case Choice(es) => AllAddressed(es)
       case Sequence(es) => AllAddressed(es)
       case SequenceOf(k) => Addressed(k)
       case SetOf(k) => Addressed(k)
       case Set(es) => AllAddressed(es)
       case TagOverride(k) => Addressed(k)
       case _ => true
  }

  ghost predicate AllAddressed(es: seq<Element>)
    decreases es, 0
  {
    es == [] || (Addressed(es[0]) && AllAddressed(es[1..]) && Precedes(Below(es[0]), BelowAll(es[1..])))
  }

  ghost predicate BodyAddressed(c: Compound) {
    match c
    case Choice(es) => AllAddressed(es)
    case Sequence(es) => AllAddressed(es)
    case SequenceOf(k) => Addressed(k)
    case SetOf(k) => Addressed(k)
    case Set(es) => AllAddressed(es)
    case TagOverride(k) => Addressed(k)
    case _ => true
  }

  lemma {:induction false} AddressedByParts(e: Element)
    ensures Addressed(e) <==> Precedes({e}, Under(e.compound)) && BodyAddressed(e.compound)
  {
  }

  // ----- what lowering gives ------------------------------------------------------------

  lemma {:induction false} LowerRange(t: Tree, id: nat, def: Option<nat>, actions: seq<string>)
    ensures var (e, next) := Lower(t, id, def, actions); Addressed(e) && InRange(Below(e), id, next)
    decreases t, 1
  {
    BodyRange(t.body, id + 1, actions);
    var e := Lower(t, id, def, actions).0;
    BelowIs(e);
    AddressedByParts(e);
    hide LowerBody, Below, ActionIndex, Under, Addressed, BodyAddressed;
  }

  lemma {:induction false} BodyRange(b: Body, id: nat, actions: seq<string>)
    ensures var (c, next) := LowerBody(b, id, actions); BodyAddressed(c) && InRange(Under(c), id, next)
    decreases b, 0
  {
    hide Below, BelowAll, Lower, LowerAll, InRange, Addressed, AllAddressed;
    match b
    case OneOf(children) => AllRange(children, id, actions);
    case AllOf(children) => AllRange(children, id, actions);
    case AnySome(children) => AllRange(children, id, actions);
    case ManyOf(child) => LowerRange(child, id, None, actions);
    case SetFrom(child) => LowerRange(child, id, None, actions);
    case Override(child) => LowerRange(child, id, None, actions);
    case _ => NothingInRange(id);
  }

  lemma {:induction false} NothingInRange(id: nat)
    ensures InRange({}, id, id)
  {
  }

  lemma {:induction false} Joined(e: Element, es: seq<Element>, from: nat, mid: nat, to: nat)
    requires Addressed(e) && InRange(Below(e), from, mid) && AllAddressed(es) && InRange(BelowAll(es), mid, to)
    requires from <= mid <= to
    ensures AllAddressed([e] + es) && InRange(BelowAll([e] + es), from, to)
  {
    assert ([e] + es)[1..] == es;
    hide Below, Addressed;
  }

  lemma {:induction false} AllRange(ts: seq<Tree>, id: nat, actions: seq<string>)
    ensures var (es, next) := LowerAll(ts, id, actions); AllAddressed(es) && InRange(BelowAll(es), id, next)
    decreases ts, 0
  {
    hide Below, InRange, Addressed, Lower;
    if ts == [] {
      NothingInRange(id);
    } else {
      var (e, mid) := Lower(ts[0], id, None, actions);
      LowerRange(ts[0], id, None, actions);
      AllRange(ts[1..], mid, actions);
      var (es, next) := LowerAll(ts[1..], mid, actions);
      hide LowerAll, BelowAll, AllAddressed;
      Joined(e, es, id, mid, next);
    }
  }

  /** The definitions from number `i` on, with addresses from `id` on. */
  lemma {:induction false} DefsRange(ts: seq<Tree>, i: nat, id: nat, actions: seq<string>) returns (next: nat)
    ensures next >= id
    ensures var es := LowerDefs(ts, i, id, actions); AllAddressed(es) && InRange(BelowAll(es), id, next)
    decreases ts
  {
    hide Below, InRange, Addressed, Lower;
    if ts == [] {
      next := id;
      NothingInRange(id);
    } else {
      var (e, mid) := Lower(ts[0], id, Some(i), actions);
      LowerRange(ts[0], id, Some(i), actions);
      next := DefsRange(ts[1..], i + 1, mid, actions);
      var es := LowerDefs(ts[1..], i + 1, mid, actions);
      hide BelowAll, AllAddressed;
      Joined(e, es, id, mid, next);
    }
  }

  // ----- addresses decide ---------------------------------------------------------------

  lemma {:induction false} SameAddress(e: Element, y: Element, z: Element)
    requires Addressed(e) && y in Below(e) && z in Below(e) && y.id == z.id
    ensures y == z
    decreases e, 1
  {
    BelowIs(e);
    if y != e && z != e {
      match e.compound
      case Choice(es) => SameAddressAll(es, y, z);
      case Sequence(es) => SameAddressAll(es, y, z);
      case SequenceOf(k) => SameAddress(k, y, z);
      case SetOf(k) => SameAddress(k, y, z);
      case Set(es) => SameAddressAll(es, y, z);
      case TagOverride(k) => SameAddress(k, y, z);
    }
  }

  lemma {:induction false} SameAddressAll(es: seq<Element>, y: Element, z: Element)
    requires AllAddressed(es) && y in BelowAll(es) && z in BelowAll(es) && y.id == z.id
    ensures y == z
    decreases es, 0
  {
    hide Below, Addressed;
    if y in Below(es[0]) {
      SameAddress(es[0], y, z);
    } else {
      SameAddressAll(es[1..], y, z);
    }
  }

  /** The ranges of two types, or of two children of one element, do not overlap. */
  lemma {:induction false} SiblingsApart(es: seq<Element>, i: nat, j: nat)
    requires AllAddressed(es) && i < j < |es|
    ensures Precedes(Below(es[i]), Below(es[j]))
    decreases es
  {
    hide Below, Addressed;
    if i > 0 {
      SiblingsApart(es[1..], i - 1, j - 1);
    } else {
      TypeIsBelow(es[1..], j - 1);
    }
  }

  /** In the grammar of parsed definitions different types, and different children of one
      element, occupy disjoint ranges of addresses, and an address belongs to one element. */
  lemma {:induction false} OneAddressEach(p: Definitions.Parsed)
    ensures var types := ToGrammar(p).types;
            && AllAddressed(types)
            && (forall i, j :: 0 <= i < j < |types| ==> Precedes(Below(types[i]), Below(types[j])))
            && (forall y, z :: y in BelowAll(types) && z in BelowAll(types) && y.id == z.id ==> y == z)
  {
    var next := DefsRange(p.trees, 0, 0, p.actions);
    var types := ToGrammar(p).types;
    hide Below, BelowAll, Addressed, LowerDefs, AllAddressed, Precedes;
    forall i, j | 0 <= i < j < |types|
      ensures Precedes(Below(types[i]), Below(types[j]))
    {
      SiblingsApart(types, i, j);
    }
    forall y, z | y in BelowAll(types) && z in BelowAll(types) && y.id == z.id
      ensures y == z
    {
      SameAddressAll(types, y, z);
    }
  }

  /** So queueing by address is queueing by value: at every moment, an element is on the list
      exactly if one with its address is, and no address is on the list twice. */
  lemma {:induction false} QueuedByAddress(p: Definitions.Parsed, fuel: nat, n: nat)
    requires ToGrammar(p).types != []
    ensures var g := ToGrammar(p);
            var order := OrderAfter(g, fuel, n);
            && (forall i, j :: 0 <= i < j < |order| ==> order[i].id != order[j].id)
            && (forall e :: e in BelowAll(g.types) ==> (e in order <==> exists i :: 0 <= i < |order| && order[i].id == e.id))
  {
    var g := ToGrammar(p);
    OneAddressEach(p);
    OrderIsBelow(g, fuel, n);
    OrderIsDistinct(g, fuel, n);
    hide BelowAll, OrderAfter, AllAddressed, ToGrammar, Below, Precedes;
    var order := OrderAfter(g, fuel, n);
    assert forall i :: 0 <= i < |order| ==> order[i] in order;
  }
}
