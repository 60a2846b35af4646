/** The order in which elements are rendered out of line, as a function of the grammar. */
module Queue {
  import opened Grammar
  import opened Code

  // ----- queueing each element once -----------------------------------------------------

  function Add(order: seq<Element>, e: Element): seq<Element> {
    if e in order then order else order + [e]
  }

  function AddAll(order: seq<Element>, es: seq<Element>): seq<Element>
    decreases es
  {
    if es == [] then order else AddAll(Add(order, es[0]), es[1..])
  }

  ghost predicate NoDuplicates(order: seq<Element>) {
    forall i, j :: 0 <= i < j < |order| ==> order[i] != order[j]
  }

  lemma {:induction false} AddAllConcat(order: seq<Element>, a: seq<Element>, b: seq<Element>)
    ensures AddAll(order, a + b) == AddAll(AddAll(order, a), b)
    decreases a
  {
    if a == [] {
      assert a + b == b;
    } else {
      assert (a + b)[1..] == a[1..] + b;
      AddAllConcat(Add(order, a[0]), a[1..], b);
    }
  }

  lemma {:induction false} AddAllGrows(order: seq<Element>, es: seq<Element>)
    requires NoDuplicates(order)
    ensures order <= AddAll(order, es) && NoDuplicates(AddAll(order, es))
    ensures forall e :: e in AddAll(order, es) <==> e in order || e in es
    decreases es
  {
    if es != [] {
      AddAllGrows(Add(order, es[0]), es[1..]);
    }
  }

  /** The elements queued so far when `k` of them have been rendered. */
  function OrderAfter(g: Grammar, fuel: nat, k: nat): seq<Element>
    requires g.types != []
  {
    if k == 0 then AddAll([], Targets(Render(g, g.types[0], None, fuel)))
    else
      var order := OrderAfter(g, fuel, k - 1);
      if k - 1 < |order| then AddAll(order, Targets(RenderBody(g, order[k - 1], fuel))) else order
  }

  /** After `k` elements the queue is empty: `order` is all that is rendered out of line. */
  ghost predicate IsFinal(g: Grammar, fuel: nat, order: seq<Element>)
    requires g.types != []
  {
    OrderAfter(g, fuel, |order|) == order
  }

  lemma {:induction false} OrderIsDistinct(g: Grammar, fuel: nat, k: nat)
    requires g.types != []
    ensures NoDuplicates(OrderAfter(g, fuel, k))
    decreases k
  {
    hide Render, RenderBody, AddAll;
    if k == 0 {
      AddAllGrows([], Targets(Render(g, g.types[0], None, fuel)));
    } else {
      OrderIsDistinct(g, fuel, k - 1);
      var order := OrderAfter(g, fuel, k - 1);
      if k - 1 < |order| {
        AddAllGrows(order, Targets(RenderBody(g, order[k - 1], fuel)));
      }
    }
  }

  lemma {:induction false} OrderIsPrefix(g: Grammar, fuel: nat, j: nat, k: nat)
    requires g.types != [] && j <= k
    ensures OrderAfter(g, fuel, j) <= OrderAfter(g, fuel, k)
    decreases k - j
  {
    hide Render, RenderBody, AddAll;
    if j < k {
      OrderIsPrefix(g, fuel, j, k - 1);
      OrderIsDistinct(g, fuel, k - 1);
      var order := OrderAfter(g, fuel, k - 1);
      if k - 1 < |order| {
        AddAllGrows(order, Targets(RenderBody(g, order[k - 1], fuel)));
      }
    }
  }

  lemma {:induction false} FinalStays(g: Grammar, fuel: nat, order: seq<Element>, k: nat)
    requires g.types != [] && IsFinal(g, fuel, order) && |order| <= k
    ensures OrderAfter(g, fuel, k) == order
    decreases k
  {
    hide Render, RenderBody, AddAll;
    if |order| < k {
      FinalStays(g, fuel, order, k - 1);
    }
  }

  /** Whatever the code put out calls has been queued. */
  lemma {:induction false} OrderIsClosed(g: Grammar, fuel: nat, order: seq<Element>)
    requires g.types != [] && IsFinal(g, fuel, order)
    ensures NoDuplicates(order)
    ensures forall t :: t in Targets(RenderMachine(g, order, fuel)) ==> t in order
  {
    OrderIsDistinct(g, fuel, |order|);
    RootTargetsQueued(g, fuel, |order|);
    forall i | 0 <= i < |order|
      ensures forall t :: t in Targets(RenderBody(g, order[i], fuel)) ==> t in order
    {
      BodyTargetsQueued(g, fuel, order, i);
    }
    BodiesTargets(g, fuel, order);
    hide Render, RenderBodies, RenderBody;
    var main, subs := Render(g, g.types[0], None, fuel), RenderBodies(g, order, fuel);
    assert Targets(Then(main, Then(Complete, subs))) == Targets(main) + Targets(Then(Complete, subs));
    assert Targets(Then(Complete, subs)) == [] + Targets(subs);
  }

  lemma {:induction false} RootTargetsQueued(g: Grammar, fuel: nat, k: nat)
    requires g.types != []
    ensures forall t :: t in Targets(Render(g, g.types[0], None, fuel)) ==> t in OrderAfter(g, fuel, k)
  {
    OrderIsPrefix(g, fuel, 0, k);
    hide Render, AddAll;
    AddAllGrows([], Targets(Render(g, g.types[0], None, fuel)));
  }

  lemma {:induction false} BodyTargetsQueued(g: Grammar, fuel: nat, order: seq<Element>, i: nat)
    requires g.types != [] && IsFinal(g, fuel, order) && i < |order|
    ensures forall t :: t in Targets(RenderBody(g, order[i], fuel)) ==> t in order
  {
    hide Render, RenderBody, AddAll;
    OrderIsPrefix(g, fuel, i, |order|);
    OrderIsPrefix(g, fuel, i + 1, |order|);
    QueueNotEmptyBefore(g, fuel, order, i);
    var here := OrderAfter(g, fuel, i);
    OrderIsDistinct(g, fuel, i);
    AddAllGrows(here, Targets(RenderBody(g, here[i], fuel)));
  }

  /** Before the last element is reached there is a next one. */
  lemma {:induction false} QueueNotEmptyBefore(g: Grammar, fuel: nat, order: seq<Element>, i: nat)
    requires g.types != [] && IsFinal(g, fuel, order) && i < |order|
    ensures i < |OrderAfter(g, fuel, i)|
  {
    hide Render, RenderBody, AddAll;
    if |OrderAfter(g, fuel, i)| <= i {
      EmptyStays(g, fuel, i, |order|);
    }
  }

  lemma {:induction false} EmptyStays(g: Grammar, fuel: nat, i: nat, k: nat)
    requires g.types != [] && |OrderAfter(g, fuel, i)| <= i <= k
    ensures OrderAfter(g, fuel, k) == OrderAfter(g, fuel, i)
    decreases k
  {
    hide Render, RenderBody, AddAll;
    if i < k {
      EmptyStays(g, fuel, i, k - 1);
    }
  }

  lemma {:induction false} BodiesTargets(g: Grammar, fuel: nat, order: seq<Element>)
    ensures forall t :: t in Targets(RenderBodies(g, order, fuel))
              ==> exists i :: 0 <= i < |order| && t in Targets(RenderBody(g, order[i], fuel))
    decreases order
  {
    hide RenderBody;
    if order != [] {
      var rest := order[1..];
      BodiesTargets(g, fuel, rest);
      forall t | t in Targets(RenderBodies(g, order, fuel))
        ensures exists i :: 0 <= i < |order| && t in Targets(RenderBody(g, order[i], fuel))
      {
        assert Targets(RenderBodies(g, order, fuel)) ==
               Targets(RenderBody(g, order[0], fuel)) + Targets(RenderBodies(g, rest, fuel));
        if t in Targets(RenderBody(g, order[0], fuel)) {
        } else {
          var i :| 0 <= i < |rest| && t in Targets(RenderBody(g, rest[i], fuel));
          assert order[i + 1] == rest[i];
        }
      }
    }
  }

  // ----- the queue is finite ------------------------------------------------------------

  /** An element and everything below it. */
  function Below(e: Element): set<Element> {
    {e} + match e.compound
          case Choice(es) => BelowAll(es)
          case Sequence(es) => BelowAll(es)
          case SequenceOf(k) => Below(k)
          case SetOf(k) => Below(k)
          case Set(es) => BelowAll(es)
          case TagOverride(k) => Below(k)
          case _ => {}
  }

  function BelowAll(es: seq<Element>): set<Element> {
    if es == [] then {} else Below(es[0]) + BelowAll(es[1..])
  }

  lemma {:induction false} TargetsAreBelow(g: Grammar, e: Element, tag: Override, fuel: nat)
    ensures forall t :: t in Targets(Render(g, e, tag, fuel)) ==> t in Below(e) || t in BelowAll(g.types)
    decreases fuel, e, 1
  {
    assert Targets(ActCode(e.action)) == [];
    match e.compound
    case TagOverride(inner) => TargetsAreBelow(g, inner, Some(e), fuel);
    case TypeRef(t) =>
      if fuel > 0 && t < |g.types| {
        TargetsAreBelow(g, g.types[t], tag, fuel - 1);
        TypeIsBelow(g.types, t);
      }
    case Choice(es) =>
      AllTargetsAreBelow(g, es, fuel);
      var tail := Then(if Skippable(e, tag) then Nil else CondFail, ActCode(e.action));
      assert Targets(tail) == [];
      assert Targets(Render(g, e, tag, fuel)) == Targets(RenderAll(g, es, fuel)) + Targets(tail);
    case Sequence(es) => AllTargetsAreBelow(g, es, fuel);
    case SequenceOf(k) => TargetsAreBelow(g, k, None, fuel);
    case SetOf(k) => TargetsAreBelow(g, k, None, fuel);
    case _ =>
  }

  lemma {:induction false} AllTargetsAreBelow(g: Grammar, es: seq<Element>, fuel: nat)
    ensures forall t :: t in Targets(RenderAll(g, es, fuel)) ==> t in BelowAll(es) || t in BelowAll(g.types)
    decreases fuel, es, 0
  {
    if es != [] {
      TargetsAreBelow(g, es[0], None, fuel);
      AllTargetsAreBelow(g, es[1..], fuel);
    }
  }

  lemma {:induction false} TypeIsBelow(es: seq<Element>, t: nat)
    requires t < |es|
    ensures Below(es[t]) <= BelowAll(es)
  {
    if t > 0 {
      TypeIsBelow(es[1..], t - 1);
    }
  }

  /** Below is transitive. */
  lemma {:induction false} BelowIsClosed(e: Element, t: Element)
    requires t in Below(e)
    ensures Below(t) <= Below(e)
    decreases e, 1
  {
    if t != e {
      match e.compound
      case Choice(es) => BelowAllIsClosed(es, t);
      case Sequence(es) => BelowAllIsClosed(es, t);
      case SequenceOf(k) => BelowIsClosed(k, t);
      case SetOf(k) => BelowIsClosed(k, t);
      case Set(es) => BelowAllIsClosed(es, t);
      case TagOverride(k) => BelowIsClosed(k, t);
      case _ =>
    }
  }

  lemma {:induction false} BelowAllIsClosed(es: seq<Element>, t: Element)
    requires t in BelowAll(es)
    ensures Below(t) <= BelowAll(es)
    decreases es, 0
  {
    if t in Below(es[0]) {
      BelowIsClosed(es[0], t);
    } else {
      BelowAllIsClosed(es[1..], t);
    }
  }

  lemma {:induction false} BodyTargetsAreBelow(g: Grammar, e: Element, fuel: nat)
    requires e in BelowAll(g.types)
    ensures forall t :: t in Targets(RenderBody(g, e, fuel)) ==> t in BelowAll(g.types)
  {
    BelowAllIsClosed(g.types, e);
    match e.compound
    case Sequence(es) => AllTargetsAreBelow(g, es, fuel);
    case SequenceOf(k) => TargetsAreBelow(g, k, None, fuel);
    case SetOf(k) => TargetsAreBelow(g, k, None, fuel);
    case _ =>
  }

  lemma {:induction false} OrderIsBelow(g: Grammar, fuel: nat, k: nat)
    requires g.types != []
    ensures forall e :: e in OrderAfter(g, fuel, k) ==> e in BelowAll(g.types)
    ensures |OrderAfter(g, fuel, k)| <= |BelowAll(g.types)|
    decreases k
  {
    hide RenderBody, Render, AddAll, BelowAll;
    if k == 0 {
      TypeIsBelow(g.types, 0);
      TargetsAreBelow(g, g.types[0], None, fuel);
      AddAllGrows([], Targets(Render(g, g.types[0], None, fuel)));
    } else {
      OrderIsBelow(g, fuel, k - 1);
      OrderIsDistinct(g, fuel, k - 1);
      var order := OrderAfter(g, fuel, k - 1);
      if k - 1 < |order| {
        BodyTargetsAreBelow(g, order[k - 1], fuel);
        AddAllGrows(order, Targets(RenderBody(g, order[k - 1], fuel)));
      }
    }
    OrderIsDistinct(g, fuel, k);
    DistinctFit(OrderAfter(g, fuel, k), BelowAll(g.types));
  }

  lemma {:induction false} DistinctFit(order: seq<Element>, all: set<Element>)
    requires NoDuplicates(order) && forall e :: e in order ==> e in all
    ensures |order| <= |all|
    decreases order
  {
    if order != [] {
      var rest := order[1..];
      assert forall e :: e in rest ==> e in all - {order[0]};
      DistinctFit(rest, all - {order[0]});
    }
  }
}
