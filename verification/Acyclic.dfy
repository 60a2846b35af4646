/** Grammars without cyclic references: their rendering ends. */
module Acyclic {
  import opened Grammar
  import opened Code
  import opened Queue
  import opened Renderer

  /** Every reference in `e` is to a type of rank below `r`. */
  predicate RefsBelow(e: Element, rank: seq<nat>, r: nat)
    decreases e, 1
  {
    match e.compound
    case TypeRef(t) => t < |rank| && rank[t] < r
    case Choice(es) => AllRefsBelow(es, rank, r)
    case Sequence(es) => AllRefsBelow(es, rank, r)
    case SequenceOf(k) => RefsBelow(k, rank, r)
    case SetOf(k) => RefsBelow(k, rank, r)
    case Set(es) => AllRefsBelow(es, rank, r)
    case TagOverride(k) => RefsBelow(k, rank, r)
    case _ => true
  }

  predicate AllRefsBelow(es: seq<Element>, rank: seq<nat>, r: nat)
    decreases es, 0
  {
    es == [] || (RefsBelow(es[0], rank, r) && AllRefsBelow(es[1..], rank, r))
  }

  /** Types refer only to types of lower rank, and no rank is above `top`. */
  ghost predicate IsAcyclic(g: Grammar, rank: seq<nat>, top: nat) {
    && |rank| == |g.types|
    && forall t :: 0 <= t < |g.types| ==> rank[t] <= top && RefsBelow(g.types[t], rank, rank[t])
  }

  lemma {:induction false} RendersFinitely(g: Grammar, rank: seq<nat>, top: nat, e: Element, tag: Override, r: nat, fuel: nat)
    requires IsAcyclic(g, rank, top) && RefsBelow(e, rank, r) && r <= fuel
    ensures Finite(Render(g, e, tag, fuel))
    decreases fuel, e, 1
  {
    match e.compound
    case TagOverride(inner) => RendersFinitely(g, rank, top, inner, Some(e), r, fuel);
    case TypeRef(t) =>
      RendersFinitely(g, rank, top, g.types[t], tag, rank[t], fuel - 1);
      assert Finite(ActCode(e.action));
    case Choice(es) =>
      AllRenderFinitely(g, rank, top, es, r, fuel);
      assert Finite(ActCode(e.action));
      assert Finite(Then(if Skippable(e, tag) then Nil else CondFail, ActCode(e.action)));
    case Sequence(es) => AllRenderFinitely(g, rank, top, es, r, fuel);
    case SequenceOf(k) => RendersFinitely(g, rank, top, k, None, r, fuel);
    case SetOf(k) => RendersFinitely(g, rank, top, k, None, r, fuel);
    case _ =>
  }

  lemma {:induction false} AllRenderFinitely(g: Grammar, rank: seq<nat>, top: nat, es: seq<Element>, r: nat, fuel: nat)
    requires IsAcyclic(g, rank, top) && AllRefsBelow(es, rank, r) && r <= fuel
    ensures Finite(RenderAll(g, es, fuel))
    decreases fuel, es, 0
  {
    if es != [] {
      RendersFinitely(g, rank, top, es[0], None, r, fuel);
      AllRenderFinitely(g, rank, top, es[1..], r, fuel);
    }
  }

  lemma {:induction false} BelowRefs(e: Element, y: Element, rank: seq<nat>, r: nat)
    requires RefsBelow(e, rank, r) && y in Below(e)
    ensures RefsBelow(y, rank, r)
    decreases e, 1
  {
    if y != e {
      match e.compound
      case Choice(es) => BelowAllRefs(es, y, rank, r);
      case Sequence(es) => BelowAllRefs(es, y, rank, r);
      case SequenceOf(k) => BelowRefs(k, y, rank, r);
      case SetOf(k) => BelowRefs(k, y, rank, r);
      case Set(es) => BelowAllRefs(es, y, rank, r);
      case TagOverride(k) => BelowRefs(k, y, rank, r);
      case _ =>
    }
  }

  lemma {:induction false} BelowAllRefs(es: seq<Element>, y: Element, rank: seq<nat>, r: nat)
    requires AllRefsBelow(es, rank, r) && y in BelowAll(es)
    ensures RefsBelow(y, rank, r)
    decreases es, 0
  {
    if y in Below(es[0]) {
      BelowRefs(es[0], y, rank, r);
    } else {
      BelowAllRefs(es[1..], y, rank, r);
    }
  }

  lemma {:induction false} RefsBelowMore(e: Element, rank: seq<nat>, r: nat, more: nat)
    requires RefsBelow(e, rank, r) && r <= more
    ensures RefsBelow(e, rank, more)
    decreases e, 1
  {
    match e.compound
    case Choice(es) => AllRefsBelowMore(es, rank, r, more);
    case Sequence(es) => AllRefsBelowMore(es, rank, r, more);
    case SequenceOf(k) => RefsBelowMore(k, rank, r, more);
    case SetOf(k) => RefsBelowMore(k, rank, r, more);
    case Set(es) => AllRefsBelowMore(es, rank, r, more);
    case TagOverride(k) => RefsBelowMore(k, rank, r, more);
    case _ =>
  }

  lemma {:induction false} AllRefsBelowMore(es: seq<Element>, rank: seq<nat>, r: nat, more: nat)
    requires AllRefsBelow(es, rank, r) && r <= more
    ensures AllRefsBelow(es, rank, more)
    decreases es, 0
  {
    if es != [] {
      RefsBelowMore(es[0], rank, r, more);
      AllRefsBelowMore(es[1..], rank, r, more);
    }
  }

  lemma {:induction false} TypesBelow(g: Grammar, rank: seq<nat>, top: nat, n: nat)
    requires IsAcyclic(g, rank, top) && n <= |g.types|
    ensures AllRefsBelow(g.types[n..], rank, top)
    decreases |g.types| - n
  {
    if n < |g.types| {
      RefsBelowMore(g.types[n], rank, rank[n], top);
      TypesBelow(g, rank, top, n + 1);
      assert g.types[n..][1..] == g.types[n + 1..];
    }
  }

  lemma {:induction false} BodyIsFinite(g: Grammar, rank: seq<nat>, top: nat, e: Element, fuel: nat)
    requires IsAcyclic(g, rank, top) && RefsBelow(e, rank, top) && top <= fuel
    requires e.compound.Sequence? || e.compound.SequenceOf? || e.compound.SetOf?
    ensures Finite(RenderBody(g, e, fuel))
  {
    match e.compound
    case Sequence(es) => AllRenderFinitely(g, rank, top, es, top, fuel);
    case SequenceOf(k) => RendersFinitely(g, rank, top, k, None, top, fuel);
    case SetOf(k) => RendersFinitely(g, rank, top, k, None, top, fuel);
  }

  /** What is called is a constructed element. */
  lemma {:induction false} CallsAreConstructed(g: Grammar, e: Element, tag: Override, fuel: nat)
    ensures forall y :: y in Targets(Render(g, e, tag, fuel)) ==>
              y.compound.Sequence? || y.compound.SequenceOf? || y.compound.SetOf?
    decreases fuel, e, 1
  {
    assert Targets(ActCode(e.action)) == [];
    match e.compound
    case TagOverride(inner) => CallsAreConstructed(g, inner, Some(e), fuel);
    case TypeRef(t) => if fuel > 0 && t < |g.types| { CallsAreConstructed(g, g.types[t], tag, fuel - 1); }
    case Choice(es) =>
      AllCallsAreConstructed(g, es, fuel);
      assert Targets(Then(if Skippable(e, tag) then Nil else CondFail, ActCode(e.action))) == [];
    case Sequence(es) => AllCallsAreConstructed(g, es, fuel);
    case SequenceOf(k) => CallsAreConstructed(g, k, None, fuel);
    case SetOf(k) => CallsAreConstructed(g, k, None, fuel);
    case _ =>
  }

  lemma {:induction false} AllCallsAreConstructed(g: Grammar, es: seq<Element>, fuel: nat)
    ensures forall y :: y in Targets(RenderAll(g, es, fuel)) ==>
              y.compound.Sequence? || y.compound.SequenceOf? || y.compound.SetOf?
    decreases fuel, es, 0
  {
    if es != [] {
      CallsAreConstructed(g, es[0], None, fuel);
      AllCallsAreConstructed(g, es[1..], fuel);
    }
  }

  lemma {:induction false} QueuedAreConstructed(g: Grammar, fuel: nat, k: nat)
    requires g.types != []
    ensures forall y :: y in OrderAfter(g, fuel, k) ==>
              y.compound.Sequence? || y.compound.SequenceOf? || y.compound.SetOf?
    decreases k
  {
    hide Render, AddAll;
    if k == 0 {
      CallsAreConstructed(g, g.types[0], None, fuel);
      AddAllGrows([], Targets(Render(g, g.types[0], None, fuel)));
    } else {
      QueuedAreConstructed(g, fuel, k - 1);
      OrderIsDistinct(g, fuel, k - 1);
      var order := OrderAfter(g, fuel, k - 1);
      if k - 1 < |order| {
        BodyCallsAreConstructed(g, order[k - 1], fuel);
        hide RenderBody;
        AddAllGrows(order, Targets(RenderBody(g, order[k - 1], fuel)));
      }
    }
  }

  lemma {:induction false} BodyCallsAreConstructed(g: Grammar, e: Element, fuel: nat)
    ensures forall y :: y in Targets(RenderBody(g, e, fuel)) ==>
              y.compound.Sequence? || y.compound.SequenceOf? || y.compound.SetOf?
  {
    match e.compound
    case Sequence(es) => AllCallsAreConstructed(g, es, fuel);
    case SequenceOf(k) => CallsAreConstructed(g, k, None, fuel);
    case SetOf(k) => CallsAreConstructed(g, k, None, fuel);
    case _ =>
  }

  /** The rendering of a grammar without cyclic references ends. */
  lemma {:induction false} AcyclicIsFinite(g: Grammar, rank: seq<nat>, top: nat, fuel: nat)
    requires IsAcyclic(g, rank, top) && g.types != [] && top <= fuel
    ensures AllFinite(g, fuel)
  {
    RendersFinitely(g, rank, top, g.types[0], None, rank[0], fuel);
    TypesBelow(g, rank, top, 0);
    assert g.types[0..] == g.types;
    hide Render, RenderBody, OrderAfter, BelowAll, Finite;
    forall k, e | Turn(g, fuel, k, e)
      ensures Finite(RenderBody(g, e, fuel))
    {
      OrderIsBelow(g, fuel, k);
      QueuedAreConstructed(g, fuel, k);
      BelowAllRefs(g.types, e, rank, top);
      BodyIsFinite(g, rank, top, e, fuel);
    }
  }
}
