/** Grammars the toolchain supports, and that what they render to is sound. */
module SupportedGrammars {
  import opened Octets
  import opened Grammar
  import opened Code
  import opened Queue
  import opened Layout
  import opened Renderer

  predicate TagOk(e: Element) {
    e.cls < 4 && e.number < 31 && (e.conditional ==> e.skippable)
  }

  /** No SET and no EXTERNAL (a constructed element without children), tag numbers below 31,
      flags and methods as `parse_type` sets them. */
  predicate ElementOk(e: Element, nrActions: nat)
    decreases e, 1
  {
    && TagOk(e) && ActionOk(e.action, nrActions)
    && match e.compound
       case NotCompound => !e.cons
       case Any => true
       case TypeRef(_) => true
       case Choice(es) => AllOk(es, nrActions)
       case Sequence(es) => e.cons && AllOk(es, nrActions)
       case SequenceOf(item) => e.cons && ElementOk(item, nrActions)
       case SetOf(item) => e.cons && ElementOk(item, nrActions)
       case Set(_) => false
       case TagOverride(inner) => !e.cons && ElementOk(inner, nrActions)
  }

  predicate AllOk(es: seq<Element>, nrActions: nat)
    decreases es, 0
  {
    es == [] || (ElementOk(es[0], nrActions) && AllOk(es[1..], nrActions))
  }

  /** Rendering ends with this much fuel: references followed inline are not cyclic. The
      numbers of the actions have to fit an octet of the table. */
  ghost predicate Supported(g: Grammar, fuel: nat, nrActions: nat) {
    g.types != [] && AllOk(g.types, nrActions) && AllFinite(g, fuel) && nrActions <= 256
  }

  lemma {:induction false} AllOkAt(es: seq<Element>, i: nat, nrActions: nat)
    requires AllOk(es, nrActions) && i < |es|
    ensures ElementOk(es[i], nrActions)
    decreases es
  {
    if i > 0 {
      AllOkAt(es[1..], i - 1, nrActions);
    }
  }

  lemma {:induction false} OpTagOk(e: Element, tag: Override)
    requires TagOk(e) && (tag.Some? ==> TagOk(tag.value))
    ensures HasConsBit(OpTag(e, tag)) <==> e.cons || (tag.Some? && tag.value.cons)
    ensures OpTag(e, tag) < 256 && !IsLongTag(OpTag(e, tag))
  {
  }

  lemma {:induction false} RenderIsSound(g: Grammar, e: Element, tag: Override, fuel: nat, nrActions: nat)
    requires AllOk(g.types, nrActions) && ElementOk(e, nrActions)
    requires tag.Some? ==> TagOk(tag.value) && !tag.value.cons
    requires Finite(Render(g, e, tag, fuel))
    ensures Sound(Render(g, e, tag, fuel), nrActions)
    decreases fuel, e, 1
  {
    OpTagOk(e, tag);
    hide OpTag, HasConsBit;
    ActIsSound(e.action, nrActions);
    match e.compound
    case TagOverride(inner) => RenderIsSound(g, inner, Some(e), fuel, nrActions);
    case TypeRef(t) =>
      AllOkAt(g.types, t, nrActions);
      RenderIsSound(g, g.types[t], tag, fuel - 1, nrActions);
    case Choice(es) =>
      AllAreSound(g, es, fuel, nrActions);
      assert Sound(Then(if Skippable(e, tag) then Nil else CondFail, ActCode(e.action)), nrActions);
    case Sequence(es) => if !OutOfLine(g, e, tag) { AllAreSound(g, es, fuel, nrActions); }
    case SequenceOf(item) => if !OutOfLine(g, e, tag) { RenderIsSound(g, item, None, fuel, nrActions); }
    case SetOf(item) => if !OutOfLine(g, e, tag) { RenderIsSound(g, item, None, fuel, nrActions); }
    case _ =>
  }

  lemma {:induction false} ActIsSound(act: Option<nat>, nrActions: nat)
    requires ActionOk(act, nrActions)
    ensures Sound(ActCode(act), nrActions)
  {
  }

  lemma {:induction false} AllAreSound(g: Grammar, es: seq<Element>, fuel: nat, nrActions: nat)
    requires AllOk(g.types, nrActions) && AllOk(es, nrActions)
    requires Finite(RenderAll(g, es, fuel))
    ensures Sound(RenderAll(g, es, fuel), nrActions)
    decreases fuel, es, 0
  {
    if es != [] {
      RenderIsSound(g, es[0], None, fuel, nrActions);
      AllAreSound(g, es[1..], fuel, nrActions);
    }
  }

  lemma {:induction false} BelowIsOk(e: Element, t: Element, nrActions: nat)
    requires ElementOk(e, nrActions) && t in Below(e)
    ensures ElementOk(t, nrActions)
    decreases e, 1
  {
    if t != e {
      match e.compound
      case Choice(es) => BelowAllIsOk(es, t, nrActions);
      case Sequence(es) => BelowAllIsOk(es, t, nrActions);
      case SequenceOf(k) => BelowIsOk(k, t, nrActions);
      case SetOf(k) => BelowIsOk(k, t, nrActions);
      case TagOverride(k) => BelowIsOk(k, t, nrActions);
      case _ =>
    }
  }

  lemma {:induction false} BelowAllIsOk(es: seq<Element>, t: Element, nrActions: nat)
    requires AllOk(es, nrActions) && t in BelowAll(es)
    ensures ElementOk(t, nrActions)
    decreases es, 0
  {
    if t in Below(es[0]) {
      BelowIsOk(es[0], t, nrActions);
    } else {
      BelowAllIsOk(es[1..], t, nrActions);
    }
  }

  lemma {:induction false} BodyIsSound(g: Grammar, e: Element, fuel: nat, nrActions: nat)
    requires AllOk(g.types, nrActions) && e in BelowAll(g.types)
    requires Finite(RenderBody(g, e, fuel))
    ensures SoundSub(RenderBody(g, e, fuel), nrActions)
  {
    BelowAllIsOk(g.types, e, nrActions);
    match e.compound
    case Sequence(es) => AllAreSound(g, es, fuel, nrActions);
    case SequenceOf(item) => RenderIsSound(g, item, None, fuel, nrActions);
    case SetOf(item) => RenderIsSound(g, item, None, fuel, nrActions);
  }

  lemma {:induction false} SubsAreSound(g: Grammar, order: seq<Element>, n: nat, fuel: nat, nrActions: nat)
    requires Supported(g, fuel, nrActions) && IsFinal(g, fuel, order) && n <= |order|
    ensures SoundSubs(g, order[n..], fuel, nrActions)
    decreases |order| - n
  {
    hide OrderAfter, RenderBody, BelowAll, AllOk;
    if n < |order| {
      OrderIsBelow(g, fuel, |order|);
      OrderIsPrefix(g, fuel, n, |order|);
      QueueNotEmptyBefore(g, fuel, order, n);
      assert Turn(g, fuel, n, order[n]);
      BodyIsSound(g, order[n], fuel, nrActions);
      assert order[n..][1..] == order[n + 1..];
      SubsAreSound(g, order, n + 1, fuel, nrActions);
    }
  }

  /** What `render` leaves behind for a supported grammar, if it fits in 256 entries, is a
      machine of the kind all later results speak of. */
  lemma {:induction false} CompiledIsValid(g: Grammar, fuel: nat, nrActions: nat, order: seq<Element>,
                        entries: map<Element, int>, m: seq<int>)
    requires Supported(g, fuel, nrActions) && IsFinal(g, fuel, order)
    requires m == Emit(RenderMachine(g, order, fuel), entries, 0) && |m| <= 256
    requires EntriesFrom(g, order, fuel, entries, Size(Render(g, g.types[0], None, fuel)) + 1)
    ensures Machine(g, fuel, order, entries, nrActions, m).Valid()
  {
    hide Emit, RenderBodies;
    AllOkAt(g.types, 0, nrActions);
    RenderIsSound(g, g.types[0], None, fuel, nrActions);
    SubsAreSound(g, order, 0, fuel, nrActions);
    assert order[0..] == order;
    OrderIsClosed(g, fuel, order);
  }

  // ----- the table is determined by the grammar -----------------------------------------

  lemma {:induction false} EmitAgrees(c: Code, entries: map<Element, int>, others: map<Element, int>, base: int)
    requires forall t :: t in Targets(c) ==> Entry(entries, t) == Entry(others, t)
    ensures Emit(c, entries, base) == Emit(c, others, base)
    decreases c
  {
    hide Entry;
    match c
    case Then(a, b) =>
      EmitAgrees(a, entries, others, base);
      EmitAgrees(b, entries, others, base + Size(a));
    case Block(_, _, inner, _) => EmitAgrees(inner, entries, others, base + 2);
    case Sub(_, inner, _) => EmitAgrees(inner, entries, others, base);
    case Call(_, _, _, target) => assert target in Targets(c);
    case _ =>
  }

  lemma {:induction false} EntriesAgree(g: Grammar, order: seq<Element>, fuel: nat, entries: map<Element, int>,
                                        others: map<Element, int>, base: int)
    requires EntriesFrom(g, order, fuel, entries, base) && EntriesFrom(g, order, fuel, others, base)
    ensures forall t :: t in order ==> Entry(entries, t) == Entry(others, t)
    decreases order
  {
    hide RenderBody;
    if order != [] {
      EntriesAgree(g, order[1..], fuel, entries, others, base + Size(RenderBody(g, order[0], fuel)));
    }
  }

  lemma {:induction false} OneOrder(g: Grammar, fuel: nat, order: seq<Element>, other: seq<Element>)
    requires g.types != [] && IsFinal(g, fuel, order) && IsFinal(g, fuel, other)
    ensures order == other
  {
    hide OrderAfter;
    if |order| <= |other| {
      FinalStays(g, fuel, order, |other|);
    } else {
      FinalStays(g, fuel, other, |order|);
    }
  }

  /** Two machines compiled from one grammar have the same table. */
  lemma {:induction false} OneTable(k: Machine, l: Machine)
    requires k.Valid() && l.Valid() && k.g == l.g && k.fuel == l.fuel
    requires IsFinal(k.g, k.fuel, k.order) && IsFinal(l.g, l.fuel, l.order)
    ensures k.order == l.order && k.m == l.m
  {
    hide Emit, RenderBodies, Render, RenderBody, EntriesFrom, Sound, SoundSubs, Targets;
    OneOrder(k.g, k.fuel, k.order, l.order);
    EntriesAgree(k.g, k.order, k.fuel, k.entries, l.entries, k.Last() + 1);
    EmitAgrees(k.Image(), k.entries, l.entries, 0);
  }

  /** The whole compiler: for a supported grammar without SET it never fails, and the table
      is a valid machine. */
  method Compile(g: Grammar, ghost fuel: nat, nrActions: nat) returns (ok: bool, m: seq<int>, ghost k: Machine)
    requires Supported(g, fuel, nrActions)
    ensures ok && k.g == g && k.fuel == fuel && k.nrActions == nrActions && k.m == m
    ensures IsFinal(g, fuel, k.order)
    ensures |m| == Size(k.Image()) && (|m| <= 256 ==> k.Valid())
  {
    hide HasSet, AllFinite, Emit, RenderMachine, Machine.Valid, EntriesFrom, IsFinal;
    NoSetInSupported(g, fuel, nrActions);
    var r := new Renderer(g, fuel);
    SupportedIsFinite(g, fuel, nrActions);
    ok := r.RenderGrammar();
    m := r.out;
    k := Machine(g, fuel, r.order, r.entryIndex, nrActions, m);
    if |m| <= 256 {
      CompiledIsValid(g, fuel, nrActions, r.order, r.entryIndex, m);
    }
  }

  lemma {:induction false} SupportedIsFinite(g: Grammar, fuel: nat, nrActions: nat)
    requires Supported(g, fuel, nrActions)
    ensures g.types != [] && AllFinite(g, fuel)
  {
  }

  lemma {:induction false} NoSetInSupported(g: Grammar, fuel: nat, nrActions: nat)
    requires Supported(g, fuel, nrActions)
    ensures !HasSet(g, fuel)
  {
    hide Render, RenderBody, OrderAfter, BelowAll, AllOk, Finite, Allowed, Sound, SoundSub;
    AllOkAt(g.types, 0, nrActions);
    RenderIsSound(g, g.types[0], None, fuel, nrActions);
    SoundIsAllowed(Render(g, g.types[0], None, fuel), nrActions);
    forall k, e | Turn(g, fuel, k, e)
      ensures Allowed(RenderBody(g, e, fuel))
    {
      OrderIsBelow(g, fuel, k);
      BodyIsSound(g, e, fuel, nrActions);
      SubIsAllowed(RenderBody(g, e, fuel), nrActions);
    }
  }

  lemma {:induction false} SoundIsAllowed(c: Code, nrActions: nat)
    requires Sound(c, nrActions)
    ensures Allowed(c)
  {
    match c
    case Then(a, b) =>
      SoundIsAllowed(a, nrActions);
      SoundIsAllowed(b, nrActions);
    case Block(_, _, inner, _) => SoundIsAllowed(inner, nrActions);
    case _ =>
  }

  lemma {:induction false} SubIsAllowed(c: Code, nrActions: nat)
    requires SoundSub(c, nrActions)
    ensures Allowed(c)
  {
    SoundIsAllowed(c.inner, nrActions);
  }
}
