/** `render`, `render_element` and `render_out_of_line_list`: the two passes that turn a
    grammar into the machine table, with the queue of out-of-line elements threaded through
    `render_next` links that the first pass leaves behind for the second. */
module Renderer {
  import opened Bytecode
  import opened Grammar
  import opened Code
  import opened Queue
  import Layout

  /** The `render_next` pointer of an element; null until it is set. */
  function Link(next: map<Element, Option<Element>>, e: Element): Option<Element> {
    if e in next then next[e] else None
  }

  /** The link the `k`-th out-of-line element ends up with: to its successor if that was
      queued before the element was taken from the queue, else null. */
  function FinalLink(g: Grammar, fuel: nat, k: nat): Option<Element>
    requires g.types != []
  {
    var order := OrderAfter(g, fuel, k);
    if k + 1 < |order| then Some(order[k + 1]) else None
  }

  /** `k` is the number of an element that gets its turn, and `e` that element. */
  ghost predicate Turn(g: Grammar, fuel: nat, k: nat, e: Element)
    requires g.types != []
  {
    k < |OrderAfter(g, fuel, k)| && OrderAfter(g, fuel, k)[k] == e
  }

  /** Links that are null or already what this grammar makes of them. */
  ghost predicate LinksOk(g: Grammar, fuel: nat, next: map<Element, Option<Element>>)
    requires g.types != []
  {
    forall k, e :: Turn(g, fuel, k, e) ==> Link(next, e) == None || Link(next, e) == FinalLink(g, fuel, k)
  }

  /** Where the out-of-line code number `k` starts. */
  function Place(g: Grammar, fuel: nat, order: seq<Element>, k: nat): nat
    requires g.types != [] && k <= |order|
  {
    Size(Render(g, g.types[0], None, fuel)) + 1 + Size(RenderBodies(g, order[..k], fuel))
  }

  /** `entries` knows the place of every element that gets its turn. */
  ghost predicate EntriesKnown(g: Grammar, fuel: nat, entries: map<Element, int>)
    requires g.types != []
  {
    forall k, e :: Turn(g, fuel, k, e) ==> e in entries && entries[e] == Place(g, fuel, OrderAfter(g, fuel, k), k)
  }

  /** The rendering of everything that gets its turn returns. */
  ghost predicate AllFinite(g: Grammar, fuel: nat)
    requires g.types != []
  {
    && Finite(Render(g, g.types[0], None, fuel))
    && forall k, e :: Turn(g, fuel, k, e) ==> Finite(RenderBody(g, e, fuel))
  }

  /** Some element that gets rendered is a SET. */
  ghost predicate HasSet(g: Grammar, fuel: nat)
    requires g.types != []
  {
    || !Allowed(Render(g, g.types[0], None, fuel))
    || exists k, e :: Turn(g, fuel, k, e) && !Allowed(RenderBody(g, e, fuel))
  }

  /** How far a pass has come: what is queued, the number of entries, the table. */
  datatype Progress = Progress(order: seq<Element>, n: nat, out: seq<int>)

  /** From `a` to `b` the code `c` has been put out. */
  predicate Puts(writing: bool, c: Code, entries: map<Element, int>, a: Progress, b: Progress) {
    && b.order == AddAll(a.order, Targets(c))
    && b.n == a.n + Size(c)
    && b.out == a.out + (if writing then Emit(c, entries, a.n) else [])
  }

  lemma {:induction false} PutsThen(writing: bool, c: Code, d: Code, entries: map<Element, int>, p: Progress, q: Progress, r: Progress)
    requires Puts(writing, c, entries, p, q) && Puts(writing, d, entries, q, r)
    ensures Puts(writing, Then(c, d), entries, p, r)
  {
    hide Emit, Size, AddAll;
    EmitThen(c, d, entries, p.n);
    AddAllConcat(p.order, Targets(c), Targets(d));
    assert Targets(Then(c, d)) == Targets(c) + Targets(d);
  }

  lemma {:induction false} PutsBlock(writing: bool, c: Code, entries: map<Element, int>, p: Progress, q: Progress, r: Progress, s: Progress)
    requires c.Block?
    requires q == Progress(p.order, p.n + 2, p.out + if writing then [MATCH, c.optag] else [])
    requires Puts(writing, c.inner, entries, q, r)
    requires s == Progress(r.order, r.n + EndSize(c.kind, c.act),
                           r.out + if writing then End(c.kind, q.n, c.act) else [])
    ensures Puts(writing, c, entries, p, s)
  {
    hide Emit, Size, AddAll, End, EndSize;
    EmitBlock(c, entries, p.n);
    assert Targets(c) == Targets(c.inner);
    if writing {
      var opener, inner, end := [MATCH, c.optag], Emit(c.inner, entries, q.n), End(c.kind, q.n, c.act);
      assert s.out == p.out + opener + inner + end;
      assert p.out + opener + inner + end == p.out + (opener + inner + end);
    }
  }

  lemma {:induction false} PutsSub(writing: bool, c: Code, entries: map<Element, int>, p: Progress, r: Progress, s: Progress)
    requires c.Sub?
    requires Puts(writing, c.inner, entries, p, r)
    requires s == Progress(r.order, r.n + EndSize(c.kind, c.act) + 1,
                           r.out + if writing then End(c.kind, p.n, c.act) + [RETURN] else [])
    ensures Puts(writing, c, entries, p, s)
  {
    hide Emit, Size, AddAll, End, EndSize;
    EmitSub(c, entries, p.n);
    assert Targets(c) == Targets(c.inner);
    if writing {
      var inner, end := Emit(c.inner, entries, p.n), End(c.kind, p.n, c.act) + [RETURN];
      assert s.out == p.out + inner + end;
      assert p.out + inner + end == p.out + (inner + end);
    }
  }

  /** One more out-of-line code behind the others. */
  lemma {:induction false} BodiesSnoc(g: Grammar, es: seq<Element>, e: Element, fuel: nat,
                                      entries: map<Element, int>, base: int)
    ensures var c, d := RenderBodies(g, es, fuel), RenderBodies(g, es + [e], fuel);
            && Size(d) == Size(c) + Size(RenderBody(g, e, fuel))
            && Emit(d, entries, base) == Emit(c, entries, base) + Emit(RenderBody(g, e, fuel), entries, base + Size(c))
    decreases es
  {
    hide RenderBody, Emit, Size;
    var body := RenderBody(g, e, fuel);
    if es == [] {
      assert RenderBodies(g, es + [e], fuel) == Then(body, Nil);
      EmitThen(body, Nil, entries, base);
      EmitNil(entries, base);
      EmitNil(entries, base + Size(body));
    } else {
      var first, rest := RenderBody(g, es[0], fuel), es[1..];
      assert (es + [e])[1..] == rest + [e];
      BodiesSnoc(g, rest, e, fuel, entries, base + Size(first));
      var c, d := RenderBodies(g, rest, fuel), RenderBodies(g, rest + [e], fuel);
      EmitThen(first, c, entries, base);
      EmitThen(first, d, entries, base);
      hide RenderBodies;
      var b1, b2 := Emit(first, entries, base), Emit(c, entries, base + Size(first));
      var b3 := Emit(body, entries, base + Size(first) + Size(c));
      assert b1 + (b2 + b3) == (b1 + b2) + b3;
    }
  }

  lemma {:induction false} EmitNil(entries: map<Element, int>, base: int)
    ensures Size(Nil) == 0 && Emit(Nil, entries, base) == []
  {
  }

  /** The places of a prefix do not depend on what follows it. */
  lemma {:induction false} PlaceOfPrefix(g: Grammar, fuel: nat, order: seq<Element>, more: seq<Element>, k: nat)
    requires g.types != [] && k <= |order| && order <= more
    ensures Place(g, fuel, order, k) == Place(g, fuel, more, k)
  {
    assert order[..k] == more[..k];
  }

  lemma {:induction false} PlaceNext(g: Grammar, fuel: nat, order: seq<Element>, k: nat)
    requires g.types != [] && k < |order|
    ensures Place(g, fuel, order, k + 1) == Place(g, fuel, order, k) + Size(RenderBody(g, order[k], fuel))
  {
    assert order[..k + 1] == order[..k] + [order[k]];
    BodiesSnoc(g, order[..k], order[k], fuel, map[], 0);
  }

  /** Once a pass is over, who gets a turn and when is known. */
  lemma {:induction false} TurnsOfFinal(g: Grammar, fuel: nat, order: seq<Element>, k: nat, e: Element)
    requires g.types != [] && IsFinal(g, fuel, order) && Turn(g, fuel, k, e)
    ensures k < |order| && order[k] == e && OrderAfter(g, fuel, k) <= order
  {
    hide OrderAfter;
    if k >= |order| {
      FinalStays(g, fuel, order, k);
    } else {
      OrderIsPrefix(g, fuel, k, |order|);
    }
  }

  /** Every entry of the final order is where the places say, and the code in between is
      that of all of them. */
  lemma {:induction false} EntriesFromPlaces(g: Grammar, fuel: nat, order: seq<Element>, n: nat,
                                             entries: map<Element, int>)
    requires g.types != [] && n <= |order|
    requires forall i :: n <= i < |order| ==>
               order[i] in entries && entries[order[i]] == Place(g, fuel, order, i)
    ensures Layout.EntriesFrom(g, order[n..], fuel, entries, Place(g, fuel, order, n))
    decreases |order| - n
  {
    hide RenderBody, RenderBodies, Place;
    if n < |order| {
      PlaceNext(g, fuel, order, n);
      assert order[n..][1..] == order[n + 1..];
      EntriesFromPlaces(g, fuel, order, n + 1, entries);
    }
  }

  lemma {:induction false} AddAllOne(order: seq<Element>, e: Element)
    ensures AddAll(order, [e]) == Add(order, e)
  {
    assert AddAll(Add(order, e), [e][1..]) == Add(order, e);
  }

  /** The first `n` elements of `order` are known at their places and hold no SET. */
  ghost predicate EntriesDone(g: Grammar, fuel: nat, order: seq<Element>, n: nat, entries: map<Element, int>)
    requires g.types != [] && n <= |order|
  {
    forall i :: 0 <= i < n ==>
      && order[i] in entries && entries[order[i]] == Place(g, fuel, order, i)
      && Allowed(RenderBody(g, order[i], fuel))
  }

  lemma {:induction false} OneMoreEntry(g: Grammar, fuel: nat, was: seq<Element>, now: seq<Element>, k: nat,
                     entries: map<Element, int>)
    requires g.types != [] && NoDuplicates(was) && was <= now && k < |was|
    requires EntriesDone(g, fuel, was, k, entries) && Allowed(RenderBody(g, was[k], fuel))
    ensures EntriesDone(g, fuel, now, k + 1, entries[was[k] := Place(g, fuel, was, k)])
  {
    hide Place, RenderBody;
    forall i | 0 <= i <= k
      ensures Place(g, fuel, was, i) == Place(g, fuel, now, i)
    {
      PlaceOfPrefix(g, fuel, was, now, i);
    }
  }

  lemma {:induction false} PutsNil(writing: bool, entries: map<Element, int>, p: Progress)
    ensures Puts(writing, Nil, entries, p, p)
  {
  }

  class Renderer {
    const g: Grammar
    ghost const fuel: nat

    var nrEntries: nat
    var entryIndex: map<Element, int>
    var rendered: set<Element>             // elements with ELEMENT_RENDERED set
    var renderList: Option<Element>        // the head of the queue
    var renderTail: Option<Element>        // whose link the next element goes to; None: the head itself
    var renderNext: map<Element, Option<Element>>
    var out: seq<int>

    ghost var order: seq<Element>          // everything queued in this pass
    ghost var popped: nat                  // how much of it has been taken
    ghost var stale: map<Element, Option<Element>>  // the links as this pass found them

    constructor (g: Grammar, ghost fuel: nat)
      ensures this.g == g && this.fuel == fuel
      ensures renderNext == map[] && renderList == None && renderTail == None
      ensures rendered == {} && out == []
    {
      this.g := g;
      this.fuel := fuel;
      nrEntries, entryIndex, rendered := 0, map[], {};
      renderList, renderTail, renderNext := None, None, map[];
      out, order, popped, stale := [], [], 0, map[];
    }

    // ----- the queue --------------------------------------------------------------------

    /** The linked list holds `order[popped..]`; links of elements outside of it are those
        the pass found or, once an element is taken, its final one. */
    ghost predicate QueueOk()
      requires g.types != []
      reads this`order, this`popped, this`rendered, this`renderList, this`renderTail, this`renderNext, this`stale
    {
      && NoDuplicates(order) && popped <= |order|
      && (forall e :: e in rendered <==> e in order)
      && renderList == (if popped < |order| then Some(order[popped]) else None)
      && renderTail == (if popped < |order| then Some(order[|order| - 1]) else None)
      && (forall i :: popped <= i < |order| - 1 ==> Link(renderNext, order[i]) == Some(order[i + 1]))
      && (forall i :: 0 <= i < popped ==> Link(renderNext, order[i]) == FinalLink(g, fuel, i))
      && (forall e :: e !in order || (popped < |order| && e == order[|order| - 1])
            ==> Link(renderNext, e) == Link(stale, e))
    }

    method Enqueue(e: Element)
      requires g.types != [] && QueueOk()
      modifies this`rendered, this`renderList, this`renderTail, this`renderNext, this`order
      ensures QueueOk() && order == Add(old(order), e)
    {
      hide FinalLink;
      if e !in rendered {
        rendered := rendered + {e};
        if renderTail == None {
          renderList := Some(e);
        } else {
          renderNext := renderNext[renderTail.value := Some(e)];
        }
        renderTail := Some(e);
        order := order + [e];
      }
    }

    /** Takes the head of the queue, when everything up to its turn has been queued. */
    method Dequeue() returns (e: Element)
      requires g.types != [] && QueueOk() && LinksOk(g, fuel, stale)
      requires popped < |order| && order == OrderAfter(g, fuel, popped)
      modifies this`renderList, this`renderTail, this`popped
      ensures QueueOk() && popped == old(popped) + 1 && e == order[old(popped)]
    {
      hide OrderAfter;
      e := renderList.value;
      assert Turn(g, fuel, popped, e);
      renderList := Link(renderNext, e);
      if renderList == None {
        renderTail := None;
      }
      popped := popped + 1;
    }

    // ----- rendering --------------------------------------------------------------------

    /** `render_opcode`: only the second pass writes. */
    method Put(writing: bool, x: int)
      modifies this`nrEntries, this`out
      ensures nrEntries == old(nrEntries) + 1
      ensures out == old(out) + (if writing then [x] else [])
    {
      if writing { out := out + [x]; }
      nrEntries := nrEntries + 1;
    }

    method PutAction(writing: bool, act: Option<nat>)
      modifies this`nrEntries, this`out
      ensures nrEntries == old(nrEntries) + |ActOperand(act)|
      ensures out == old(out) + (if writing then ActOperand(act) else [])
    {
      if act.Some? { Put(writing, act.value); }
    }

    /** The END op of a body that starts at `head`. */
    method PutEnd(writing: bool, kind: Kind, head: nat, act: Option<nat>)
      modifies this`nrEntries, this`out
      ensures nrEntries == old(nrEntries) + EndSize(kind, act)
      ensures out == old(out) + (if writing then End(kind, head, act) else [])
    {
      Put(writing, EndOp(kind, act));
      if kind != SeqKind { Put(writing, head); }
      PutAction(writing, act);
    }

    ghost function Now(): Progress
      reads this
    {
      Progress(order, nrEntries, out)
    }

    /** The op, the tag and the jump target of an element that goes out of line. */
    method PutCall(writing: bool, optag: nat, cond: bool, skip: bool, e: Element)
      requires g.types != [] && QueueOk()
      modifies this`nrEntries, this`out, this`rendered, this`renderList, this`renderTail, this`renderNext, this`order
      ensures QueueOk() && Puts(writing, Call(optag, cond, skip, e), entryIndex, old(Now()), Now())
    {
      hide QueueOk, AddAll, Add;
      Put(writing, CallOp(cond, skip));
      Put(writing, optag);
      Put(writing, Entry(entryIndex, e));
      Enqueue(e);
      AddAllOne(old(order), e);
    }

    method PutOpAct(writing: bool, act: Option<nat>)
      modifies this`nrEntries, this`out
      ensures Puts(writing, ActCode(act), entryIndex, old(Now()), Now())
    {
      if act.Some? {
        Put(writing, ACT);
        Put(writing, act.value);
      }
    }

    method PutOpener(writing: bool, optag: nat)
      modifies this`nrEntries, this`out
      ensures Now() == Progress(order, old(nrEntries) + 2, old(out) + if writing then [MATCH, optag] else [])
    {
      Put(writing, MATCH);
      Put(writing, optag);
    }

    /** `render_element`; `ok` is false when it runs into a SET and exits. */
    method RenderElement(writing: bool, e: Element, tag: Override, ghost f: nat) returns (ok: bool)
      requires g.types != [] && QueueOk()
      requires Finite(Render(g, e, tag, f))
      modifies this`nrEntries, this`out, this`rendered, this`renderList, this`renderTail, this`renderNext, this`order
      ensures ok <==> Allowed(Render(g, e, tag, f))
      ensures ok ==> QueueOk() && Puts(writing, Render(g, e, tag, f), entryIndex, old(Now()), Now())
      decreases f, e, 1
    {
      hide QueueOk, AddAll, Emit, Puts, RenderAll;
      var skip := Skippable(e, tag);
      var cond := Conditional(e, tag);
      var optag := OpTag(e, tag);
      ghost var start := Now();
      ghost var check := if skip then Nil else CondFail;
      assert Allowed(ActCode(e.action)) && Allowed(Then(check, ActCode(e.action)));
      ok := true;
      match e.compound
      case NotCompound =>
        PutPrim(writing, optag, cond, skip, e.action);
      case Any =>
        PutAny(writing, cond, e.action);
      case TagOverride(inner) =>
        ok := RenderElement(writing, inner, Some(e), f);
      case TypeRef(t) =>
        ok := RenderElement(writing, g.types[t], tag, f - 1);
        if ok {
          ghost var before := Now();
          PutOpAct(writing, e.action);
          PutsThen(writing, Render(g, g.types[t], tag, f - 1), ActCode(e.action), entryIndex, start, before, Now());
        }
      case Choice(alternatives) =>
        ok := RenderChoice(writing, alternatives, skip, e.action, f);
      case Sequence(fields) =>
        if OutOfLine(g, e, tag) {
          PutCall(writing, optag, cond, skip, e);
        } else {
          ok := RenderFields(writing, optag, fields, e.action, f);
        }
      case SequenceOf(item) =>
        if OutOfLine(g, e, tag) {
          PutCall(writing, optag, cond, skip, e);
        } else {
          ok := RenderLoop(writing, optag, SeqOfKind, item, e.action, f);
        }
      case SetOf(item) =>
        if OutOfLine(g, e, tag) {
          PutCall(writing, optag, cond, skip, e);
        } else {
          ok := RenderLoop(writing, optag, SetOfKind, item, e.action, f);
        }
      case Set(_) =>
        ok := false;
    }

    method RenderChoice(writing: bool, es: seq<Element>, skip: bool, act: Option<nat>, ghost f: nat) returns (ok: bool)
      requires g.types != [] && QueueOk()
      requires Finite(RenderAll(g, es, f))
      modifies this`nrEntries, this`out, this`rendered, this`renderList, this`renderTail, this`renderNext, this`order
      ensures ok <==> Allowed(RenderAll(g, es, f))
      ensures ok ==>
                var code := Then(RenderAll(g, es, f), Then(if skip then Nil else CondFail, ActCode(act)));
                QueueOk() && Puts(writing, code, entryIndex, old(Now()), Now())
      decreases f, es, 1
    {
      hide QueueOk, AddAll, Emit, Puts, RenderAll;
      ghost var start := Now();
      ghost var check := if skip then Nil else CondFail;
      ok := RenderChildren(writing, es, f);
      if ok {
        ghost var before := Now();
        if !skip { PutCondFail(writing); } else { PutsNil(writing, entryIndex, Now()); }
        ghost var checked := Now();
        PutOpAct(writing, act);
        PutsThen(writing, check, ActCode(act), entryIndex, before, checked, Now());
        PutsThen(writing, RenderAll(g, es, f), Then(check, ActCode(act)), entryIndex, start, before, Now());
      }
    }

    /** A SEQUENCE rendered inline. */
    method RenderFields(writing: bool, optag: nat, es: seq<Element>, act: Option<nat>, ghost f: nat) returns (ok: bool)
      requires g.types != [] && QueueOk()
      requires Finite(RenderAll(g, es, f))
      modifies this`nrEntries, this`out, this`rendered, this`renderList, this`renderTail, this`renderNext, this`order
      ensures ok <==> Allowed(RenderAll(g, es, f))
      ensures ok ==>
                var code := Block(optag, SeqKind, RenderAll(g, es, f), act);
                QueueOk() && Puts(writing, code, entryIndex, old(Now()), Now())
      decreases f, es, 1
    {
      hide QueueOk, AddAll, Emit, Puts, RenderAll;
      ghost var start, code := Now(), Block(optag, SeqKind, RenderAll(g, es, f), act);
      PutOpener(writing, optag);
      ghost var afterTag := Now();
      var entry := nrEntries;
      ok := RenderChildren(writing, es, f);
      if ok {
        ghost var inside := Now();
        PutEnd(writing, SeqKind, entry, act);
        PutsBlock(writing, code, entryIndex, start, afterTag, inside, Now());
      }
    }

    /** A SEQUENCE OF or SET OF rendered inline. */
    method RenderLoop(writing: bool, optag: nat, kind: Kind, item: Element, act: Option<nat>, ghost f: nat)
      returns (ok: bool)
      requires g.types != [] && QueueOk()
      requires Finite(Render(g, item, None, f))
      modifies this`nrEntries, this`out, this`rendered, this`renderList, this`renderTail, this`renderNext, this`order
      ensures ok <==> Allowed(Render(g, item, None, f))
      ensures ok ==>
                var code := Block(optag, kind, Render(g, item, None, f), act);
                QueueOk() && Puts(writing, code, entryIndex, old(Now()), Now())
      decreases f, item, 2
    {
      hide QueueOk, AddAll, Emit, Puts, Render;
      ghost var start, code := Now(), Block(optag, kind, Render(g, item, None, f), act);
      PutOpener(writing, optag);
      ghost var afterTag := Now();
      var entry := nrEntries;
      ok := RenderElement(writing, item, None, f);
      if ok {
        ghost var inside := Now();
        PutEnd(writing, kind, entry, act);
        PutsBlock(writing, code, entryIndex, start, afterTag, inside, Now());
      }
    }

    /** The loop over the children of an element. */
    method RenderChildren(writing: bool, es: seq<Element>, ghost f: nat) returns (ok: bool)
      requires g.types != [] && QueueOk()
      requires Finite(RenderAll(g, es, f))
      modifies this`nrEntries, this`out, this`rendered, this`renderList, this`renderTail, this`renderNext, this`order
      ensures ok <==> Allowed(RenderAll(g, es, f))
      ensures ok ==> QueueOk() && Puts(writing, RenderAll(g, es, f), entryIndex, old(Now()), Now())
      decreases f, es, 0
    {
      hide QueueOk, AddAll, Emit, Puts, Render;
      var i := 0;
      ghost var start := Now();
      PutsNil(writing, entryIndex, start);
      while i < |es|
        invariant i <= |es| && QueueOk()
        invariant Finite(RenderAll(g, es[i..], f))
        invariant Allowed(RenderAll(g, es[i..], f)) <==> Allowed(RenderAll(g, es, f))
        invariant forall p :: Puts(writing, RenderAll(g, es[i..], f), entryIndex, Now(), p)
                    ==> Puts(writing, RenderAll(g, es, f), entryIndex, start, p)
      {
        ghost var before := Now();
        assert es[i..][1..] == es[i + 1..];
        ok := RenderElement(writing, es[i], None, f);
        if !ok { return; }
        ghost var after := Now();
        forall p | Puts(writing, RenderAll(g, es[i + 1..], f), entryIndex, after, p)
          ensures Puts(writing, RenderAll(g, es, f), entryIndex, start, p)
        {
          PutsThen(writing, Render(g, es[i], None, f), RenderAll(g, es[i + 1..], f), entryIndex, before, after, p);
        }
        i := i + 1;
      }
      ok := true;
      assert es[|es|..] == [];
      PutsNil(writing, entryIndex, Now());
    }

    method PutPrim(writing: bool, optag: nat, cond: bool, skip: bool, act: Option<nat>)
      modifies this`nrEntries, this`out
      ensures Puts(writing, MatchPrim(optag, cond, skip, act), entryIndex, old(Now()), Now())
    {
      Put(writing, PrimOp(cond, skip, act));
      Put(writing, optag);
      PutAction(writing, act);
    }

    method PutAny(writing: bool, cond: bool, act: Option<nat>)
      modifies this`nrEntries, this`out
      ensures Puts(writing, MatchAny(cond, act), entryIndex, old(Now()), Now())
    {
      Put(writing, AnyOp(cond, act));
      PutAction(writing, act);
    }

    method PutCondFail(writing: bool)
      modifies this`nrEntries, this`out
      ensures Puts(writing, CondFail, entryIndex, old(Now()), Now())
    {
      Put(writing, COND_FAIL);
    }

    // ----- the out-of-line list and the passes ------------------------------------------

    /** The body of one turn: the children of `e`, END and RETURN. */
    method RenderTurn(writing: bool, e: Element) returns (ok: bool)
      requires g.types != [] && QueueOk()
      requires Finite(RenderBody(g, e, fuel))
      modifies this`nrEntries, this`out, this`rendered, this`renderList, this`renderTail, this`renderNext, this`order
      ensures ok <==> Allowed(RenderBody(g, e, fuel))
      ensures ok ==> QueueOk() && Puts(writing, RenderBody(g, e, fuel), entryIndex, old(Now()), Now())
    {
      hide QueueOk, AddAll, Emit, Puts, RenderAll, Render;
      ghost var start, code := Now(), RenderBody(g, e, fuel);
      var entry := nrEntries;
      match e.compound
      case Sequence(fields) =>
        ok := RenderChildren(writing, fields, fuel);
        if ok {
          ghost var inside := Now();
          PutEnd(writing, SeqKind, entry, e.action);
          Put(writing, RETURN);
          PutsSub(writing, code, entryIndex, start, inside, Now());
        }
      case SequenceOf(item) =>
        ok := RenderElement(writing, item, None, fuel);
        if ok {
          ghost var inside := Now();
          PutEnd(writing, SeqOfKind, entry, e.action);
          Put(writing, RETURN);
          PutsSub(writing, code, entryIndex, start, inside, Now());
        }
      case SetOf(item) =>
        ok := RenderElement(writing, item, None, fuel);
        if ok {
          ghost var inside := Now();
          PutEnd(writing, SetOfKind, entry, e.action);
          Put(writing, RETURN);
          PutsSub(writing, code, entryIndex, start, inside, Now());
        }
    }

    /** The main code and COMPLETE. */
    ghost function Head(entries: map<Element, int>): seq<int>
      requires g.types != []
    {
      Emit(Render(g, g.types[0], None, fuel), entries, 0) + [COMPLETE]
    }

    /** Everything taken so far is at its place, in `entryIndex` and, when writing, in `out`. */
    ghost predicate TurnsDone(writing: bool, table: seq<int>, entries: map<Element, int>)
      requires g.types != []
      reads this
    {
      && QueueOk() && order == OrderAfter(g, fuel, popped)
      && nrEntries == Place(g, fuel, order, popped)
      && EntriesDone(g, fuel, order, popped, entryIndex)
      && (writing ==>
            && entryIndex == entries
            && out == table + Emit(RenderBodies(g, order[..popped], fuel), entries, Place(g, fuel, order, 0)))
      && (!writing ==> out == table)
    }

    /** One turn of the loop below. */
    method TakeTurn(writing: bool, ghost table: seq<int>, ghost entries: map<Element, int>) returns (ok: bool)
      requires g.types != [] && AllFinite(g, fuel) && LinksOk(g, fuel, stale)
      requires writing ==> EntriesKnown(g, fuel, entries)
      requires TurnsDone(writing, table, entries) && popped < |order|
      modifies this`nrEntries, this`out, this`rendered, this`renderList, this`renderTail, this`renderNext,
               this`order, this`popped, this`entryIndex
      ensures ok ==> TurnsDone(writing, table, entries) && popped == old(popped) + 1
      ensures !ok ==> HasSet(g, fuel)
    {
      hide OrderAfter, RenderBody, RenderBodies, Place, Emit, AddAll, LinksOk, Render, FinalLink;
      ghost var k, was := popped, order;
      OrderIsDistinct(g, fuel, k);
      hide QueueOk, EntriesDone, NoDuplicates, Puts, Allowed;
      var e := Dequeue();
      assert Turn(g, fuel, k, e);
      hide Turn;
      ghost var before := entryIndex;
      if writing { KnownEntry(k, e, entries); }
      entryIndex := entryIndex[e := nrEntries];
      assert writing ==> entryIndex == before;
      ghost var start := Now();
      ok := RenderTurn(writing, e);
      if ok {
        TurnQueued(k, e, was);
        OneMoreEntry(g, fuel, was, order, k, before);
        TurnPlaced(writing, table, k, e, was, start);
      }
    }

    lemma {:induction false} KnownEntry(k: nat, e: Element, entries: map<Element, int>)
      requires g.types != [] && EntriesKnown(g, fuel, entries) && Turn(g, fuel, k, e)
      ensures e in entries && entries[e] == Place(g, fuel, OrderAfter(g, fuel, k), k)
    {
    }

    lemma {:induction false} TurnPlaced(writing: bool, table: seq<int>, k: nat, e: Element, was: seq<Element>, start: Progress)
      requires g.types != [] && k < |was| <= |order| && was <= order && e == was[k]
      requires Puts(writing, RenderBody(g, e, fuel), entryIndex, start, Now())
      requires start.n == Place(g, fuel, was, k)
      requires writing ==>
                 start.out == table + Emit(RenderBodies(g, was[..k], fuel), entryIndex, Place(g, fuel, was, 0))
      requires !writing ==> start.out == table
      ensures nrEntries == Place(g, fuel, order, k + 1)
      ensures forall i :: 0 <= i <= k ==> Place(g, fuel, was, i) == Place(g, fuel, order, i)
      ensures writing ==>
                out == table + Emit(RenderBodies(g, order[..k + 1], fuel), entryIndex, Place(g, fuel, order, 0))
      ensures !writing ==> out == table
    {
      hide RenderBody, RenderBodies, Place, Emit, AddAll, Render;
      PlaceNext(g, fuel, order, k);
      forall i | 0 <= i <= k
        ensures Place(g, fuel, was, i) == Place(g, fuel, order, i)
      {
        PlaceOfPrefix(g, fuel, was, order, i);
      }
      if writing {
        assert order[..k + 1] == was[..k] + [e];
        BodiesSnoc(g, was[..k], e, fuel, entryIndex, Place(g, fuel, order, 0));
        PlaceIsSum(g, fuel, was, k);
      }
    }

    lemma {:induction false} TurnQueued(k: nat, e: Element, was: seq<Element>)
      requires g.types != [] && Turn(g, fuel, k, e) && was == OrderAfter(g, fuel, k)
      ensures OrderAfter(g, fuel, k + 1) == AddAll(was, Targets(RenderBody(g, e, fuel)))
      ensures was <= OrderAfter(g, fuel, k + 1)
    {
      OrderIsPrefix(g, fuel, k, k + 1);
    }

    /** `render_out_of_line_list`. */
    method RenderOutOfLineList(writing: bool, ghost table: seq<int>, ghost entries: map<Element, int>)
      returns (ok: bool)
      requires g.types != [] && AllFinite(g, fuel) && LinksOk(g, fuel, stale)
      requires writing ==> EntriesKnown(g, fuel, entries)
      requires TurnsDone(writing, table, entries) && popped == 0
      modifies this`nrEntries, this`out, this`rendered, this`renderList, this`renderTail, this`renderNext,
               this`order, this`popped, this`entryIndex
      ensures ok ==> TurnsDone(writing, table, entries) && popped == |order| && IsFinal(g, fuel, order)
      ensures !ok ==> HasSet(g, fuel)
    {
      ok := true;
      while renderList != None
        invariant TurnsDone(writing, table, entries)
        decreases |BelowAll(g.types)| - popped
      {
        hide OrderAfter, BelowAll, Place, RenderBodies, Emit, FinalLink, HasSet, EntriesKnown, LinksOk, AllFinite;
        OrderIsBelow(g, fuel, popped);
        ok := TakeTurn(writing, table, entries);
        if !ok { return; }
      }
    }

    /** One pass over the grammar. */
    method Pass(writing: bool) returns (ok: bool)
      requires g.types != [] && AllFinite(g, fuel)
      requires renderList == None && renderTail == None && rendered == {} && out == []
      requires LinksOk(g, fuel, renderNext)
      requires writing ==> EntriesKnown(g, fuel, entryIndex)
      modifies this
      ensures ok <==> !HasSet(g, fuel)
      ensures ok ==>
                && TurnsDone(writing, if writing then Head(old(entryIndex)) else [], old(entryIndex))
                && popped == |order| && IsFinal(g, fuel, order)
    {
      hide OrderAfter, BelowAll, RenderBodies, Emit, FinalLink, EntriesKnown, LinksOk, Render, RenderBody, AddAll;
      nrEntries := 0;
      order, popped, stale := [], 0, renderNext;
      ghost var entries, start := entryIndex, Now();
      ok := RenderElement(writing, g.types[0], None, fuel);
      if ok {
        Put(writing, COMPLETE);
        ghost var table := if writing then Head(entries) else [];
        BodiesStart(g, fuel, order, entries);
        ok := RenderOutOfLineList(writing, table, entries);
      }
      if ok {
        NoSetMet(writing, if writing then Head(entries) else [], entries);
      }
    }

    lemma {:induction false} NoSetMet(writing: bool, table: seq<int>, entries: map<Element, int>)
      requires g.types != [] && Allowed(Render(g, g.types[0], None, fuel))
      requires TurnsDone(writing, table, entries) && popped == |order| && IsFinal(g, fuel, order)
      ensures !HasSet(g, fuel)
    {
      hide OrderAfter, RenderBody, QueueOk, Place, Render;
      forall k, e | Turn(g, fuel, k, e)
        ensures Allowed(RenderBody(g, e, fuel))
      {
        TurnsOfFinal(g, fuel, order, k, e);
      }
    }

    /** A finished pass leaves the links and the entries as the next one needs them. */
    lemma {:induction false} PassDone(writing: bool, table: seq<int>, entries: map<Element, int>)
      requires g.types != []
      requires TurnsDone(writing, table, entries) && popped == |order| && IsFinal(g, fuel, order)
      ensures LinksOk(g, fuel, renderNext) && EntriesKnown(g, fuel, entryIndex)
      ensures renderList == None && renderTail == None
    {
      hide OrderAfter, RenderBody, Place, Render, FinalLink, Emit, RenderBodies;
      forall k, e | Turn(g, fuel, k, e)
        ensures Link(renderNext, e) == FinalLink(g, fuel, k)
        ensures e in entryIndex && entryIndex[e] == Place(g, fuel, OrderAfter(g, fuel, k), k)
      {
        TurnsOfFinal(g, fuel, order, k, e);
        PlaceOfPrefix(g, fuel, OrderAfter(g, fuel, k), order, k);
      }
    }

    /** `render`: the first pass finds the places, the second one writes the table. It fails
        only on a SET. On success the table is that of the grammar with the elements of
        `order` out of line, each once and at the place `entryIndex` gives for it, and every
        jump in it goes to one of them. */
    method RenderGrammar() returns (ok: bool)
      requires g.types != [] && AllFinite(g, fuel)
      requires renderList == None && renderTail == None && renderNext == map[] && rendered == {} && out == []
      modifies this
      ensures ok <==> !HasSet(g, fuel)
      ensures ok ==>
                && out == Emit(RenderMachine(g, order, fuel), entryIndex, 0)
                && Layout.EntriesFrom(g, order, fuel, entryIndex, Size(Render(g, g.types[0], None, fuel)) + 1)
                && IsFinal(g, fuel, order) && NoDuplicates(order)
                && forall t :: t in Targets(RenderMachine(g, order, fuel)) ==> t in order
    {
      hide OrderAfter, BelowAll, RenderBodies, Emit, FinalLink, QueueOk;
      ok := Pass(false);
      if !ok { return; }
      PassDone(false, [], entryIndex);
      rendered := {};
      out := [];
      ghost var entries := entryIndex;
      ok := Pass(true);
      if ok {
        TableDone(entries);
      }
    }

    lemma {:induction false} TableDone(entries: map<Element, int>)
      requires g.types != []
      requires TurnsDone(true, Head(entries), entries) && popped == |order| && IsFinal(g, fuel, order)
      ensures out == Emit(RenderMachine(g, order, fuel), entryIndex, 0)
      ensures Layout.EntriesFrom(g, order, fuel, entryIndex, Size(Render(g, g.types[0], None, fuel)) + 1)
      ensures NoDuplicates(order)
      ensures forall t :: t in Targets(RenderMachine(g, order, fuel)) ==> t in order
    {
      hide OrderAfter, RenderBodies, Emit, FinalLink, RenderBody, Render, Targets, Size, QueueOk, AddAll;
      hide Layout.EntriesFrom;
      OrderIsClosed(g, fuel, order);
      EntriesFromPlaces(g, fuel, order, 0, entryIndex);
      BodiesStart(g, fuel, order, entries);
      assert order[0..] == order && order[..|order|] == order;
      var main, subs := Render(g, g.types[0], None, fuel), RenderBodies(g, order, fuel);
      EmitThen(main, Then(Complete, subs), entries, 0);
      EmitThen(Complete, subs, entries, Size(main));
      EmitComplete(entries, Size(main));
      assert (Emit(main, entries, 0) + [COMPLETE]) + Emit(subs, entries, Size(main) + 1)
          == Emit(main, entries, 0) + ([COMPLETE] + Emit(subs, entries, Size(main) + 1));
    }
  }

  lemma {:induction false} EmitComplete(entries: map<Element, int>, base: int)
    ensures Size(Complete) == 1 && Emit(Complete, entries, base) == [COMPLETE]
  {
  }

  /** Before any turn is taken. */
  lemma {:induction false} BodiesStart(g: Grammar, fuel: nat, order: seq<Element>, entries: map<Element, int>)
    requires g.types != []
    ensures OrderAfter(g, fuel, 0) == AddAll([], Targets(Render(g, g.types[0], None, fuel)))
    ensures Place(g, fuel, order, 0) == Size(Render(g, g.types[0], None, fuel)) + 1
    ensures Emit(RenderBodies(g, order[..0], fuel), entries, Place(g, fuel, order, 0)) == []
  {
    assert order[..0] == [];
  }

  lemma {:induction false} PlaceIsSum(g: Grammar, fuel: nat, order: seq<Element>, k: nat)
    requires g.types != [] && k <= |order|
    ensures Place(g, fuel, order, k) == Place(g, fuel, order, 0) + Size(RenderBodies(g, order[..k], fuel))
  {
    assert order[..0] == [];
  }
}
