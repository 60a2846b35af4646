/** Structured bytecode: what `render_element` puts out for an element, before it is laid
    out as a flat table. */
module Code {
  import opened Grammar
  import opened Bytecode
  import opened Slices

  datatype Kind = SeqKind | SeqOfKind | SetOfKind

  /** `Block` is a constructed element rendered inline, `Call` one rendered out of line, and
      `Sub` the out-of-line code itself. `Refused` marks a SET, on which the compiler exits,
      `Endless` a rendering that never returns. */
  datatype Code =
    | Nil
    | Then(first: Code, rest: Code)
    | MatchAny(cond: bool, act: Option<nat>)
    | MatchPrim(optag: nat, cond: bool, skip: bool, act: Option<nat>)
    | Block(optag: nat, kind: Kind, inner: Code, act: Option<nat>)
    | Call(optag: nat, cond: bool, skip: bool, target: Element)
    | CondFail
    | Act(action: nat)
    | Complete
    | Sub(kind: Kind, inner: Code, act: Option<nat>)
    | Refused
    | Endless

  // ----- what an element renders to -----------------------------------------------------

  function ActCode(act: Option<nat>): Code {
    if act.Some? then Act(act.value) else Nil
  }

  /** `render_element(e, tag)`. `fuel` bounds the chain of type references followed inline;
      a rendering is finite when some fuel leaves no `Endless` in it. */
  function Render(g: Grammar, e: Element, tag: Override, fuel: nat): Code
    decreases fuel, e, 1
  {
    var skip := Skippable(e, tag);
    var cond := Conditional(e, tag);
    var optag := OpTag(e, tag);
    match e.compound
    case NotCompound => MatchPrim(optag, cond, skip, e.action)
    case Any => MatchAny(cond, e.action)
    case TagOverride(inner) => Render(g, inner, Some(e), fuel)
    case TypeRef(t) =>
      if fuel == 0 || t >= |g.types| then Endless
      else Then(Render(g, g.types[t], tag, fuel - 1), ActCode(e.action))
    case Choice(alternatives) =>
      Then(RenderAll(g, alternatives, fuel),
           Then(if skip then Nil else CondFail, ActCode(e.action)))
    case Sequence(fields) =>
      if OutOfLine(g, e, tag) then Call(optag, cond, skip, e)
      else Block(optag, SeqKind, RenderAll(g, fields, fuel), e.action)
    case SequenceOf(item) =>
      if OutOfLine(g, e, tag) then Call(optag, cond, skip, e)
      else Block(optag, SeqOfKind, Render(g, item, None, fuel), e.action)
    case SetOf(item) =>
      if OutOfLine(g, e, tag) then Call(optag, cond, skip, e)
      else Block(optag, SetOfKind, Render(g, item, None, fuel), e.action)
    case Set(_) => Refused
  }

  /** The loop over the children of an element. */
  function RenderAll(g: Grammar, es: seq<Element>, fuel: nat): Code
    decreases fuel, es, 0
  {
    if es == [] then Nil else Then(Render(g, es[0], None, fuel), RenderAll(g, es[1..], fuel))
  }

  /** One turn of `render_out_of_line_list`. */
  function RenderBody(g: Grammar, e: Element, fuel: nat): Code {
    match e.compound
    case Sequence(fields) => Sub(SeqKind, RenderAll(g, fields, fuel), e.action)
    case SequenceOf(item) => Sub(SeqOfKind, Render(g, item, None, fuel), e.action)
    case SetOf(item) => Sub(SetOfKind, Render(g, item, None, fuel), e.action)
    case _ => Endless
  }

  function RenderBodies(g: Grammar, es: seq<Element>, fuel: nat): Code {
    if es == [] then Nil else Then(RenderBody(g, es[0], fuel), RenderBodies(g, es[1..], fuel))
  }

  /** The whole machine, when `order` are the elements rendered out of line. */
  function RenderMachine(g: Grammar, order: seq<Element>, fuel: nat): Code
    requires g.types != []
  {
    Then(Render(g, g.types[0], None, fuel), Then(Complete, RenderBodies(g, order, fuel)))
  }

  // ----- the flat table -----------------------------------------------------------------

  function ActOperand(act: Option<nat>): seq<int> {
    if act.Some? then [act.value] else []
  }

  function Flag(b: bool, weight: int): int {
    if b then weight else 0
  }

  function AnyOp(cond: bool, act: Option<nat>): int {
    MATCH_ANY + Flag(act.Some?, 2) + Flag(cond, 0x10)
  }

  function PrimOp(cond: bool, skip: bool, act: Option<nat>): int {
    MATCH + Flag(skip, 1) + Flag(act.Some?, 2) + Flag(cond, 0x10)
  }

  function CallOp(cond: bool, skip: bool): int {
    MATCH_JUMP + Flag(skip, 1) + Flag(cond, 0x10)
  }

  function EndOp(kind: Kind, act: Option<nat>): int {
    (match kind case SeqKind => END_SEQ case SeqOfKind => END_SEQ_OF case SetOfKind => END_SET_OF) + Flag(act.Some?, 4)
  }

  /** The END op of a body that starts at `head`, with its operands. */
  function End(kind: Kind, head: int, act: Option<nat>): seq<int> {
    [EndOp(kind, act)] + (if kind == SeqKind then [] else [head]) + ActOperand(act)
  }

  function EndSize(kind: Kind, act: Option<nat>): nat {
    1 + (if kind == SeqKind then 0 else 1) + (if act.Some? then 1 else 0)
  }

  function Size(c: Code): nat {
    match c
    case Then(a, b) => Size(a) + Size(b)
    case MatchAny(_, act) => 1 + (if act.Some? then 1 else 0)
    case MatchPrim(_, _, _, act) => 2 + (if act.Some? then 1 else 0)
    case Block(_, kind, inner, act) => 2 + Size(inner) + EndSize(kind, act)
    case Call(_, _, _, _) => 3
    case CondFail => 1
    case Act(_) => 2
    case Complete => 1
    case Sub(kind, inner, act) => Size(inner) + EndSize(kind, act) + 1
    case _ => 0
  }

  /** The `entry_index` of an element; zero until it is set. */
  function Entry(entries: map<Element, int>, e: Element): int {
    if e in entries then entries[e] else 0
  }

  /** The entries put out for `c` when the table has `base` entries already. */
  function Emit(c: Code, entries: map<Element, int>, base: int): (s: seq<int>)
    ensures |s| == Size(c)
  {
    match c
    case Then(a, b) => Emit(a, entries, base) + Emit(b, entries, base + Size(a))
    case MatchAny(cond, act) => [AnyOp(cond, act)] + ActOperand(act)
    case MatchPrim(optag, cond, skip, act) => [PrimOp(cond, skip, act), optag] + ActOperand(act)
    case Block(optag, kind, inner, act) =>
      [MATCH, optag] + Emit(inner, entries, base + 2) + End(kind, base + 2, act)
    case Call(optag, cond, skip, target) => [CallOp(cond, skip), optag, Entry(entries, target)]
    case CondFail => [COND_FAIL]
    case Act(a) => [ACT, a]
    case Complete => [COMPLETE]
    case Sub(kind, inner, act) => Emit(inner, entries, base) + End(kind, base, act) + [RETURN]
    case _ => []
  }

  /** The elements a piece of code calls, in the order the calls are rendered. */
  function Targets(c: Code): seq<Element> {
    match c
    case Then(a, b) => Targets(a) + Targets(b)
    case Block(_, _, inner, _) => Targets(inner)
    case Call(_, _, _, target) => [target]
    case Sub(_, inner, _) => Targets(inner)
    case _ => []
  }

  /** No SET has been met. */
  predicate Allowed(c: Code) {
    match c
    case Then(a, b) => Allowed(a) && Allowed(b)
    case Block(_, _, inner, _) => Allowed(inner)
    case Sub(_, inner, _) => Allowed(inner)
    case Refused => false
    case _ => true
  }

  /** The rendering returns: no endless chain of references has been met. */
  predicate Finite(c: Code) {
    match c
    case Then(a, b) => Finite(a) && Finite(b)
    case Block(_, _, inner, _) => Finite(inner)
    case Sub(_, inner, _) => Finite(inner)
    case Endless => false
    case _ => true
  }

  // ----- code in a table ----------------------------------------------------------------

  /** Table `m` holds the code `c` from entry `base` on. */
  predicate Placed(m: seq<int>, c: Code, entries: map<Element, int>, base: int) {
    0 <= base && base + Size(c) <= |m| && m[base..base + Size(c)] == Emit(c, entries, base)
  }

  lemma {:induction false} EndLength(kind: Kind, head: int, act: Option<nat>)
    ensures |End(kind, head, act)| == EndSize(kind, act)
  {
  }

  lemma {:induction false} EmitThen(a: Code, b: Code, entries: map<Element, int>, base: int)
    ensures Size(Then(a, b)) == Size(a) + Size(b)
    ensures Emit(Then(a, b), entries, base) == Emit(a, entries, base) + Emit(b, entries, base + Size(a))
  {
  }

  lemma {:induction false} PlacedThen(m: seq<int>, a: Code, b: Code, entries: map<Element, int>, base: int)
    requires Placed(m, Then(a, b), entries, base)
    ensures Placed(m, a, entries, base) && Placed(m, b, entries, base + Size(a))
  {
    EmitThen(a, b, entries, base);
    hide Emit, Size;
    Cut(m, base, base + Size(Then(a, b)), Emit(a, entries, base), Emit(b, entries, base + Size(a)));
  }

  /** The END op at `base`, and what stands in its operands. */
  predicate PlacedEnd(m: seq<int>, kind: Kind, head: int, act: Option<nat>, base: int) {
    && 0 <= base && base + EndSize(kind, act) <= |m|
    && m[base] == EndOp(kind, act)
    && (kind != SeqKind ==> m[base + 1] == head)
    && (act.Some? ==> m[base + EndSize(kind, act) - 1] == act.value)
  }

  lemma {:induction false} PlacedEndFrom(m: seq<int>, kind: Kind, head: int, act: Option<nat>, base: int)
    requires 0 <= base && base + EndSize(kind, act) <= |m|
    requires m[base..base + EndSize(kind, act)] == End(kind, head, act)
    ensures PlacedEnd(m, kind, head, act, base)
  {
    At(m, base, base + EndSize(kind, act), End(kind, head, act));
  }

  lemma {:induction false} EmitBlock(c: Code, entries: map<Element, int>, base: int)
    requires c.Block?
    ensures Size(c) == 2 + Size(c.inner) + EndSize(c.kind, c.act)
    ensures Emit(c, entries, base) ==
            [MATCH, c.optag] + Emit(c.inner, entries, base + 2) + End(c.kind, base + 2, c.act)
  {
  }

  lemma {:induction false} PlacedBlock(m: seq<int>, c: Code, entries: map<Element, int>, base: int)
    requires c.Block? && Placed(m, c, entries, base)
    ensures m[base] == MATCH && m[base + 1] == c.optag
    ensures Placed(m, c.inner, entries, base + 2)
    ensures PlacedEnd(m, c.kind, base + 2, c.act, base + 2 + Size(c.inner))
  {
    hide Emit, Size, EndOp, PlacedEnd;
    EmitBlock(c, entries, base);
    EndLength(c.kind, base + 2, c.act);
    hide End, EndSize;
    var opener, inner, end := [MATCH, c.optag], Emit(c.inner, entries, base + 2), End(c.kind, base + 2, c.act);
    assert Emit(c, entries, base) == opener + (inner + end);
    Cut(m, base, base + Size(c), opener, inner + end);
    At(m, base, base + 2, opener);
    assert m[base + 0] == opener[0] && m[base + 1] == opener[1];
    Cut(m, base + 2, base + Size(c), inner, end);
    PlacedEndFrom(m, c.kind, base + 2, c.act, base + 2 + Size(c.inner));
  }

  lemma {:induction false} EmitSub(c: Code, entries: map<Element, int>, base: int)
    requires c.Sub?
    ensures Size(c) == Size(c.inner) + EndSize(c.kind, c.act) + 1
    ensures Emit(c, entries, base) == Emit(c.inner, entries, base) + End(c.kind, base, c.act) + [RETURN]
  {
  }

  lemma {:induction false} PlacedSub(m: seq<int>, c: Code, entries: map<Element, int>, base: int)
    requires c.Sub? && Placed(m, c, entries, base)
    ensures Placed(m, c.inner, entries, base)
    ensures PlacedEnd(m, c.kind, base, c.act, base + Size(c.inner))
    ensures m[base + Size(c) - 1] == RETURN
  {
    hide Emit, Size, EndOp, PlacedEnd;
    EmitSub(c, entries, base);
    EndLength(c.kind, base, c.act);
    hide End, EndSize;
    var inner, end := Emit(c.inner, entries, base), End(c.kind, base, c.act);
    assert Emit(c, entries, base) == inner + (end + [RETURN]);
    Cut(m, base, base + Size(c), inner, end + [RETURN]);
    var e := base + Size(c.inner);
    Cut(m, e, base + Size(c), end, [RETURN]);
    At(m, e + |end|, base + Size(c), [RETURN]);
    PlacedEndFrom(m, c.kind, base, c.act, e);
  }

  /** The entries of the instructions that are no composition. */
  lemma {:induction false} PlacedLeaf(m: seq<int>, c: Code, entries: map<Element, int>, base: int)
    requires Placed(m, c, entries, base)
    ensures c.MatchAny? ==> m[base] == AnyOp(c.cond, c.act) && (c.act.Some? ==> m[base + 1] == c.act.value)
    ensures c.MatchPrim? ==> m[base] == PrimOp(c.cond, c.skip, c.act) && m[base + 1] == c.optag
    ensures c.MatchPrim? && c.act.Some? ==> m[base + 2] == c.act.value
    ensures c.Call? ==>
              && m[base] == CallOp(c.cond, c.skip) && m[base + 1] == c.optag
              && m[base + 2] == Entry(entries, c.target)
    ensures c.CondFail? ==> m[base] == COND_FAIL
    ensures c.Act? ==> m[base] == ACT && m[base + 1] == c.action
    ensures c.Complete? ==> m[base] == COMPLETE
  {
    var s := Emit(c, entries, base);
    At(m, base, base + Size(c), s);
    assert |s| > 0 ==> m[base + 0] == s[0];
  }
}
