/** Where the instructions of a rendered machine start, how deep each is nested, and what
    one instruction may lead to. */
module Layout {
  import opened Octets
  import opened Bytecode
  import opened Grammar
  import opened Code

  /** An instruction of `c`, laid out from `base`, starts at `pc`. */
  predicate Starts(c: Code, base: int, pc: int) {
    match c
    case Nil => false
    case Then(a, b) => if pc < base + Size(a) then Starts(a, base, pc) else Starts(b, base + Size(a), pc)
    case Block(_, _, inner, _) =>
      var end := base + 2 + Size(inner);
      if pc < base + 2 then pc == base
      else if pc < end then Starts(inner, base + 2, pc)
      else pc == end
    case Sub(_, inner, _) =>
      var end := base + Size(inner);
      if pc < end then Starts(inner, base, pc) else pc == end || pc == base + Size(c) - 1
    case Refused => false
    case Endless => false
    case _ => pc == base
  }

  /** Number of constructed elements the code has opened and not closed when the machine
      stands at `pc`, if it is `d` at the start of `c`. Out-of-line code is entered with the
      one element its caller has opened. */
  function Depth(c: Code, base: int, d: int, pc: int): int {
    match c
    case Then(a, b) => if pc < base + Size(a) then Depth(a, base, d, pc) else Depth(b, base + Size(a), d, pc)
    case Block(_, _, inner, _) =>
      if pc < base + 2 then d
      else if pc < base + 2 + Size(inner) then Depth(inner, base + 2, d + 1, pc)
      else d + 1
    case Sub(_, inner, _) =>
      if pc < base + Size(inner) then Depth(inner, base, 1, pc)
      else if pc == base + Size(inner) then 1
      else 0
    case _ => d
  }

  predicate ActionOk(act: Option<nat>, nrActions: nat) {
    act.Some? ==> act.value < nrActions
  }

  /** Code as the compiler renders it from supported elements. */
  predicate Sound(c: Code, nrActions: nat) {
    match c
    case Nil => true
    case Then(a, b) => Sound(a, nrActions) && Sound(b, nrActions)
    case MatchAny(_, act) => ActionOk(act, nrActions)
    case MatchPrim(optag, cond, skip, act) =>
      optag < 256 && !HasConsBit(optag) && (cond ==> skip) && ActionOk(act, nrActions)
    case Block(optag, _, inner, act) =>
      optag < 256 && HasConsBit(optag) && Sound(inner, nrActions) && ActionOk(act, nrActions)
    case Call(optag, cond, skip, _) => optag < 256 && HasConsBit(optag) && (cond ==> skip)
    case CondFail => true
    case Act(a) => a < nrActions
    case _ => false
  }

  predicate SoundSub(c: Code, nrActions: nat) {
    c.Sub? && Sound(c.inner, nrActions) && ActionOk(c.act, nrActions)
  }

  /** The machine can go on at `n` at depth `want`: inside `c`, or just behind it at the
      depth `c` started from. */
  predicate Goes(c: Code, base: int, d: int, n: int, want: int) {
    || (n == base + Size(c) && want == d)
    || Within(c, base, d, n, want)
  }

  predicate Within(c: Code, base: int, d: int, n: int, want: int) {
    base <= n < base + Size(c) && Starts(c, base, n) && Depth(c, base, d, n) == want
  }

  predicate IsActionAt(m: seq<int>, nrActions: nat, i: int) {
    0 <= i < |m| && 0 <= m[i] < nrActions
  }

  /** Entry `i` of a table, 0 outside of it. */
  function Cell(m: seq<int>, i: int): int {
    if 0 <= i < |m| then m[i] else 0
  }

  /** The instruction at `pc`, nested `k` deep, is one the machine knows, other than COMPLETE;
      it lies inside the table, names existing actions, and what follows it satisfies `goes`.
      RETURN appears only where `ret` allows it. */
  ghost predicate Typed(m: seq<int>, nrActions: nat, calls: int -> bool, ret: bool, pc: int, k: int,
                        goes: (int, int) -> bool)
  {
    && 0 <= pc < |m|
    && var op, n := m[pc], pc + OpLength(m[pc]);
    && pc < n <= |m|
    && ((IsAnyMatch(op) && (HasAct(op) ==> IsActionAt(m, nrActions, pc + 1)) && goes(n, k))
        || (IsPlainMatch(op) && (HasAct(op) ==> IsActionAt(m, nrActions, pc + 2))
            && (HasConsBit(m[pc + 1]) ==> op == MATCH)
            && goes(n, if HasConsBit(m[pc + 1]) then k + 1 else k))
        || (IsJumpMatch(op) && HasConsBit(m[pc + 1]) && calls(Cell(m, pc + 2)) && goes(n, k))
        || (op == COND_FAIL && goes(n, k))
        || (op == ACT && IsActionAt(m, nrActions, pc + 1) && goes(n, k))
        || (IsEnd(op) && op !in {0x21, 0x25} && k >= 1 && goes(n, k - 1)
            && (EndsWithAct(op) ==> IsActionAt(m, nrActions, n - 1))
            && (EndsOf(op) ==> goes(Cell(m, pc + 1), k)))
        || (op == RETURN && ret && k == 0))
  }

  ghost function CallsOf(c: Code, entries: map<Element, int>): int -> bool {
    x => exists t :: t in Targets(c) && x == Entry(entries, t)
  }

  ghost function GoesIn(c: Code, base: int, d: int): (int, int) -> bool {
    (n, want) => Goes(c, base, d, n, want)
  }

  ghost function WithinOf(c: Code, base: int, d: int): (int, int) -> bool {
    (n, want) => Within(c, base, d, n, want)
  }

  lemma {:induction false} TypedMono(m: seq<int>, nrActions: nat, calls: int -> bool, calls': int -> bool,
                  ret: bool, ret': bool, pc: int, k: int,
                  goes: (int, int) -> bool, goes': (int, int) -> bool)
    requires Typed(m, nrActions, calls, ret, pc, k, goes)
    requires ret ==> ret'
    requires forall x :: calls(x) ==> calls'(x)
    requires forall n, w :: goes(n, w) ==> goes'(n, w)
    ensures Typed(m, nrActions, calls', ret', pc, k, goes')
  {
    hide OpLength, IsActionAt, Cell;
    var n := pc + OpLength(m[pc]);
    assert goes(n, k) ==> goes'(n, k);
    assert goes(n, k + 1) ==> goes'(n, k + 1);
    assert goes(n, k - 1) ==> goes'(n, k - 1);
    assert goes(Cell(m, pc + 1), k) ==> goes'(Cell(m, pc + 1), k);
    assert calls(Cell(m, pc + 2)) ==> calls'(Cell(m, pc + 2));
  }

  // ----- unfolding one composition ------------------------------------------------------

  lemma {:induction false} StartsThen(a: Code, b: Code, base: int, d: int, pc: int)
    ensures Starts(Then(a, b), base, pc) ==
            if pc < base + Size(a) then Starts(a, base, pc) else Starts(b, base + Size(a), pc)
    ensures Depth(Then(a, b), base, d, pc) ==
            if pc < base + Size(a) then Depth(a, base, d, pc) else Depth(b, base + Size(a), d, pc)
    ensures Size(Then(a, b)) == Size(a) + Size(b)
  {
  }

  // ----- lifting to the surrounding code ------------------------------------------------

  lemma {:induction false} StartsAtBase(c: Code, base: int, d: int, nrActions: nat)
    requires Sound(c, nrActions) && Size(c) > 0
    ensures Within(c, base, d, base, d)
  {
    match c
    case Then(a, b) =>
      if Size(a) > 0 {
        StartsAtBase(a, base, d, nrActions);
      } else {
        StartsAtBase(b, base, d, nrActions);
      }
    case _ =>
  }

  lemma {:induction false} GoesFirst(a: Code, b: Code, base: int, d: int, nrActions: nat, n: int, want: int)
    requires Sound(b, nrActions) && Goes(a, base, d, n, want)
    ensures Goes(Then(a, b), base, d, n, want)
  {
    StartsThen(a, b, base, d, n);
    hide Starts, Depth, Size;
    if n == base + Size(a) && Size(b) > 0 {
      StartsAtBase(b, n, d, nrActions);
    }
  }

  lemma {:induction false} GoesSecond(a: Code, b: Code, base: int, d: int, n: int, want: int)
    requires Goes(b, base + Size(a), d, n, want)
    ensures Goes(Then(a, b), base, d, n, want)
  {
    StartsThen(a, b, base, d, n);
    hide Starts, Depth, Size;
  }

  lemma {:induction false} GoesInner(c: Code, base: int, d: int, n: int, want: int)
    requires c.Block? && Goes(c.inner, base + 2, d + 1, n, want)
    ensures Within(c, base, d, n, want)
  {
  }

  lemma {:induction false} GoesInSub(c: Code, base: int, d: int, n: int, want: int)
    requires c.Sub? && Goes(c.inner, base, 1, n, want)
    ensures Within(c, base, d, n, want)
  {
  }

  // ----- every instruction of rendered code is typed ------------------------------------

  lemma {:induction false} CodeIsTyped(m: seq<int>, nrActions: nat, c: Code, entries: map<Element, int>,
                                       base: int, d: nat, pc: int)
    requires Sound(c, nrActions) && Placed(m, c, entries, base)
    requires base <= pc < base + Size(c) && Starts(c, base, pc)
    ensures Typed(m, nrActions, CallsOf(c, entries), false, pc, Depth(c, base, d, pc), GoesIn(c, base, d))
  {
    hide Typed, Goes, Placed, Emit, PlacedEnd;
    match c
    case Then(a, b) =>
      PlacedThen(m, a, b, entries, base);
      if pc < base + Size(a) {
        CodeIsTyped(m, nrActions, a, entries, base, d, pc);
        FirstIsTyped(m, nrActions, a, b, entries, base, d, pc);
      } else {
        CodeIsTyped(m, nrActions, b, entries, base + Size(a), d, pc);
        SecondIsTyped(m, nrActions, a, b, entries, base, d, pc);
      }
    case Block(_, _, inner, _) =>
      PlacedBlock(m, c, entries, base);
      PlacedFits(m, c, entries, base);
      if base + 2 <= pc < base + 2 + Size(inner) {
        CodeIsTyped(m, nrActions, inner, entries, base + 2, d + 1, pc);
        InnerIsTyped(m, nrActions, c, entries, base, d, pc);
      } else {
        BlockIsTyped(m, nrActions, c, entries, base, d, pc);
      }
    case _ =>
      LeafIsTyped(m, nrActions, c, entries, base, d);
  }

  lemma {:induction false} PlacedFits(m: seq<int>, c: Code, entries: map<Element, int>, base: int)
    requires Placed(m, c, entries, base)
    ensures 0 <= base && base + Size(c) <= |m|
  {
  }

  lemma {:induction false} FirstIsTyped(m: seq<int>, nrActions: nat, a: Code, b: Code, entries: map<Element, int>,
                     base: int, d: nat, pc: int)
    requires Sound(b, nrActions) && pc < base + Size(a)
    requires Typed(m, nrActions, CallsOf(a, entries), false, pc, Depth(a, base, d, pc), GoesIn(a, base, d))
    ensures var c := Then(a, b);
            Typed(m, nrActions, CallsOf(c, entries), false, pc, Depth(c, base, d, pc), GoesIn(c, base, d))
  {
    var c := Then(a, b);
    forall n, w | Goes(a, base, d, n, w)
      ensures Goes(c, base, d, n, w)
    {
      GoesFirst(a, b, base, d, nrActions, n, w);
    }
    hide Typed, Goes;
    TypedMono(m, nrActions, CallsOf(a, entries), CallsOf(c, entries), false, false, pc, Depth(a, base, d, pc),
              GoesIn(a, base, d), GoesIn(c, base, d));
  }

  lemma {:induction false} SecondIsTyped(m: seq<int>, nrActions: nat, a: Code, b: Code, entries: map<Element, int>,
                      base: int, d: nat, pc: int)
    requires pc >= base + Size(a)
    requires Typed(m, nrActions, CallsOf(b, entries), false, pc, Depth(b, base + Size(a), d, pc), GoesIn(b, base + Size(a), d))
    ensures var c := Then(a, b);
            Typed(m, nrActions, CallsOf(c, entries), false, pc, Depth(c, base, d, pc), GoesIn(c, base, d))
  {
    var c := Then(a, b);
    forall n, w | Goes(b, base + Size(a), d, n, w)
      ensures Goes(c, base, d, n, w)
    {
      GoesSecond(a, b, base, d, n, w);
    }
    hide Typed, Goes;
    TypedMono(m, nrActions, CallsOf(b, entries), CallsOf(c, entries), false, false, pc, Depth(b, base + Size(a), d, pc),
              GoesIn(b, base + Size(a), d), GoesIn(c, base, d));
  }

  lemma {:induction false} InnerIsTyped(m: seq<int>, nrActions: nat, c: Code, entries: map<Element, int>, base: int, d: nat, pc: int)
    requires c.Block? && base + 2 <= pc < base + 2 + Size(c.inner)
    requires Typed(m, nrActions, CallsOf(c.inner, entries), false, pc, Depth(c.inner, base + 2, d + 1, pc),
                   GoesIn(c.inner, base + 2, d + 1))
    ensures Typed(m, nrActions, CallsOf(c, entries), false, pc, Depth(c, base, d, pc), GoesIn(c, base, d))
  {
    forall n, w | Goes(c.inner, base + 2, d + 1, n, w)
      ensures Goes(c, base, d, n, w)
    {
      GoesInner(c, base, d, n, w);
    }
    hide Typed, Goes;
    TypedMono(m, nrActions, CallsOf(c.inner, entries), CallsOf(c, entries), false, false, pc, Depth(c, base, d, pc),
              GoesIn(c.inner, base + 2, d + 1), GoesIn(c, base, d));
  }

  /** The opening and the END instruction of an inline constructed element. */
  lemma {:induction false} BlockIsTyped(m: seq<int>, nrActions: nat, c: Code, entries: map<Element, int>, base: int, d: nat, pc: int)
    requires c.Block? && Sound(c, nrActions) && base + Size(c) <= |m| && 0 <= base
    requires m[base] == MATCH && m[base + 1] == c.optag
    requires PlacedEnd(m, c.kind, base + 2, c.act, base + 2 + Size(c.inner))
    requires pc == base || pc == base + 2 + Size(c.inner)
    ensures Typed(m, nrActions, CallsOf(c, entries), false, pc, Depth(c, base, d, pc), GoesIn(c, base, d))
  {
    var end := base + 2 + Size(c.inner);
    if Size(c.inner) > 0 {
      StartsAtBase(c.inner, base + 2, d + 1, nrActions);
    }
    assert Within(c, base, d, base + 2, d + 1);
    if pc == end {
      EndIsTyped(m, nrActions, CallsOf(c, entries), c.kind, base + 2, c.act, pc, d + 1, GoesIn(c, base, d));
    }
  }

  lemma {:induction false} LeafIsTyped(m: seq<int>, nrActions: nat, c: Code, entries: map<Element, int>, base: int, d: nat)
    requires Sound(c, nrActions) && Placed(m, c, entries, base)
    requires !c.Nil? && !c.Then? && !c.Block?
    ensures Typed(m, nrActions, CallsOf(c, entries), false, base, d, GoesIn(c, base, d))
  {
    PlacedLeaf(m, c, entries, base);
    assert Goes(c, base, d, base + Size(c), d);
    if c.Call? {
      assert c.target in Targets(c);
      assert CallsOf(c, entries)(m[base + 2]);
    }
  }

  lemma {:induction false} SubIsTyped(m: seq<int>, nrActions: nat, c: Code, entries: map<Element, int>, base: int, d: nat, pc: int)
    requires SoundSub(c, nrActions) && Placed(m, c, entries, base)
    requires base <= pc < base + Size(c) && Starts(c, base, pc)
    ensures Typed(m, nrActions, CallsOf(c, entries), true, pc, Depth(c, base, d, pc), WithinOf(c, base, d))
  {
    PlacedSub(m, c, entries, base);
    if pc < base + Size(c.inner) {
      CodeIsTyped(m, nrActions, c.inner, entries, base, 1, pc);
      forall n, w | Goes(c.inner, base, 1, n, w)
        ensures Within(c, base, d, n, w)
      {
        GoesInSub(c, base, d, n, w);
      }
      hide Typed, Goes;
      TypedMono(m, nrActions, CallsOf(c.inner, entries), CallsOf(c, entries), false, true, pc, Depth(c, base, d, pc),
                GoesIn(c.inner, base, 1), WithinOf(c, base, d));
    } else {
      SubEndIsTyped(m, nrActions, c, entries, base, d, pc);
    }
  }

  /** The END and the RETURN instruction of out-of-line code. */
  lemma {:induction false} SubEndIsTyped(m: seq<int>, nrActions: nat, c: Code, entries: map<Element, int>, base: int, d: nat, pc: int)
    requires SoundSub(c, nrActions) && 0 <= base && base + Size(c) <= |m|
    requires PlacedEnd(m, c.kind, base, c.act, base + Size(c.inner)) && m[base + Size(c) - 1] == RETURN
    requires pc == base + Size(c.inner) || pc == base + Size(c) - 1
    ensures Typed(m, nrActions, CallsOf(c, entries), true, pc, Depth(c, base, d, pc), WithinOf(c, base, d))
  {
    if pc == base + Size(c.inner) {
      SubStarts(c, base, d, nrActions);
      assert Within(c, base, d, base + Size(c) - 1, 0);
      EndIsTyped(m, nrActions, CallsOf(c, entries), c.kind, base, c.act, pc, 1, WithinOf(c, base, d));
    }
  }

  /** An END instruction, in both its places. */
  lemma {:induction false} EndIsTyped(m: seq<int>, nrActions: nat, calls: int -> bool, kind: Kind, head: int, act: Option<nat>,
                   pc: int, k: nat, goes: (int, int) -> bool)
    requires PlacedEnd(m, kind, head, act, pc) && ActionOk(act, nrActions)
    requires k >= 1 && goes(pc + EndSize(kind, act), k - 1) && goes(head, k)
    ensures Typed(m, nrActions, calls, true, pc, k, goes) && Typed(m, nrActions, calls, false, pc, k, goes)
  {
    assert OpLength(m[pc]) == EndSize(kind, act);
  }

  lemma {:induction false} SubStarts(c: Code, base: int, d: int, nrActions: nat)
    requires SoundSub(c, nrActions)
    ensures Within(c, base, d, base, 1)
  {
    if Size(c.inner) > 0 {
      StartsAtBase(c.inner, base, 1, nrActions);
    }
  }

  // ----- the whole machine --------------------------------------------------------------

  /** `entries` gives each element of `order` the place its out-of-line code has when the
      codes follow one another from `base`. */
  predicate EntriesFrom(g: Grammar, order: seq<Element>, fuel: nat, entries: map<Element, int>, base: int) {
    order == [] ||
    (&& order[0] in entries && entries[order[0]] == base
     && EntriesFrom(g, order[1..], fuel, entries, base + Size(RenderBody(g, order[0], fuel))))
  }

  predicate SoundSubs(g: Grammar, order: seq<Element>, fuel: nat, nrActions: nat) {
    order == [] ||
    (SoundSub(RenderBody(g, order[0], fuel), nrActions) && SoundSubs(g, order[1..], fuel, nrActions))
  }

  /** A machine as the compiler leaves it: `m` is the table of the grammar with the
      elements of `order` out of line, and every jump in it goes to one of them. */
  datatype Machine = Machine(g: Grammar, fuel: nat, order: seq<Element>, entries: map<Element, int>,
                             nrActions: nat, m: seq<int>)
  {
    function Main(): Code
      requires g.types != []
    {
      Render(g, g.types[0], None, fuel)
    }

    function Image(): Code
      requires g.types != []
    {
      RenderMachine(g, order, fuel)
    }

    /** The place of COMPLETE: what lies before it is the main code, what lies behind it is
        out of line. */
    function Last(): nat
      requires g.types != []
    {
      Size(Main())
    }

    ghost predicate Valid() {
      && g.types != []
      && m == Emit(Image(), entries, 0) && |m| <= 256 && nrActions <= 256
      && EntriesFrom(g, order, fuel, entries, Last() + 1)
      && (forall t :: t in Targets(Image()) ==> t in order)
      && Sound(Main(), nrActions) && SoundSubs(g, order, fuel, nrActions)
    }

    /** `pc` is the start of an instruction. */
    predicate IsStart(pc: int)
      requires g.types != []
    {
      0 <= pc && Starts(Image(), 0, pc)
    }

    /** Static nesting depth at `pc`. */
    function DepthAt(pc: int): int
      requires g.types != []
    {
      Depth(Image(), 0, 0, pc)
    }
  }

  /** What may follow the instruction at `pc` of machine `k`: an instruction of the main code
      if that one is, of out-of-line code otherwise. */
  ghost function Follows(k: Machine, pc: int): (int, int) -> bool
    requires k.g.types != []
  {
    (n, want) => Within(k.Image(), 0, 0, n, want) && (n <= k.Last() <==> pc <= k.Last())
  }

  lemma {:induction false} SubsAreTyped(m: seq<int>, nrActions: nat, g: Grammar, order: seq<Element>, fuel: nat,
                                        entries: map<Element, int>, base: int, pc: int)
    requires SoundSubs(g, order, fuel, nrActions)
    requires Placed(m, RenderBodies(g, order, fuel), entries, base)
    requires base <= pc && Starts(RenderBodies(g, order, fuel), base, pc)
    ensures var c := RenderBodies(g, order, fuel);
            pc < base + Size(c) &&
            Typed(m, nrActions, CallsOf(c, entries), true, pc, Depth(c, base, 0, pc), WithinOf(c, base, 0))
  {
    hide Typed, Placed, Emit, RenderBody;
    if order != [] {
      var c := RenderBodies(g, order, fuel);
      var a, b := RenderBody(g, order[0], fuel), RenderBodies(g, order[1..], fuel);
      PlacedThen(m, a, b, entries, base);
      if pc < base + Size(a) {
        SubIsTyped(m, nrActions, a, entries, base, 0, pc);
        assert forall n, w :: Within(a, base, 0, n, w) ==> Within(c, base, 0, n, w);
        TypedMono(m, nrActions, CallsOf(a, entries), CallsOf(c, entries), true, true, pc, Depth(a, base, 0, pc),
                  WithinOf(a, base, 0), WithinOf(c, base, 0));
      } else {
        var base' := base + Size(a);
        SubsAreTyped(m, nrActions, g, order[1..], fuel, entries, base', pc);
        assert forall n, w :: Within(b, base', 0, n, w) ==> Within(c, base, 0, n, w);
        TypedMono(m, nrActions, CallsOf(b, entries), CallsOf(c, entries), true, true, pc, Depth(b, base', 0, pc),
                  WithinOf(b, base', 0), WithinOf(c, base, 0));
      }
    }
  }

  /** The out-of-line code of an element stands where `entries` says. */
  lemma {:induction false} SubIsPlaced(m: seq<int>, nrActions: nat, g: Grammar, order: seq<Element>, fuel: nat,
                                       entries: map<Element, int>, base: int, t: Element)
    requires SoundSubs(g, order, fuel, nrActions)
    requires Placed(m, RenderBodies(g, order, fuel), entries, base)
    requires EntriesFrom(g, order, fuel, entries, base)
    requires t in order
    ensures SoundSub(RenderBody(g, t, fuel), nrActions)
    ensures Placed(m, RenderBody(g, t, fuel), entries, Entry(entries, t))
    ensures Within(RenderBodies(g, order, fuel), base, 0, Entry(entries, t), 1)
  {
    hide Placed, Emit, RenderBody;
    var a, b := RenderBody(g, order[0], fuel), RenderBodies(g, order[1..], fuel);
    PlacedThen(m, a, b, entries, base);
    if t == order[0] {
      SubStarts(a, base, 0, nrActions);
    } else {
      SubIsPlaced(m, nrActions, g, order[1..], fuel, entries, base + Size(a), t);
    }
  }

  /** The three parts of the table. */
  lemma {:induction false} MachineParts(k: Machine)
    requires k.Valid()
    ensures Placed(k.m, k.Main(), k.entries, 0)
    ensures k.Last() < |k.m| == Size(k.Image()) && k.m[k.Last()] == COMPLETE
    ensures Placed(k.m, RenderBodies(k.g, k.order, k.fuel), k.entries, k.Last() + 1)
  {
    WholeIsPlaced(k);
    hide Machine.Valid, Emit, Render, RenderBodies, Placed;
    PartsOfTable(k.m, k.Main(), RenderBodies(k.g, k.order, k.fuel), k.entries);
  }

  lemma {:induction false} WholeIsPlaced(k: Machine)
    requires k.Valid()
    ensures Placed(k.m, k.Image(), k.entries, 0) && |k.m| == Size(k.Image())
  {
    hide Emit, Render, RenderBodies, Size, RenderMachine;
    assert k.m[0..Size(k.Image())] == k.m;
  }

  lemma {:induction false} PartsOfTable(m: seq<int>, main: Code, subs: Code, entries: map<Element, int>)
    requires Placed(m, Then(main, Then(Complete, subs)), entries, 0)
    ensures Placed(m, main, entries, 0) && Placed(m, subs, entries, Size(main) + 1)
    ensures Size(main) < |m| && m[Size(main)] == COMPLETE
  {
    PlacedThen(m, main, Then(Complete, subs), entries, 0);
    PlacedThen(m, Complete, subs, entries, Size(main));
    PlacedLeaf(m, Complete, entries, Size(main));
    PlacedFits(m, Complete, entries, Size(main));
    hide Placed, Emit;
    assert Size(Complete) == 1;
  }

  /** What starts in the main code, at COMPLETE and out of line, and how deep. */
  lemma {:induction false} StartsByPart(k: Machine, pc: int)
    requires k.g.types != []
    ensures pc < k.Last() ==>
              && Starts(k.Image(), 0, pc) == Starts(k.Main(), 0, pc)
              && k.DepthAt(pc) == Depth(k.Main(), 0, 0, pc)
    ensures pc == k.Last() ==> Starts(k.Image(), 0, pc) && k.DepthAt(pc) == 0
    ensures pc > k.Last() ==>
              var subs := RenderBodies(k.g, k.order, k.fuel);
              && Starts(k.Image(), 0, pc) == Starts(subs, k.Last() + 1, pc)
              && k.DepthAt(pc) == Depth(subs, k.Last() + 1, 0, pc)
  {
    hide Render, RenderBodies;
    PartsStart(k.Main(), RenderBodies(k.g, k.order, k.fuel), pc);
  }

  lemma {:induction false} PartsStart(main: Code, subs: Code, pc: int)
    ensures var img, last := Then(main, Then(Complete, subs)), Size(main);
            && (pc < last ==> Starts(img, 0, pc) == Starts(main, 0, pc) && Depth(img, 0, 0, pc) == Depth(main, 0, 0, pc))
            && (pc == last ==> Starts(img, 0, pc) && Depth(img, 0, 0, pc) == 0)
            && (pc > last ==> Starts(img, 0, pc) == Starts(subs, last + 1, pc)
                              && Depth(img, 0, 0, pc) == Depth(subs, last + 1, 0, pc))
  {
    StartsThen(main, Then(Complete, subs), 0, 0, pc);
    StartsThen(Complete, subs, Size(main), 0, pc);
    StartsLeaf(Complete, Size(main), 0, pc);
    hide Starts, Depth, Size;
  }

  lemma {:induction false} StartsLeaf(c: Code, base: int, d: int, pc: int)
    requires c.Complete?
    ensures Starts(c, base, pc) == (pc == base) && Depth(c, base, d, pc) == d && Size(c) == 1
  {
  }

  lemma {:induction false} WithinByPart(k: Machine, n: int, want: int)
    requires k.g.types != []
    ensures Within(k.Main(), 0, 0, n, want) || (n == k.Last() && want == 0)
            ==> Within(k.Image(), 0, 0, n, want) && n <= k.Last()
    ensures Within(RenderBodies(k.g, k.order, k.fuel), k.Last() + 1, 0, n, want)
            ==> Within(k.Image(), 0, 0, n, want) && n > k.Last()
  {
    StartsByPart(k, n);
    EndOfSubs(k);
    hide Render, RenderBodies, Starts, Depth, Size;
  }

  /** Every instruction of a compiled machine but COMPLETE is typed. */
  lemma {:induction false} MachineIsTyped(k: Machine, pc: int)
    requires k.Valid() && k.IsStart(pc)
    ensures 0 <= pc < |k.m|
    ensures pc == k.Last() ==> k.m[pc] == COMPLETE && k.DepthAt(pc) == 0
    ensures pc != k.Last() ==>
              Typed(k.m, k.nrActions, CallsOf(k.Image(), k.entries), pc > k.Last(), pc, k.DepthAt(pc), Follows(k, pc))
  {
    MachineParts(k);
    StartsByPart(k, pc);
    forall n, w { WithinByPart(k, n, w); }
    TargetsByPart(k);
    var main, subs, img := k.Main(), RenderBodies(k.g, k.order, k.fuel), k.Image();
    hide Typed, Placed, Emit, Render, RenderBodies, Starts, Depth, Size, Targets, Within;
    if pc < k.Last() {
      CodeIsTyped(k.m, k.nrActions, main, k.entries, 0, 0, pc);
      TypedMono(k.m, k.nrActions, CallsOf(main, k.entries), CallsOf(img, k.entries), false, false, pc,
                k.DepthAt(pc), GoesIn(main, 0, 0), Follows(k, pc));
    } else if pc > k.Last() {
      SubsAreTyped(k.m, k.nrActions, k.g, k.order, k.fuel, k.entries, k.Last() + 1, pc);
      TypedMono(k.m, k.nrActions, CallsOf(subs, k.entries), CallsOf(img, k.entries), true, true, pc,
                k.DepthAt(pc), WithinOf(subs, k.Last() + 1, 0), Follows(k, pc));
    }
  }

  lemma {:induction false} TargetsByPart(k: Machine)
    requires k.g.types != []
    ensures forall t :: t in Targets(k.Main()) || t in Targets(RenderBodies(k.g, k.order, k.fuel))
              ==> t in Targets(k.Image())
  {
    hide Render, RenderBodies;
    assert Targets(k.Image()) == Targets(k.Main()) + Targets(Then(Complete, RenderBodies(k.g, k.order, k.fuel)));
  }

  /** Every jump of a compiled machine goes to the start of out-of-line code. */
  lemma {:induction false} CallsGoToSubs(k: Machine, x: int)
    requires k.Valid() && CallsOf(k.Image(), k.entries)(x)
    ensures k.Last() < x < |k.m| && k.IsStart(x) && k.DepthAt(x) == 1
    ensures Size(k.Image()) <= 256
  {
    MachineParts(k);
    EndOfSubs(k);
    var t :| t in Targets(k.Image()) && x == Entry(k.entries, t);
    SubsOf(k, t);
    hide *;
    SubIsPlaced(k.m, k.nrActions, k.g, k.order, k.fuel, k.entries, k.Last() + 1, t);
    InImage(k, x);
  }

  lemma {:induction false} InImage(k: Machine, x: int)
    requires k.g.types != [] && Within(RenderBodies(k.g, k.order, k.fuel), k.Last() + 1, 0, x, 1)
    ensures k.Last() < x < k.Last() + 1 + Size(RenderBodies(k.g, k.order, k.fuel))
    ensures k.IsStart(x) && k.DepthAt(x) == 1
  {
    WithinByPart(k, x, 1);
    hide Render, RenderBodies, Starts, Depth, Size;
  }

  lemma {:induction false} SubsOf(k: Machine, t: Element)
    requires k.Valid() && t in Targets(k.Image())
    ensures SoundSubs(k.g, k.order, k.fuel, k.nrActions) && EntriesFrom(k.g, k.order, k.fuel, k.entries, k.Last() + 1)
    ensures t in k.order && |k.m| <= 256
  {
    hide Emit, Render, RenderBodies, Targets, Sound, SoundSubs, EntriesFrom;
  }

  lemma {:induction false} EndOfSubs(k: Machine)
    requires k.g.types != []
    ensures Size(k.Image()) == k.Last() + 1 + Size(RenderBodies(k.g, k.order, k.fuel))
  {
    hide Render, RenderBodies;
    assert Size(Then(Complete, RenderBodies(k.g, k.order, k.fuel))) == 1 + Size(RenderBodies(k.g, k.order, k.fuel));
  }

  // ----- the table holds octets ---------------------------------------------------------

  predicate AreOctets(s: seq<int>) {
    forall i :: 0 <= i < |s| ==> 0 <= s[i] < 256
  }

  lemma {:induction false} OctetsBoth(a: seq<int>, b: seq<int>)
    requires AreOctets(a) && AreOctets(b)
    ensures AreOctets(a + b)
  {
  }

  lemma {:induction false} EndIsOctets(kind: Kind, head: int, act: Option<nat>, nrActions: nat)
    requires 0 <= head < 256 && ActionOk(act, nrActions) && nrActions <= 256
    ensures AreOctets(End(kind, head, act))
  {
  }

  ghost predicate EntriesFit(c: Code, entries: map<Element, int>) {
    forall t :: t in Targets(c) ==> 0 <= Entry(entries, t) < 256
  }

  lemma {:induction false} EmitIsOctets(c: Code, entries: map<Element, int>, base: int, nrActions: nat)
    requires Sound(c, nrActions) && nrActions <= 256 && 0 <= base && base + Size(c) <= 256
    requires EntriesFit(c, entries)
    ensures AreOctets(Emit(c, entries, base))
    decreases c
  {
    hide AreOctets, End;
    match c
    case Then(a, b) =>
      EmitIsOctets(a, entries, base, nrActions);
      EmitIsOctets(b, entries, base + Size(a), nrActions);
      OctetsBoth(Emit(a, entries, base), Emit(b, entries, base + Size(a)));
    case Block(optag, kind, inner, act) =>
      EmitIsOctets(inner, entries, base + 2, nrActions);
      EndIsOctets(kind, base + 2, act, nrActions);
      OpenerIsOctets(optag);
      OctetsBoth([MATCH, optag], Emit(inner, entries, base + 2));
      OctetsBoth([MATCH, optag] + Emit(inner, entries, base + 2), End(kind, base + 2, act));
    case _ => LeafIsOctets(c, entries, base, nrActions);
  }

  lemma {:induction false} OpenerIsOctets(optag: nat)
    requires optag < 256
    ensures AreOctets([MATCH, optag])
  {
  }

  lemma {:induction false} LeafIsOctets(c: Code, entries: map<Element, int>, base: int, nrActions: nat)
    requires Sound(c, nrActions) && nrActions <= 256 && EntriesFit(c, entries) && !c.Then? && !c.Block?
    ensures AreOctets(Emit(c, entries, base))
  {
    hide Entry;
    if c.Call? {
      assert c.target in Targets(c);
    }
  }

  lemma {:induction false} SubIsOctets(c: Code, entries: map<Element, int>, base: int, nrActions: nat)
    requires SoundSub(c, nrActions) && nrActions <= 256 && 0 <= base && base + Size(c) <= 256
    requires EntriesFit(c, entries)
    ensures AreOctets(Emit(c, entries, base))
  {
    EmitIsOctets(c.inner, entries, base, nrActions);
    EndIsOctets(c.kind, base, c.act, nrActions);
    hide End;
    OctetsBoth(Emit(c.inner, entries, base), End(c.kind, base, c.act));
    OctetsBoth(Emit(c.inner, entries, base) + End(c.kind, base, c.act), [RETURN]);
  }

  lemma {:induction false} SubsAreOctets(g: Grammar, order: seq<Element>, fuel: nat, entries: map<Element, int>,
                                         base: int, nrActions: nat)
    requires SoundSubs(g, order, fuel, nrActions) && nrActions <= 256
    requires 0 <= base && base + Size(RenderBodies(g, order, fuel)) <= 256
    requires EntriesFit(RenderBodies(g, order, fuel), entries)
    ensures AreOctets(Emit(RenderBodies(g, order, fuel), entries, base))
    decreases order
  {
    hide RenderBody, SoundSub, Emit, AreOctets;
    if order == [] {
      NothingEmitted(entries, base);
    } else {
      var a, b := RenderBody(g, order[0], fuel), RenderBodies(g, order[1..], fuel);
      EmitThen(a, b, entries, base);
      SubIsOctets(a, entries, base, nrActions);
      SubsAreOctets(g, order[1..], fuel, entries, base + Size(a), nrActions);
      OctetsBoth(Emit(a, entries, base), Emit(b, entries, base + Size(a)));
    }
  }

  lemma {:induction false} NothingEmitted(entries: map<Element, int>, base: int)
    ensures AreOctets(Emit(Nil, entries, base))
  {
  }

  lemma {:induction false} PartsAreOctets(main: Code, subs: Code, entries: map<Element, int>)
    requires AreOctets(Emit(main, entries, 0)) && AreOctets(Emit(subs, entries, Size(main) + 1))
    ensures AreOctets(Emit(Then(main, Then(Complete, subs)), entries, 0))
  {
    EmitThen(main, Then(Complete, subs), entries, 0);
    EmitThen(Complete, subs, entries, Size(main));
    CompleteIsOctets(entries, Size(main));
    assert Size(Complete) == 1;
    hide Size, Emit, AreOctets;
    OctetsBoth(Emit(Complete, entries, Size(main)), Emit(subs, entries, Size(main) + 1));
    OctetsBoth(Emit(main, entries, 0), Emit(Then(Complete, subs), entries, Size(main)));
  }

  lemma {:induction false} EntriesOfParts(k: Machine)
    requires k.Valid()
    ensures EntriesFit(k.Main(), k.entries) && EntriesFit(RenderBodies(k.g, k.order, k.fuel), k.entries)
    ensures |k.m| <= 256 && k.nrActions <= 256
  {
    MachineParts(k);
    TargetsByPart(k);
    forall t | t in Targets(k.Image())
      ensures 0 <= Entry(k.entries, t) < 256
    {
      CallsGoToSubs(k, Entry(k.entries, t));
    }
    hide Render, RenderBodies, Size, Emit, Entry, Targets, Sound, SoundSubs, EntriesFrom;
  }

  /** Every entry of a compiled machine fits the `unsigned char` of the emitted table:
      opcodes, tags, action numbers and jump targets alike. */
  lemma {:induction false} MachineIsOctets(k: Machine)
    requires k.Valid()
    ensures AreOctets(k.m)
  {
    EntriesOfParts(k);
    MachineParts(k);
    EndOfSubs(k);
    hide Render, RenderBodies, Starts, Depth, Size, Emit, AreOctets, Placed, Entry, Targets, Sound, SoundSubs,
      EntriesFrom, EntriesFit;
    EmitIsOctets(k.Main(), k.entries, 0, k.nrActions);
    SubsAreOctets(k.g, k.order, k.fuel, k.entries, k.Last() + 1, k.nrActions);
    PartsAreOctets(k.Main(), RenderBodies(k.g, k.order, k.fuel), k.entries);
  }

  lemma {:induction false} CompleteIsOctets(entries: map<Element, int>, base: int)
    ensures AreOctets(Emit(Complete, entries, base))
  {
  }
}
