/** The machine stops on every input, for compiled grammars whose repeated elements are
    mandatory: each way back to the head of a loop is followed by reading something. */
module Termination {
  import opened Octets
  import opened Bytecode
  import opened Grammar
  import opened Code
  import opened Layout
  import opened BerMachine
  import opened Steps
  import opened Safety
  import opened Nesting
  import opened Correct
  import Der

  // ----- code that reads something ------------------------------------------------------

  /** Passing `c` in front of an element without reading anything leaves nothing matched. */
  predicate Clears(c: Code) {
    match c
    case Then(a, b) => Clears(a) || Clears(b)
    case MatchAny(cond, _) => !cond
    case MatchPrim(_, cond, _, _) => !cond
    case Call(_, cond, _, _) => !cond
    case Block(_, _, _, _) => true
    case _ => false
  }

  /** `c` stops the machine when nothing is matched. */
  predicate Fails(c: Code) {
    match c
    case Then(a, b) => Fails(a) || Fails(b)
    case CondFail => true
    case _ => false
  }

  /** `c` cannot be passed in front of an element without reading it. */
  predicate Eats(c: Code) {
    match c
    case Then(a, b) => Eats(a) || Eats(b) || (Clears(a) && Fails(b))
    case MatchAny(cond, _) => !cond
    case MatchPrim(_, cond, skip, _) => !cond && !skip
    case Call(_, cond, skip, _) => !cond && !skip
    case Block(_, _, _, _) => true
    case _ => false
  }

  /** The body of every loop reads something. */
  predicate LoopsEat(c: Code) {
    match c
    case Then(a, b) => LoopsEat(a) && LoopsEat(b)
    case Block(_, kind, inner, _) => LoopsEat(inner) && (kind != SeqKind ==> Eats(inner))
    case Sub(kind, inner, _) => LoopsEat(inner) && (kind != SeqKind ==> Eats(inner))
    case _ => true
  }

  ghost predicate AllLoopsEat(k: Machine)
    requires k.g.types != []
  {
    LoopsEat(k.Main()) && forall e :: e in k.order ==> LoopsEat(RenderBody(k.g, e, k.fuel))
  }

  // ----- the measure --------------------------------------------------------------------

  /** No enclosing end ever lies behind this. */
  const FAR := 0xffff + 0x7f

  predicate Near(env: Env, s: State) {
    && 0 <= s.dp && s.datalen <= FAR && |env.data| <= 0xffff
    && forall i :: 0 <= i < |s.cons| ==> s.cons[i].datalen <= FAR
  }

  function Left(s: State): nat {
    if s.dp >= FAR then 0 else FAR - s.dp
  }

  /** From `s` to `t` the cursor has not gone back; if it stood in front of an element and
      has not moved, the enclosing element is the same and nothing new counts as matched. */
  predicate Onward(s: State, t: State) {
    && s.dp <= t.dp
    && (s.dp < s.datalen && t.dp == s.dp ==> t.datalen == s.datalen && (t.matched ==> s.matched))
  }

  /** `t` stands behind `c` and the run has come there from `s`. */
  predicate Passed(env: Env, c: Code, s: State, t: State) {
    && t.pc == s.pc + Size(c) && t.jumps == s.jumps && Near(env, t) && Onward(s, t)
    && (s.dp < s.datalen && t.dp == s.dp ==>
          && !Eats(c) && (Clears(c) ==> !t.matched) && (Fails(c) ==> s.matched))
  }

  ghost predicate StopsOr(env: Env, s: State, d: Config, c: Code) {
    Reaches(env, Run(s), d) && (d.Run? ==> Passed(env, c, s, d.st))
  }

  lemma {:induction false} MovesNear(env: Env, s: State, t: State)
    requires Near(env, s) && Moves(env, s, t)
    ensures Near(env, t) && s.dp <= t.dp
    ensures s.dp < s.datalen && t.dp == s.dp ==> t.datalen == s.datalen
  {
    if Closes(env, s, t) {
      assert forall i :: 0 <= i < |t.cons| ==> t.cons[i] == s.cons[i];
    } else if Opens(env, s, t) {
      assert forall i :: 0 <= i < |s.cons| ==> t.cons[i] == s.cons[i];
    }
    hide EndsAsDeclared;
  }

  // ----- single instructions ------------------------------------------------------------

  lemma {:induction false} HeaderReads(env: Env, s: State, t: State, op: int)
    requires 0 <= s.dp < |env.data| && s.dp + 1 < s.datalen && t.tag == env.data[s.dp]
    requires t.dp == s.dp + 1 && t.cons == s.cons && t.datalen == s.datalen && t.hdr == 2
    requires BerMachine.Header(env, t, op).Run? && (t.compound || !IsJumpMatch(op))
    ensures BerMachine.Header(env, t, op).st.dp > s.dp
  {
    hide ReadLength, Matched, Push, Sized, Nesting.HeaderRead, Opens, MatchesLeaf, EndsAsDeclared, IsJumpMatch;
    SizedReads(env, s, t);
    var u := Sized(t, ReadLength(env, t));
    if t.compound {
      PushOpens(env, s, u);
      var p := Push(u).st;
      OpensAnyTdp(env, s, p);
      MatchedOpened(env, s, p.(tdp := p.dp), op);
      OpensReads(env, s, Matched(env, p.(tdp := p.dp), op).st);
    } else {
      HeaderAnyTdp(env, s, u);
      MatchedMoves(env, s, u.(tdp := u.dp), op);
      LeafReads(env, s, Matched(env, u.(tdp := u.dp), op).st);
    }
  }

  lemma {:induction false} OpensReads(env: Env, s: State, t: State)
    requires Opens(env, s, t)
    ensures t.dp > s.dp
  {
  }

  lemma {:induction false} LeafReads(env: Env, s: State, t: State)
    requires MatchesLeaf(env, s, t)
    ensures t.dp > s.dp
  {
  }

  /** A tag-matching instruction that reads nothing in front of an element is conditional
      behind a match, or skippable and leaves nothing matched. */
  lemma {:induction false} MatchReads(env: Env, s: State, op: int)
    requires 0 <= s.dp < s.datalen && MatchStep(env, s, op).Run?
    requires IsJumpMatch(op) ==> !HasAny(op) && HasConsBit(Operand(env, s.pc + 1))
    ensures var t := MatchStep(env, s, op).st;
            t.dp == s.dp ==> (HasCond(op) && s.matched && t.matched) || (HasSkip(op) && !HasAny(op) && !t.matched)
  {
    hide BerMachine.Header, HasConsBit, IsLongTag, TagMatches, HasSkip, HasAny, HasCond, IsJumpMatch, OpLength;
    if !(HasCond(op) && s.matched) {
      if HasAny(op) {
        HeaderReads(env, s, Tagged(s, env.data[s.dp], false), op);
      } else {
        var optag := env.machine[s.pc + 1];
        if TagMatches(optag, env.data[s.dp]) {
          HeaderReads(env, s, Tagged(s, env.data[s.dp], HasConsBit(optag)), op);
        }
      }
    }
  }

  ghost predicate Placing(k: Machine, env: Env, c: Code, s: State) {
    For(k, env) && Here(k, c, s.pc) && Near(env, s)
  }

  lemma {:induction false} OpKinds(k: Machine, env: Env, c: Code, s: State)
    requires Placing(k, env, c, s) && (c.MatchAny? || c.MatchPrim? || c.Call?)
    ensures 0 <= s.pc < |env.machine| && s.pc + Size(c) <= |env.machine|
    ensures var op := env.machine[s.pc];
            && OpLength(op) == Size(c) && 0 <= op <= OP_MATCHES_TAG && OperandsOk(env, s.pc, op)
            && (c.MatchAny? ==> IsAnyMatch(op) && !IsPlainMatch(op) && !IsJumpMatch(op) && HasAny(op))
            && (c.MatchPrim? ==> IsPlainMatch(op) && !IsAnyMatch(op) && !IsJumpMatch(op)
                                 && !HasConsBit(env.machine[s.pc + 1]) && (HasSkip(op) <==> c.skip))
            && (c.Call? ==> IsJumpMatch(op) && !IsAnyMatch(op) && !IsPlainMatch(op) && !HasAny(op) && Size(c) == 3
                            && HasConsBit(env.machine[s.pc + 1]) && (HasSkip(op) <==> c.skip)
                            && env.machine[s.pc + 2] == Entry(k.entries, c.target))
            && (HasCond(op) <==> IsCond(c))
  {
    hide Machine.Valid, PrimOp, CallOp, AnyOp, HasSkip, HasCond, HasAny, HasAct, OpLength, HasConsBit, Emit, Near;
    LeafOp(env, k.entries, c, s.pc);
    PlacedLeaf(env.machine, c, k.entries, s.pc);
    match c {
      case MatchPrim(_, cond, skip, act) => OpFacts(cond, skip, act);
      case MatchAny(cond, act) => OpFacts(cond, true, act);
      case Call(_, cond, skip, _) => OpFacts(cond, skip, None);
    }
  }

  /** Where a tag-matching instruction goes. */
  lemma {:induction false} MatchGoes(k: Machine, env: Env, c: Code, s: State)
    requires Placing(k, env, c, s) && (c.MatchAny? || c.MatchPrim? || c.Call?)
    requires Step(env, s).Run?
    ensures var t := Step(env, s).st;
            || (t.pc == s.pc + Size(c) && t.jumps == s.jumps)
            || (c.Call? && t.pc == Entry(k.entries, c.target) && |t.cons| == |s.cons| + 1
                && t.jumps == s.jumps + [(s.pc + 3) % 0x100])
    ensures Step(env, s) == MatchStep(env, s, env.machine[s.pc])
  {
    OpKinds(k, env, c, s);
    MatchEffect(env, s);
    hide Machine.Valid, MatchStep, EndStep, Placed, Emit, OpLength, HasCond, HasSkip, HasAny, HasConsBit,
      IsCond, IsJumpMatch, IsAnyMatch, IsPlainMatch, OperandsOk;
  }

  lemma {:induction false} MatchPasses(k: Machine, env: Env, c: Code, s: State)
    requires Placing(k, env, c, s) && (c.MatchAny? || c.MatchPrim? || c.Call?)
    ensures var d := Step(env, s);
            d.Run? ==>
              && Near(env, d.st) && Onward(s, d.st)
              && (d.st.dp == s.dp && s.dp < s.datalen ==> !Eats(c) && (Clears(c) ==> !d.st.matched))
              && ((d.st.pc == s.pc + Size(c) && d.st.jumps == s.jumps)
                  || (c.Call? && d.st.pc == Entry(k.entries, c.target) && d.st.dp > s.dp && s.dp < s.datalen
                      && d.st.jumps == s.jumps + [(s.pc + 3) % 0x100]))
  {
    hide Machine.Valid, MatchStep, EndStep, Placed, Emit, OpLength, HasCond, HasSkip, HasAny, HasConsBit,
      IsJumpMatch, IsAnyMatch, IsPlainMatch, OperandsOk, Near, Moves, Step, Sound;
    if Step(env, s).Run? {
      OpKinds(k, env, c, s);
      MatchGoes(k, env, c, s);
      var t := Step(env, s).st;
      NearFacts(env, s);
      StepMoves(env, s);
      MovesNear(env, s, t);
      if |t.cons| > |s.cons| { MoreFrames(env, s, t); }
      CondSkips(c, k.nrActions);
      if s.dp < s.datalen {
        MatchReads(env, s, env.machine[s.pc]);
      }
    }
  }

  lemma {:induction false} MoreFrames(env: Env, s: State, t: State)
    requires Moves(env, s, t) && |t.cons| > |s.cons|
    ensures t.dp > s.dp && s.dp < s.datalen
  {
    hide EndsAsDeclared;
  }

  lemma {:induction false} CondSkips(c: Code, nrActions: nat)
    requires Sound(c, nrActions) && (c.MatchAny? || c.MatchPrim? || c.Call?)
    ensures c.MatchPrim? || c.Call? ==> (IsCond(c) ==> c.skip)
  {
  }

  lemma {:induction false} NearFacts(env: Env, s: State)
    requires Near(env, s)
    ensures 0 <= s.dp
  {
  }

  /** COND_FAIL and ACT read nothing. */
  lemma {:induction false} OtherPasses(k: Machine, env: Env, c: Code, s: State)
    requires Placing(k, env, c, s) && (c.CondFail? || c.Act?)
    ensures StopsOr(env, s, Step(env, s), c)
  {
    PlacedLeaf(env.machine, c, k.entries, s.pc);
    ReachesStep(env, s);
    hide Machine.Valid, MatchStep, EndStep, Emit, Reaches;
  }

  /** The opener of an inline element: it reads, or is skipped at the end of the data. */
  lemma {:induction false} OpenerPasses(k: Machine, env: Env, c: Code, s: State)
    requires Placing(k, env, c, s) && c.Block?
    ensures var d := Step(env, s);
            d.Run? ==>
              && d.st.pc == s.pc + 2 && d.st.jumps == s.jumps && Near(env, d.st) && s.dp <= d.st.dp
              && (s.dp < s.datalen ==> d.st.dp > s.dp)
  {
    PlacedBlock(env.machine, c, k.entries, s.pc);
    hide Machine.Valid, MatchStep, EndStep, Emit, HasConsBit, Placed, PlacedEnd, Moves, Near, BadInput;
    if Step(env, s).Run? {
      var t := Step(env, s).st;
      NearFacts(env, s);
      MatchEffect(env, s);
      StepMoves(env, s);
      MovesNear(env, s, t);
      if s.dp < s.datalen {
        MatchReads(env, s, MATCH);
      }
    }
  }

  /** END stops the machine, goes behind itself, or goes back with something left to read. */
  lemma {:induction false} EndPasses(k: Machine, env: Env, kind: Kind, head: int, act: Option<nat>, s: State)
    requires For(k, env) && PlacedEnd(k.m, kind, head, act, s.pc) && ActionOk(act, k.nrActions) && Near(env, s)
    ensures var d := Step(env, s);
            d.Run? ==>
              && d.st.jumps == s.jumps && Near(env, d.st) && s.dp <= d.st.dp
              && (d.st.pc == s.pc + EndSize(kind, act)
                  || (kind != SeqKind && d.st.pc == head && d.st.dp == s.dp < d.st.datalen))
  {
    EndFacts(kind, act);
    hide Machine.Valid, MatchStep, EndOp, IsEnd, EndsOf, EndsWithAct, OpLength, Moves, Near, BadInput, EndStep;
    NearFacts(env, s);
    NotJump(EndOp(kind, act));
    if Step(env, s).Run? {
      StepMoves(env, s);
      MovesNear(env, s, Step(env, s).st);
      EndGoes(env, s, env.machine[s.pc]);
    }
  }

  lemma {:induction false} NotJump(op: int)
    ensures IsEnd(op) ==> !IsJumpMatch(op)
  {
  }

  lemma {:induction false} EndGoes(env: Env, s: State, op: int)
    requires EndStep(env, s, op).Run?
    ensures var t := EndStep(env, s, op).st;
            && t.jumps == s.jumps
            && (t.pc == s.pc + OpLength(op)
                || (EndsOf(op) && t.pc == Operand(env, s.pc + 1) && t.dp == s.dp < t.datalen))
  {
    hide OpLength, EndsOf, EndsWithAct;
  }

  // ----- the induction ------------------------------------------------------------------

  /** Code stops the machine or is passed. */
  lemma {:induction false} Progress(k: Machine, env: Env, c: Code, s: State) returns (d: Config)
    requires Placing(k, env, c, s) && AllLoopsEat(k) && LoopsEat(c)
    ensures StopsOr(env, s, d, c)
    decreases Left(s), c, 1
  {
    hide Machine.Valid, Step, Placed, Emit, Reaches, Near, AllLoopsEat, Here, Passed;
    match c
    case Then(a, b) =>
      PlacingThen(k, env, a, b, s);
      d := Progress(k, env, a, s);
      if d.Run? {
        var t := d.st;
        PlacingNext(k, env, a, b, s, t);
        d := Progress(k, env, b, t);
        PassedThen(env, a, b, s, t, d);
      }
    case Nil =>
      d := NilPasses(k, env, s);
    case CondFail =>
      d := Step(env, s);
      OtherPasses(k, env, c, s);
    case Act(_) =>
      d := Step(env, s);
      OtherPasses(k, env, c, s);
    case Block(_, _, _, _) =>
      d := BlockProgress(k, env, c, s);
    case Call(_, _, _, _) =>
      d := CallProgress(k, env, c, s);
    case _ =>
      d := Step(env, s);
      PlainHere(k, c, s.pc);
      LeafProgress(k, env, c, s);
  }

  lemma {:induction false} PlainHere(k: Machine, c: Code, pc: int)
    requires Here(k, c, pc)
    ensures !c.Complete? && !c.Sub? && !c.Refused? && !c.Endless?
  {
  }

  lemma {:induction false} LeafProgress(k: Machine, env: Env, c: Code, s: State)
    requires Placing(k, env, c, s) && (c.MatchAny? || c.MatchPrim?)
    ensures StopsOr(env, s, Step(env, s), c)
  {
    hide Machine.Valid, Step, Placed, Emit, Reaches, Near, Here;
    MatchPasses(k, env, c, s);
    ReachesStep(env, s);
  }

  /** The out-of-line code a call goes to. */
  lemma {:induction false} CallGoesTo(k: Machine, env: Env, c: Code, s: State)
    requires Placing(k, env, c, s) && c.Call? && AllLoopsEat(k)
    ensures var e := c.target;
            var pc, inner := Entry(k.entries, e), InnerOf(k.g, e, k.fuel);
            && Here(k, inner, pc) && Body(k, KindOf(e), e.action, inner, pc) && (s.pc + 3) % 0x100 == s.pc + 3
            && LoopsEat(inner) && (KindOf(e) != SeqKind ==> Eats(inner))
            && var ret := pc + Size(inner) + EndSize(KindOf(e), e.action);
               0 <= ret < |k.m| && k.m[ret] == RETURN
  {
    hide Machine.Valid, Emit, Render, RenderAll, RenderBodies, Placed, Eats, Near, Entry, KindOf, InnerOf, EndSize,
      RenderBody, Body;
    var e := c.target;
    CallFits(k, c, s.pc);
    TargetIsConstructed(k, e);
    SubHere(k, e);
    SubCode(k.g, e, k.fuel);
    LoopsInSub(RenderBody(k.g, e, k.fuel));
  }

  lemma {:induction false} CallFits(k: Machine, c: Code, pc: int)
    requires k.Valid() && Here(k, c, pc) && c.Call?
    ensures c.target in k.order && 0 <= pc && (pc + 3) % 0x100 == pc + 3
  {
    MachineParts(k);
    GoodFitsMachine(k);
    assert c.target in Targets(c);
    hide Machine.Valid, Emit, RenderBodies, Render;
  }

  lemma {:induction false} LoopsInSub(c: Code)
    requires c.Sub? && LoopsEat(c)
    ensures LoopsEat(c.inner) && (c.kind != SeqKind ==> Eats(c.inner))
  {
  }

  lemma {:induction false} GoodFitsMachine(k: Machine)
    requires k.Valid()
    ensures |k.m| <= 256
  {
  }

  lemma {:induction false} TargetIsConstructed(k: Machine, e: Element)
    requires k.Valid() && e in k.order
    ensures Der.IsConstructed(e.compound) && !e.compound.Set?
  {
    SubsSoundAt(k.g, k.order, k.fuel, k.nrActions, e);
    hide Machine.Valid, Render, RenderAll;
  }

  lemma {:induction false} SubsSoundAt(g: Grammar, order: seq<Element>, fuel: nat, nrActions: nat, e: Element)
    requires SoundSubs(g, order, fuel, nrActions) && e in order
    ensures SoundSub(RenderBody(g, e, fuel), nrActions)
    decreases order
  {
    hide RenderBody, SoundSub;
    if e != order[0] {
      SubsSoundAt(g, order[1..], fuel, nrActions, e);
    }
  }

  lemma {:induction false} CallProgress(k: Machine, env: Env, c: Code, s: State) returns (d: Config)
    requires Placing(k, env, c, s) && AllLoopsEat(k) && c.Call?
    ensures StopsOr(env, s, d, c)
    decreases Left(s), c, 0
  {
    hide Machine.Valid, Step, Placed, Emit, Reaches, Near, AllLoopsEat, Here, PlacedEnd, InnerOf, KindOf, Left,
      Passed, Eats, LoopsEat;
    MatchPasses(k, env, c, s);
    ReachesStep(env, s);
    d := Step(env, s);
    if d.Run? {
      if d.st.jumps == s.jumps {
        CallSkipped(env, c, s, d.st);
      } else {
        var t, e := d.st, c.target;
        CallGoesTo(k, env, c, s);
        CallReads(env, s, t);
        d := FromHead(k, env, KindOf(e), InnerOf(k.g, e, k.fuel), e.action, t);
        ReachesTrans(env, Run(s), Run(t), d);
        if d.Run? {
          var u := d.st;
          var w := StepReturn(env, u);
          ReachesStep(env, u);
          ReachesTrans(env, Run(s), Run(u), Run(w));
          d := Run(w);
          CallReturned(env, c, s, t, u, w);
        }
      }
    }
  }

  lemma {:induction false} CallSkipped(env: Env, c: Code, s: State, t: State)
    requires c.Call? && t.jumps == s.jumps && t.pc == s.pc + Size(c) && Near(env, t) && Onward(s, t)
    requires t.dp == s.dp && s.dp < s.datalen ==> !Eats(c) && (Clears(c) ==> !t.matched)
    ensures Passed(env, c, s, t)
  {
    hide Near;
  }

  lemma {:induction false} CallReturned(env: Env, c: Code, s: State, t: State, u: State, w: State)
    requires c.Call? && Near(env, u) && s.dp < t.dp <= u.dp
    requires t.jumps == s.jumps + [s.pc + 3] && u.jumps == t.jumps
    requires w == u.(pc := u.jumps[|u.jumps| - 1], jumps := u.jumps[..|u.jumps| - 1])
    ensures Passed(env, c, s, w)
  {
    NearAnyPc(env, u, w);
    hide Near;
    assert w.jumps == s.jumps;
  }

  lemma {:induction false} CallReads(env: Env, s: State, t: State)
    requires Near(env, s) && s.dp < t.dp && s.dp < s.datalen
    ensures Left(t) < Left(s)
  {
  }

  lemma {:induction false} NearAnyPc(env: Env, s: State, t: State)
    requires Near(env, s) && t == s.(pc := t.pc, jumps := t.jumps)
    ensures Near(env, t)
  {
  }

  lemma {:induction false} PlacingThen(k: Machine, env: Env, a: Code, b: Code, s: State)
    requires Placing(k, env, Then(a, b), s)
    ensures Placing(k, env, a, s)
  {
    HereThen(k, a, b, s.pc);
    hide Here, Machine.Valid, Near;
  }

  lemma {:induction false} PlacingNext(k: Machine, env: Env, a: Code, b: Code, s: State, t: State)
    requires Placing(k, env, Then(a, b), s) && Passed(env, a, s, t)
    ensures Placing(k, env, b, t) && Left(t) <= Left(s)
  {
    hide Here, Machine.Valid, Near, Reaches, Size;
    HereThen(k, a, b, s.pc);
  }

  lemma {:induction false} PassedThen(env: Env, a: Code, b: Code, s: State, t: State, d: Config)
    requires Reaches(env, Run(s), Run(t)) && Passed(env, a, s, t) && StopsOr(env, t, d, b)
    ensures StopsOr(env, s, d, Then(a, b))
  {
    ReachesTrans(env, Run(s), Run(t), d);
    hide Reaches, Near;
    if d.Run? {
      var u := d.st;
      if s.dp < s.datalen && u.dp == s.dp {
        assert t.dp == s.dp && t.datalen == s.datalen;
      }
    }
  }

  lemma {:induction false} NilPasses(k: Machine, env: Env, s: State) returns (d: Config)
    requires Near(env, s)
    ensures StopsOr(env, s, d, Nil)
  {
    d := Run(s);
    ReachesSelf(env, d);
    hide Reaches, Near;
  }

  lemma {:induction false} BlockProgress(k: Machine, env: Env, c: Code, s: State) returns (d: Config)
    requires Placing(k, env, c, s) && AllLoopsEat(k) && LoopsEat(c) && c.Block?
    ensures StopsOr(env, s, d, c)
    decreases Left(s), c, 0
  {
    hide Machine.Valid, Step, Placed, Emit, Reaches, Near, AllLoopsEat, Here, PlacedEnd;
    OpenerPasses(k, env, c, s);
    BlockHere(k, c, s.pc);
    ReachesStep(env, s);
    d := Step(env, s);
    if d.Run? {
      var t := d.st;
      d := FromHead(k, env, c.kind, c.inner, c.act, t);
      ReachesTrans(env, Run(s), Run(t), d);
    }
  }

  /** A body from its head: the machine stops or gets behind END. */
  lemma {:induction false} FromHead(k: Machine, env: Env, kind: Kind, inner: Code, act: Option<nat>, s: State)
    returns (d: Config)
    requires Placing(k, env, inner, s) && Body(k, kind, act, inner, s.pc) && AllLoopsEat(k) && LoopsEat(inner)
    requires kind != SeqKind ==> Eats(inner)
    ensures Reaches(env, Run(s), d)
    ensures d.Run? ==>
              && d.st.pc == s.pc + Size(inner) + EndSize(kind, act) && d.st.jumps == s.jumps
              && Near(env, d.st) && s.dp <= d.st.dp
    decreases Left(s), inner, if s.dp < s.datalen then 2 else 3
  {
    hide Machine.Valid, Step, Placed, Emit, Reaches, Near, AllLoopsEat, Here, PlacedEnd;
    d := Progress(k, env, inner, s);
    if d.Run? {
      var t := d.st;
      EndPasses(k, env, kind, s.pc, act, t);
      ReachesStep(env, t);
      ReachesTrans(env, Run(s), Run(t), Step(env, t));
      d := Step(env, t);
      if d.Run? && d.st.pc != t.pc + EndSize(kind, act) {
        var u := d.st;
        NearBound(env, s);
        d := FromHead(k, env, kind, inner, act, u);
        ReachesTrans(env, Run(s), Run(u), d);
      }
    }
  }

  lemma {:induction false} NearBound(env: Env, s: State)
    requires Near(env, s)
    ensures s.datalen <= FAR
  {
  }

  /** If the code of every loop reads something in each round, the machine stops on every
      input, whatever the action functions return. */
  lemma {:induction false} MachineTerminates(k: Machine, env: Env)
    requires For(k, env) && AllLoopsEat(k)
    ensures exists n: nat :: After(env, BerMachine.Start(env), n).Halt?
  {
    var c := BerMachine.Start(env);
    if c.Halt? {
      assert After(env, c, 0).Halt?;
    } else {
      StartsNear(k, env);
      MachineParts(k);
      MainEats(k);
      hide Machine.Valid, Step, Placed, Emit, Near, AllLoopsEat, Here, After, Render, RenderBodies;
      var d := Progress(k, env, k.Main(), c.st);
      if d.Run? {
        StopsAtComplete(env, d.st);
        ReachesStep(env, d.st);
        ReachesTrans(env, c, d, Step(env, d.st));
        var n: nat :| After(env, c, n) == Step(env, d.st);
      }
    }
  }

  lemma {:induction false} StartsNear(k: Machine, env: Env)
    requires For(k, env) && BerMachine.Start(env).Run?
    ensures Placing(k, env, k.Main(), BerMachine.Start(env).st) && BerMachine.Start(env).st.pc == 0
  {
    RootHere(k);
    hide Machine.Valid, Here;
  }

  lemma {:induction false} MainEats(k: Machine)
    requires k.g.types != [] && AllLoopsEat(k)
    ensures LoopsEat(k.Main())
  {
    hide Render;
  }

  lemma {:induction false} StopsAtComplete(env: Env, s: State)
    requires 0 <= s.pc < |env.machine| && env.machine[s.pc] == COMPLETE
    ensures Step(env, s).Halt?
  {
    hide MatchStep, EndStep;
  }
}

/** Which grammars the machine stops for on every input. */
module TerminatingGrammars {
  import opened Grammar
  import opened Code
  import opened Layout
  import opened Queue
  import opened SupportedGrammars
  import opened RegularGrammars
  import opened Renderer
  import opened Termination
  import BerMachine
  import Safety

  /** The alternative a CHOICE tries first is tried whatever has matched before. */
  predicate Leads(g: Grammar, e: Element, fuel: nat)
    decreases fuel, e
  {
    !e.conditional &&
    match e.compound
    case TagOverride(inner) => Leads(g, inner, fuel)
    case TypeRef(t) => fuel > 0 && t < |g.types| ==> Leads(g, g.types[t], fuel - 1)
    case Choice(es) => es != [] && Leads(g, es[0], fuel)
    case _ => true
  }

  /** Neither OPTIONAL nor DEFAULT, directly or through references and IMPLICIT tags. */
  predicate Mandatory(g: Grammar, e: Element, fuel: nat)
    decreases fuel, e
  {
    Unflagged(e) &&
    match e.compound
    case TagOverride(inner) => Mandatory(g, inner, fuel)
    case TypeRef(t) => fuel > 0 && t < |g.types| ==> Mandatory(g, g.types[t], fuel - 1)
    case Choice(es) => es != [] && Leads(g, es[0], fuel)
    case _ => true
  }

  /** What SEQUENCE OF and SET OF repeat is mandatory. */
  predicate RepeatsMandatory(g: Grammar, e: Element, fuel: nat) {
    match e.compound
    case SequenceOf(item) => Mandatory(g, item, fuel)
    case SetOf(item) => Mandatory(g, item, fuel)
    case _ => true
  }

  ghost predicate AllRepeatsMandatory(g: Grammar, fuel: nat) {
    forall e :: e in BelowAll(g.types) ==> RepeatsMandatory(g, e, fuel)
  }

  /** The same, element by element. */
  predicate RepeatsOk(g: Grammar, e: Element, fuel: nat)
    decreases e, 1
  {
    && RepeatsMandatory(g, e, fuel)
    && match e.compound
       case Choice(es) => AllRepeatsOk(g, es, fuel)
       case Sequence(es) => AllRepeatsOk(g, es, fuel)
       case SequenceOf(item) => RepeatsOk(g, item, fuel)
       case SetOf(item) => RepeatsOk(g, item, fuel)
       case Set(es) => AllRepeatsOk(g, es, fuel)
       case TagOverride(inner) => RepeatsOk(g, inner, fuel)
       case _ => true
  }

  predicate AllRepeatsOk(g: Grammar, es: seq<Element>, fuel: nat)
    decreases es, 0
  {
    es == [] || (RepeatsOk(g, es[0], fuel) && AllRepeatsOk(g, es[1..], fuel))
  }

  lemma {:induction false} RepeatsBelow(g: Grammar, e: Element, y: Element, fuel: nat)
    requires RepeatsOk(g, e, fuel) && y in Below(e)
    ensures RepeatsMandatory(g, y, fuel)
    decreases e, 1
  {
    hide RepeatsMandatory;
    if y != e {
      match e.compound
      case Choice(es) => RepeatsBelowAll(g, es, y, fuel);
      case Sequence(es) => RepeatsBelowAll(g, es, y, fuel);
      case SequenceOf(item) => RepeatsBelow(g, item, y, fuel);
      case SetOf(item) => RepeatsBelow(g, item, y, fuel);
      case Set(es) => RepeatsBelowAll(g, es, y, fuel);
      case TagOverride(inner) => RepeatsBelow(g, inner, y, fuel);
    }
  }

  lemma {:induction false} RepeatsBelowAll(g: Grammar, es: seq<Element>, y: Element, fuel: nat)
    requires AllRepeatsOk(g, es, fuel) && y in BelowAll(es)
    ensures RepeatsMandatory(g, y, fuel)
    decreases es, 0
  {
    if y in Below(es[0]) {
      RepeatsBelow(g, es[0], y, fuel);
    } else {
      RepeatsBelowAll(g, es[1..], y, fuel);
    }
  }

  lemma {:induction false} RepeatsOkDecides(g: Grammar, fuel: nat)
    requires AllRepeatsOk(g, g.types, fuel)
    ensures AllRepeatsMandatory(g, fuel)
  {
    hide RepeatsMandatory;
    forall e | e in BelowAll(g.types)
      ensures RepeatsMandatory(g, e, fuel)
    {
      RepeatsBelowAll(g, g.types, e, fuel);
    }
  }

  lemma {:induction false} LeadsMono(g: Grammar, e: Element, less: nat, fuel: nat)
    requires less <= fuel && Leads(g, e, fuel)
    ensures Leads(g, e, less)
    decreases fuel, e
  {
    match e.compound
    case TagOverride(inner) => LeadsMono(g, inner, less, fuel);
    case TypeRef(t) => if less > 0 && t < |g.types| { LeadsMono(g, g.types[t], less - 1, fuel - 1); }
    case Choice(es) => LeadsMono(g, es[0], less, fuel);
    case _ =>
  }

  lemma {:induction false} MandatoryMono(g: Grammar, e: Element, less: nat, fuel: nat)
    requires less <= fuel && Mandatory(g, e, fuel)
    ensures Mandatory(g, e, less)
    decreases fuel, e
  {
    match e.compound
    case TagOverride(inner) => MandatoryMono(g, inner, less, fuel);
    case TypeRef(t) => if less > 0 && t < |g.types| { MandatoryMono(g, g.types[t], less - 1, fuel - 1); }
    case Choice(es) => LeadsMono(g, es[0], less, fuel);
    case _ =>
  }

  lemma {:induction false} LeadsClears(g: Grammar, e: Element, tag: Override, fuel: nat, nrActions: nat)
    requires Leads(g, e, fuel) && (tag.Some? ==> !tag.value.conditional)
    requires Sound(Render(g, e, tag, fuel), nrActions)
    ensures Clears(Render(g, e, tag, fuel))
    decreases fuel, e
  {
    match e.compound
    case TagOverride(inner) => LeadsClears(g, inner, Some(e), fuel, nrActions);
    case TypeRef(t) => LeadsClears(g, g.types[t], tag, fuel - 1, nrActions);
    case Choice(es) =>
      assert RenderAll(g, es, fuel) == Then(Render(g, es[0], None, fuel), RenderAll(g, es[1..], fuel));
      LeadsClears(g, es[0], None, fuel, nrActions);
    case _ =>
  }

  lemma {:induction false} MandatoryEats(g: Grammar, e: Element, tag: Override, fuel: nat, nrActions: nat)
    requires Mandatory(g, e, fuel) && (tag.Some? ==> Unflagged(tag.value))
    requires Sound(Render(g, e, tag, fuel), nrActions)
    ensures Eats(Render(g, e, tag, fuel))
    decreases fuel, e
  {
    match e.compound
    case TagOverride(inner) => MandatoryEats(g, inner, Some(e), fuel, nrActions);
    case TypeRef(t) => MandatoryEats(g, g.types[t], tag, fuel - 1, nrActions);
    case Choice(es) =>
      var all, rest := RenderAll(g, es, fuel), RenderAll(g, es[1..], fuel);
      assert all == Then(Render(g, es[0], None, fuel), rest);
      LeadsClears(g, es[0], None, fuel, nrActions);
      assert Clears(all);
      assert Fails(Then(CondFail, ActCode(e.action)));
    case _ =>
  }

  lemma {:induction false} LoopsOf(g: Grammar, e: Element, tag: Override, less: nat, fuel: nat, nrActions: nat)
    requires AllRepeatsMandatory(g, fuel) && less <= fuel && Below(e) <= BelowAll(g.types)
    requires Sound(Render(g, e, tag, less), nrActions)
    ensures LoopsEat(Render(g, e, tag, less))
    decreases less, e, 1
  {
    hide AllRepeatsMandatory;
    match e.compound
    case TagOverride(inner) => LoopsOf(g, inner, Some(e), less, fuel, nrActions);
    case TypeRef(t) =>
      TypeIsBelow(g.types, t);
      LoopsOf(g, g.types[t], tag, less - 1, fuel, nrActions);
    case Choice(es) =>
      LoopsOfAll(g, es, less, fuel, nrActions);
      assert LoopsEat(Then(if Skippable(e, tag) then Nil else CondFail, ActCode(e.action)));
    case Sequence(es) => if !OutOfLine(g, e, tag) { LoopsOfAll(g, es, less, fuel, nrActions); }
    case SequenceOf(item) => if !OutOfLine(g, e, tag) { LoopOf(g, e, item, less, fuel, nrActions); }
    case SetOf(item) => if !OutOfLine(g, e, tag) { LoopOf(g, e, item, less, fuel, nrActions); }
    case _ =>
  }

  lemma {:induction false} LoopOf(g: Grammar, e: Element, item: Element, less: nat, fuel: nat, nrActions: nat)
    requires AllRepeatsMandatory(g, fuel) && less <= fuel && Below(e) <= BelowAll(g.types)
    requires e.compound == SequenceOf(item) || e.compound == SetOf(item)
    requires Sound(Render(g, item, None, less), nrActions)
    ensures LoopsEat(Render(g, item, None, less)) && Eats(Render(g, item, None, less))
    decreases less, item, 2
  {
    assert e in Below(e) && Below(item) <= Below(e);
    MandatoryMono(g, item, less, fuel);
    MandatoryEats(g, item, None, less, nrActions);
    LoopsOf(g, item, None, less, fuel, nrActions);
  }

  lemma {:induction false} LoopsOfAll(g: Grammar, es: seq<Element>, less: nat, fuel: nat, nrActions: nat)
    requires AllRepeatsMandatory(g, fuel) && less <= fuel && BelowAll(es) <= BelowAll(g.types)
    requires Sound(RenderAll(g, es, less), nrActions)
    ensures LoopsEat(RenderAll(g, es, less))
    decreases less, es, 0
  {
    hide AllRepeatsMandatory;
    if es != [] {
      LoopsOf(g, es[0], None, less, fuel, nrActions);
      LoopsOfAll(g, es[1..], less, fuel, nrActions);
    }
  }

  lemma {:induction false} BodyLoops(g: Grammar, e: Element, fuel: nat, nrActions: nat)
    requires AllRepeatsMandatory(g, fuel) && e in BelowAll(g.types)
    requires SoundSub(RenderBody(g, e, fuel), nrActions)
    ensures LoopsEat(RenderBody(g, e, fuel))
  {
    BelowAllIsClosed(g.types, e);
    match e.compound
    case Sequence(es) => LoopsOfAll(g, es, fuel, fuel, nrActions);
    case SequenceOf(item) => LoopOf(g, e, item, fuel, fuel, nrActions);
    case SetOf(item) => LoopOf(g, e, item, fuel, fuel, nrActions);
  }

  /** Termination: for every supported grammar in which what is repeated is neither OPTIONAL
      nor DEFAULT, the compiled machine stops on every input, whatever the actions return. */
  lemma {:induction false} CompiledTerminates(k: Machine, env: BerMachine.Env)
    requires Safety.For(k, env) && Supported(k.g, k.fuel, k.nrActions) && IsFinal(k.g, k.fuel, k.order)
    requires AllRepeatsMandatory(k.g, k.fuel)
    ensures exists n: nat :: BerMachine.After(env, BerMachine.Start(env), n).Halt?
  {
    hide Machine.Valid, AllRepeatsMandatory, OrderAfter, BelowAll, Render, RenderBody, BerMachine.After;
    TypeIsBelow(k.g.types, 0);
    MainIsSound(k);
    LoopsOf(k.g, k.g.types[0], None, k.fuel, k.fuel, k.nrActions);
    OrderIsBelow(k.g, k.fuel, |k.order|);
    forall e | e in k.order
      ensures LoopsEat(RenderBody(k.g, e, k.fuel))
    {
      SubIsSound(k, e);
      BodyLoops(k.g, e, k.fuel, k.nrActions);
    }
    MachineTerminates(k, env);
  }

  lemma {:induction false} MainIsSound(k: Machine)
    requires k.Valid()
    ensures Sound(k.Main(), k.nrActions)
  {
  }

  lemma {:induction false} SubIsSound(k: Machine, e: Element)
    requires k.Valid() && e in k.order
    ensures SoundSub(RenderBody(k.g, e, k.fuel), k.nrActions)
  {
    SubsSoundAt(k.g, k.order, k.fuel, k.nrActions, e);
  }
}
