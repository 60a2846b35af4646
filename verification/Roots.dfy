/** The element a whole input is: for every grammar whose root is constructed, what an accepted
    run says about it. */
module Roots {
  import opened Octets
  import opened Bytecode
  import opened Grammar
  import opened Code
  import opened Layout
  import opened BerMachine
  import opened Safety
  import opened Nesting
  import opened Steps

  // ----- the code of a constructed root -------------------------------------------------

  /** One constructed element, inline or out of line, with nothing behind it but actions. */
  predicate Rooted(c: Code) {
    match c
    case Block(_, _, _, _) => true
    case Call(_, _, _, _) => true
    case Then(a, b) => Rooted(a) && (b.Nil? || b.Act?)
    case _ => false
  }

  /** The instruction or the block that matches the root. */
  function RootCode(c: Code): (r: Code)
    requires Rooted(c)
    ensures r.Block? || r.Call?
  {
    if c.Then? then RootCode(c.first) else c
  }

  function RootSize(c: Code): nat
    requires Rooted(c)
  {
    Size(RootCode(c))
  }

  /** SEQUENCE, SEQUENCE OF or SET OF, directly or through references and IMPLICIT tags. */
  predicate IsConstructedType(g: Grammar, e: Element, fuel: nat)
    decreases fuel, e
  {
    match e.compound
    case Sequence(_) => true
    case SequenceOf(_) => true
    case SetOf(_) => true
    case TagOverride(inner) => IsConstructedType(g, inner, fuel)
    case TypeRef(t) => fuel > 0 && t < |g.types| && IsConstructedType(g, g.types[t], fuel - 1)
    case _ => false
  }

  /** Such a type renders to such code. */
  lemma {:induction false} ConstructedIsRooted(g: Grammar, e: Element, tag: Override, fuel: nat)
    requires IsConstructedType(g, e, fuel)
    ensures Rooted(Render(g, e, tag, fuel))
    decreases fuel, e
  {
    match e.compound
    case TagOverride(inner) => ConstructedIsRooted(g, inner, Some(e), fuel);
    case TypeRef(t) => ConstructedIsRooted(g, g.types[t], tag, fuel - 1);
    case _ =>
  }

  // ----- where the code of a root is not nested -----------------------------------------

  lemma {:induction false} RootIsPlaced(m: seq<int>, c: Code, entries: map<Element, int>, base: int, nrActions: nat)
    requires Rooted(c) && Placed(m, c, entries, base) && Sound(c, nrActions)
    ensures Placed(m, RootCode(c), entries, base) && Sound(RootCode(c), nrActions)
    ensures 3 <= RootSize(c) <= Size(c) || (RootCode(c).Block? && 2 <= RootSize(c) <= Size(c))
    decreases c
  {
    hide Placed, Emit;
    if c.Then? {
      PlacedThen(m, c.first, c.rest, entries, base);
      RootIsPlaced(m, c.first, entries, base, nrActions);
    }
  }

  /** In the code of a root, an instruction is the very first one, or nested in the root, or
      one of the actions behind it. */
  lemma {:induction false} RootShape(m: seq<int>, c: Code, entries: map<Element, int>, base: int, pc: int, nrActions: nat)
    requires Rooted(c) && Placed(m, c, entries, base) && Sound(c, nrActions)
    requires base <= pc < base + Size(c) && Starts(c, base, pc)
    ensures pc == base || (RootCode(c).Block? && Depth(c, base, 0, pc) >= 1)
            || (pc >= base + RootSize(c) && m[pc] == ACT && Depth(c, base, 0, pc) == 0)
    decreases c
  {
    hide Placed, Emit;
    RootIsPlaced(m, c, entries, base, nrActions);
    match c
    case Then(a, b) =>
      PlacedThen(m, a, b, entries, base);
      if pc < base + Size(a) {
        RootShape(m, a, entries, base, pc, nrActions);
      } else {
        RootIsPlaced(m, a, entries, base, nrActions);
        PlacedLeaf(m, b, entries, base + Size(a));
      }
    case Block(_, _, inner, _) =>
      DepthFrom(inner, base + 2, 1, pc, nrActions);
    case _ =>
  }

  /** Out of line, only RETURN is not nested. */
  lemma {:induction false} SubsShape(m: seq<int>, nrActions: nat, g: Grammar, order: seq<Element>, fuel: nat,
                                     entries: map<Element, int>, base: int, pc: int)
    requires SoundSubs(g, order, fuel, nrActions)
    requires Placed(m, RenderBodies(g, order, fuel), entries, base)
    requires base <= pc && Starts(RenderBodies(g, order, fuel), base, pc)
    requires Depth(RenderBodies(g, order, fuel), base, 0, pc) == 0
    ensures 0 <= pc < |m| && m[pc] == RETURN
    decreases order
  {
    hide Placed, Emit, RenderBody, SoundSub;
    if order != [] {
      var a, b := RenderBody(g, order[0], fuel), RenderBodies(g, order[1..], fuel);
      PlacedThen(m, a, b, entries, base);
      if pc < base + Size(a) {
        SubShape(m, nrActions, a, entries, base, pc);
      } else {
        SubsShape(m, nrActions, g, order[1..], fuel, entries, base + Size(a), pc);
      }
    }
  }

  lemma {:induction false} SubShape(m: seq<int>, nrActions: nat, c: Code, entries: map<Element, int>, base: int, pc: int)
    requires SoundSub(c, nrActions) && Placed(m, c, entries, base)
    requires base <= pc < base + Size(c) && Starts(c, base, pc) && Depth(c, base, 0, pc) == 0
    ensures 0 <= pc < |m| && m[pc] == RETURN
  {
    PlacedSub(m, c, entries, base);
    PlacedFits(m, c, entries, base);
    DepthFrom(c.inner, base, 1, pc, nrActions);
    hide Placed, Emit;
  }

  lemma {:induction false} Shape(k: Machine, pc: int)
    requires k.Valid() && Rooted(k.Main()) && k.IsStart(pc)
    ensures 2 <= RootSize(k.Main()) <= k.Last() < |k.m|
    ensures pc <= k.Last() ==>
              || pc == 0 || k.DepthAt(pc) >= 1
              || (RootSize(k.Main()) <= pc && (pc == k.Last() || k.m[pc] == ACT))
    ensures pc > k.Last() && k.DepthAt(pc) == 0 ==> pc < |k.m| && k.m[pc] == RETURN
  {
    MachineParts(k);
    StartsByPart(k, pc);
    MainSound(k);
    hide Render, RenderBodies, Emit, Placed, Machine.Image, Machine.DepthAt, Machine.IsStart;
    RootIsPlaced(k.m, k.Main(), k.entries, 0, k.nrActions);
    if pc < k.Last() {
      RootShape(k.m, k.Main(), k.entries, 0, pc, k.nrActions);
    } else if pc > k.Last() && k.DepthAt(pc) == 0 {
      SubsShape(k.m, k.nrActions, k.g, k.order, k.fuel, k.entries, k.Last() + 1, pc);
    }
  }

  lemma {:induction false} MainSound(k: Machine)
    requires k.Valid()
    ensures Sound(k.Main(), k.nrActions) && SoundSubs(k.g, k.order, k.fuel, k.nrActions)
  {
  }

  // ----- the first instruction ----------------------------------------------------------

  /** The input begins with the tag of the root. */
  predicate HasRoot(k: Machine, env: Env)
    requires k.g.types != [] && Rooted(k.Main())
  {
    env.data != [] && TagMatches(RootCode(k.Main()).optag, env.data[0])
  }

  /** Only an element rendered out of line can be passed over: at the end of the data, or in
      front of another tag if it is optional. */
  predicate Bypassable(k: Machine, env: Env)
    requires k.g.types != [] && Rooted(k.Main())
  {
    RootCode(k.Main()).Call? && (env.data == [] || RootCode(k.Main()).skip)
  }

  /** An instruction with a constructed tag opens a frame exactly in front of that tag. */
  lemma {:induction false} OpensOnTag(env: Env, s: State, op: int)
    requires IsPlainMatch(op) || IsJumpMatch(op)
    requires 0 <= s.pc && s.pc + 1 < |env.machine| && HasConsBit(env.machine[s.pc + 1]) && OperandsOk(env, s.pc, op)
    requires !(HasCond(op) && s.matched) && MatchStep(env, s, op).Run?
    ensures var t := MatchStep(env, s, op).st;
            var optag := env.machine[s.pc + 1];
            && (|t.cons| > |s.cons| ==> s.dp != s.datalen && 0 <= s.dp < |env.data| && TagMatches(optag, env.data[s.dp]))
            && (|t.cons| <= |s.cons| ==>
                  && t.dp == s.dp && |t.cons| == |s.cons|
                  && (s.dp == s.datalen || (HasSkip(op) && 0 <= s.dp < |env.data| && !TagMatches(optag, env.data[s.dp]))))
  {
    BitsOfOps(op);
    hide Header, OperandsOk, TagMatches, HasConsBit, HasSkip, HasCond, OpLength, IsPlainMatch, IsJumpMatch, IsAnyMatch,
      IsLongTag;
    if !(s.dp == s.datalen) && 0 <= s.dp < |env.data| {
      var u := Tagged(s, env.data[s.dp], true);
      TaggedEffect(s, env.data[s.dp], true);
      HeaderEffect(env, u, op);
    }
  }

  /** The instruction at the start of the machine. */
  lemma {:induction false} RootOp(k: Machine)
    requires k.Valid() && Rooted(k.Main())
    ensures |k.m| >= 2 && k.m[1] == RootCode(k.Main()).optag && HasConsBit(k.m[1])
    ensures RootCode(k.Main()).Block? ==> k.m[0] == MATCH
    ensures RootCode(k.Main()).Call? ==>
              IsJumpMatch(k.m[0]) && OpLength(k.m[0]) == 3 == RootSize(k.Main())
              && (HasSkip(k.m[0]) <==> RootCode(k.Main()).skip)
    ensures 0 <= k.m[0] <= OP_MATCHES_TAG
  {
    MachineParts(k);
    MainSound(k);
    hide Render, RenderBodies, Emit, Placed, Machine.Valid;
    var c := RootCode(k.Main());
    RootIsPlaced(k.m, k.Main(), k.entries, 0, k.nrActions);
    RootOpIs(k.m, c, k.entries, k.nrActions);
  }

  lemma {:induction false} RootOpIs(m: seq<int>, c: Code, entries: map<Element, int>, nrActions: nat)
    requires Placed(m, c, entries, 0) && Sound(c, nrActions) && (c.Block? || c.Call?)
    ensures |m| >= 2 && m[1] == c.optag && HasConsBit(m[1])
    ensures c.Block? ==> m[0] == MATCH
    ensures c.Call? ==> IsJumpMatch(m[0]) && OpLength(m[0]) == 3 == Size(c) && (HasSkip(m[0]) <==> c.skip)
    ensures 0 <= m[0] <= OP_MATCHES_TAG
  {
    PlacedFits(m, c, entries, 0);
    if c.Block? {
      PlacedBlock(m, c, entries, 0);
    } else {
      PlacedLeaf(m, c, entries, 0);
      OpFacts(c.cond, c.skip, None);
    }
    hide Placed, Emit;
  }

  /** What the first pass does to the root. */
  lemma {:induction false} FirstPass(k: Machine, env: Env)
    requires For(k, env) && Rooted(k.Main()) && |env.data| <= 0xffff
    requires Step(env, Init(env)).Run? && !SkipsOpener(env, Init(env))
    ensures var t := Step(env, Init(env)).st;
            if t.cons == [] then
              Bypassable(k, env) && !HasRoot(k, env) && t.pc == RootSize(k.Main()) && t.jumps == [] && t.dp == 0
            else
              && HasRoot(k, env) && |t.cons| == 1 && RootOpen(env, t.cons, t.datalen) && t.dp > 0
              && (t.jumps == [] || t.jumps == [RootSize(k.Main())])
  {
    RootOp(k);
    hide Machine.Valid, Render, RenderBodies, Machine.Main, Step, RootOpen, TagMatches, HasConsBit, HasSkip;
    FirstOpens(env);
  }

  /** The same of any table that starts with the opener of a constructed element. */
  lemma {:induction false} FirstOpens(env: Env)
    requires |env.machine| >= 2 && 0 <= env.machine[0] <= OP_MATCHES_TAG && |env.data| <= 0xffff
    requires HasConsBit(env.machine[1])
    requires env.machine[0] == MATCH || (IsJumpMatch(env.machine[0]) && OpLength(env.machine[0]) == 3)
    requires Step(env, Init(env)).Run? && !SkipsOpener(env, Init(env))
    ensures var t, op := Step(env, Init(env)).st, env.machine[0];
            var has := env.data != [] && TagMatches(env.machine[1], env.data[0]);
            if t.cons == [] then
              && IsJumpMatch(op) && (env.data == [] || HasSkip(op)) && !has && t.pc == 3 && t.jumps == [] && t.dp == 0
            else
              && has && |t.cons| == 1 && RootOpen(env, t.cons, t.datalen) && t.dp > 0
              && (t.jumps == [] || (IsJumpMatch(op) && t.jumps == [3]))
  {
    var s, op := Init(env), env.machine[0];
    hide MatchStep, EndStep, HasConsBit, TagMatches, Step, RootOpen, Moves, HasCond, OpLength, HasSkip;
    RootEffect(env, s, op);
    OpensOnTag(env, s, op);
    StepIsMatch(env, s);
    StepMoves(env, s);
    if Step(env, s).st.cons != [] {
      FirstFrame(env, s, Step(env, s).st);
    }
  }

  lemma {:induction false} StepIsMatch(env: Env, s: State)
    requires s.pc == 0 && |env.machine| >= 2 && 0 <= env.machine[0] <= OP_MATCHES_TAG
    requires Step(env, s).Run?
    ensures Step(env, s) == MatchStep(env, s, env.machine[0]) && OpLength(env.machine[0]) <= |env.machine|
  {
    hide MatchStep, EndStep;
  }

  lemma {:induction false} RootEffect(env: Env, s: State, op: int)
    requires s.pc == 0 && s.cons == [] && s.jumps == [] && |env.machine| >= 2 && env.machine[0] == op
    requires HasConsBit(env.machine[1]) && (op == MATCH || (IsJumpMatch(op) && OpLength(op) == 3))
    requires Step(env, s).Run? && 0 <= op <= OP_MATCHES_TAG
    ensures IsPlainMatch(op) || IsJumpMatch(op)
    ensures OperandsOk(env, 0, op)
    ensures op == MATCH ==> !HasCond(op)
    ensures var t := Step(env, s).st;
            && |t.cons| <= 1
            && (op == MATCH ==> t.jumps == [] && (t.cons == [] ==> SkipsOpener(env, s)))
            && (IsJumpMatch(op) ==> if t.cons == [] then t.jumps == [] && t.pc == 3 else t.jumps == [3])
  {
    StepIsMatch(env, s);
    MatchEffect(env, s);
    hide MatchStep, EndStep, HasConsBit;
  }

  lemma {:induction false} FirstFrame(env: Env, s: State, t: State)
    requires s.cons == [] && s.dp == 0 && t.cons != [] && s.datalen == |env.data| <= 0xffff && Moves(env, s, t)
    ensures |t.cons| == 1 && RootOpen(env, t.cons, t.datalen) && t.dp > 0
  {
    hide EndsAsDeclared, Declares, DeclaresIndefinite, RootOpen;
    RootOpens(env, s, t);
  }

  // ----- the end of the root ------------------------------------------------------------

  predicate IsIndefinite(env: Env, f: Frame) {
    DeclaresIndefinite(env.data, Nesting.Begin(f), f.dp)
  }

  predicate AllIndefinite(env: Env, frames: seq<Frame>, n: nat)
    requires n <= |frames|
  {
    forall i :: 1 <= i < n ==> IsIndefinite(env, frames[i])
  }

  /** The lowest frame of definite length above the root has stacked `end` as the end of what
      encloses it; if there is none, `datalen` is that end. */
  predicate Grounded(env: Env, frames: seq<Frame>, datalen: int, end: int) {
    && (forall i :: 1 <= i < |frames| && AllIndefinite(env, frames, i) && !IsIndefinite(env, frames[i]) ==>
          frames[i].datalen == end)
    && (forall i :: 1 <= i < |frames| && IsIndefinite(env, frames[i]) ==> frames[i].datalen == 0)
    && (AllIndefinite(env, frames, |frames|) ==> datalen == end)
  }

  /** The root is open, and its end is known. */
  ghost predicate RootOpen(env: Env, frames: seq<Frame>, datalen: int)
    requires frames != []
  {
    var f := frames[0];
    && Nesting.Begin(f) == 0
    && if f.datalen == 0 then IsIndefinite(env, f)
       else exists end :: 0 < end <= 0xffff && Declares(env.data, 0, f.dp, end - f.dp)
                          && Grounded(env, frames, datalen, end)
  }

  lemma {:induction false} GroundedOpens(env: Env, s: State, t: State, end: int)
    requires Opens(env, s, t) && Grounded(env, s.cons, s.datalen, end) && 0 < end <= 0xffff && |env.data| <= 0xffff
    requires s.cons != []
    ensures Grounded(env, t.cons, t.datalen, end)
  {
    var n, f := |s.cons|, t.cons[|s.cons|];
    assert forall i :: 0 <= i < n ==> t.cons[i] == s.cons[i];
    assert f.dp == t.dp && Nesting.Begin(f) == s.dp;
    IndefiniteIsNot(env.data, s.dp, t.dp);
    hide Declares, DeclaresIndefinite, Nesting.Begin;
    assert forall i: nat :: i <= n ==> AllIndefinite(env, t.cons, i) == AllIndefinite(env, s.cons, i);
    assert AllIndefinite(env, t.cons, n + 1) ==> AllIndefinite(env, s.cons, n) && IsIndefinite(env, f);
  }

  lemma {:induction false} GroundedCloses(env: Env, s: State, t: State, end: int)
    requires Closes(env, s, t) && Grounded(env, s.cons, s.datalen, end) && 0 < end && |s.cons| > 1
    ensures Grounded(env, t.cons, t.datalen, end)
  {
    var n, f := |s.cons| - 1, s.cons[|s.cons| - 1];
    assert forall i :: 0 <= i < n ==> t.cons[i] == s.cons[i];
    hide IsIndefinite;
    assert forall i: nat :: i <= n ==> AllIndefinite(env, t.cons, i) == AllIndefinite(env, s.cons, i);
    assert AllIndefinite(env, s.cons, n) && IsIndefinite(env, f) ==> AllIndefinite(env, s.cons, n + 1);
  }

  lemma {:induction false} RootStaysOpen(env: Env, s: State, t: State)
    requires Moves(env, s, t) && s.cons != [] && t.cons != [] && |env.data| <= 0xffff && RootOpen(env, s.cons, s.datalen)
    ensures RootOpen(env, t.cons, t.datalen)
  {
    BottomStays(env, s, t);
    hide Declares, Grounded, MatchesLeaf, IsIndefinite, Nesting.Begin;
    if s.cons[0].datalen != 0 {
      var end :| 0 < end <= 0xffff && Declares(env.data, 0, s.cons[0].dp, end - s.cons[0].dp)
                 && Grounded(env, s.cons, s.datalen, end);
      if Opens(env, s, t) {
        GroundedOpens(env, s, t, end);
      } else if Closes(env, s, t) {
        GroundedCloses(env, s, t, end);
      } else {
        KeepsFrames(env, s, t);
      }
    }
  }

  lemma {:induction false} KeepsFrames(env: Env, s: State, t: State)
    requires Stays(s, t) || MatchesLeaf(env, s, t)
    ensures t.cons == s.cons && t.datalen == s.datalen
  {
    hide EndsAsDeclared;
  }

  lemma {:induction false} RootOpens(env: Env, s: State, t: State)
    requires Opens(env, s, t) && s.cons == [] && s.dp == 0 && s.datalen == |env.data| <= 0xffff
    ensures RootOpen(env, t.cons, t.datalen)
  {
    var f := t.cons[0];
    assert f.dp == t.dp && Nesting.Begin(f) == 0;
    if f.datalen != 0 {
      ShortFits(env, t);
      assert Grounded(env, t.cons, t.datalen, t.datalen);
    }
    hide Declares;
  }

  lemma {:induction false} ShortFits(env: Env, t: State)
    requires Declares(env.data, 0, t.dp, t.datalen - t.dp) && (t.datalen - t.dp <= 0x7f || t.datalen <= |env.data|)
    requires |env.data| <= 0xffff
    ensures 0 < t.datalen <= 0xffff
  {
  }

  lemma {:induction false} RootClosed(env: Env, s: State, t: State)
    requires Closes(env, s, t) && |s.cons| == 1 && RootOpen(env, s.cons, s.datalen)
    ensures var f := s.cons[0]; EndsAsDeclared(env.data, Extent(Nesting.Begin(f), f.dp, t.dp))
  {
    var f := s.cons[0];
    if f.datalen != 0 {
      var end :| 0 < end <= 0xffff && Declares(env.data, 0, f.dp, end - f.dp) && Grounded(env, s.cons, s.datalen, end);
      assert AllIndefinite(env, s.cons, 1);
      assert t.dp == f.dp + (end - f.dp);
    }
    hide Declares;
  }

  // ----- what every pass keeps ----------------------------------------------------------

  /** Behind the root element: at an action or COMPLETE, or about to return there. */
  predicate Behind(k: Machine, s: State)
    requires k.g.types != [] && Rooted(k.Main())
  {
    var size := RootSize(k.Main());
    || (s.jumps == [] && size <= s.pc <= k.Last())
    || (s.jumps == [size] && k.Last() < s.pc < |k.m| && k.m[s.pc] == RETURN)
  }

  /** Return points are nested, but for the one behind the root. */
  predicate ReturnsOk(k: Machine, s: State)
    requires k.g.types != [] && Rooted(k.Main())
  {
    && (s.jumps != [] ==> k.DepthAt(s.jumps[0]) >= 1 || s.jumps[0] == RootSize(k.Main()))
    && forall i :: 1 <= i < |s.jumps| ==> k.DepthAt(s.jumps[i]) >= 1
  }

  /** The log ends with the root element, which ends at `dp`, as its header declares. */
  ghost predicate RootDone(data: seq<Octet>, log: seq<Extent>, dp: int) {
    log != [] &&
    var x := log[|log| - 1];
    x.start == 0 && x.end == dp && EndsAsDeclared(data, x)
  }

  /** Before the root, in it, behind it, or past it without having matched anything. */
  ghost predicate RootKept(k: Machine, env: Env, s: State, log: seq<Extent>)
    requires k.g.types != [] && Rooted(k.Main())
  {
    && ReturnsOk(k, s)
    && (s.cons != [] ==> RootOpen(env, s.cons, s.datalen) && HasRoot(k, env))
    && (s.cons == [] ==>
          || (s == Init(env) && log == [])
          || (Behind(k, s) && RootDone(env.data, log, s.dp) && HasRoot(k, env))
          || (Behind(k, s) && s.jumps == [] && log == [] && s.dp == 0 && !HasRoot(k, env) && Bypassable(k, env)))
  }

  lemma {:induction false} RootEntered(k: Machine, env: Env, log: seq<Extent>)
    requires For(k, env) && Rooted(k.Main()) && |env.data| <= 0xffff && log == []
    requires Step(env, Init(env)).Run? && !SkipsOpener(env, Init(env))
    ensures var c := Step(env, Init(env)); RootKept(k, env, c.st, log + Completed(Init(env), c))
  {
    FirstPass(k, env);
    StartsByPart(k, k.Last());
    Shape(k, k.Last());
    hide Step, Machine.Valid, Render, RenderBodies, HasRoot, Bypassable, RootCode, Machine.DepthAt, RootOpen, RootDone;
    var c := Step(env, Init(env));
    assert Completed(Init(env), c) == [];
  }

  /** Behind the root there are only actions, RETURN and COMPLETE. */
  lemma {:induction false} BehindGoesOn(k: Machine, env: Env, s: State)
    requires For(k, env) && Rooted(k.Main()) && OnTrack(k, s) && s.cons == [] && Behind(k, s)
    requires Surplus(k, s) == 0 && Step(env, s).Run? && OnTrack(k, Step(env, s).st)
    ensures var t := Step(env, s).st;
            && Behind(k, t) && t.jumps == [] && t.cons == [] && t.dp == s.dp && Completed(s, Step(env, s)) == []
  {
    Shape(k, s.pc);
    DepthSumIsNat(k, s.jumps);
    DepthIsNat(k.Image(), 0, 0, s.pc);
    MachineIsTyped(k, s.pc);
    hide Machine.Valid, Render, RenderBodies, MatchStep, EndStep, Typed, Depth, Starts, RootCode;
  }

  lemma {:induction false} BottomStays(env: Env, s: State, t: State)
    requires Moves(env, s, t) && s.cons != [] && t.cons != []
    ensures t.cons[0] == s.cons[0]
  {
    hide EndsAsDeclared, Declares, DeclaresIndefinite;
  }

  lemma {:induction false} RootLogged(env: Env, s: State, t: State)
    requires Moves(env, s, t) && s.cons != [] && t.cons == [] && RootOpen(env, s.cons, s.datalen)
    ensures |s.cons| == 1 && |Completed(s, Run(t))| == 1
    ensures var x := Completed(s, Run(t))[0]; x.start == 0 && x.end == t.dp && EndsAsDeclared(env.data, x)
  {
    hide EndsAsDeclared, Declares, DeclaresIndefinite, Grounded;
    assert Closes(env, s, t);
    RootClosed(env, s, t);
  }

  /** A call is pushed only where the code is nested, except for the root's own. */
  lemma {:induction false} ReturnsStayOk(k: Machine, env: Env, s: State)
    requires For(k, env) && Rooted(k.Main()) && OnTrack(k, s) && Surplus(k, s) == 0 && s.cons != [] && ReturnsOk(k, s)
    requires Step(env, s).Run? && JumpsMove(k, s, Step(env, s).st)
    ensures ReturnsOk(k, Step(env, s).st)
  {
    hide Machine.Valid, Step, Render, RenderBodies, Depth, Starts, RootCode, Machine.DepthAt, Rooted, OnTrack, Surplus;
    var t := Step(env, s).st;
    if |t.jumps| > |s.jumps| {
      PushesNested(k, env, s);
      assert forall i :: 0 <= i < |s.jumps| ==> t.jumps[i] == t.jumps[..|s.jumps|][i] == s.jumps[i];
    }
  }

  lemma {:induction false} PushesNested(k: Machine, env: Env, s: State)
    requires For(k, env) && Rooted(k.Main()) && OnTrack(k, s) && Surplus(k, s) == 0 && s.cons != []
    requires Step(env, s).Run? && |Step(env, s).st.jumps| > |s.jumps|
    ensures k.DepthAt(s.pc) >= 1
  {
    Shape(k, s.pc);
    if k.m[s.pc] == RETURN {
      NoPushAtReturn(env, s);
    }
    DepthIsNat(k.Image(), 0, 0, s.pc);
    hide Machine.Valid, Step, Render, RenderBodies, Depth, Starts, RootCode;
    if s.jumps == [] {
      assert DepthSum(k, s.jumps) == 0;
    }
  }

  lemma {:induction false} NoPushAtReturn(env: Env, s: State)
    requires 0 <= s.pc < |env.machine| && env.machine[s.pc] == RETURN && Step(env, s).Run?
    ensures |Step(env, s).st.jumps| < |s.jumps|
  {
    hide MatchStep, EndStep;
  }

  /** When the last frame is closed, the run stands behind the root. */
  lemma {:induction false} BehindRoot(k: Machine, s: State, t: State)
    requires k.Valid() && Rooted(k.Main()) && OnTrack(k, t) && Surplus(k, t) == 0 && t.cons == [] && ReturnsOk(k, t)
    requires t.pc > 0
    ensures Behind(k, t)
  {
    Shape(k, t.pc);
    DepthSumIsNat(k, t.jumps);
    DepthIsNat(k.Image(), 0, 0, t.pc);
    if |t.jumps| > 1 {
      LastReturn(k, t.jumps);
    }
    hide Machine.Valid, Render, RenderBodies, Depth, Starts, RootCode;
  }

  lemma {:induction false} LastReturn(k: Machine, jumps: seq<int>)
    requires k.g.types != [] && jumps != []
    ensures DepthSum(k, jumps) >= k.DepthAt(jumps[|jumps| - 1])
  {
    DepthSumIsNat(k, jumps[..|jumps| - 1]);
    hide Depth, Render, RenderBodies;
  }

  lemma {:induction false} RootStep(k: Machine, env: Env, s: State, log: seq<Extent>)
    requires For(k, env) && Rooted(k.Main()) && OnTrack(k, s) && Surplus(k, s) == 0 && RootKept(k, env, s, log)
    requires 0 <= s.dp && |env.data| <= 0xffff && Step(env, s).Run? && !SkipsOpener(env, s)
    ensures var c := Step(env, s); Surplus(k, c.st) == 0 && RootKept(k, env, c.st, log + Completed(s, c))
  {
    OneStepKeeps(k, env, s);
    var t := Step(env, s).st;
    hide Machine.Valid, Step, Render, RenderBodies, Depth, Starts, RootCode, Surplus, OnTrack, HasRoot, Bypassable,
      Machine.DepthAt, RootOpen;
    if s.cons == [] {
      if s == Init(env) && log == [] {
        RootEntered(k, env, log);
      } else {
        BehindGoesOn(k, env, s);
        assert log + [] == log;
      }
    } else {
      JumpsAreCompound(k, env, s);
      MovesOn(env, s);
      ReturnsStayOk(k, env, s);
      if t.cons == [] {
        RootLogged(env, s, t);
        PcIsNat(k, s);
        BehindRoot(k, s, t);
        LastLogged(log, Completed(s, Run(t)));
      } else {
        RootStaysOpen(env, s, t);
      }
    }
  }

  lemma {:induction false} MovesOn(env: Env, s: State)
    requires 0 <= s.dp && Step(env, s).Run?
    requires IsJumpMatch(Operand(env, s.pc)) ==> HasConsBit(Operand(env, s.pc + 1))
    ensures Moves(env, s, Step(env, s).st)
  {
    hide Step, Moves, HasConsBit, IsJumpMatch;
    StepMoves(env, s);
  }

  lemma {:induction false} PcIsNat(k: Machine, s: State)
    requires k.g.types != [] && OnTrack(k, s)
    ensures s.pc >= 0
  {
  }

  lemma {:induction false} LastLogged(log: seq<Extent>, more: seq<Extent>)
    requires |more| == 1
    ensures (log + more)[|log + more| - 1] == more[0]
  {
  }

  /** All that a run keeps. */
  ghost predicate InRun(k: Machine, env: Env, s: State, log: seq<Extent>) {
    && For(k, env) && Rooted(k.Main()) && |env.data| <= 0xffff
    && OnTrack(k, s) && Surplus(k, s) == 0 && RootKept(k, env, s, log) && 0 <= s.dp
  }

  lemma {:induction false} OneOn(k: Machine, env: Env, s: State, log: seq<Extent>, n: nat)
    requires InRun(k, env, s, log) && n > 0 && SkipsIn(env, Run(s), n) == 0 && Step(env, s).Run?
    ensures var d := Step(env, s);
            InRun(k, env, d.st, log + Completed(s, d)) && SkipsIn(env, d, n - 1) == 0
  {
    assert k.g.types != [];
    hide Step, Completed, IsJumpMatch, HasConsBit, Operand, Machine.Valid, RootKept, OnTrack, Surplus, StepKeeps,
      Rooted, Render;
    OneStepKeeps(k, env, s);
    JumpsAreCompound(k, env, s);
    NeverBack(env, s);
    NoSkip(k, env, s, n);
    RootStep(k, env, s, log);
  }

  lemma {:induction false} RootRun(k: Machine, env: Env, c: Config, n: nat, log: seq<Extent>)
    requires k.g.types != [] && Rooted(k.Main()) && c.Run? && InRun(k, env, c.st, log)
    requires After(env, c, n).Halt? && After(env, c, n).out.Accepted? && SkipsIn(env, c, n) == 0
    ensures var whole, dp := log + Log(env, c, n), After(env, c, n).st.dp;
            if HasRoot(k, env) then RootDone(env.data, whole, dp) else whole == [] && dp == 0 && Bypassable(k, env)
    decreases n
  {
    hide Machine.Main, Step, Completed, RootDone, HasRoot, Bypassable, Rooted, InRun;
    var d := Step(env, c.st);
    if d.Run? {
      OneOn(k, env, c.st, log, n);
      var more := log + Completed(c.st, d);
      RootRun(k, env, d, n - 1, more);
      assert more + Log(env, d, n - 1) == log + Log(env, c, n);
    } else {
      EndOfRun(k, env, c.st, n - 1, log);
      assert After(env, c, n) == d && Log(env, c, n) == [];
      assert log + [] == log;
    }
  }

  lemma {:induction false} EndOfRun(k: Machine, env: Env, s: State, n: nat, log: seq<Extent>)
    requires k.g.types != [] && Rooted(k.Main()) && InRun(k, env, s, log) && Step(env, s).Halt?
    ensures After(env, Step(env, s), n) == Step(env, s) && Log(env, Step(env, s), n) == [] && Completed(s, Step(env, s)) == []
    ensures Step(env, s).out.Accepted? ==>
              && Step(env, s).st == s
              && if HasRoot(k, env) then RootDone(env.data, log, s.dp) else log == [] && s.dp == 0 && Bypassable(k, env)
  {
    OneStepKeeps(k, env, s);
    LastIsBehind(k);
    hide Machine.Valid, Step, Render, RootKept, HasRoot, Bypassable, Rooted, RootDone, OnTrack, Surplus;
    HaltsClean(k, env, s, n);
    if Step(env, s).out.Accepted? {
      RootAtEnd(k, env, s, log);
    }
  }

  lemma {:induction false} LastIsBehind(k: Machine)
    requires k.Valid() && Rooted(k.Main())
    ensures k.Last() >= 2
  {
    StartsByPart(k, k.Last());
    Shape(k, k.Last());
  }

  lemma {:induction false} NoSkip(k: Machine, env: Env, s: State, n: nat)
    requires n > 0 && SkipsIn(env, Run(s), n) == 0 && Step(env, s).Run?
    requires k.g.types != [] && StepKeeps(k, env, s, Step(env, s))
    ensures !SkipsOpener(env, s) && SkipsIn(env, Step(env, s), n - 1) == 0 && OnTrack(k, Step(env, s).st)
  {
    hide Step, OnTrack;
  }

  lemma {:induction false} RootAtEnd(k: Machine, env: Env, s: State, log: seq<Extent>)
    requires k.g.types != [] && Rooted(k.Main()) && RootKept(k, env, s, log) && k.Last() >= 2
    requires StepKeeps(k, env, s, Step(env, s)) && Step(env, s).Halt? && Step(env, s).out.Accepted?
    ensures if HasRoot(k, env) then RootDone(env.data, log, s.dp) else log == [] && s.dp == 0 && Bypassable(k, env)
  {
    hide Step, Machine.Valid, Render, HasRoot, Bypassable, RootCode;
  }

  // ----- the theorem --------------------------------------------------------------------

  /** For every grammar with a constructed root, inline or out of line: an accepted run over
      input that begins with the tag of the root has matched the root last, from the first
      octet up to the final cursor. Any other accepted run has matched nothing at all; that
      happens only to a root rendered out of line, on empty input or, if the root itself is
      optional, in front of another tag. */
  lemma {:induction false} RootIsWhole(k: Machine, env: Env, n: nat)
    requires For(k, env) && Rooted(k.Main())
    requires After(env, BerMachine.Start(env), n).Halt? && After(env, BerMachine.Start(env), n).out.Accepted?
    ensures var log, dp := Log(env, BerMachine.Start(env), n), After(env, BerMachine.Start(env), n).st.dp;
            && (RootDone(env.data, log, dp) <==> HasRoot(k, env))
            && (!HasRoot(k, env) ==> log == [] && dp == 0 && Bypassable(k, env))
  {
    assert k.g.types != [];
    StartsOnTrack(k, env);
    EveryRun(k, env, n);
    var c := BerMachine.Start(env);
    hide Step, HasRoot, Bypassable, Rooted;
    RootRun(k, env, c, n, []);
    assert [] + Log(env, c, n) == Log(env, c, n);
  }

  // ----- a root out of line and no input ------------------------------------------------

  /** At the end of the data the code of such a root is passed from end to end. */
  lemma {:induction false} RootPassed(k: Machine, env: Env, c: Code, s: State) returns (t: State)
    requires For(k, env) && Rooted(c) && RootCode(c).Call? && Placed(k.m, c, k.entries, s.pc) && Sound(c, k.nrActions)
    requires s.dp == s.datalen
    ensures Reaches(env, Run(s), Run(t)) && t.pc == s.pc + Size(c)
    ensures t.dp == s.dp && t.datalen == s.datalen && t.cons == s.cons && t.jumps == s.jumps
    decreases c
  {
    hide Machine.Valid, Step, Reaches, Placed, Emit;
    match c
    case Then(a, b) =>
      PlacedThen(k.m, a, b, k.entries, s.pc);
      var u := RootPassed(k, env, a, s);
      if b.Act? {
        t := StepAct(env, k.entries, b.action, u);
        ReachesStep(env, u);
        ReachesTrans(env, Run(s), Run(u), Run(t));
      } else {
        t := u;
      }
    case _ =>
      t := StepPast(env, k.entries, c, s);
      ReachesStep(env, s);
  }

  /** Empty input is accepted exactly if the root is rendered out of line. */
  lemma {:induction false} EmptyInput(k: Machine, env: Env)
    requires For(k, env) && Rooted(k.Main()) && env.data == []
    ensures (exists n: nat :: After(env, BerMachine.Start(env), n).Halt? && After(env, BerMachine.Start(env), n).out.Accepted?)
            <==> RootCode(k.Main()).Call?
  {
    if RootCode(k.Main()).Call? {
      MachineParts(k);
      MainSound(k);
      hide Machine.Valid, Step, Reaches, Placed, Emit, Render, RenderBodies, After;
      var s := Init(env);
      var t := RootPassed(k, env, k.Main(), s);
      CompleteAccepts(env, t);
      ReachesStep(env, t);
      ReachesTrans(env, Run(s), Run(t), Step(env, t));
      Reached(env, Run(s), Step(env, t));
      var n: nat :| After(env, Run(s), n) == Step(env, t);
      assert BerMachine.Start(env) == Run(s);
    } else {
      hide Machine.Valid, Step, After, Render;
      forall n: nat | After(env, BerMachine.Start(env), n).Halt? && After(env, BerMachine.Start(env), n).out.Accepted?
        ensures false
      {
        RootIsWhole(k, env, n);
      }
    }
  }

  lemma {:induction false} CompleteAccepts(env: Env, s: State)
    requires 0 <= s.pc < |env.machine| && env.machine[s.pc] == COMPLETE && s.cons == [] && s.jumps == []
    ensures Step(env, s).Halt? && Step(env, s).out.Accepted?
  {
    hide MatchStep, EndStep;
  }

  lemma {:induction false} Reached(env: Env, c: Config, d: Config)
    requires Reaches(env, c, d)
    ensures exists n: nat :: After(env, c, n) == d
  {
  }
}
