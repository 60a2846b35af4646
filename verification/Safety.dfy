/** What every run of a compiled machine keeps, whatever the input and whatever the action
    functions return. */
module Safety {
  import opened Octets
  import opened Bytecode
  import opened Code
  import opened Layout
  import opened BerMachine

  /** The outcomes that speak of a broken machine rather than of bad input. */
  predicate MachineFault(out: Outcome) {
    out.StacksNotEmpty? || out.NotReached? || out.MachineOverrun? || out.JumpUnderflow? || out.OutsideTables?
  }

  predicate BadInput(out: Outcome) {
    !MachineFault(out) && !out.Accepted?
  }

  // ----- the effect of one instruction on pc and the stacks -----------------------------

  /** `s'` stands at `pc` with the given number of frames and the given jump stack. */
  predicate Moved(s': State, pc: int, frames: int, jumps: seq<int>) {
    s'.pc == pc && |s'.cons| == frames && s'.jumps == jumps
  }

  /** A match op and its operand tag: an opener of an inline constructed element. */
  predicate OpensInline(m: seq<int>, pc: int) {
    0 <= pc && pc + 1 < |m| && m[pc] == MATCH && HasConsBit(m[pc + 1])
  }

  /** This pass skips such an opener because the data has come to its end. */
  predicate SkipsOpener(env: Env, s: State) {
    OpensInline(env.machine, s.pc) && s.dp == s.datalen
  }

  lemma {:induction false} SkipDataEffect(env: Env, s: State, op: int)
    ensures var c := SkipData(env, s, op);
            (c.Run? ==> Moved(c.st, s.pc + OpLength(op), |s.cons|, s.jumps))
            && (c.Halt? ==> BadInput(c.out))
  {
  }

  predicate OperandsOk(env: Env, pc: int, op: int) {
    && (IsAnyMatch(op) && HasAct(op) ==> IsActionAt(env.machine, env.nrActions, pc + 1))
    && (IsPlainMatch(op) && HasAct(op) ==> IsActionAt(env.machine, env.nrActions, pc + 2))
  }

  lemma {:induction false} MatchedEffect(env: Env, s: State, op: int)
    requires IsAnyMatch(op) || IsPlainMatch(op) || IsJumpMatch(op)
    requires OperandsOk(env, s.pc, op)
    ensures var c := Matched(env, s, op);
            && (c.Run? && !IsJumpMatch(op) ==> Moved(c.st, s.pc + OpLength(op), |s.cons|, s.jumps))
            && (c.Run? && IsJumpMatch(op) ==>
                  Moved(c.st, Operand(env, s.pc + 2), |s.cons|, s.jumps + [(s.pc + OpLength(op)) % 0x100]))
            && (c.Halt? ==> BadInput(c.out))
  {
    forall t: State { SkipDataEffect(env, t, op); }
    hide SkipData;
  }

  lemma {:induction false} HeaderEffect(env: Env, s: State, op: int)
    requires IsAnyMatch(op) || IsPlainMatch(op) || IsJumpMatch(op)
    requires OperandsOk(env, s.pc, op)
    ensures var c := Header(env, s, op);
            var frames := |s.cons| + (if s.compound then 1 else 0);
            && (c.Run? && !IsJumpMatch(op) ==> Moved(c.st, s.pc + OpLength(op), frames, s.jumps))
            && (c.Run? && IsJumpMatch(op) ==>
                  Moved(c.st, Operand(env, s.pc + 2), frames, s.jumps + [(s.pc + OpLength(op)) % 0x100]))
            && (c.Halt? ==> BadInput(c.out))
  {
    ReadLengthEffect(env, s);
    var r := ReadLength(env, s);
    if r.Length? {
      SizedEffect(s, r);
      PushEffect(Sized(s, r));
      var c := if s.compound then Push(Sized(s, r)) else Run(Sized(s, r));
      MatchedEffect(env, c.st.(tdp := c.st.dp), op);
    }
    hide Matched, ReadLength, Push, OperandsOk, Sized;
  }

  lemma {:induction false} SizedEffect(s: State, r: LengthRead)
    requires r.Length?
    ensures Moved(Sized(s, r), s.pc, |s.cons|, s.jumps) && Sized(s, r).compound == s.compound
  {
  }

  lemma {:induction false} TaggedEffect(s: State, tag: int, compound: bool)
    ensures var t := Tagged(s, tag, compound);
            Moved(t, s.pc, |s.cons|, s.jumps) && t.compound == compound
  {
  }

  lemma {:induction false} PushEffect(s: State)
    ensures var c := Push(s);
            && (c.Run? ==> Moved(c.st, s.pc, |s.cons| + 1, s.jumps))
            && (c.Halt? ==> BadInput(c.out))
  {
  }

  lemma {:induction false} ReadLengthEffect(env: Env, s: State)
    ensures var r := ReadLength(env, s); r.BadLength? ==> BadInput(r.out)
  {
  }

  lemma {:induction false} TagEffect(env: Env, s: State)
    requires 0 <= s.pc < |env.machine| && s.pc + OpLength(env.machine[s.pc]) <= |env.machine|
    requires var op := env.machine[s.pc]; IsAnyMatch(op) || IsPlainMatch(op) || IsJumpMatch(op)
    requires OperandsOk(env, s.pc, env.machine[s.pc])
    ensures var op := env.machine[s.pc];
            var c, n := TagStep(env, s, op), s.pc + OpLength(op);
            var opens := !IsAnyMatch(op) && HasConsBit(env.machine[s.pc + 1]);
            && (c.Run? ==>
                  || (Moved(c.st, n, |s.cons|, s.jumps) && (!opens || op != MATCH))
                  || (opens && IsPlainMatch(op) && Moved(c.st, n, |s.cons| + 1, s.jumps))
                  || (IsJumpMatch(op) && Moved(c.st, env.machine[s.pc + 2], |s.cons| + (if opens then 1 else 0),
                                               s.jumps + [n % 0x100])))
            && (c.Halt? ==> BadInput(c.out))
  {
    hide Header, HasAny, HasSkip, HasAct, OpLength, OperandsOk, TagMatches, HasConsBit, Tagged;
    hide IsAnyMatch, IsPlainMatch, IsJumpMatch, BadInput;
    var op := env.machine[s.pc];
    BitsOfOps(op);
    if 0 <= s.dp < |env.data| {
      var compound := !IsAnyMatch(op) && HasConsBit(env.machine[s.pc + 1]);
      var t := Tagged(s, env.data[s.dp], compound);
      TaggedEffect(s, env.data[s.dp], compound);
      HeaderEffect(env, t, op);
    }
    TagFaults();
  }

  lemma {:induction false} TagFaults()
    ensures BadInput(DataOverrun) && BadInput(OutsideData) && BadInput(LongTag) && BadInput(TagMismatch)
  {
  }

  lemma {:induction false} BitsOfOps(op: int)
    requires IsAnyMatch(op) || IsPlainMatch(op) || IsJumpMatch(op)
    ensures HasAny(op) <==> IsAnyMatch(op)
    ensures IsAnyMatch(op) ==> !IsPlainMatch(op) && !IsJumpMatch(op) && op != MATCH
    ensures IsJumpMatch(op) ==> !IsPlainMatch(op) && op != MATCH
    ensures !IsAnyMatch(op) ==> OpLength(op) >= 2
    ensures IsJumpMatch(op) ==> OpLength(op) == 3
    ensures op == MATCH ==> !HasSkip(op)
  {
  }

  /** A tag-matching instruction either does not match, or matches a leaf, or opens a frame;
      one with a jump goes out of line when it opens its frame. */
  lemma {:induction false} MatchEffect(env: Env, s: State)
    requires 0 <= s.pc < |env.machine| && s.pc + OpLength(env.machine[s.pc]) <= |env.machine|
    requires var op := env.machine[s.pc]; IsAnyMatch(op) || IsPlainMatch(op) || IsJumpMatch(op)
    requires OperandsOk(env, s.pc, env.machine[s.pc])
    ensures var op := env.machine[s.pc];
            var c, n := MatchStep(env, s, op), s.pc + OpLength(op);
            var opens := !IsAnyMatch(op) && HasConsBit(env.machine[s.pc + 1]);
            && (c.Run? ==>
                  || (Moved(c.st, n, |s.cons|, s.jumps) && (!opens || op != MATCH || SkipsOpener(env, s)))
                  || (opens && IsPlainMatch(op) && !SkipsOpener(env, s) && Moved(c.st, n, |s.cons| + 1, s.jumps))
                  || (IsJumpMatch(op) && Moved(c.st, env.machine[s.pc + 2], |s.cons| + (if opens then 1 else 0),
                                               s.jumps + [n % 0x100])))
            && (c.Halt? ==> BadInput(c.out))
  {
    TagEffect(env, s);
    hide TagStep;
  }

  /** An END instruction goes back to the loop head, or closes the innermost frame. */
  lemma {:induction false} EndEffect(env: Env, s: State)
    requires 0 <= s.pc < |env.machine| && IsEnd(env.machine[s.pc])
    requires var op := env.machine[s.pc];
             && s.pc + OpLength(op) <= |env.machine|
             && (EndsWithAct(op) ==> IsActionAt(env.machine, env.nrActions, s.pc + OpLength(op) - 1))
    ensures var op := env.machine[s.pc];
            var c, n := EndStep(env, s, op), s.pc + OpLength(op);
            && (c.Run? ==>
                  || (EndsOf(op) && Moved(c.st, env.machine[s.pc + 1], |s.cons|, s.jumps))
                  || Moved(c.st, n, |s.cons| - 1, s.jumps))
            && (c.Halt? ==> BadInput(c.out))
  {
    var op := env.machine[s.pc];
    assert EndsWithAct(op) ==> OpLength(op) == if EndsOf(op) then 3 else 2;
  }

  // ----- the invariant of all runs ------------------------------------------------------

  function DepthSum(k: Machine, jumps: seq<int>): int
    requires k.g.types != []
  {
    if jumps == [] then 0 else DepthSum(k, jumps[..|jumps| - 1]) + k.DepthAt(jumps[|jumps| - 1])
  }

  /** pc and the return points are starts of instructions; the first return point lies in
      the main code, the others, and pc while there are any, out of line. */
  ghost predicate OnTrack(k: Machine, s: State)
    requires k.g.types != []
  {
    && k.IsStart(s.pc) && (s.pc <= k.Last() <==> s.jumps == [])
    && forall i :: 0 <= i < |s.jumps| ==> k.IsStart(s.jumps[i]) && (s.jumps[i] <= k.Last() <==> i == 0)
  }

  /** Frames on the stack beyond what the code at pc and at the return points has opened. */
  function Surplus(k: Machine, s: State): int
    requires k.g.types != []
  {
    |s.cons| - k.DepthAt(s.pc) - DepthSum(k, s.jumps)
  }

  ghost predicate For(k: Machine, env: Env) {
    k.Valid() && env.machine == k.m && env.nrActions == k.nrActions
  }

  /** The jump stack stays, takes a return point as deep as the call, or loses its top. */
  ghost predicate JumpsMove(k: Machine, s: State, t: State)
    requires k.g.types != []
  {
    || t.jumps == s.jumps
    || (&& |t.jumps| == |s.jumps| + 1 && t.jumps[..|s.jumps|] == s.jumps
        && k.DepthAt(t.jumps[|s.jumps|]) == k.DepthAt(s.pc))
    || (s.jumps != [] && t.jumps == s.jumps[..|s.jumps| - 1])
  }

  /** What one pass does to the invariant. */
  ghost predicate StepKeeps(k: Machine, env: Env, s: State, c: Config)
    requires k.g.types != []
  {
    match c
    case Run(t) =>
      && OnTrack(k, t) && Surplus(k, t) == Surplus(k, s) - (if SkipsOpener(env, s) then 1 else 0)
      && JumpsMove(k, s, t) && (|t.cons| < |s.cons| ==> t.pc > s.pc && t.jumps == s.jumps)
    case Halt(out, t) =>
      && (MachineFault(out) ==> out == StacksNotEmpty)
      && (out in {Accepted, StacksNotEmpty} ==>
            t == s && s.pc == k.Last() && s.jumps == [] && !SkipsOpener(env, s) && (out == Accepted <==> s.cons == []))
  }

  lemma {:induction false} MoveKeeps(k: Machine, s: State, t: State, want: int)
    requires k.Valid() && OnTrack(k, s)
    requires Follows(k, s.pc)(t.pc, want) && t.jumps == s.jumps
    ensures OnTrack(k, t) && Surplus(k, t) == |t.cons| - want - DepthSum(k, s.jumps)
  {
    hide Render, RenderBodies, Starts, Depth, Size;
  }

  lemma {:induction false} CallKeeps(k: Machine, s: State, t: State, n: int)
    requires k.Valid() && OnTrack(k, s)
    requires Follows(k, s.pc)(n, k.DepthAt(s.pc)) && CallsOf(k.Image(), k.entries)(t.pc)
    requires t.jumps == s.jumps + [n % 0x100]
    ensures OnTrack(k, t) && Surplus(k, t) == |t.cons| - 1 - k.DepthAt(s.pc) - DepthSum(k, s.jumps)
    ensures JumpsMove(k, s, t)
  {
    CallsGoToSubs(k, t.pc);
    hide Render, RenderBodies, Starts, Depth, Size, CallsOf, Machine.Valid;
    assert n % 0x100 == n;
    assert t.jumps[..|t.jumps| - 1] == s.jumps;
  }

  lemma {:induction false} ReturnKeeps(k: Machine, s: State, t: State)
    requires k.Valid() && OnTrack(k, s)
    requires s.pc > k.Last() && k.DepthAt(s.pc) == 0
    requires s.jumps != [] && t.pc == s.jumps[|s.jumps| - 1] && t.jumps == s.jumps[..|s.jumps| - 1]
    requires t.cons == s.cons
    ensures OnTrack(k, t) && Surplus(k, t) == Surplus(k, s)
  {
    hide Render, RenderBodies, Starts, Depth, Size;
  }

  lemma {:induction false} MatchKeeps(k: Machine, env: Env, s: State)
    requires For(k, env) && OnTrack(k, s) && s.pc != k.Last()
    requires Typed(k.m, k.nrActions, CallsOf(k.Image(), k.entries), s.pc > k.Last(), s.pc, k.DepthAt(s.pc), Follows(k, s.pc))
    requires k.m[s.pc] <= OP_MATCHES_TAG
    ensures StepKeeps(k, env, s, MatchStep(env, s, k.m[s.pc]))
  {
    hide MatchStep, Follows, Render, RenderBodies, Starts, Depth, Size, OnTrack, HasConsBit, HasAct, CallsOf, DepthSum;
    MatchEffect(env, s);
    var op, d := k.m[s.pc], k.DepthAt(s.pc);
    var c, n := MatchStep(env, s, op), s.pc + OpLength(op);
    if c.Run? {
      if c.st.pc == n && c.st.jumps == s.jumps {
        var want := if IsPlainMatch(op) && HasConsBit(k.m[s.pc + 1]) then d + 1 else d;
        MoveKeeps(k, s, c.st, want);
      } else {
        CallKeeps(k, s, c.st, n);
      }
    }
  }

  lemma {:induction false} EndKeeps(k: Machine, env: Env, s: State)
    requires For(k, env) && OnTrack(k, s) && s.pc != k.Last()
    requires Typed(k.m, k.nrActions, CallsOf(k.Image(), k.entries), s.pc > k.Last(), s.pc, k.DepthAt(s.pc), Follows(k, s.pc))
    requires IsEnd(k.m[s.pc])
    ensures StepKeeps(k, env, s, EndStep(env, s, k.m[s.pc]))
  {
    hide EndStep, Follows, Render, RenderBodies, Starts, Depth, Size;
    EndEffect(env, s);
    var op, d := k.m[s.pc], k.DepthAt(s.pc);
    var c, n := EndStep(env, s, op), s.pc + OpLength(op);
    if c.Run? {
      if Moved(c.st, n, |s.cons| - 1, s.jumps) {
        MoveKeeps(k, s, c.st, d - 1);
      } else {
        MoveKeeps(k, s, c.st, d);
      }
    }
  }

  lemma {:induction false} OtherKeeps(k: Machine, env: Env, s: State)
    requires For(k, env) && OnTrack(k, s) && s.pc != k.Last()
    requires Typed(k.m, k.nrActions, CallsOf(k.Image(), k.entries), s.pc > k.Last(), s.pc, k.DepthAt(s.pc), Follows(k, s.pc))
    requires k.m[s.pc] > OP_MATCHES_TAG && !IsEnd(k.m[s.pc])
    ensures StepKeeps(k, env, s, Step(env, s))
  {
    hide MatchStep, EndStep, Follows, Render, RenderBodies, Starts, Depth, Size;
    var d, c := k.DepthAt(s.pc), Step(env, s);
    if k.m[s.pc] == RETURN {
      if c.Run? { ReturnKeeps(k, s, c.st); }
    } else {
      if c.Run? { MoveKeeps(k, s, c.st, d); }
    }
  }

  lemma {:induction false} CompleteKeeps(k: Machine, env: Env, s: State)
    requires For(k, env) && OnTrack(k, s) && s.pc == k.Last() < |k.m| && k.m[s.pc] == COMPLETE
    ensures StepKeeps(k, env, s, Step(env, s))
  {
  }

  lemma {:induction false} OneStepKeeps(k: Machine, env: Env, s: State)
    requires For(k, env) && OnTrack(k, s)
    ensures StepKeeps(k, env, s, Step(env, s))
  {
    hide StepKeeps, MatchStep, EndStep, Follows, Render, RenderBodies, Starts, Depth, Size;
    MachineIsTyped(k, s.pc);
    if s.pc != k.Last() {
      if k.m[s.pc] <= OP_MATCHES_TAG {
        MatchKeeps(k, env, s);
      } else if IsEnd(k.m[s.pc]) {
        EndKeeps(k, env, s);
      } else {
        OtherKeeps(k, env, s);
      }
    } else {
      CompleteKeeps(k, env, s);
    }
  }

  /** Number of openers of inline constructed elements skipped in the next `n` passes. */
  function SkipsIn(env: Env, c: Config, n: nat): nat
    decreases n
  {
    if n == 0 || c.Halt? then 0
    else (if SkipsOpener(env, c.st) then 1 else 0) + SkipsIn(env, Step(env, c.st), n - 1)
  }

  lemma {:induction false} RunKeeps(k: Machine, env: Env, c: Config, n: nat)
    requires For(k, env) && c.Run? && OnTrack(k, c.st)
    ensures var d := After(env, c, n);
            && (d.Run? ==> OnTrack(k, d.st))
            && (d.Run? || d.out in {Accepted, StacksNotEmpty} ==>
                  Surplus(k, d.st) == Surplus(k, c.st) - SkipsIn(env, c, n))
            && (d.Halt? && d.out in {Accepted, StacksNotEmpty} ==>
                  d.st.pc == k.Last() && d.st.jumps == [] && (d.out == Accepted <==> d.st.cons == []))
            && (d.Halt? && MachineFault(d.out) ==> d.out == StacksNotEmpty)
    decreases n
  {
    hide Step, Render, RenderBodies, Starts, Depth, Size, OnTrack;
    if n > 0 {
      OneStepKeeps(k, env, c.st);
      var c' := Step(env, c.st);
      if c'.Run? {
        RunKeeps(k, env, c', n - 1);
      } else {
        assert After(env, c', n - 1) == c';
      }
    }
  }

  /** Depth accounting and safety, for every input, every behaviour of the actions and every
      number of passes: the frames on the stack plus the inline openers skipped at the end
      of the data are as many as the code has opened at pc and at the pending return points;
      the machine never runs into a fault of its own; and a run that is accepted has both
      stacks empty at COMPLETE and has skipped no opener. */
  lemma {:induction false} EveryRun(k: Machine, env: Env, n: nat)
    requires For(k, env)
    ensures var c := After(env, Start(env), n);
            var skipped := SkipsIn(env, Start(env), n);
            && (c.Run? ==>
                  && k.IsStart(c.st.pc)
                  && (forall i :: 0 <= i < |c.st.jumps| ==> k.IsStart(c.st.jumps[i]))
                  && |c.st.cons| + skipped == k.DepthAt(c.st.pc) + DepthSum(k, c.st.jumps))
            && (c.Halt? ==> !MachineFault(c.out))
            && (c == Halt(Accepted, c.st) ==>
                  c.st.pc == k.Last() && c.st.cons == [] && c.st.jumps == [] && skipped == 0)
  {
    if Start(env).Run? {
      StartsOnTrack(k, env);
      RunKeeps(k, env, Start(env), n);
      StartsByPart(k, k.Last());
    }
    hide Step, Render, RenderBodies, Starts, Depth, Size;
  }

  lemma {:induction false} StartsOnTrack(k: Machine, env: Env)
    requires For(k, env)
    ensures OnTrack(k, Init(env)) && Surplus(k, Init(env)) == 0
  {
    StartsByPart(k, 0);
    if k.Last() > 0 {
      StartsAtBase(k.Main(), 0, 0, k.nrActions);
    }
    hide Render, RenderBodies, Starts, Depth, Size;
  }
}
