/** What the 16 bits of the stacked enclosing ends cost: accepted runs match properly nested
    elements if and only if no enclosing end has been cut to fit the stack. */
module Truncation {
  import opened Octets
  import opened Bytecode
  import opened BerMachine
  import opened Layout
  import opened Safety
  import opened Nesting

  /** Some element in the log does not end where its header says. */
  ghost predicate Flawed(env: Env, log: seq<Extent>) {
    exists i :: 0 <= i < |log| && !EndsAsDeclared(env.data, log[i])
  }

  lemma {:induction false} FlawsStay(env: Env, a: seq<Extent>, b: seq<Extent>)
    requires Flawed(env, a) || Flawed(env, b)
    ensures Flawed(env, a + b)
  {
    hide EndsAsDeclared;
    if Flawed(env, a) {
      var i :| 0 <= i < |a| && !EndsAsDeclared(env.data, a[i]);
      assert (a + b)[i] == a[i];
    } else {
      var i :| 0 <= i < |b| && !EndsAsDeclared(env.data, b[i]);
      assert (a + b)[|a| + i] == b[i];
    }
  }

  /** As far as a short-form length reaches behind 16 bits. */
  const FARTHEST := 0xffff + 0x7f

  /** The frames above number `j` lie in each other, the lowest of them in the element of frame
      `j`, as their headers declare, and `end` is the end of the innermost. */
  ghost predicate Chain(env: Env, frames: seq<Frame>, j: nat, end: int)
    requires j < |frames|
    decreases |frames|
  {
    var f, outer := frames[|frames| - 1], frames[..|frames| - 1];
    if |frames| == j + 1 then Declares(env.data, Begin(f), f.dp, end - f.dp) && end <= FARTHEST
    else if f.datalen == 0 then DeclaresIndefinite(env.data, Begin(f), f.dp) && Chain(env, outer, j, end)
    else
      && Declares(env.data, Begin(f), f.dp, end - f.dp) && (end - f.dp <= 0x7f || end <= f.datalen)
      && f.datalen <= 0xffff && Chain(env, outer, j, f.datalen)
  }

  /** The innermost frame is of indefinite length, is marked like one, or ends behind 16 bits. */
  ghost predicate FarTop(env: Env, frames: seq<Frame>) {
    frames != [] &&
    var f := frames[|frames| - 1];
    f.datalen == 0 || exists n :: Declares(env.data, Begin(f), f.dp, n) && f.dp + n > 0xffff
  }

  /** Inside the element of frame `j`, whose enclosing end has been cut. */
  ghost predicate InCut(env: Env, s: State, j: nat) {
    && |env.data| <= 0xffff && 0x7f < s.dp
    && 1 <= j < |s.cons| && FarTop(env, s.cons[..j]) && 0 <= s.cons[j].datalen < 0x7f
    && Chain(env, s.cons, j, s.datalen)
  }

  /** Behind the enclosing end for good. */
  predicate Dead(s: State) {
    s.cons != [] && s.datalen < s.dp
  }

  /** At the end of an element that has been closed, in one that ends elsewhere. */
  ghost predicate Stuck(env: Env, s: State) {
    0 <= s.dp == s.datalen <= 0xffff && FarTop(env, s.cons)
  }

  // ----- entering -----------------------------------------------------------------------

  lemma {:induction false} ChainBound(env: Env, frames: seq<Frame>, j: nat, end: int)
    requires j < |frames| && Chain(env, frames, j, end) && |env.data| <= 0xffff
    ensures 0 <= end <= FARTHEST
    decreases |frames|
  {
    if |frames| > j + 1 {
      var f, outer := frames[|frames| - 1], frames[..|frames| - 1];
      ChainBound(env, outer, j, if f.datalen == 0 then end else f.datalen);
    }
  }

  /** What encloses an end behind 16 bits. */
  lemma {:induction false} FarEnclosed(env: Env, frames: seq<Frame>, end: int, dp: int)
    requires Enclosing(env, frames, end) && Stacked(frames, dp) && end > 0xffff && |env.data| <= 0xffff
    ensures FarTop(env, frames) && 0x10000 - 0x7f <= dp
    decreases |frames|
  {
    var f, outer := frames[|frames| - 1], frames[..|frames| - 1];
    if f.datalen == 0 {
      FarEnclosed(env, outer, end, Begin(f));
    } else {
      assert Declares(env.data, Begin(f), f.dp, end - f.dp);
      hide Declares;
    }
  }

  lemma {:induction false} FarChained(env: Env, frames: seq<Frame>, j: nat, end: int)
    requires j < |frames| && Chain(env, frames, j, end) && end > 0xffff
    ensures FarTop(env, frames)
  {
    var f := frames[|frames| - 1];
    if f.datalen != 0 {
      assert Declares(env.data, Begin(f), f.dp, end - f.dp);
    }
    hide Declares;
  }

  /** A frame is opened whose enclosing end is cut. */
  lemma {:induction false} CutOpened(env: Env, s: State, t: State)
    requires Opens(env, s, t) && s.datalen > 0xffff && !DeclaresIndefinite(env.data, s.dp, t.dp)
    requires |env.data| <= 0xffff && s.datalen <= FARTHEST && FarTop(env, s.cons) && 0x7f < s.dp
    ensures InCut(env, t, |s.cons|)
  {
    assert s.cons != [];
    hide Declares, DeclaresIndefinite, FarTop;
    var f := t.cons[|s.cons|];
    assert f.dp == t.dp && Begin(f) == s.dp;
    assert f.datalen == s.datalen - 0x10000;
    assert t.cons[..|s.cons|] == s.cons;
  }

  // ----- inside -------------------------------------------------------------------------

  lemma {:induction false} ChainPush(env: Env, frames: seq<Frame>, j: nat, f: Frame, from: int, end: int)
    requires j < |frames| && Chain(env, frames, j, from)
    requires if f.datalen == 0 then DeclaresIndefinite(env.data, Begin(f), f.dp) && end == from
             else Declares(env.data, Begin(f), f.dp, end - f.dp) && (end - f.dp <= 0x7f || end <= from)
                  && f.datalen == from <= 0xffff
    ensures Chain(env, frames + [f], j, end)
  {
    assert (frames + [f])[..|frames + [f]| - 1] == frames;
    hide Declares, DeclaresIndefinite;
  }

  lemma {:induction false} OpensInCut(env: Env, s: State, t: State, j: nat)
    requires InCut(env, s, j) && Opens(env, s, t)
    requires s.datalen <= 0xffff || DeclaresIndefinite(env.data, s.dp, t.dp)
    ensures InCut(env, t, j)
  {
    IndefiniteIsNot(env.data, s.dp, t.dp);
    hide Declares, DeclaresIndefinite, FarTop, Chain;
    ChainBound(env, s.cons, j, s.datalen);
    var f := t.cons[|s.cons|];
    assert t.cons == s.cons + [f] && t.cons[..j] == s.cons[..j];
    assert f.dp == t.dp && Begin(f) == s.dp;
    ChainPush(env, s.cons, j, f, s.datalen, t.datalen);
  }

  lemma {:induction false} ClosesInCut(env: Env, s: State, t: State, j: nat)
    requires InCut(env, s, j) && Closes(env, s, t) && |s.cons| > j + 1
    ensures InCut(env, t, j)
  {
    assert t.cons[..j] == s.cons[..j];
    hide Declares, DeclaresIndefinite, FarTop;
  }

  /** When the element itself is closed. */
  lemma {:induction false} ClosesCut(env: Env, s: State, t: State, j: nat)
    requires InCut(env, s, j) && Closes(env, s, t) && |s.cons| == j + 1
    ensures Dead(t) || Stuck(env, t) || Flawed(env, Completed(s, Run(t)))
  {
    var f := s.cons[j];
    assert t.cons == s.cons[..j];
    if f.datalen == 0 && t.dp != t.datalen {
      WrongEnd(env.data, Extent(Begin(f), f.dp, t.dp), s.datalen - f.dp);
      assert Completed(s, Run(t))[0] == Extent(Begin(f), f.dp, t.dp);
    }
    hide Declares, FarTop, EndsAsDeclared;
  }

  /** The header of an element of definite length says one thing only. */
  lemma {:induction false} WrongEnd(data: seq<Octet>, x: Extent, n: int)
    requires Declares(data, x.start, x.contents, n) && x.end != x.contents + n
    ensures !EndsAsDeclared(data, x)
  {
  }

  lemma {:induction false} StaysInCut(env: Env, s: State, t: State, j: nat)
    requires InCut(env, s, j) && (Stays(s, t) || MatchesLeaf(env, s, t))
    ensures InCut(env, t, j)
  {
    hide Chain, FarTop, EndsAsDeclared;
  }

  // ----- behind -------------------------------------------------------------------------

  /** A pass that reads a tag needs room for two octets. */
  lemma {:induction false} ReadsNothing(env: Env, s: State)
    requires s.dp >= s.datalen && Step(env, s).Run? && |Step(env, s).st.cons| >= |s.cons|
    ensures Stays(s, Step(env, s).st) && (0 <= s.pc < |env.machine|)
  {
    hide HasCond, HasSkip, HasAny, HasAct, IsLongTag, TagMatches, HasConsBit, Header, OpLength, EndsOf, EndsWithAct;
  }

  lemma {:induction false} DeadStays(env: Env, s: State)
    requires Dead(s) && 0 <= s.dp && Step(env, s).Run?
    requires IsJumpMatch(Operand(env, s.pc)) ==> HasConsBit(Operand(env, s.pc + 1))
    ensures Dead(Step(env, s).st) && Step(env, s).st.dp == s.dp
  {
    StepMoves(env, s);
    hide Step, MatchesLeaf, Opens, IsJumpMatch, HasConsBit;
    var t := Step(env, s).st;
    if |t.cons| >= |s.cons| {
      ReadsNothing(env, s);
    } else {
      ClosesOnly(env, s, t);
    }
  }

  lemma {:induction false} ClosesOnly(env: Env, s: State, t: State)
    requires Moves(env, s, t) && |t.cons| < |s.cons|
    ensures Closes(env, s, t)
  {
    hide Closes, EndsAsDeclared;
  }

  lemma {:induction false} StuckGoes(env: Env, s: State)
    requires Stuck(env, s) && Step(env, s).Run?
    requires IsJumpMatch(Operand(env, s.pc)) ==> HasConsBit(Operand(env, s.pc + 1))
    ensures Stuck(env, Step(env, s).st) || Flawed(env, Completed(s, Step(env, s)))
  {
    StepMoves(env, s);
    hide Step, MatchesLeaf, Opens, IsJumpMatch, HasConsBit;
    var t := Step(env, s).st;
    if |t.cons| >= |s.cons| {
      ReadsNothing(env, s);
      hide FarTop;
    } else {
      ClosesOnly(env, s, t);
      StuckCloses(env, s, t);
    }
  }

  lemma {:induction false} StuckCloses(env: Env, s: State, t: State)
    requires Stuck(env, s) && Closes(env, s, t)
    ensures Flawed(env, Completed(s, Run(t)))
  {
    var f := s.cons[|s.cons| - 1];
    var n :| Declares(env.data, Begin(f), f.dp, n) && f.dp + n > 0xffff;
    WrongEnd(env.data, Extent(Begin(f), f.dp, t.dp), n);
    hide Declares, EndsAsDeclared;
    assert Completed(s, Run(t))[0] == Extent(Begin(f), f.dp, t.dp);
  }

  // ----- whole runs ---------------------------------------------------------------------

  /** From here no run is accepted without leaving a flaw. */
  ghost predicate Doomed(env: Env, s: State) {
    Dead(s) || Stuck(env, s)
  }

  lemma {:induction false} DoomedGoes(env: Env, s: State)
    requires Doomed(env, s) && 0 <= s.dp && Step(env, s).Run?
    requires IsJumpMatch(Operand(env, s.pc)) ==> HasConsBit(Operand(env, s.pc + 1))
    ensures var c := Step(env, s); (Doomed(env, c.st) && 0 <= c.st.dp) || Flawed(env, Completed(s, c))
  {
    hide Step, Dead, Stuck, Flawed, Completed, IsJumpMatch, HasConsBit;
    if Dead(s) {
      DeadStays(env, s);
    } else {
      StuckGoes(env, s);
    }
    NeverBack(env, s);
  }

  lemma {:induction false} NotDone(env: Env, s: State)
    requires Doomed(env, s)
    ensures s.cons != []
  {
  }

  /** An accepted run leaves flaws behind once it is doomed. */
  lemma {:induction false} DoomedRun(k: Machine, env: Env, c: Config, n: nat)
    requires For(k, env) && c.Run? && OnTrack(k, c.st) && Doomed(env, c.st) && 0 <= c.st.dp
    requires After(env, c, n).Halt? && After(env, c, n).out.Accepted?
    ensures Flawed(env, Log(env, c, n))
    decreases n
  {
    hide Step, OnTrack, Doomed, Completed, Flawed, IsJumpMatch, HasConsBit, Operand;
    assert k.g.types != [];
    hide Machine.Valid;
    OneStepKeeps(k, env, c.st);
    var d := Step(env, c.st);
    if d.Run? {
      JumpsAreCompound(k, env, c.st);
      DoomedGoes(env, c.st);
      if !Flawed(env, Completed(c.st, d)) {
        DoomedRun(k, env, d, n - 1);
      }
      FlawsStay(env, Completed(c.st, d), Log(env, d, n - 1));
    } else {
      NotDone(env, c.st);
      HaltsClean(k, env, c.st, n - 1);
      EndsEmpty(k, env, c.st);
    }
  }

  lemma {:induction false} EndsEmpty(k: Machine, env: Env, s: State)
    requires k.g.types != [] && StepKeeps(k, env, s, Step(env, s)) && Step(env, s).Halt?
    ensures Step(env, s).out.Accepted? ==> s.cons == []
  {
    hide Step, OnTrack;
  }

  /** One pass inside. */
  lemma {:induction false} InCutGoes(env: Env, s: State, j: nat) returns (i: nat)
    requires InCut(env, s, j) && Step(env, s).Run?
    requires IsJumpMatch(Operand(env, s.pc)) ==> HasConsBit(Operand(env, s.pc + 1))
    ensures var c := Step(env, s);
            InCut(env, c.st, i) || Doomed(env, c.st) || Flawed(env, Completed(s, c))
  {
    StepMoves(env, s);
    var t := Step(env, s).st;
    i := j;
    hide Step, MatchesLeaf, Opens, Closes, Stays, IsJumpMatch, HasConsBit, InCut, Dead, Stuck, Flawed, Completed,
      DeclaresIndefinite;
    if Stays(s, t) || MatchesLeaf(env, s, t) {
      StaysInCut(env, s, t, j);
    } else if Opens(env, s, t) {
      if s.datalen <= 0xffff || DeclaresIndefinite(env.data, s.dp, t.dp) {
        OpensInCut(env, s, t, j);
      } else {
        i := |s.cons|;
        InCutFacts(env, s, j);
        CutOpened(env, s, t);
      }
    } else {
      InCutDepth(env, s, j);
      if |s.cons| > j + 1 {
        ClosesInCut(env, s, t, j);
      } else {
        ClosesCut(env, s, t, j);
        DoomedEither(env, t);
      }
    }
  }

  lemma {:induction false} DoomedEither(env: Env, t: State)
    ensures Dead(t) || Stuck(env, t) ==> Doomed(env, t)
  {
  }

  lemma {:induction false} InCutDepth(env: Env, s: State, j: nat)
    requires InCut(env, s, j)
    ensures |s.cons| > j && 0 <= s.dp
  {
  }

  lemma {:induction false} InCutFacts(env: Env, s: State, j: nat)
    requires InCut(env, s, j)
    ensures |env.data| <= 0xffff && s.datalen <= FARTHEST && 0x7f < s.dp
    ensures s.datalen > 0xffff ==> FarTop(env, s.cons)
  {
    hide FarTop, Chain;
    ChainBound(env, s.cons, j, s.datalen);
    if s.datalen > 0xffff {
      FarChained(env, s.cons, j, s.datalen);
    }
  }

  lemma {:induction false} InCutRun(k: Machine, env: Env, c: Config, n: nat, j: nat)
    requires For(k, env) && c.Run? && OnTrack(k, c.st) && InCut(env, c.st, j)
    requires After(env, c, n).Halt? && After(env, c, n).out.Accepted?
    ensures Flawed(env, Log(env, c, n))
    decreases n
  {
    hide Step, OnTrack, Doomed, InCut, Completed, Flawed, IsJumpMatch, HasConsBit, Operand;
    assert k.g.types != [];
    hide Machine.Valid;
    OneStepKeeps(k, env, c.st);
    InCutDepth(env, c.st, j);
    var d := Step(env, c.st);
    if d.Run? {
      JumpsAreCompound(k, env, c.st);
      NeverBack(env, c.st);
      var i := InCutGoes(env, c.st, j);
      if InCut(env, d.st, i) {
        InCutRun(k, env, d, n - 1, i);
      } else if Doomed(env, d.st) {
        DoomedRun(k, env, d, n - 1);
      }
      FlawsStay(env, Completed(c.st, d), Log(env, d, n - 1));
    } else {
      HaltsClean(k, env, c.st, n - 1);
      EndsEmpty(k, env, c.st);
    }
  }

  /** The first cut. */
  lemma {:induction false} FirstCut(env: Env, s: State, log: seq<Extent>)
    requires Kept(env, s, log) && Cuts(env, s)
    requires IsJumpMatch(Operand(env, s.pc)) ==> HasConsBit(Operand(env, s.pc + 1))
    ensures InCut(env, Step(env, s).st, |s.cons|)
  {
    var t := Step(env, s).st;
    StepMoves(env, s);
    GrowsOnly(env, s, t);
    FarEnclosed(env, s.cons, s.datalen, s.dp);
    EnclosingBound(env, s.cons, s.datalen);
    hide Step, Opens, FarTop, Enclosing, Stacked, LogOk, DeclaresIndefinite, IsJumpMatch, HasConsBit;
    CutOpened(env, s, t);
  }

  lemma {:induction false} GrowsOnly(env: Env, s: State, t: State)
    requires Moves(env, s, t) && |t.cons| > |s.cons|
    ensures Opens(env, s, t)
  {
    hide Opens, EndsAsDeclared;
  }

  lemma {:induction false} CutRun(k: Machine, env: Env, c: Config, n: nat, log: seq<Extent>)
    requires For(k, env) && c.Run? && OnTrack(k, c.st) && Kept(env, c.st, log) && !NoCuts(env, c, n)
    requires After(env, c, n).Halt? && After(env, c, n).out.Accepted?
    ensures Flawed(env, Log(env, c, n))
    decreases n
  {
    hide Step, Kept, OnTrack, InCut, Completed, Flawed, IsJumpMatch, HasConsBit, Operand, Cuts;
    assert k.g.types != [];
    hide Machine.Valid;
    OneStepKeeps(k, env, c.st);
    JumpsAreCompound(k, env, c.st);
    var d := Step(env, c.st);
    if Cuts(env, c.st) {
      CutsRun(env, c.st);
      FirstCut(env, c.st, log);
      InCutRun(k, env, d, n - 1, |c.st.cons|);
    } else {
      NoCutAtEnd(env, c.st, n);
      StepKept(env, c.st, log);
      CutRun(k, env, d, n - 1, log + Completed(c.st, d));
    }
    FlawsStay(env, Completed(c.st, d), Log(env, d, n - 1));
  }

  lemma {:induction false} CutsRun(env: Env, s: State)
    requires Cuts(env, s)
    ensures Step(env, s).Run?
  {
    hide Step;
  }

  lemma {:induction false} NoCutAtEnd(env: Env, s: State, n: nat)
    requires !NoCuts(env, Run(s), n) && !Cuts(env, s)
    ensures n > 0 && Step(env, s).Run? && !NoCuts(env, Step(env, s), n - 1)
  {
    hide Step, Cuts;
  }

  // ----- short inputs -------------------------------------------------------------------

  lemma {:induction false} DeadRun(k: Machine, env: Env, c: Config, n: nat)
    requires For(k, env) && c.Run? && OnTrack(k, c.st) && Dead(c.st) && 0 <= c.st.dp
    ensures !(After(env, c, n).Halt? && After(env, c, n).out.Accepted?)
    decreases n
  {
    hide Step, OnTrack, Dead, Completed, IsJumpMatch, HasConsBit, Operand;
    assert k.g.types != [];
    hide Machine.Valid;
    if n > 0 {
      OneStepKeeps(k, env, c.st);
      var d := Step(env, c.st);
      if d.Run? {
        JumpsAreCompound(k, env, c.st);
        DeadStays(env, c.st);
        DeadRun(k, env, d, n - 1);
      } else {
        DeadHasFrames(c.st);
        HaltsClean(k, env, c.st, n - 1);
        EndsEmpty(k, env, c.st);
      }
    }
  }

  lemma {:induction false} DeadHasFrames(s: State)
    requires Dead(s)
    ensures s.cons != []
  {
  }

  /** The element whose enclosing end was cut can be closed only at a pair of zero octets. */
  lemma {:induction false} ClosesNear(env: Env, s: State, t: State, j: nat)
    requires InCut(env, s, j) && Closes(env, s, t) && |s.cons| == j + 1
    ensures Dead(t) || s.dp + 2 <= |env.data|
  {
    hide Declares, FarTop, EndsAsDeclared;
  }

  lemma {:induction false} InCutGoesNear(env: Env, s: State, j: nat) returns (i: nat)
    requires InCut(env, s, j) && Step(env, s).Run?
    requires IsJumpMatch(Operand(env, s.pc)) ==> HasConsBit(Operand(env, s.pc + 1))
    ensures InCut(env, Step(env, s).st, i) || Dead(Step(env, s).st) || s.dp + 2 <= |env.data|
  {
    StepMoves(env, s);
    var t := Step(env, s).st;
    i := j;
    hide Step, MatchesLeaf, Opens, Closes, Stays, IsJumpMatch, HasConsBit, InCut, Dead, DeclaresIndefinite;
    if Stays(s, t) || MatchesLeaf(env, s, t) {
      StaysInCut(env, s, t, j);
    } else if Opens(env, s, t) {
      if s.datalen <= 0xffff || DeclaresIndefinite(env.data, s.dp, t.dp) {
        OpensInCut(env, s, t, j);
      } else {
        i := |s.cons|;
        InCutFacts(env, s, j);
        CutOpened(env, s, t);
      }
    } else {
      InCutDepth(env, s, j);
      if |s.cons| > j + 1 {
        ClosesInCut(env, s, t, j);
      } else {
        ClosesNear(env, s, t, j);
      }
    }
  }

  lemma {:induction false} ShortInCut(k: Machine, env: Env, c: Config, n: nat, j: nat)
    requires For(k, env) && c.Run? && OnTrack(k, c.st) && InCut(env, c.st, j) && |env.data| < c.st.dp + 2
    ensures !(After(env, c, n).Halt? && After(env, c, n).out.Accepted?)
    decreases n
  {
    hide Step, OnTrack, Dead, InCut, Completed, IsJumpMatch, HasConsBit, Operand;
    assert k.g.types != [];
    hide Machine.Valid;
    if n > 0 {
      OneStepKeeps(k, env, c.st);
      InCutDepth(env, c.st, j);
      var d := Step(env, c.st);
      if d.Run? {
        JumpsAreCompound(k, env, c.st);
        NeverBack(env, c.st);
        var i := InCutGoesNear(env, c.st, j);
        if InCut(env, d.st, i) {
          ShortInCut(k, env, d, n - 1, i);
        } else {
          DeadRun(k, env, d, n - 1);
        }
      } else {
        HaltsClean(k, env, c.st, n - 1);
        EndsEmpty(k, env, c.st);
      }
    }
  }

  /** What has been cut lies at the very end. */
  lemma {:induction false} CutIsFar(env: Env, s: State, log: seq<Extent>)
    requires Kept(env, s, log) && Cuts(env, s)
    requires IsJumpMatch(Operand(env, s.pc)) ==> HasConsBit(Operand(env, s.pc + 1))
    ensures Step(env, s).st.dp >= 0x10000 - 0x7f + 2
  {
    StepMoves(env, s);
    GrowsOnly(env, s, Step(env, s).st);
    FarEnclosed(env, s.cons, s.datalen, s.dp);
    hide Step, FarTop, Enclosing, Stacked, LogOk, DeclaresIndefinite, IsJumpMatch, HasConsBit, Declares;
  }

  lemma {:induction false} ShortRun(k: Machine, env: Env, c: Config, n: nat, log: seq<Extent>)
    requires For(k, env) && c.Run? && OnTrack(k, c.st) && Kept(env, c.st, log) && |env.data| <= 65412
    requires After(env, c, n).Halt? && After(env, c, n).out.Accepted?
    ensures NoCuts(env, c, n)
    decreases n
  {
    hide Step, Kept, OnTrack, InCut, Completed, IsJumpMatch, HasConsBit, Operand, Cuts;
    assert k.g.types != [];
    hide Machine.Valid;
    if !NoCuts(env, c, n) {
      OneStepKeeps(k, env, c.st);
      JumpsAreCompound(k, env, c.st);
      var d := Step(env, c.st);
      if Cuts(env, c.st) {
        CutsRun(env, c.st);
        FirstCut(env, c.st, log);
        CutIsFar(env, c.st, log);
        ShortInCut(k, env, d, n - 1, |c.st.cons|);
      } else {
        NoCutAtEnd(env, c.st, n);
        StepKept(env, c.st, log);
        ShortRun(k, env, d, n - 1, log + Completed(c.st, d));
      }
    }
  }

  // ----- the theorem --------------------------------------------------------------------

  /** Accepted means nested, exactly while no enclosing end is cut. For every compiled grammar
      and every input: the elements an accepted run has matched lie disjoint or inside each
      other's contents, and each ends where its own header says or behind a pair of zero octets
      if its length is indefinite, if and only if the run has never stacked an enclosing end
      that does not fit 16 bits. */
  lemma {:induction false} AcceptedIsNested(k: Machine, env: Env, n: nat)
    requires For(k, env)
    requires After(env, BerMachine.Start(env), n).Halt? && After(env, BerMachine.Start(env), n).out.Accepted?
    ensures var log := Log(env, BerMachine.Start(env), n);
            (Nested(log) && forall i :: 0 <= i < |log| ==> EndsAsDeclared(env.data, log[i]))
            <==> NoCuts(env, BerMachine.Start(env), n)
  {
    assert k.g.types != [];
    var c := BerMachine.Start(env);
    if NoCuts(env, c, n) {
      UncutIsNested(k, env, n);
    } else {
      StartsOnTrack(k, env);
      StartIsKept(env);
      hide Machine.Valid, Step, EndsAsDeclared, Nested, Kept, OnTrack;
      CutRun(k, env, c, n, []);
    }
  }

  /** No accepted run over up to 65412 octets cuts an enclosing end; `Limits.LongDataIsAccepted`
      is one that does, over 65413. */
  lemma {:induction false} ShortIsNested(k: Machine, env: Env, n: nat)
    requires For(k, env) && |env.data| <= 65412
    requires After(env, BerMachine.Start(env), n).Halt? && After(env, BerMachine.Start(env), n).out.Accepted?
    ensures NoCuts(env, BerMachine.Start(env), n)
  {
    assert k.g.types != [];
    StartsOnTrack(k, env);
    StartIsKept(env);
    hide Machine.Valid, Step, Kept, OnTrack, Cuts;
    ShortRun(k, env, BerMachine.Start(env), n, []);
  }

  /** No run at all does while the cut element's header cannot lie inside the input. */
  lemma {:induction false} NeverCuts(k: Machine, env: Env, c: Config, n: nat, log: seq<Extent>)
    requires For(k, env) && |env.data| <= 65410
    requires c.Run? ==> OnTrack(k, c.st) && Kept(env, c.st, log)
    ensures NoCuts(env, c, n)
    decreases n
  {
    hide Step, Kept, OnTrack, Completed, IsJumpMatch, HasConsBit, Operand, Cuts;
    assert k.g.types != [];
    hide Machine.Valid;
    if n > 0 && c.Run? {
      OneStepKeeps(k, env, c.st);
      JumpsAreCompound(k, env, c.st);
      KeptIsUncut(env, c.st, log);
      StepKept(env, c.st, log);
      NeverCuts(k, env, Step(env, c.st), n - 1, log + Completed(c.st, Step(env, c.st)));
    }
  }

  lemma {:induction false} KeptIsUncut(env: Env, s: State, log: seq<Extent>)
    requires Kept(env, s, log) && |env.data| <= 65410
    requires IsJumpMatch(Operand(env, s.pc)) ==> HasConsBit(Operand(env, s.pc + 1))
    ensures !Cuts(env, s)
  {
    if Cuts(env, s) {
      CutIsFar(env, s, log);
      CutsInside(env, s);
    }
    hide Step, Enclosing, Stacked, LogOk, DeclaresIndefinite;
  }

  lemma {:induction false} CutsInside(env: Env, s: State)
    requires Cuts(env, s) && 0 <= s.dp
    requires IsJumpMatch(Operand(env, s.pc)) ==> HasConsBit(Operand(env, s.pc + 1))
    ensures Step(env, s).st.dp <= |env.data|
  {
    StepMoves(env, s);
    GrowsOnly(env, s, Step(env, s).st);
    hide Step, DeclaresIndefinite, Declares;
  }

  /** So no run over up to 65410 octets, accepted or not, ever cuts an end. */
  lemma {:induction false} ShortNeverCuts(k: Machine, env: Env, n: nat)
    requires For(k, env) && |env.data| <= 65410
    ensures NoCuts(env, BerMachine.Start(env), n)
  {
    assert k.g.types != [];
    StartsOnTrack(k, env);
    StartIsKept(env);
    hide Machine.Valid, Step, Kept, OnTrack, Cuts;
    NeverCuts(k, env, BerMachine.Start(env), n, []);
  }
}
