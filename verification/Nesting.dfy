/** Accepted means nested: what a run of the machine says about the elements it has matched,
    although a short-form length is never compared with the enclosing end when it is read. */
module Nesting {
  import opened Octets
  import opened Bytecode
  import opened BerMachine
  import BerScan
  import opened Code
  import opened Layout
  import opened Safety

  /** A matched element: from the first octet of its tag to behind its last octet. */
  datatype Extent = Extent(start: int, contents: int, end: int)

  // ----- what the data declares ---------------------------------------------------------

  /** The header at `p` ends at `q` and declares `n` contents octets. */
  predicate Declares(data: seq<Octet>, p: int, q: int, n: int) {
    && 0 <= p && p + 2 <= q <= |data|
    && var l := data[p + 1];
    || (l < 0x80 && q == p + 2 && n == l)
    || (l == 0x81 && q == p + 3 && n == data[p + 2])
    || (l == 0x82 && q == p + 4 && n == 256 * data[p + 2] as int + data[p + 3] as int)
  }

  /** The header at `p` is that of a constructed element, ends at `q` and declares an indefinite
      length. */
  predicate DeclaresIndefinite(data: seq<Octet>, p: int, q: int) {
    0 <= p && q == p + 2 <= |data| && HasConsBit(data[p]) && data[p + 1] == 0x80
  }

  /** A matched element ends where its header declares, or at an end-of-contents pair. */
  ghost predicate EndsAsDeclared(data: seq<Octet>, x: Extent) {
    || (exists n :: Declares(data, x.start, x.contents, n) && x.end == x.contents + n)
    || (&& DeclaresIndefinite(data, x.start, x.contents)
        && x.contents + 2 <= x.end <= |data| && data[x.end - 2] == 0 && data[x.end - 1] == 0)
  }

  // ----- the log of a run ---------------------------------------------------------------

  function Begin(f: Frame): int {
    f.dp - f.hdrlen
  }

  /** The element one pass completes, if any. */
  function Completed(s: State, c: Config): seq<Extent> {
    if c.Halt? then []
    else if |c.st.cons| < |s.cons| then
      var f := s.cons[|s.cons| - 1];
      [Extent(Begin(f), f.dp, c.st.dp)]
    else if |c.st.cons| == |s.cons| && c.st.dp > s.dp then [Extent(s.dp, c.st.tdp, c.st.dp)]
    else []
  }

  /** The elements completed in the next `n` passes, in the order they are completed. */
  function Log(env: Env, c: Config, n: nat): seq<Extent>
    decreases n
  {
    if n == 0 || c.Halt? then []
    else Completed(c.st, Step(env, c.st)) + Log(env, Step(env, c.st), n - 1)
  }

  /** `a`, completed before `b`, lies before it or inside its contents. */
  predicate BeforeOrInside(a: Extent, b: Extent) {
    a.end <= b.start || (b.contents <= a.start && a.end <= b.end)
  }

  ghost predicate Nested(log: seq<Extent>) {
    forall i, j :: 0 <= i < j < |log| ==> BeforeOrInside(log[i], log[j])
  }

  // ----- what one pass does -------------------------------------------------------------

  predicate Stays(s: State, t: State) {
    t.dp == s.dp && t.cons == s.cons && t.datalen == s.datalen
  }

  ghost predicate MatchesLeaf(env: Env, s: State, t: State) {
    && t.cons == s.cons && t.datalen == s.datalen
    && s.dp + 2 <= t.tdp <= t.dp && t.tdp <= |env.data|
    && EndsAsDeclared(env.data, Extent(s.dp, t.tdp, t.dp))
  }

  predicate Opens(env: Env, s: State, t: State) {
    && |t.cons| == |s.cons| + 1 && t.cons[..|s.cons|] == s.cons
    && s.dp + 1 < s.datalen
    && var f := t.cons[|s.cons|];
    && s.dp + 2 <= t.dp <= |env.data| && f.dp == t.dp % 0x10000 && f.hdrlen == t.dp - s.dp
    && ((DeclaresIndefinite(env.data, s.dp, t.dp) && f.datalen == 0 && t.datalen == s.datalen)
        || (&& f.datalen == s.datalen % 0x10000
            && Declares(env.data, s.dp, t.dp, t.datalen - t.dp)
            && (t.datalen - t.dp <= 0x7f || t.datalen <= s.datalen)))
  }

  predicate Closes(env: Env, s: State, t: State) {
    && s.cons != [] && t.cons == s.cons[..|s.cons| - 1]
    && var f := s.cons[|s.cons| - 1];
    if f.datalen == 0 then
      && t.dp == s.dp + 2 <= |env.data| && 0 <= s.dp && env.data[s.dp] == 0 && env.data[s.dp + 1] == 0
      && t.datalen == s.datalen && t.dp <= s.datalen
    else t.dp == s.dp == s.datalen && t.datalen == f.datalen
  }

  ghost predicate Moves(env: Env, s: State, t: State) {
    Stays(s, t) || MatchesLeaf(env, s, t) || Opens(env, s, t) || Closes(env, s, t)
  }

  /** A header read at `s.dp - 1`, behind the tag. */
  lemma {:induction false} LengthDeclares(env: Env, s: State)
    requires 1 <= s.dp <= |env.data| && s.tag == env.data[s.dp - 1] && ReadLength(env, s).Length?
    ensures var r := ReadLength(env, s);
            && s.dp < r.dp <= |env.data| && r.extra == r.dp - s.dp - 1
            && (r.indefinite ==> DeclaresIndefinite(env.data, s.dp - 1, r.dp))
            && (!r.indefinite ==> 0 <= r.len && Declares(env.data, s.dp - 1, r.dp, r.len)
                                  && (r.len <= 0x7f || r.dp + r.len <= s.datalen))
  {
  }

  /** The state behind a header: what was read and what is still as before. */
  predicate HeaderRead(env: Env, s: State, t: State) {
    && t.cons == s.cons && t.datalen == s.datalen && s.dp + 2 <= t.dp <= |env.data|
    && t.hdr == t.dp - s.dp && 0 <= s.dp
    && (t.indefinite ==> DeclaresIndefinite(env.data, s.dp, t.dp))
    && (!t.indefinite ==> 0 <= t.len && Declares(env.data, s.dp, t.dp, t.len)
                          && (t.len <= 0x7f || t.dp + t.len <= s.datalen))
  }

  lemma {:induction false} SkipMoves(env: Env, s: State, t: State, op: int)
    requires HeaderRead(env, s, t) && t.tdp == t.dp && !t.compound
    requires SkipData(env, t, op).Run?
    ensures MatchesLeaf(env, s, SkipData(env, t, op).st)
  {
    if t.indefinite {
      BerScan.ScanEndsInEoc(env.data, t.datalen, t.dp, 1);
    } else {
      assert Declares(env.data, s.dp, t.dp, t.len);
    }
  }

  lemma {:induction false} MatchedMoves(env: Env, s: State, t: State, op: int)
    requires HeaderRead(env, s, t) && t.tdp == t.dp && !t.compound
    requires Matched(env, t, op).Run? && !IsJumpMatch(op)
    ensures MatchesLeaf(env, s, Matched(env, t, op).st)
  {
    hide SkipData, HeaderRead, MatchesLeaf;
    if HasAct(op) {
      var u := CallAction(env, t, t.pc + (if IsAnyMatch(op) then 1 else 2), t.tag, t.dp).st;
      CallKeepsHeader(env, s, t, t.pc + (if IsAnyMatch(op) then 1 else 2), t.tag, t.dp);
      SkipMoves(env, s, u, op);
    } else {
      SkipMoves(env, s, t, op);
    }
  }

  lemma {:induction false} CallKeepsHeader(env: Env, s: State, t: State, i: int, tag: int, start: int)
    requires HeaderRead(env, s, t) && CallAction(env, t, i, tag, start).Run?
    ensures var u := CallAction(env, t, i, tag, start).st;
            HeaderRead(env, s, u) && u.tdp == t.tdp && u.dp == t.dp && u.compound == t.compound
  {
  }

  lemma {:induction false} PushOpens(env: Env, s: State, t: State)
    requires HeaderRead(env, s, t) && s.dp + 1 < s.datalen && Push(t).Run?
    ensures Opens(env, s, Push(t).st) && Push(t).st.compound == t.compound
  {
  }

  lemma {:induction false} MatchedOpened(env: Env, s: State, t: State, op: int)
    requires Opens(env, s, t) && t.compound
    requires Matched(env, t, op).Run?
    ensures Opens(env, s, Matched(env, t, op).st)
  {
  }

  lemma {:induction false} SizedReads(env: Env, s: State, t: State)
    requires 0 <= s.dp < |env.data| && t.tag == env.data[s.dp]
    requires t.dp == s.dp + 1 && t.cons == s.cons && t.datalen == s.datalen && t.hdr == 2
    requires ReadLength(env, t).Length?
    ensures var u := Sized(t, ReadLength(env, t)); HeaderRead(env, s, u) && u.compound == t.compound
  {
    LengthDeclares(env, t);
    hide ReadLength;
  }

  lemma {:induction false} HeaderMoves(env: Env, s: State, t: State, op: int)
    requires 0 <= s.dp < |env.data| && s.dp + 1 < s.datalen && t.tag == env.data[s.dp]
    requires t.dp == s.dp + 1 && t.cons == s.cons && t.datalen == s.datalen && t.hdr == 2
    requires Header(env, t, op).Run?
    requires t.compound || !IsJumpMatch(op)
    ensures Moves(env, s, Header(env, t, op).st)
  {
    hide ReadLength, Matched, Push, Sized, HeaderRead, Opens, MatchesLeaf, Closes, Stays;
    SizedReads(env, s, t);
    var u := Sized(t, ReadLength(env, t));
    if t.compound {
      PushOpens(env, s, u);
      var p := Push(u).st;
      OpensAnyTdp(env, s, p);
      MatchedOpened(env, s, p.(tdp := p.dp), op);
    } else {
      HeaderAnyTdp(env, s, u);
      MatchedMoves(env, s, u.(tdp := u.dp), op);
    }
  }

  lemma {:induction false} OpensAnyTdp(env: Env, s: State, p: State)
    requires Opens(env, s, p)
    ensures Opens(env, s, p.(tdp := p.dp))
  {
  }

  lemma {:induction false} HeaderAnyTdp(env: Env, s: State, u: State)
    requires HeaderRead(env, s, u)
    ensures HeaderRead(env, s, u.(tdp := u.dp))
  {
  }

  lemma {:induction false} TagMoves(env: Env, s: State, op: int)
    requires 0 <= s.dp && TagStep(env, s, op).Run?
    requires IsJumpMatch(op) ==> !HasAny(op) && HasConsBit(Operand(env, s.pc + 1))
    ensures Moves(env, s, TagStep(env, s, op).st)
  {
    hide Header, Opens, MatchesLeaf, Closes, HasConsBit, IsLongTag, TagMatches, HasSkip, HasAny, IsJumpMatch, OpLength;
    if HasAny(op) {
      HeaderMoves(env, s, Tagged(s, env.data[s.dp], false), op);
    } else {
      var optag := env.machine[s.pc + 1];
      if TagMatches(optag, env.data[s.dp]) {
        HeaderMoves(env, s, Tagged(s, env.data[s.dp], HasConsBit(optag)), op);
      }
    }
  }

  lemma {:induction false} EndMoves(env: Env, s: State, op: int)
    requires EndStep(env, s, op).Run?
    ensures Moves(env, s, EndStep(env, s, op).st)
  {
    hide MatchesLeaf, Opens;
  }

  /** Every pass that does not stop the machine keeps the cursor, matches a leaf, opens a
      frame or closes one. */
  lemma {:induction false} StepMoves(env: Env, s: State)
    requires 0 <= s.dp && Step(env, s).Run?
    requires IsJumpMatch(Operand(env, s.pc)) ==> HasConsBit(Operand(env, s.pc + 1))
    ensures Moves(env, s, Step(env, s).st)
  {
    hide TagStep, MatchesLeaf, Opens, Closes, EndStep, HasConsBit, HasCond;
    var op := env.machine[s.pc];
    if op <= OP_MATCHES_TAG {
      if !((HasCond(op) && s.matched) || s.dp == s.datalen) {
        JumpIsNotAny(op);
        TagMoves(env, s, op);
      }
    } else if IsEnd(op) {
      EndMoves(env, s, op);
    }
  }

  /** The cursor never goes back. */
  lemma {:induction false} NeverBack(env: Env, s: State)
    requires 0 <= s.dp && Step(env, s).Run?
    requires IsJumpMatch(Operand(env, s.pc)) ==> HasConsBit(Operand(env, s.pc + 1))
    ensures s.dp <= Step(env, s).st.dp
  {
    StepMoves(env, s);
    hide Step, EndsAsDeclared, IsJumpMatch, HasConsBit;
  }

  lemma {:induction false} JumpIsNotAny(op: int)
    ensures IsJumpMatch(op) ==> !HasAny(op)
  {
  }

  // ----- the invariant ------------------------------------------------------------------

  /** The end of the enclosing element, as the headers of the open frames declare it. */
  ghost predicate Enclosing(env: Env, frames: seq<Frame>, end: int)
    decreases |frames|
  {
    if frames == [] then end == |env.data|
    else
      var f, outer := frames[|frames| - 1], frames[..|frames| - 1];
      if f.datalen == 0 then DeclaresIndefinite(env.data, Begin(f), f.dp) && Enclosing(env, outer, end)
      else
        && Declares(env.data, Begin(f), f.dp, end - f.dp) && (end - f.dp <= 0x7f || end <= f.datalen)
        && f.datalen <= 0xffff && Enclosing(env, outer, f.datalen)
  }

  /** A frame is stacked for an element of definite length while the enclosing end does not fit
      the 16 bits of the stack. */
  predicate Cuts(env: Env, s: State) {
    var c := Step(env, s);
    c.Run? && |c.st.cons| > |s.cons| && s.datalen > 0xffff && !DeclaresIndefinite(env.data, s.dp, c.st.dp)
  }

  /** None of the next `n` passes does. */
  predicate NoCuts(env: Env, c: Config, n: nat)
    decreases n
  {
    n == 0 || c.Halt? || (!Cuts(env, c.st) && NoCuts(env, Step(env, c.st), n - 1))
  }

  /** Open elements lie inside each other and start before the cursor. */
  predicate Stacked(frames: seq<Frame>, dp: int)
    decreases |frames|
  {
    frames == [] ||
    var f := frames[|frames| - 1];
    0 <= Begin(f) && Begin(f) + 2 <= f.dp <= dp && Stacked(frames[..|frames| - 1], Begin(f))
  }

  /** A completed element lies before or inside each open one. */
  predicate AsideFrames(x: Extent, frames: seq<Frame>) {
    forall i :: 0 <= i < |frames| ==> x.end <= Begin(frames[i]) || frames[i].dp <= x.start
  }

  ghost predicate LogOk(env: Env, log: seq<Extent>, frames: seq<Frame>, dp: int) {
    && Nested(log)
    && forall i :: 0 <= i < |log| ==>
         && 0 <= log[i].start && log[i].start + 2 <= log[i].contents <= log[i].end <= dp
         && EndsAsDeclared(env.data, log[i]) && AsideFrames(log[i], frames)
  }

  ghost predicate Kept(env: Env, s: State, log: seq<Extent>) {
    && 0 <= s.dp && |env.data| <= 0xffff
    && Enclosing(env, s.cons, s.datalen) && Stacked(s.cons, s.dp) && LogOk(env, log, s.cons, s.dp)
  }

  lemma {:induction false} LeafKept(env: Env, s: State, t: State, log: seq<Extent>)
    requires Kept(env, s, log) && MatchesLeaf(env, s, t)
    ensures Kept(env, t, log + [Extent(s.dp, t.tdp, t.dp)])
  {
    StackedMore(s.cons, s.dp, t.dp);
    FramesBefore(s.cons, s.dp);
    hide EndsAsDeclared, Declares, DeclaresIndefinite, Enclosing, Stacked;
  }

  lemma {:induction false} StackedMore(frames: seq<Frame>, dp: int, dp': int)
    requires Stacked(frames, dp) && dp <= dp'
    ensures Stacked(frames, dp')
  {
  }

  lemma {:induction false} FramesBefore(frames: seq<Frame>, dp: int)
    requires Stacked(frames, dp)
    ensures forall i :: 0 <= i < |frames| ==> frames[i].dp <= dp
    decreases |frames|
  {
    if frames != [] {
      var outer := frames[..|frames| - 1];
      FramesBefore(outer, Begin(frames[|frames| - 1]));
      assert forall i :: 0 <= i < |outer| ==> frames[i] == outer[i];
    }
  }

  /** No enclosing end lies further behind the input than a short-form length reaches. */
  lemma {:induction false} EnclosingBound(env: Env, frames: seq<Frame>, end: int)
    requires Enclosing(env, frames, end)
    ensures 0 <= end <= |env.data| + 0x7f
    decreases |frames|
  {
    if frames != [] {
      var f, outer := frames[|frames| - 1], frames[..|frames| - 1];
      EnclosingBound(env, outer, if f.datalen == 0 then end else f.datalen);
    }
  }

  lemma {:induction false} OpenKept(env: Env, s: State, t: State, log: seq<Extent>)
    requires Kept(env, s, log) && Opens(env, s, t)
    requires s.datalen <= 0xffff || DeclaresIndefinite(env.data, s.dp, t.dp)
    ensures Kept(env, t, log)
  {
    IndefiniteIsNot(env.data, s.dp, t.dp);
    hide EndsAsDeclared, Nested, Declares, DeclaresIndefinite;
    var f := t.cons[|s.cons|];
    assert t.cons[..|t.cons| - 1] == s.cons;
    assert f.dp == t.dp && Begin(f) == s.dp;
    StackedMore(s.cons, s.dp, t.dp);
    OpenAside(env, s, t, log);
  }

  lemma {:induction false} IndefiniteIsNot(data: seq<Octet>, p: int, q: int)
    ensures DeclaresIndefinite(data, p, q) ==> forall n :: !Declares(data, p, q, n)
  {
  }

  lemma {:induction false} OpenAside(env: Env, s: State, t: State, log: seq<Extent>)
    requires LogOk(env, log, s.cons, s.dp) && s.dp <= t.dp
    requires |t.cons| == |s.cons| + 1 && t.cons[..|s.cons|] == s.cons && Begin(t.cons[|s.cons|]) == s.dp
    ensures LogOk(env, log, t.cons, t.dp)
  {
    hide EndsAsDeclared, Nested, Begin;
    assert forall i :: 0 <= i < |s.cons| ==> t.cons[i] == s.cons[i];
  }

  lemma {:induction false} CloseDeclared(env: Env, s: State, t: State)
    requires Enclosing(env, s.cons, s.datalen) && Stacked(s.cons, s.dp) && Closes(env, s, t)
    ensures var f := s.cons[|s.cons| - 1]; EndsAsDeclared(env.data, Extent(Begin(f), f.dp, t.dp))
  {
    var f := s.cons[|s.cons| - 1];
    if f.datalen != 0 {
      assert Declares(env.data, Begin(f), f.dp, t.dp - f.dp);
    }
    hide Declares;
  }

  lemma {:induction false} CloseLog(env: Env, frames: seq<Frame>, dp: int, dp': int, log: seq<Extent>)
    requires frames != [] && Stacked(frames, dp) && LogOk(env, log, frames, dp) && dp <= dp'
    requires var f := frames[|frames| - 1]; EndsAsDeclared(env.data, Extent(Begin(f), f.dp, dp'))
    ensures var f := frames[|frames| - 1];
            LogOk(env, log + [Extent(Begin(f), f.dp, dp')], frames[..|frames| - 1], dp')
  {
    var f, outer := frames[|frames| - 1], frames[..|frames| - 1];
    FramesBefore(outer, Begin(f));
    assert forall i :: 0 <= i < |outer| ==> frames[i] == outer[i];
    hide EndsAsDeclared, Stacked;
  }

  lemma {:induction false} CloseKept(env: Env, s: State, t: State, log: seq<Extent>)
    requires Kept(env, s, log) && Closes(env, s, t)
    ensures var f := s.cons[|s.cons| - 1]; Kept(env, t, log + [Extent(Begin(f), f.dp, t.dp)])
  {
    hide EndsAsDeclared, Declares, DeclaresIndefinite, LogOk;
    var f, outer := s.cons[|s.cons| - 1], s.cons[..|s.cons| - 1];
    CloseDeclared(env, s, t);
    StackedMore(outer, Begin(f), t.dp);
    CloseLog(env, s.cons, s.dp, t.dp, log);
  }

  lemma {:induction false} StepKept(env: Env, s: State, log: seq<Extent>)
    requires Kept(env, s, log) && !Cuts(env, s)
    requires IsJumpMatch(Operand(env, s.pc)) ==> HasConsBit(Operand(env, s.pc + 1))
    ensures var c := Step(env, s); c.Run? ==> Kept(env, c.st, log + Completed(s, c))
  {
    hide Step, MatchesLeaf, Opens, Closes, LogOk, Enclosing, Stacked, IsJumpMatch, HasConsBit, Begin, DeclaresIndefinite;
    var c := Step(env, s);
    if c.Run? {
      StepMoves(env, s);
      var t := c.st;
      assert log + [] == log;
      if Stays(s, t) {
      } else if MatchesLeaf(env, s, t) {
        LeafLogged(env, s, t);
        LeafKept(env, s, t, log);
      } else if Opens(env, s, t) {
        OpenLogged(env, s, t);
        OpenGrows(env, s, t);
        OpenKept(env, s, t, log);
      } else {
        CloseLogged(env, s, t);
        CloseKept(env, s, t, log);
      }
    }
  }

  lemma {:induction false} LeafLogged(env: Env, s: State, t: State)
    requires MatchesLeaf(env, s, t)
    ensures Completed(s, Run(t)) == [Extent(s.dp, t.tdp, t.dp)]
  {
  }

  lemma {:induction false} OpenGrows(env: Env, s: State, t: State)
    requires Opens(env, s, t)
    ensures |t.cons| > |s.cons|
  {
  }

  lemma {:induction false} OpenLogged(env: Env, s: State, t: State)
    requires Opens(env, s, t)
    ensures Completed(s, Run(t)) == []
  {
  }

  lemma {:induction false} CloseLogged(env: Env, s: State, t: State)
    requires Closes(env, s, t)
    ensures var f := s.cons[|s.cons| - 1]; Completed(s, Run(t)) == [Extent(Begin(f), f.dp, t.dp)]
  {
  }

  // ----- whole runs ---------------------------------------------------------------------

  lemma {:induction false} JumpsAreCompound(k: Machine, env: Env, s: State)
    requires For(k, env) && OnTrack(k, s)
    ensures 0 <= s.pc < |env.machine|
    ensures IsJumpMatch(Operand(env, s.pc)) ==> HasConsBit(Operand(env, s.pc + 1))
  {
    MachineIsTyped(k, s.pc);
    hide Machine.Valid, Follows, CallsOf, Render, RenderBodies, Starts, Depth, HasConsBit;
  }

  lemma {:induction false} RunKept(k: Machine, env: Env, c: Config, n: nat, log: seq<Extent>)
    requires For(k, env) && c.Run? && OnTrack(k, c.st) && Kept(env, c.st, log) && NoCuts(env, c, n)
    ensures var d := After(env, c, n);
            d.Run? || d.out.Accepted? ==> Kept(env, d.st, log + Log(env, c, n))
    decreases n
  {
    hide Step, Kept, OnTrack, Completed, IsJumpMatch, HasConsBit, Operand, Cuts;
    assert k.g.types != [];
    hide Machine.Valid;
    if n == 0 {
      assert log + [] == log;
    } else {
      OneStepKeeps(k, env, c.st);
      JumpsAreCompound(k, env, c.st);
      StepKept(env, c.st, log);
      var d := Step(env, c.st);
      if d.Run? {
        var more := log + Completed(c.st, d);
        RunKept(k, env, d, n - 1, more);
        assert more + Log(env, d, n - 1) == log + Log(env, c, n);
      } else {
        HaltsClean(k, env, c.st, n - 1);
        assert After(env, c, n) == d && Log(env, c, n) == [];
        assert log + [] == log;
      }
    }
  }

  lemma {:induction false} HaltsClean(k: Machine, env: Env, s: State, n: nat)
    requires k.g.types != [] && StepKeeps(k, env, s, Step(env, s)) && Step(env, s).Halt?
    ensures After(env, Step(env, s), n) == Step(env, s)
    ensures Step(env, s).out.Accepted? ==> Step(env, s).st == s
    ensures Log(env, Step(env, s), n) == [] && Completed(s, Step(env, s)) == []
  {
    hide Step;
  }

  // ----- the root -----------------------------------------------------------------------

  lemma {:induction false} DepthIsNat(c: Code, base: int, d: nat, pc: int)
    ensures Depth(c, base, d, pc) >= 0
    decreases c
  {
    match c
    case Then(a, b) =>
      DepthIsNat(a, base, d, pc);
      DepthIsNat(b, base + Size(a), d, pc);
    case Block(_, _, inner, _) => DepthIsNat(inner, base + 2, d + 1, pc);
    case Sub(_, inner, _) => DepthIsNat(inner, base, 1, pc);
    case _ =>
  }

  lemma {:induction false} DepthSumIsNat(k: Machine, jumps: seq<int>)
    requires k.g.types != []
    ensures DepthSum(k, jumps) >= 0
    ensures jumps != [] ==> DepthSum(k, jumps) >= k.DepthAt(jumps[0])
    decreases |jumps|
  {
    hide Depth, Render, RenderBodies;
    if jumps != [] {
      var rest := jumps[..|jumps| - 1];
      DepthSumIsNat(k, rest);
      DepthIsNat(k.Image(), 0, 0, jumps[|jumps| - 1]);
      if rest != [] {
        assert rest[0] == jumps[0];
      } else {
        assert DepthSum(k, rest) == 0;
      }
    }
  }

  lemma {:induction false} DepthFrom(c: Code, base: int, d: nat, pc: int, nrActions: nat)
    requires Sound(c, nrActions)
    ensures Depth(c, base, d, pc) >= d
    decreases c
  {
    match c
    case Then(a, b) =>
      DepthFrom(a, base, d, pc, nrActions);
      DepthFrom(b, base + Size(a), d, pc, nrActions);
    case Block(_, _, inner, _) => DepthFrom(inner, base + 2, d + 1, pc, nrActions);
    case _ =>
  }

  lemma {:induction false} StartIsKept(env: Env)
    requires |env.data| <= 0xffff
    ensures Kept(env, Init(env), [])
  {
  }

  /** While no enclosing end has been cut, what a run has matched lies disjoint or inside each
      other's contents, and each element ends as its own header declares. */
  lemma {:induction false} UncutIsNested(k: Machine, env: Env, n: nat)
    requires For(k, env) && NoCuts(env, BerMachine.Start(env), n)
    requires After(env, BerMachine.Start(env), n).Halt? && After(env, BerMachine.Start(env), n).out.Accepted?
    ensures var log := Log(env, BerMachine.Start(env), n);
            Nested(log) && forall i :: 0 <= i < |log| ==> EndsAsDeclared(env.data, log[i])
  {
    assert k.g.types != [];
    StartsOnTrack(k, env);
    StartIsKept(env);
    var c := BerMachine.Start(env);
    hide Machine.Valid, Step, EndsAsDeclared;
    RunKept(k, env, c, n, []);
    assert [] + Log(env, c, n) == Log(env, c, n);
  }
}
