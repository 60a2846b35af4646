/** `asn1_ber_decoder` as it runs: cursors, flags and the four fixed stacks updated in place,
    each pass through `next_op` doing what `BerMachine.Step` says. */
module Decoder {
  import opened Octets
  import opened Bytecode
  import opened BerMachine
  import BerScan

  datatype Progress = Going | Stopped(out: Outcome)

  function FramesOf(dps: seq<int>, ends: seq<int>, hdrs: seq<int>): (s: seq<Frame>)
    requires |dps| == |ends| == |hdrs|
    ensures |s| == |dps|
  {
    seq(|dps|, i requires 0 <= i < |dps| => Frame(dps[i], ends[i], hdrs[i]))
  }

  class Decoder {
    const env: Env
    var pc: int
    var dp: int
    var datalen: int
    var matched: bool
    var indefinite: bool
    var compound: bool
    var tag: int
    var hdr: int
    var tdp: int
    var len: int
    var csp: nat
    var jsp: nat
    const consDp: array<int>
    const consDatalen: array<int>
    const consHdrlen: array<int>
    const jumpStack: array<int>
    var trace: seq<Event>

    ghost predicate Valid()
      reads this`csp, this`jsp
    {
      && csp <= NR_CONS_STACK && jsp <= NR_JUMP_STACK
      && consDp.Length == NR_CONS_STACK && consDatalen.Length == NR_CONS_STACK
      && consHdrlen.Length == NR_CONS_STACK && jumpStack.Length == NR_JUMP_STACK
      && consDp != consDatalen && consDp != consHdrlen && consDp != jumpStack
      && consDatalen != consHdrlen && consDatalen != jumpStack && consHdrlen != jumpStack
    }

    ghost function Frames(): seq<Frame>
      requires Valid()
      reads this`csp, this`jsp, consDp, consDatalen, consHdrlen
    {
      FramesOf(consDp[..csp], consDatalen[..csp], consHdrlen[..csp])
    }

    /** The state of the machine the fields stand for. */
    ghost function View(): State
      requires Valid()
      reads this, consDp, consDatalen, consHdrlen, jumpStack
    {
      State(pc, dp, datalen, matched, indefinite, compound, tag, hdr, tdp, len, Frames(), jumpStack[..jsp], trace)
    }

    /** The fields are where `c` is, or `c` is the stop that `p` reports. */
    ghost predicate Is(c: Config, p: Progress)
      requires Valid()
      reads this, consDp, consDatalen, consHdrlen, jumpStack
    {
      match p
      case Going => c == Run(View())
      case Stopped(out) => c.Halt? && c.out == out && c.st.trace == trace && (out.Accepted? ==> c.st == View())
    }

    constructor (env: Env)
      ensures Valid() && this.env == env && View() == Init(env)
      ensures fresh(consDp) && fresh(consDatalen) && fresh(consHdrlen) && fresh(jumpStack)
    {
      this.env := env;
      pc, dp, datalen := 0, 0, |env.data|;
      matched, indefinite, compound := false, false, false;
      tag, hdr, tdp, len, csp, jsp := 0, 0, 0, 0, 0, 0;
      consDp := new int[NR_CONS_STACK];
      consDatalen := new int[NR_CONS_STACK];
      consHdrlen := new int[NR_CONS_STACK];
      jumpStack := new int[NR_JUMP_STACK];
      trace := [];
    }

    // ----- parts of a tag match ---------------------------------------------------------

    method Next(op: int)
      requires Valid()
      modifies this`pc
      ensures Valid() && Run(View()) == BerMachine.Next(old(View()), op)
    {
      pc := pc + OpLength(op);
    }

    method CallAction(i: int, tag: int, start: int) returns (p: Progress)
      requires Valid()
      modifies this`trace
      ensures Valid() && Is(BerMachine.CallAction(env, old(View()), i, tag, start), p)
    {
      if !(0 <= i < |env.machine| && 0 <= env.machine[i] < env.nrActions) { return Stopped(OutsideTables); }
      trace := trace + [Event(env.machine[i], hdr, tag, start, len)];
      return Going;
    }

    /** The length octets, with the shift-and-or loop of the long form. */
    method ReadLength() returns (p: Progress)
      requires Valid()
      modifies this`dp, this`len, this`hdr, this`matched, this`indefinite
      ensures Valid()
      ensures var r := BerMachine.ReadLength(env, old(View()));
              match p
              case Going => r.Length? && View() == Sized(old(View()), r)
              case Stopped(out) => r == BadLength(out) && !out.Accepted?
    {
      hide FramesOf, HasConsBit;
      matched, indefinite := true, false;
      if !(0 <= dp < |env.data|) { return Stopped(OutsideData); }
      len := env.data[dp];
      dp := dp + 1;
      if len > 0x7f {
        if len == 0x80 {
          if !HasConsBit(tag) { return Stopped(IndefinitePrimitive); }
          indefinite := true;
          if 2 > datalen - dp { return Stopped(DataOverrun); }
        } else {
          var n := len - 0x80;
          if n > 2 { return Stopped(LengthTooLong); }
          if dp >= datalen - n { return Stopped(DataOverrun); }
          if dp + n > |env.data| { return Stopped(OutsideData); }
          hdr := hdr + n;
          len := 0;
          ghost var first := dp;
          while n > 0
            modifies this`dp, this`len
            invariant 0 <= n <= 2 && 0 <= first <= dp && dp + n <= |env.data|
            invariant dp == first || dp == first + 1 || dp == first + 2
            invariant len == (if dp == first then 0
                              else if dp == first + 1 then env.data[first] as int
                              else 256 * env.data[first] as int + env.data[first + 1] as int)
            invariant dp + n == old(dp) + 1 + (env.data[old(dp)] as int - 0x80)
            invariant first == old(dp) + 1
          {
            len := 256 * len + env.data[dp] as int;
            dp := dp + 1;
            n := n - 1;
          }
          if len > datalen - dp { return Stopped(DataOverrun); }
        }
      }
      return Going;
    }

    method Push() returns (p: Progress)
      requires Valid()
      modifies this`csp, this`datalen, consDp, consDatalen, consHdrlen
      ensures Valid() && Is(BerMachine.Push(old(View())), p)
    {
      if csp >= NR_CONS_STACK { return Stopped(ConsOverflow); }
      ghost var was := Frames();
      consDp[csp] := dp % 0x10000;
      consHdrlen[csp] := hdr;
      if !indefinite {
        consDatalen[csp] := datalen % 0x10000;
        datalen := dp + len;
      } else {
        consDatalen[csp] := 0;
      }
      csp := csp + 1;
      assert Frames()[..csp - 1] == was;
      assert Frames() == was + [Frame(consDp[csp - 1], consDatalen[csp - 1], consHdrlen[csp - 1])];
      return Going;
    }

    method SkipData(op: int) returns (p: Progress)
      requires Valid()
      modifies this`dp, this`len, this`pc
      ensures Valid() && Is(BerMachine.SkipData(env, old(View()), op), p)
    {
      if !compound {
        if indefinite {
          if dp < 0 { return Stopped(OutsideData); }
          var r, n := BerScan.FindIndefiniteLength(env.data, datalen, dp);
          match r {
            case End(q) => dp, len := q, n;
            case Error(e) => return Stopped(ScanFailed(e));
            case Outside => return Stopped(OutsideData);
          }
        } else {
          dp := dp + len;
        }
      }
      Next(op);
      return Going;
    }

    // ----- one pass ---------------------------------------------------------------------

    /** The switch over a tag-matching op whose tag and length have been read. */
    method Dispatch(op: int) returns (p: Progress)
      requires Valid()
      modifies this`pc, this`dp, this`len, this`jsp, this`trace, jumpStack
      ensures Valid() && Is(Matched(env, old(View()), op), p)
    {
      hide BerMachine.SkipData, BerMachine.CallAction, OpLength, IsAnyMatch, IsPlainMatch, IsJumpMatch, HasAct;
      if IsAnyMatch(op) || IsPlainMatch(op) {
        if HasAct(op) {
          p := CallAction(pc + (if IsAnyMatch(op) then 1 else 2), tag, dp);
          if p != Going { return; }
          var reply := env.reply(trace);
          if reply < 0 { return Stopped(Refused(reply)); }
        }
        p := SkipData(op);
      } else if IsJumpMatch(op) {
        if jsp == NR_JUMP_STACK { return Stopped(JumpOverflow); }
        PushReturn(op);
        pc := if 0 <= pc + 2 < |env.machine| then env.machine[pc + 2] else 0;
        return Going;
      } else {
        return Stopped(NotReached);
      }
    }

    method PushReturn(op: int)
      requires Valid() && jsp < NR_JUMP_STACK
      modifies this`jsp, jumpStack
      ensures Valid()
      ensures View() == old(View()).(jumps := old(View()).jumps + [(pc + OpLength(op)) % 0x100])
    {
      hide OpLength;
      jumpStack[jsp] := (pc + OpLength(op)) % 0x100;
      jsp := jsp + 1;
    }

    /** From the length octets on. */
    method ReadHeader(op: int) returns (p: Progress)
      requires Valid()
      modifies this`pc, this`dp, this`len, this`hdr, this`tdp, this`datalen, this`matched, this`indefinite,
               this`csp, this`jsp, this`trace, consDp, consDatalen, consHdrlen, jumpStack
      ensures Valid() && Is(Header(env, old(View()), op), p)
    {
      hide BerMachine.ReadLength, Sized, BerMachine.Push, Matched;
      p := ReadLength();
      if p != Going { return; }
      if compound {
        p := Push();
        if p != Going { return; }
      }
      tdp := dp;
      p := Dispatch(op);
    }

    method MatchTag(op: int) returns (p: Progress)
      requires Valid()
      modifies this, consDp, consDatalen, consHdrlen, jumpStack
      ensures Valid() && Is(MatchStep(env, old(View()), op), p)
    {
      hide HasCond, OpLength, TagStep, FramesOf;
      if (HasCond(op) && matched) || dp == datalen {
        Next(op);
        return Going;
      }
      p := CompareTag(op);
    }

    method CompareTag(op: int) returns (p: Progress)
      requires Valid()
      modifies this, consDp, consDatalen, consHdrlen, jumpStack
      ensures Valid() && Is(TagStep(env, old(View()), op), p)
    {
      hide HasAny, HasSkip, HasCond, OpLength, IsLongTag, Header, TagMatches, HasConsBit, FramesOf;
      if dp >= datalen - 1 { return Stopped(DataOverrun); }
      if !(0 <= dp < |env.data|) { return Stopped(OutsideData); }
      var first := env.data[dp];
      if IsLongTag(first) { return Stopped(LongTag); }
      if HasAny(op) {
        TakeTag(first, false);
      } else {
        if !(0 <= pc + 1 < |env.machine|) { return Stopped(OutsideTables); }
        var optag := env.machine[pc + 1];
        TakeTag(first, HasConsBit(optag));
        if !TagMatches(optag, first) {
          if !HasSkip(op) { return Stopped(TagMismatch); }
          dp := dp - 1;
          Next(op);
          return Going;
        }
      }
      p := ReadHeader(op);
    }

    method TakeTag(first: int, wanted: bool)
      requires Valid()
      modifies this`matched, this`indefinite, this`compound, this`hdr, this`tag, this`dp
      ensures Valid() && View() == Tagged(old(View()), first, wanted)
    {
      hide FramesOf;
      matched, indefinite, compound := false, false, wanted;
      hdr, tag, dp := 2, first, dp + 1;
    }

    // ----- the other ops ----------------------------------------------------------------

    method PopFrame()
      requires Valid() && csp > 0
      modifies this`csp, this`tdp, this`hdr, this`len, this`datalen
      ensures Valid() && csp == old(csp) - 1
      ensures var s := old(View());
              var f := s.cons[|s.cons| - 1];
              View() == s.(tdp := f.dp, hdr := f.hdrlen, len := s.datalen, datalen := f.datalen,
                           cons := s.cons[..|s.cons| - 1])
      ensures old(Frames()) == Frames() + [Frame(consDp[csp], consDatalen[csp], consHdrlen[csp])]
    {
      csp := csp - 1;
      tdp, hdr, len := consDp[csp], consHdrlen[csp], datalen;
      datalen := consDatalen[csp];
      assert Frames() == old(Frames())[..csp];
    }

    /** Back to the head of the loop: the frame is still there, above the stack pointer. */
    method GoAround(ghost frames: seq<Frame>)
      requires Valid() && csp < NR_CONS_STACK
      requires frames == Frames() + [Frame(consDp[csp], consDatalen[csp], consHdrlen[csp])]
      modifies this`csp, this`pc
      ensures Valid()
      ensures View() == old(View()).(pc := Operand(env, old(pc) + 1), cons := frames)
    {
      csp := csp + 1;
      pc := if 0 <= pc + 1 < |env.machine| then env.machine[pc + 1] else 0;
      assert Frames()[..csp - 1] == old(Frames());
    }

    method CloseFrame(op: int) returns (p: Progress)
      requires Valid()
      modifies this`pc, this`trace
      ensures Valid() && Is(Closed(env, old(View()), op), p)
    {
      hide FramesOf, OpLength, BerMachine.CallAction;
      if EndsWithAct(op) {
        p := CallAction(pc + (if EndsOf(op) then 2 else 1), 0, tdp);
        if p != Going { return; }
      }
      Next(op);
      return Going;
    }

    /** `s` is the state an END op has found, and its frame has just been popped. */
    ghost predicate Popped(s: State, op: int)
      requires Valid()
      reads this, consDp, consDatalen, consHdrlen, jumpStack
    {
      && csp < NR_CONS_STACK
      && s.cons == Frames() + [Frame(consDp[csp], consDatalen[csp], consHdrlen[csp])]
      && View() == s.(tdp := consDp[csp], hdr := consHdrlen[csp], len := s.datalen, datalen := consDatalen[csp],
                      cons := Frames())
      && !(op in {0x21, 0x25} && !s.matched)
    }

    method EndIndefinite(op: int, ghost s: State) returns (p: Progress)
      requires Valid() && Popped(s, op) && datalen == 0
      modifies this`dp, this`len, this`datalen, this`csp, this`pc, this`trace
      ensures Valid() && Is(EndStep(env, s, op), p)
    {
      hide FramesOf, Closed, EndsOf;
      datalen := len;
      if datalen - dp < 2 { return Stopped(DataOverrun); }
      if !(0 <= dp < |env.data|) { return Stopped(OutsideData); }
      if env.data[dp] != 0 {
        if !EndsOf(op) { return Stopped(MissingEoc); }
        GoAround(s.cons);
        return Going;
      }
      if dp + 1 >= |env.data| { return Stopped(OutsideData); }
      if env.data[dp + 1] != 0 { return Stopped(InvalidEoc); }
      p := CloseAtZeros(op);
    }

    /** Behind the end-of-contents octets. */
    method CloseAtZeros(op: int) returns (p: Progress)
      requires Valid()
      modifies this`dp, this`len, this`pc, this`trace
      ensures Valid() && Is(Closed(env, old(View()).(dp := old(dp) + 2, len := old(dp) - tdp), op), p)
    {
      hide FramesOf, Closed;
      dp := dp + 2;
      len := dp - tdp - 2;
      p := CloseFrame(op);
    }

    method EndDefinite(op: int, ghost s: State) returns (p: Progress)
      requires Valid() && Popped(s, op) && datalen != 0
      modifies this`dp, this`len, this`datalen, this`csp, this`pc, this`trace
      ensures Valid() && Is(EndStep(env, s, op), p)
    {
      hide FramesOf, Closed, EndsOf;
      if dp < len && EndsOf(op) {
        datalen := len;
        GoAround(s.cons);
        return Going;
      }
      if dp != len { return Stopped(ConsLength); }
      len := len - tdp;
      p := CloseFrame(op);
    }

    method EndOfContents(op: int) returns (p: Progress)
      requires Valid()
      modifies this, consDp, consDatalen, consHdrlen, jumpStack
      ensures Valid() && Is(EndStep(env, old(View()), op), p)
    {
      hide FramesOf, Closed, EndsOf;
      if op in {0x21, 0x25} && !matched { return Stopped(TagMismatch); }
      if csp <= 0 { return Stopped(ConsUnderflow); }
      PopFrame();
      if datalen == 0 {
        p := EndIndefinite(op, old(View()));
      } else {
        p := EndDefinite(op, old(View()));
      }
    }

    method PopReturn()
      requires Valid() && jsp > 0
      modifies this`jsp, this`pc
      ensures Valid()
      ensures var s := old(View());
              View() == s.(pc := s.jumps[|s.jumps| - 1], jumps := s.jumps[..|s.jumps| - 1])
    {
      jsp := jsp - 1;
      pc := jumpStack[jsp];
    }

    /** One pass through `next_op`. */
    method Pass() returns (p: Progress)
      requires Valid()
      modifies this, consDp, consDatalen, consHdrlen, jumpStack
      ensures Valid() && Is(Step(env, old(View())), p)
    {
      hide MatchStep, EndStep, OpLength, BerMachine.CallAction;
      if pc < 0 || pc >= |env.machine| { return Stopped(MachineOverrun); }
      var op := env.machine[pc];
      if !(0 <= op < OP_NR) { return Stopped(OutsideTables); }
      if pc + OpLength(op) > |env.machine| { return Stopped(MachineOverrun); }
      if op <= OP_MATCHES_TAG {
        p := MatchTag(op);
      } else if op == COND_FAIL {
        if !matched { return Stopped(TagMismatch); }
        Next(op);
        return Going;
      } else if op == COMPLETE {
        return Stopped(if jsp != 0 || csp != 0 then StacksNotEmpty else Accepted);
      } else if IsEnd(op) {
        p := EndOfContents(op);
      } else if op == ACT {
        p := CallAction(pc + 1, tag, tdp);
        if p == Going { Next(op); }
      } else if op == RETURN {
        if jsp <= 0 { return Stopped(JumpUnderflow); }
        PopReturn();
        return Going;
      } else {
        return Stopped(NotReached);
      }
    }

    /** The decoder itself, for runs that stop after at most `passes` passes: it returns what
        the run returns, having called the actions the run calls, and the cursor of an
        accepted run is where that run leaves it. */
    method Decode(ghost passes: nat) returns (out: Outcome)
      requires Valid() && View() == Init(env) && After(env, Start(env), passes).Halt?
      modifies this, consDp, consDatalen, consHdrlen, jumpStack
      ensures Valid()
      ensures var last := After(env, Start(env), passes);
              && out == last.out && trace == last.st.trace
              && (out.Accepted? ==> View() == last.st)
    {
      hide Step, FramesOf;
      if |env.data| > 65535 { return TooBig; }
      ghost var left := passes;
      while true
        invariant Valid()
        invariant After(env, Run(View()), left) == After(env, Start(env), passes)
        decreases left
      {
        ghost var s := View();
        var p := Pass();
        if p.Stopped? {
          StopsAt(env, s, left);
          return p.out;
        }
        left := left - 1;
      }
    }
  }

  lemma {:induction false} StopsAt(env: Env, s: State, n: nat)
    requires After(env, Run(s), n).Halt? && Step(env, s).Halt?
    ensures After(env, Run(s), n) == Step(env, s)
  {
    hide Step;
    assert n > 0;
    assert After(env, Run(s), n) == After(env, Step(env, s), n - 1);
  }
}
