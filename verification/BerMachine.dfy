/** The bytecode machine of `asn1_ber_decoder`: its state, one pass through `next_op`, and
    runs. Positions are integers, as the C cursors are signed longs; the narrower stack
    elements are truncated where the C code truncates them. */
module BerMachine {
  import opened Octets
  import opened Bytecode
  import BerScan

  const NR_CONS_STACK := 10
  const NR_JUMP_STACK := 10

  /** A call of an action function. */
  datatype Event = Event(action: int, hdrlen: int, tag: int, start: int, len: int)

  /** A decoder with its input. `reply` is what the action functions return, given every
      call made so far, the latest one last. */
  datatype Env = Env(machine: seq<int>, nrActions: nat, data: seq<Octet>, reply: seq<Event> -> int)

  /** An entry of the constructed-element stacks: start of the contents, `datalen` of the
      enclosing element (0 marks an indefinite length) and length of the header. */
  datatype Frame = Frame(dp: int, datalen: int, hdrlen: int)

  datatype State = State(
    pc: int, dp: int, datalen: int,
    matched: bool, indefinite: bool, compound: bool,  // the three flag bits
    tag: int, hdr: int, tdp: int, len: int,
    cons: seq<Frame>, jumps: seq<int>,
    trace: seq<Event>)

  datatype Outcome =
    | Accepted                   // COMPLETE with both stacks empty
    | StacksNotEmpty             // COMPLETE otherwise
    | TooBig                     // more than 65535 octets
    | Refused(reply: int)        // an action failed
    | NotReached                 // the return that "shouldn't" be reached
    | MachineOverrun | JumpUnderflow | JumpOverflow
    | ConsUnderflow | ConsOverflow | ConsLength
    | DataOverrun | MissingEoc | InvalidEoc | LengthTooLong | IndefinitePrimitive
    | TagMismatch | LongTag
    | ScanFailed(error: BerScan.ScanError)
    | OutsideData                // a read behind the input, unguarded in the C code
    | OutsideTables              // an opcode, operand or action the tables do not have

  /** A run is at `st`, or has stopped in the pass from `st`. Only an accepted run stops
      exactly at its state; otherwise nothing looks at the state any more. */
  datatype Config = Run(st: State) | Halt(out: Outcome, st: State)

  // ----- one pass through next_op -------------------------------------------------------

  function Next(s: State, op: int): Config {
    Run(s.(pc := s.pc + OpLength(op)))
  }

  function Operand(env: Env, i: int): int {
    if 0 <= i < |env.machine| then env.machine[i] else 0
  }

  /** Calls the action whose number is machine entry `i`. */
  function CallAction(env: Env, s: State, i: int, tag: int, start: int): Config {
    if !(0 <= i < |env.machine| && 0 <= env.machine[i] < env.nrActions) then Halt(OutsideTables, s)
    else Run(s.(trace := s.trace + [Event(env.machine[i], s.hdr, tag, start, s.len)]))
  }

  /** Length octets of a tag: `dp` behind them, contents length, octets they add to the
      header. For the indefinite form the length stays 0x80. */
  datatype LengthRead =
    | Length(dp: int, len: int, extra: int, indefinite: bool)
    | BadLength(out: Outcome)

  function ReadLength(env: Env, s: State): (r: LengthRead) {
    if !(0 <= s.dp < |env.data|) then BadLength(OutsideData)
    else
      var len: int := env.data[s.dp];
      var dp := s.dp + 1;
      if len <= 0x7f then Length(dp, len, 0, false)
      else if len == 0x80 then
        if !HasConsBit(s.tag) then BadLength(IndefinitePrimitive)
        else if 2 > s.datalen - dp then BadLength(DataOverrun)
        else Length(dp, len, 0, true)
      else
        var n := len - 0x80;
        if n > 2 then BadLength(LengthTooLong)
        else if dp >= s.datalen - n then BadLength(DataOverrun)
        else if dp + n > |env.data| then BadLength(OutsideData)
        else
          var v := if n == 1 then env.data[dp] as int else 256 * env.data[dp] as int + env.data[dp + 1] as int;
          if v > s.datalen - (dp + n) then BadLength(DataOverrun)
          else Length(dp + n, v, n, false)
  }

  /** Stacks the start and the end of a constructed element's contents. */
  function Push(s: State): Config {
    if |s.cons| >= NR_CONS_STACK then Halt(ConsOverflow, s)
    else if s.indefinite then
      Run(s.(cons := s.cons + [Frame(s.dp % 0x10000, 0, s.hdr)]))
    else
      Run(s.(cons := s.cons + [Frame(s.dp % 0x10000, s.datalen % 0x10000, s.hdr)], datalen := s.dp + s.len))
  }

  /** Moves behind the contents, unless they are to be parsed; then on to the next op. */
  function SkipData(env: Env, s: State, op: int): Config {
    if s.compound then Next(s, op)
    else if s.indefinite then
      if s.dp < 0 then Halt(OutsideData, s)
      else
        match BerScan.Scan(env.data, s.datalen, s.dp, 1)
        case End(q) => Next(s.(dp := q, len := q - s.dp), op)
        case Error(e) => Halt(ScanFailed(e), s)
        case Outside => Halt(OutsideData, s)
    else Next(s.(dp := s.dp + s.len), op)
  }

  /** A tag-matching op after its tag and length have been read. */
  function Matched(env: Env, s: State, op: int): Config {
    if IsAnyMatch(op) || IsPlainMatch(op) then
      if HasAct(op) then
        var c := CallAction(env, s, s.pc + (if IsAnyMatch(op) then 1 else 2), s.tag, s.dp);
        if c.Halt? then c
        else if env.reply(c.st.trace) < 0 then Halt(Refused(env.reply(c.st.trace)), c.st)
        else SkipData(env, c.st, op)
      else SkipData(env, s, op)
    else if IsJumpMatch(op) then
      if |s.jumps| == NR_JUMP_STACK then Halt(JumpOverflow, s)
      else Run(s.(pc := Operand(env, s.pc + 2), jumps := s.jumps + [(s.pc + OpLength(op)) % 0x100]))
    else Halt(NotReached, s)
  }

  /** The state with the length octets `r` read. */
  function Sized(s: State, r: LengthRead): State
    requires r.Length?
  {
    s.(matched := true, indefinite := r.indefinite, dp := r.dp, len := r.len, hdr := s.hdr + r.extra)
  }

  /** The tag has matched: read the length, open a frame if the op tag is constructed. */
  function Header(env: Env, s: State, op: int): Config {
    var r := ReadLength(env, s);
    if r.BadLength? then Halt(r.out, s)
    else
      var c := if s.compound then Push(Sized(s, r)) else Run(Sized(s, r));
      if c.Halt? then c else Matched(env, c.st.(tdp := c.st.dp), op)
  }

  /** The state with identifier octet `tag` read, to be compared with `optag`; an op that
      matches anything never expects a constructed element. */
  function Tagged(s: State, tag: int, compound: bool): State {
    s.(matched := false, indefinite := false, compound := compound, hdr := 2, tag := tag, dp := s.dp + 1)
  }

  /** Reads a tag from the data and compares it. */
  function TagStep(env: Env, s: State, op: int): Config {
    if s.dp >= s.datalen - 1 then Halt(DataOverrun, s)
    else if !(0 <= s.dp < |env.data|) then Halt(OutsideData, s)
    else
      var tag := env.data[s.dp];
      if IsLongTag(tag) then Halt(LongTag, s)
      else if HasAny(op) then Header(env, Tagged(s, tag, false), op)
      else if !(0 <= s.pc + 1 < |env.machine|) then Halt(OutsideTables, s)
      else
        var optag := env.machine[s.pc + 1];
        var s1 := Tagged(s, tag, HasConsBit(optag));
        if TagMatches(optag, tag) then Header(env, s1, op)
        else if HasSkip(op) then Next(s1.(dp := s.dp), op)
        else Halt(TagMismatch, s1)
  }

  /** A tag-matching op: passed over when an alternative has matched already or the data is
      at its end. */
  function MatchStep(env: Env, s: State, op: int): Config {
    if (HasCond(op) && s.matched) || s.dp == s.datalen then Next(s, op) else TagStep(env, s, op)
  }

  /** An END op whose frame really ends at `s.dp`: `s` has the frame popped. */
  function Closed(env: Env, s: State, op: int): Config {
    if !EndsWithAct(op) then Next(s, op)
    else
      var c := CallAction(env, s, s.pc + (if EndsOf(op) then 2 else 1), 0, s.tdp);
      if c.Halt? then c else Next(c.st, op)
  }

  function EndStep(env: Env, s: State, op: int): Config {
    if op in {0x21, 0x25} && !s.matched then Halt(TagMismatch, s)
    else if s.cons == [] then Halt(ConsUnderflow, s)
    else
      var f := s.cons[|s.cons| - 1];
      var again := s.(tdp := f.dp, hdr := f.hdrlen, len := s.datalen, pc := Operand(env, s.pc + 1));
      var popped := s.(tdp := f.dp, hdr := f.hdrlen, len := s.datalen, cons := s.cons[..|s.cons| - 1]);
      if f.datalen == 0 then
        if s.datalen - s.dp < 2 then Halt(DataOverrun, popped)
        else if !(0 <= s.dp < |env.data|) then Halt(OutsideData, popped)
        else if env.data[s.dp] != 0 then
          if EndsOf(op) then Run(again) else Halt(MissingEoc, popped)
        else if s.dp + 1 >= |env.data| then Halt(OutsideData, popped)
        else if env.data[s.dp + 1] != 0 then Halt(InvalidEoc, popped)
        else Closed(env, popped.(dp := s.dp + 2, len := s.dp - f.dp), op)
      else if s.dp < s.datalen && EndsOf(op) then Run(again)
      else if s.dp != s.datalen then Halt(ConsLength, popped.(datalen := f.datalen))
      else Closed(env, popped.(datalen := f.datalen, len := s.datalen - f.dp), op)
  }

  function Step(env: Env, s: State): Config {
    if s.pc < 0 || s.pc >= |env.machine| then Halt(MachineOverrun, s)
    else
      var op := env.machine[s.pc];
      if !(0 <= op < OP_NR) then Halt(OutsideTables, s)
      else if s.pc + OpLength(op) > |env.machine| then Halt(MachineOverrun, s)
      else if op <= OP_MATCHES_TAG then MatchStep(env, s, op)
      else if op == COND_FAIL then if !s.matched then Halt(TagMismatch, s) else Next(s, op)
      else if op == COMPLETE then Halt(if s.jumps == [] && s.cons == [] then Accepted else StacksNotEmpty, s)
      else if IsEnd(op) then EndStep(env, s, op)
      else if op == ACT then
        var c := CallAction(env, s, s.pc + 1, s.tag, s.tdp);
        if c.Halt? then c else Next(c.st, op)
      else if op == RETURN then
        if s.jumps == [] then Halt(JumpUnderflow, s)
        else Run(s.(pc := s.jumps[|s.jumps| - 1], jumps := s.jumps[..|s.jumps| - 1]))
      else Halt(NotReached, s)
  }

  // ----- runs ---------------------------------------------------------------------------

  function Init(env: Env): State {
    State(0, 0, |env.data|, false, false, false, 0, 0, 0, 0, [], [], [])
  }

  function Start(env: Env): Config {
    if |env.data| > 65535 then Halt(TooBig, Init(env)) else Run(Init(env))
  }

  /** `n` further passes; a stopped run stays stopped. */
  function After(env: Env, c: Config, n: nat): Config
    decreases n
  {
    if n == 0 || c.Halt? then c else After(env, Step(env, c.st), n - 1)
  }
}
