/** What an action is called with, and what its reply does. */
module Events {
  import opened Octets
  import opened Bytecode
  import opened BerMachine
  import Nesting

  predicate AtMatch(env: Env, s: State) {
    0 <= s.pc < |env.machine| && 0 <= env.machine[s.pc] <= OP_MATCHES_TAG
  }

  /** `t` has one call more than `s`. */
  predicate Calls(s: State, t: State, e: Event) {
    t.trace == s.trace + [e]
  }

  // ----- tag-matching instructions ------------------------------------------------------

  /** The call of a tag-matching instruction names the element at the cursor: its identifier octet,
      the length of its header and the start of its contents. */
  predicate NamesElement(env: Env, s: State, e: Event) {
    && 0 <= s.dp < |env.data| && e.tag == env.data[s.dp]
    && e.hdrlen >= 2 && e.start == s.dp + e.hdrlen <= |env.data|
    && (env.data[s.dp + 1] == 0x80 ==> e.hdrlen == 2 && e.len == 0x80)
    && (env.data[s.dp + 1] != 0x80 ==> Nesting.Declares(env.data, s.dp, e.start, e.len))
  }

  /** What a tag-matching instruction makes of the reply: a negative one stops the run with it, and
      nothing else does. */
  predicate Heeds(env: Env, s: State, c: Config) {
    && (c.st.trace != s.trace ==>
          (c.Halt? && c.out == Refused(env.reply(c.st.trace)) <==> env.reply(c.st.trace) < 0))
    && (c.Halt? && c.out.Refused? ==> c.st.trace != s.trace)
  }

  lemma {:induction false} SkipIsSilent(env: Env, s: State, op: int)
    ensures SkipData(env, s, op).st.trace == s.trace
    ensures SkipData(env, s, op).Halt? ==> !SkipData(env, s, op).out.Refused?
  {
    hide OpLength;
  }

  lemma {:induction false} MatchedCalls(env: Env, s: State, op: int)
    ensures var c := Matched(env, s, op);
            && (c.st.trace == s.trace ||
                exists a :: Calls(s, c.st, Event(a, s.hdr, s.tag, s.dp, s.len)))
            && Heeds(env, s, c)
  {
    hide OpLength, SkipData;
    if (IsAnyMatch(op) || IsPlainMatch(op)) && HasAct(op) {
      var i := s.pc + (if IsAnyMatch(op) then 1 else 2);
      var c := CallAction(env, s, i, s.tag, s.dp);
      if c.Run? {
        SkipIsSilent(env, c.st, op);
        assert Calls(s, c.st, Event(env.machine[i], s.hdr, s.tag, s.dp, s.len));
      }
    } else {
      SkipIsSilent(env, s, op);
    }
  }

  /** The header of the element at `s.dp`, with its tag read into `t`. */
  lemma {:induction false} HeaderCalls(env: Env, s: State, t: State, op: int)
    requires 0 <= s.dp < |env.data| && t == Tagged(s, env.data[s.dp], t.compound)
    ensures var c := Header(env, t, op);
            && (c.st.trace == s.trace || exists e :: Calls(s, c.st, e) && NamesElement(env, s, e))
            && Heeds(env, s, c)
  {
    var r := ReadLength(env, t);
    if r.Length? {
      var u := Sized(t, r);
      var p := if u.compound then Push(u) else Run(u);
      if p.Run? {
        var x := p.st.(tdp := p.st.dp);
        hide ReadLength, NamesElement, Matched;
        MatchedCalls(env, x, op);
        var c := Matched(env, x, op);
        if c.st.trace != s.trace {
          var a :| Calls(x, c.st, Event(a, x.hdr, x.tag, x.dp, x.len));
          LengthNames(env, s, t, r, a);
          assert Calls(s, c.st, Event(a, x.hdr, x.tag, x.dp, x.len));
        }
      }
    }
  }

  lemma {:induction false} LengthNames(env: Env, s: State, t: State, r: LengthRead, a: int)
    requires 0 <= s.dp < |env.data| && t == Tagged(s, env.data[s.dp], t.compound)
    requires r == ReadLength(env, t) && r.Length?
    ensures NamesElement(env, s, Event(a, 2 + r.extra, env.data[s.dp], r.dp, r.len))
  {
    hide HasConsBit;
  }

  lemma {:induction false} MatchCalls(env: Env, s: State)
    requires AtMatch(env, s)
    ensures var c := Step(env, s);
            && (c.st.trace == s.trace || exists e :: Calls(s, c.st, e) && NamesElement(env, s, e))
            && Heeds(env, s, c)
  {
    hide Header, NamesElement, HasConsBit, OpLength, TagMatches, IsLongTag, HasAny, HasSkip, HasCond, EndStep;
    var op := env.machine[s.pc];
    if 0 <= s.dp < |env.data| {
      var tag := env.data[s.dp];
      HeaderCalls(env, s, Tagged(s, tag, false), op);
      HeaderCalls(env, s, Tagged(s, tag, true), op);
    }
  }

  // ----- what is not read ---------------------------------------------------------------

  /** The instruction at `s` looks at the identifier octet at the cursor. */
  predicate Looks(env: Env, s: State) {
    && AtMatch(env, s) && s.pc + OpLength(env.machine[s.pc]) <= |env.machine|
    && !(HasCond(env.machine[s.pc]) && s.matched) && 0 <= s.dp < |env.data| && s.dp + 1 < s.datalen
  }

  lemma {:induction false} HeaderStops(env: Env, s: State, op: int)
    ensures Header(env, s, op).Halt? ==> !Header(env, s, op).out.LongTag? && !Header(env, s, op).out.TooBig?
  {
    hide OpLength, HasConsBit;
  }

  /** An identifier octet that announces more of them stops the run, and no other does so. */
  lemma {:induction false} LongTagIsRefused(env: Env, s: State)
    requires Looks(env, s)
    ensures Step(env, s).Halt? && Step(env, s).out.LongTag? <==> env.data[s.dp] % 32 == 31
  {
    var op, tag := env.machine[s.pc], env.data[s.dp];
    HeaderStops(env, Tagged(s, tag, false), op);
    HeaderStops(env, Tagged(s, tag, true), op);
    hide Header, OpLength, HasConsBit, TagMatches, HasAny, HasSkip, HasCond, EndStep;
  }

  lemma {:induction false} StepIsNotTooBig(env: Env, s: State)
    ensures Step(env, s).Halt? ==> !Step(env, s).out.TooBig?
  {
    hide Header, OpLength, HasConsBit, TagMatches, IsLongTag, HasAny, HasSkip, HasCond, EndsOf, EndsWithAct;
    if 0 <= s.pc < |env.machine| && 0 <= s.dp < |env.data| {
      HeaderStops(env, Tagged(s, env.data[s.dp], false), env.machine[s.pc]);
      HeaderStops(env, Tagged(s, env.data[s.dp], true), env.machine[s.pc]);
    }
  }

  /** More than 65535 octets are refused before anything is read, and fewer never are. */
  lemma {:induction false} LongInputIsRefused(env: Env, n: nat)
    ensures After(env, Start(env), n).Halt? && After(env, Start(env), n).out.TooBig? <==> |env.data| > 65535
  {
    if |env.data| <= 65535 {
      NeverTooBig(env, Start(env), n);
    }
    hide Step;
  }

  lemma {:induction false} NeverTooBig(env: Env, c: Config, n: nat)
    requires !(c.Halt? && c.out.TooBig?)
    ensures !(After(env, c, n).Halt? && After(env, c, n).out.TooBig?)
    decreases n
  {
    hide Step;
    if n > 0 && c.Run? {
      StepIsNotTooBig(env, c.st);
      NeverTooBig(env, Step(env, c.st), n - 1);
    }
  }

  // ----- the others ---------------------------------------------------------------------

  /** The other instructions take no notice of a reply. END names the element it closes: no tag, and
      header and start as they were stacked; ACT names the element matched last. */
  lemma {:induction false} OtherCalls(env: Env, s: State, e: Event)
    requires !AtMatch(env, s)
    ensures var c := Step(env, s);
            && (c.Halt? ==> !c.out.Refused?)
            && (Calls(s, c.st, e) ==>
                  0 <= s.pc < |env.machine| &&
                  (if IsEnd(env.machine[s.pc]) then
                     s.cons != [] &&
                     var f := s.cons[|s.cons| - 1];
                     e.tag == 0 && e.hdrlen == f.hdrlen && e.start == f.dp
                     && c.st.dp == e.start + e.len + (if f.datalen == 0 then 2 else 0)
                   else e.tag == s.tag && e.hdrlen == s.hdr && e.start == s.tdp && e.len == s.len))
  {
    hide MatchStep, OpLength, EndsOf, EndsWithAct;
    if Calls(s, Step(env, s).st, e) {
      assert Step(env, s).st.trace[|s.trace|] == e;
    }
  }
}
