/** The compiler and the decoder together. */
module Toolchain {
  import opened Octets
  import opened Grammar
  import opened Layout
  import opened SupportedGrammars
  import opened RegularGrammars
  import opened ReadableValues
  import opened TerminatingGrammars
  import opened BerMachine
  import opened Steps
  import opened Decoder
  import Addresses
  import Code
  import Correct
  import Definitions
  import Firm
  import FrontEnd
  import Der
  import Queue
  import Parser
  import Renderer
  import Safety
  import Syntax

  /** The grammar that the type definitions `defs`, which tile the token list, stand for. */
  ghost function GrammarOf(ts: seq<Syntax.Token>, tags: Syntax.Token -> nat, find: string -> nat,
                           defs: seq<Syntax.Type>): Grammar
  {
    FrontEnd.ToGrammar(Definitions.Meaning(Definitions.ContextOf(ts, tags, find), defs))
  }

  /** Definitions without SET and EXTERNAL, with tag numbers below 31 and with no more than
      256 actions tile the list, and their rendering ends. */
  ghost predicate Translatable(ts: seq<Syntax.Token>, tags: Syntax.Token -> nat, find: string -> nat,
                               defs: seq<Syntax.Type>, fuel: nat)
  {
    var x := Definitions.ContextOf(ts, tags, find);
    && Parser.Finds(x.types, find)
    && Definitions.StartsOf(ts) != [] && Definitions.Tiles(ts, Definitions.StartsOf(ts), defs)
    && (forall k :: 0 <= k < |defs| ==> FrontEnd.Plain(x, defs[k]))
    && |Definitions.Meaning(x, defs).actions| <= 256
    && GrammarOf(ts, tags, find, defs).types != [] && Renderer.AllFinite(GrammarOf(ts, tags, find, defs), fuel)
  }

  /** The compiler, from tokens to the table: parsing, both passes, and a machine that all
      results about runs apply to. */
  method Translate(ts: seq<Syntax.Token>, tags: Syntax.Token -> nat, find: string -> nat,
                   ghost defs: seq<Syntax.Type>, ghost fuel: nat)
    returns (m: seq<int>, nrActions: nat, ghost k: Machine)
    requires Translatable(ts, tags, find, defs, fuel)
    ensures k.g == GrammarOf(ts, tags, find, defs) && k.nrActions == nrActions && k.m == m && k.fuel == fuel
    ensures nrActions == |Definitions.Meaning(Definitions.ContextOf(ts, tags, find), defs).actions|
    ensures Supported(k.g, fuel, nrActions) && Queue.IsFinal(k.g, fuel, k.order)
    ensures |m| == Code.Size(k.Image()) && (|m| <= 256 ==> k.Valid())
    ensures forall i, j :: 0 <= i < j < |k.order| ==> k.order[i].id != k.order[j].id
  {
    hide Definitions.Tiles, Definitions.StartsOf, Definitions.Meaning, FrontEnd.ToGrammar, Machine.Valid,
      Renderer.AllFinite, Queue.IsFinal, Queue.OrderAfter, FrontEnd.Plain;
    var r := Definitions.Parse(ts, tags, find);
    assert r == Some(Definitions.Meaning(Definitions.ContextOf(ts, tags, find), defs));
    TilesAreOk(ts, tags, find, defs);
    nrActions := |r.value.actions|;
    var g := FrontEnd.ToGrammar(r.value);
    var ok;
    ok, m, k := Compile(g, fuel, nrActions);
    Addresses.QueuedByAddress(r.value, fuel, |k.order|);
    FinalOrder(k.g, fuel, k.order);
  }

  lemma {:induction false} FinalOrder(g: Grammar, fuel: nat, order: seq<Element>)
    requires g.types != [] && Queue.IsFinal(g, fuel, order)
    ensures Queue.OrderAfter(g, fuel, |order|) == order
  {
  }

  lemma {:induction false} TilesAreOk(ts: seq<Syntax.Token>, tags: Syntax.Token -> nat, find: string -> nat,
                                      defs: seq<Syntax.Type>)
    requires Definitions.Tiles(ts, Definitions.StartsOf(ts), defs)
    requires forall k :: 0 <= k < |defs| ==> FrontEnd.Plain(Definitions.ContextOf(ts, tags, find), defs[k])
    ensures var x := Definitions.ContextOf(ts, tags, find);
            AllOk(GrammarOf(ts, tags, find, defs).types, |Definitions.Meaning(x, defs).actions|)
  {
    DefsWellFormed(ts, tags, find, defs);
    hide FrontEnd.Plain, Syntax.WellFormed, FrontEnd.ToGrammar, Definitions.StartsOf, Definitions.Meaning;
    FrontEnd.ParsedIsOk(Definitions.ContextOf(ts, tags, find), defs);
  }

  /** What the compiler makes of definitions without OPTIONAL or DEFAULT on a definition or on
      anything repeated stops on every input, whatever the actions return. */
  lemma {:induction false} TranslatedStops(ts: seq<Syntax.Token>, tags: Syntax.Token -> nat, find: string -> nat,
                                           defs: seq<Syntax.Type>, k: Machine, env: Env)
    requires Translatable(ts, tags, find, defs, k.fuel) && Firm.AllRequired(defs)
    requires k.g == GrammarOf(ts, tags, find, defs) && Safety.For(k, env)
    requires Supported(k.g, k.fuel, k.nrActions) && Queue.IsFinal(k.g, k.fuel, k.order)
    ensures exists n: nat :: After(env, Start(env), n).Halt?
  {
    DefsWellFormed(ts, tags, find, defs);
    hide Definitions.Tiles, Definitions.StartsOf, Definitions.Meaning, FrontEnd.ToGrammar, Machine.Valid,
      Renderer.AllFinite, Queue.IsFinal, FrontEnd.Plain, Supported, AllRepeatsMandatory, After, Syntax.WellFormed, Firm.AllRequired;
    var x := Definitions.ContextOf(ts, tags, find);
    Firm.RequiredRepeats(x, defs, Parser.Defined(x.types), k.fuel);
    CompiledTerminates(k, env);
  }

  lemma {:induction false} DefsWellFormed(ts: seq<Syntax.Token>, tags: Syntax.Token -> nat, find: string -> nat,
                                          defs: seq<Syntax.Type>)
    requires Definitions.Tiles(ts, Definitions.StartsOf(ts), defs)
    ensures forall k :: 0 <= k < |defs| ==>
              Syntax.WellFormed(defs[k], Parser.Defined(Definitions.ContextOf(ts, tags, find).types))
  {
    hide Syntax.WellFormed, Definitions.StartsOf;
    forall k | 0 <= k < |defs|
      ensures Syntax.WellFormed(defs[k], Parser.Defined(Definitions.ContextOf(ts, tags, find).types))
    {
      assert Definitions.Defines(ts, Definitions.StartsOf(ts), k, defs[k]);
    }
  }

  /** The encoding of a readable value that the decoder has room for. */
  ghost predicate Decodable(g: Grammar, fuel: nat, v: Der.Value, data: seq<Octet>) {
    && g.types != [] && Der.Conforms(g, g.types[0], v) && Readable(g, fuel, g.types[0], v)
    && Der.Nesting(v) <= NR_CONS_STACK
    && data == Der.Encode(g, g.types[0], None, v) && |data| <= 65535
  }

  /** Compiles a supported grammar and runs its machine over `data`. If the table fits, the
      decoder stops without a fault of its own on every input; over the encoding of a value
      of a regular grammar it accepts at the very end, having called the actions the value
      asks for and no others. */
  method CompileAndDecode(g: Grammar, ghost fuel: nat, nrActions: nat, data: seq<Octet>, reply: seq<Event> -> int)
    returns (fits: bool, out: Outcome, calls: seq<Event>, end: int)
    requires Supported(g, fuel, nrActions) && AllRepeatsMandatory(g, fuel)
    ensures fits ==> !Safety.MachineFault(out)
    ensures fits && RegularGrammar(g, fuel) && (forall tr :: reply(tr) >= 0) ==>
              forall v :: Decodable(g, fuel, v, data) ==>
                out == Accepted && end == |data| && Seen(calls) == Der.Calls(g, g.types[0], v, 0)
  {
    hide Supported, AllRepeatsMandatory, RegularGrammar, Machine.Valid, Step, After, Der.Conforms, Der.Encode, Der.Calls,
      Seen, Der.Nesting;
    var ok, m;
    ghost var k;
    ok, m, k := Compile(g, fuel, nrActions);
    fits := |m| <= 256;
    if !fits { return false, Accepted, [], 0; }
    var env := Env(m, nrActions, data, reply);
    CompiledTerminates(k, env);
    ghost var n: nat :| After(env, Start(env), n).Halt?;
    var d := new Decoder(env);
    out := d.Decode(n);
    calls, end := d.trace, d.dp;
    Safety.EveryRun(k, env, n);
    if RegularGrammar(g, fuel) && forall tr :: reply(tr) >= 0 {
      forall v | Decodable(g, fuel, v, data)
        ensures out == Accepted && end == |data| && Seen(calls) == Der.Calls(g, g.types[0], v, 0)
      {
        DecodesValue(k, env, n, v);
      }
    }
  }

  lemma {:induction false} DecodesValue(k: Machine, env: Env, n: nat, v: Der.Value)
    requires Safety.For(k, env) && Willing(env) && Supported(k.g, k.fuel, k.nrActions) && RegularGrammar(k.g, k.fuel)
    requires Decodable(k.g, k.fuel, v, env.data) && After(env, Start(env), n).Halt?
    ensures var c := After(env, Start(env), n);
            c.out == Accepted && c.st.dp == |env.data| && Seen(c.st.trace) == Der.Calls(k.g, k.g.types[0], v, 0)
  {
    hide RegularGrammar, Machine.Valid, Step, After, Der.Conforms, Der.Encode, Der.Calls, Der.Nesting, Seen;
    Correct.CompilerIsCorrect(k, env, v);
    var t :| Reaches(env, Start(env), Halt(Accepted, t))
             && t.dp == |env.data| && Seen(t.trace) == Der.Calls(k.g, k.g.types[0], v, 0);
    var m: nat :| After(env, Start(env), m) == Halt(Accepted, t);
    OneEnd(env, Start(env), m, n);
  }
}
