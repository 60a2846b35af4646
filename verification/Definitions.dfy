/** `build_type_list` and `parse`: a token list is accepted exactly if its type definitions
    tile it, and what parsing counts and collects is what they contain. */
module Definitions {
  import opened Grammar
  import opened Syntax
  import opened Parser

  // ----- the type list ------------------------------------------------------------------

  predicate IsDefinition(ts: seq<Token>, n: nat) {
    n + 1 < |ts| && ts[n].TypeName? && ts[n + 1] == Assignment
  }

  /** `starts` are the positions of all definitions, in order. */
  ghost predicate AreStarts(ts: seq<Token>, starts: seq<nat>, n: nat) {
    && (forall i, j :: 0 <= i < j < |starts| ==> starts[i] < starts[j])
    && (forall i :: 0 <= i < |starts| ==> starts[i] < n && IsDefinition(ts, starts[i]))
    && (forall k: nat :: k < n && IsDefinition(ts, k) ==> k in starts)
  }

  function StartsBefore(ts: seq<Token>, n: nat): seq<nat> {
    if n == 0 then [] else StartsBefore(ts, n - 1) + (if IsDefinition(ts, n - 1) then [n - 1] else [])
  }

  /** Where definitions start: at each name with `::=` behind it. */
  function StartsOf(ts: seq<Token>): seq<nat> {
    StartsBefore(ts, |ts|)
  }

  lemma {:induction false} StartsAre(ts: seq<Token>, n: nat)
    ensures AreStarts(ts, StartsBefore(ts, n), n)
  {
    if n > 0 {
      StartsAre(ts, n - 1);
      StartsNext(ts, StartsBefore(ts, n - 1), n - 1);
      hide AreStarts;
    }
  }

  lemma {:induction false} StartsNext(ts: seq<Token>, before: seq<nat>, n: nat)
    requires AreStarts(ts, before, n)
    ensures AreStarts(ts, before + (if IsDefinition(ts, n) then [n] else []), n + 1)
  {
    hide IsDefinition;
    var starts := before + (if IsDefinition(ts, n) then [n] else []);
    assert IsDefinition(ts, n) ==> starts[|before|] == n;
    assert forall k: nat :: k in before ==> k in starts;
  }

  method BuildTypeList(ts: seq<Token>) returns (starts: seq<nat>, names: seq<string>)
    ensures starts == StartsOf(ts) && names == NamesAt(ts, starts)
  {
    starts, names := [], [];
    for n := 0 to |ts|
      invariant starts == StartsBefore(ts, n) && names == NamesAt(ts, starts)
    {
      if n + 1 < |ts| && ts[n].TypeName? && ts[n + 1] == Assignment {
        starts, names := starts + [n], names + [ts[n].name];
      }
    }
  }

  function NamesAt(ts: seq<Token>, starts: seq<nat>): (names: seq<string>)
    ensures |names| == |starts|
  {
    seq(|starts|, i requires 0 <= i < |starts| =>
      if starts[i] < |ts| && ts[starts[i]].TypeName? then ts[starts[i]].name else "")
  }

  /** Where definition `i` ends: where the next one begins. */
  function EndOf(ts: seq<Token>, starts: seq<nat>, i: nat): nat
    requires i < |starts|
  {
    if i + 1 < |starts| then starts[i + 1] else |ts|
  }

  // ----- tiling -------------------------------------------------------------------------

  /** The tokens of definition `i`, to the last, are its name, `::=` and the type `t`. */
  predicate Defines(ts: seq<Token>, starts: seq<nat>, i: nat, t: Type)
    requires i < |starts|
  {
    var end := EndOf(ts, starts, i);
    && starts[i] + 2 <= end <= |ts|
    && WellFormed(t, Defined(NamesAt(ts, starts)))
    && ts[starts[i]..end] == [TypeName(NamesAt(ts, starts)[i]), Assignment] + Print(t)
  }

  /** The types `defs` tile the token list from its first definition on. */
  predicate Tiles(ts: seq<Token>, starts: seq<nat>, defs: seq<Type>) {
    |defs| == |starts| && forall i :: 0 <= i < |defs| ==> Defines(ts, starts, i, defs[i])
  }

  /** What `parse` reads for definition `i`. */
  function ReadDefinition(ts: seq<Token>, starts: seq<nat>, i: nat): Option<Type>
    requires i < |starts|
  {
    var end := EndOf(ts, starts, i);
    if end > |ts| then None else
    var r := ReadType(ts, Defined(NamesAt(ts, starts)), starts[i] + 2, end);
    if r.Some? && r.value.1 == end then Some(r.value.0) else None
  }

  lemma {:induction false} DefinitionRead(ts: seq<Token>, starts: seq<nat>, i: nat, t: Type)
    requires AreStarts(ts, starts, |ts|) && i < |starts|
    ensures ReadDefinition(ts, starts, i) == Some(t) <==> Defines(ts, starts, i, t)
  {
    hide ReadType, WellFormed, Print;
    var types, c, end := Defined(NamesAt(ts, starts)), starts[i] + 2, EndOf(ts, starts, i);
    StartsApart(ts, starts, i);
    if ReadDefinition(ts, starts, i) == Some(t) {
      TypeRead(ts, types, c, end);
      assert ts[starts[i]..end] == [ts[starts[i]], ts[starts[i] + 1]] + ts[c..end];
    }
    if Defines(ts, starts, i, t) {
      assert ts[c..end] == ts[starts[i]..end][2..];
      TypeWritten(ts, types, c, end, t);
    }
  }

  lemma {:induction false} StartsApart(ts: seq<Token>, starts: seq<nat>, i: nat)
    requires AreStarts(ts, starts, |ts|) && i < |starts|
    ensures starts[i] < EndOf(ts, starts, i) <= |ts| && IsDefinition(ts, starts[i]) && starts[i] + 2 <= |ts|
    ensures ts[starts[i]] == TypeName(NamesAt(ts, starts)[i])
  {
  }

  /** The types of the definitions that can be read. */
  function ReadAll(ts: seq<Token>, starts: seq<nat>, n: nat): Option<seq<Type>>
    requires n <= |starts|
  {
    if n == 0 then Some([])
    else
      var before, t := ReadAll(ts, starts, n - 1), ReadDefinition(ts, starts, n - 1);
      if before.None? || t.None? then None else Some(before.value + [t.value])
  }

  lemma {:induction false} AllRead(ts: seq<Token>, starts: seq<nat>, n: nat, defs: seq<Type>)
    requires AreStarts(ts, starts, |ts|) && n <= |starts|
    ensures ReadAll(ts, starts, n) == Some(defs)
            <==> |defs| == n && forall i :: 0 <= i < n ==> Defines(ts, starts, i, defs[i])
    decreases n
  {
    hide ReadDefinition, Defines, AreStarts;
    if n > 0 && |defs| > 0 {
      var before, last := defs[..|defs| - 1], defs[|defs| - 1];
      AllRead(ts, starts, n - 1, before);
      DefinitionRead(ts, starts, n - 1, last);
      assert defs == before + [last];
      if ReadAll(ts, starts, n - 1).Some? && ReadDefinition(ts, starts, n - 1).Some? {
        LastOfConcat(ReadAll(ts, starts, n - 1).value, ReadDefinition(ts, starts, n - 1).value, before, last);
      }
    }
  }

  lemma {:induction false} LastOfConcat<T>(a: seq<T>, x: T, b: seq<T>, y: T)
    ensures a + [x] == b + [y] <==> a == b && x == y
  {
    if a + [x] == b + [y] {
      assert a == (a + [x])[..|a + [x]| - 1] && b == (b + [y])[..|b + [y]| - 1];
      assert x == (a + [x])[|a + [x]| - 1] && y == (b + [y])[|b + [y]| - 1];
    }
  }

  // ----- tags and methods as written ----------------------------------------------------

  /** The tree shows what is written: the octet of a tag, or else the universal number of the first
      token; what is inside does so too. */
  predicate AsWritten(tags: Token -> nat, t: Type, r: Tree)
    decreases t, 1
  {
    var ts := Print(t);
    && ts != []
    && (if t.tagging.Some? then
          && (WrittenTag(ts, 0).Some? ==> Carries(r, WrittenTag(ts, 0).value))
          && match r.body
             case Override(inner) => CoreAsWritten(tags, t.core, inner)
             case AllOf(inner) => |inner| == 1 && CoreAsWritten(tags, t.core, inner[0])
             case _ => false
        else r.cls == 0 && r.tag == tags(ts[0]) && CoreAsWritten(tags, t.core, r))
  }

  /** EXTERNAL, SEQUENCE and SET are constructed, and no other type is. */
  predicate CoreAsWritten(tags: Token -> nat, c: Core, r: Tree)
    decreases c, 0
  {
    && PrintCore(c) != [] && (r.cons <==> PrintCore(c)[0] in {ExternalWord, SequenceWord, SetWord})
    && match c
       case ChoiceOf(fields) => r.body.OneOf? && AllAsWritten(tags, fields, r.body.children)
       case SequenceWith(fields) => r.body.AllOf? && AllAsWritten(tags, fields, r.body.children)
       case SetWith(fields) => r.body.AnySome? && AllAsWritten(tags, fields, r.body.children)
       case SequenceOf(item) => r.body.ManyOf? && AsWritten(tags, item, r.body.child)
       case SetOf(item) => r.body.SetFrom? && AsWritten(tags, item, r.body.child)
       case _ => true
  }

  predicate AllAsWritten(tags: Token -> nat, fields: seq<Field>, rs: seq<Tree>)
    decreases fields, 0
  {
    && |fields| == |rs|
    && (fields == [] || (FieldAsWritten(tags, fields[0], rs[0]) && AllAsWritten(tags, fields[1..], rs[1..])))
  }

  predicate FieldAsWritten(tags: Token -> nat, f: Field, r: Tree)
    decreases f, 0
  {
    AsWritten(tags, f.content, r)
  }

  /** A tag stands in front of its type and marker. */
  lemma {:induction false} TagIsWritten(t: Type, types: set<string>)
    requires WellFormed(t, types)
    ensures Print(t) != [] && PrintCore(t.core) != []
    ensures t.tagging.None? ==> Print(t)[0] == MarkerToken(t.marker, t.core)
    ensures t.tagging.Some? && WrittenTag(Print(t), 0).Some? ==>
              && t.tagging.value.number < 31
              && WrittenTag(Print(t), 0).value
                 == (ClassCode(t.tagging.value.cls) * 64 + t.tagging.value.number, t.marker == Implicit)
  {
    CoreStarts(t.core, types);
    hide PrintCore, PrintSuffix, CoreOk;
    var rest := PrintCore(t.core) + PrintSuffix(t);
    var behind := PrintMarker(t.marker) + rest;
    assert rest[0] == CoreToken(t.core);
    assert behind[0] == MarkerToken(t.marker, t.core);
    assert Print(t) == PrintLabel(t.tagging) + behind;
    if t.tagging.Some? {
      var tag := PrintLabel(t.tagging);
      assert tag[0] == OpenSquare && tag[|tag| - 2] == Number(t.tagging.value.number);
      assert Print(t)[|tag|] == behind[0];
    }
  }

  lemma {:induction false} CoreStarts(c: Core, types: set<string>)
    requires CoreOk(c, types)
    ensures PrintCore(c) != [] && PrintCore(c)[0] == CoreToken(c)
    ensures CoreToken(c) !in {OpenSquare, ImplicitWord, ExplicitWord}
    ensures CoreIsConstructed(c) <==> PrintCore(c)[0] in {ExternalWord, SequenceWord, SetWord}
  {
    hide PrintFields, Print, FieldsOk, WellFormed;
  }

  /** Whatever is written is what the tree shows. */
  lemma {:induction false} BuiltAsWritten(x: Context, t: Type, name: Option<string>, types: set<string>)
    requires WellFormed(t, types)
    ensures AsWritten(x.tags, t, Build(x, t, name))
    decreases t, 1
  {
    TagIsWritten(t, types);
    CoreBuiltAsWritten(x, t.core, name, types);
    hide PrintCore, CoreOk, WrittenTag, Print, BuildCore;
    var inner := BuildCore(x, t.core, name);
    SameCore(x.tags, t.core, inner, inner.(action := t.action));
    if t.tagging.None? {
      SameCore(x.tags, t.core, inner, Build(x, t, name));
    }
  }

  lemma {:induction false} SameCore(tags: Token -> nat, c: Core, a: Tree, b: Tree)
    requires CoreAsWritten(tags, c, a) && a.cons == b.cons && a.body == b.body
    ensures CoreAsWritten(tags, c, b)
  {
    hide PrintCore, AllAsWritten, AsWritten;
  }

  lemma {:induction false} CoreBuiltAsWritten(x: Context, c: Core, name: Option<string>, types: set<string>)
    requires CoreOk(c, types)
    ensures CoreAsWritten(x.tags, c, BuildCore(x, c, name)) && BuildCore(x, c, name).cls == 0
    decreases c, 0
  {
    CoreStarts(c, types);
    hide PrintCore, AllAsWritten, AsWritten, Build, BuildFields;
    match c
    case ChoiceOf(fields) => FieldsBuiltAsWritten(x, fields, true, types);
    case SequenceWith(fields) => FieldsBuiltAsWritten(x, fields, false, types);
    case SetWith(fields) => FieldsBuiltAsWritten(x, fields, true, types);
    case SequenceOf(item) => BuiltAsWritten(x, item, None, types);
    case SetOf(item) => BuiltAsWritten(x, item, None, types);
    case _ =>
  }

  lemma {:induction false} FieldsBuiltAsWritten(x: Context, fields: seq<Field>, alternates: bool, types: set<string>)
    requires FieldsOk(fields, types)
    ensures AllAsWritten(x.tags, fields, BuildFields(x, fields, alternates))
    decreases fields, 1
  {
    AllBuiltAsWritten(x, fields, alternates, types);
    hide AsWritten, BuildField;
    var all := BuildAll(x, fields, alternates);
    SameTags(x.tags, fields[0].content, all[0], all[0].(conditional := false));
    assert BuildFields(x, fields, alternates)[1..] == all[1..];
  }

  lemma {:induction false} SameTags(tags: Token -> nat, t: Type, a: Tree, b: Tree)
    requires AsWritten(tags, t, a) && b == a.(skippable := b.skippable, conditional := b.conditional)
    ensures AsWritten(tags, t, b)
  {
    hide PrintCore, Print, WrittenTag;
    if t.tagging.None? {
      SameCore(tags, t.core, a, b);
    }
    hide CoreAsWritten;
  }

  lemma {:induction false} AllBuiltAsWritten(x: Context, fields: seq<Field>, alternates: bool, types: set<string>)
    requires FieldsOk(fields, types)
    ensures AllAsWritten(x.tags, fields, BuildAll(x, fields, alternates))
    decreases fields, 0
  {
    hide FieldAsWritten, BuildField, FieldOk;
    var f := BuildField(x, fields[0], alternates);
    FieldBuiltAsWritten(x, fields[0], alternates, types);
    var rest := BuildAll(x, fields[1..], alternates);
    assert BuildAll(x, fields, alternates) == [f] + rest;
    assert ([f] + rest)[1..] == rest;
    if |fields| > 1 {
      AllBuiltAsWritten(x, fields[1..], alternates, types);
    }
  }

  lemma {:induction false} FieldBuiltAsWritten(x: Context, f: Field, alternative: bool, types: set<string>)
    requires FieldOk(f, types)
    ensures FieldAsWritten(x.tags, f, BuildField(x, f, alternative))
    decreases f, 0
  {
    hide AsWritten, Build, WellFormed;
    BuiltAsWritten(x, f.content, f.name, types);
    SameTags(x.tags, f.content, Build(x, f.content, f.name), BuildField(x, f, alternative));
  }

  /** The trees of definitions that tile the tokens show what is written. */
  lemma {:induction false} AllDefsAsWritten(x: Context, ts: seq<Token>, starts: seq<nat>, defs: seq<Type>)
    requires Tiles(ts, starts, defs)
    ensures forall i :: 0 <= i < |defs| ==> AsWritten(x.tags, defs[i], BuildDefs(x, defs)[i])
  {
    hide AsWritten, Build, WellFormed, Print;
    forall i | 0 <= i < |defs|
      ensures AsWritten(x.tags, defs[i], BuildDefs(x, defs)[i])
    {
      assert Defines(ts, starts, i, defs[i]);
      BuiltAsWritten(x, defs[i], None, Defined(NamesAt(ts, starts)));
      BuildDefsAt(x, defs, i);
    }
  }

  /** Tree `k` is that of definition `k`. */
  lemma {:induction false} BuildDefsAt(x: Context, defs: seq<Type>, k: nat)
    requires k < |defs|
    ensures BuildDefs(x, defs)[k] == Build(x, defs[k], None)
    decreases defs
  {
    hide Build;
    if k < |defs| - 1 {
      BuildDefsAt(x, defs[..|defs| - 1], k);
    }
  }

  // ----- parse --------------------------------------------------------------------------

  function AllActions(defs: seq<Type>): seq<string> {
    if defs == [] then [] else AllActions(defs[..|defs| - 1]) + ActionsOf(defs[|defs| - 1])
  }

  function AllRefs(defs: seq<Type>): seq<string> {
    if defs == [] then [] else AllRefs(defs[..|defs| - 1]) + RefsOf(defs[|defs| - 1])
  }

  function BuildDefs(x: Context, defs: seq<Type>): (trees: seq<Tree>)
    ensures |trees| == |defs|
  {
    if defs == [] then [] else BuildDefs(x, defs[..|defs| - 1]) + [Build(x, defs[|defs| - 1], None)]
  }

  function Zeros(n: nat): (z: seq<nat>)
    ensures |z| == n
  {
    seq(n, i => 0)
  }

  /** The element trees with the action list and the reference counts. */
  datatype Parsed = Parsed(trees: seq<Tree>, actions: seq<string>, refCounts: seq<nat>)

  /** What a tiled token list parses to. */
  function Meaning(x: Context, defs: seq<Type>): Parsed {
    Parsed(BuildDefs(x, defs), WithActions([], AllActions(defs)), Counted(x.find, Zeros(|x.types|), AllRefs(defs)))
  }

  function ContextOf(ts: seq<Token>, tags: Token -> nat, find: string -> nat): Context {
    Context(tags, NamesAt(ts, StartsOf(ts)), find)
  }

  /** The whole front end: it succeeds exactly on the token lists that definitions tile, and
      then delivers their trees, their actions and their reference counts. `find` is any search
      that finds a type by its name. */
  method Parse(ts: seq<Token>, tags: Token -> nat, find: string -> nat) returns (r: Option<Parsed>)
    requires Finds(NamesAt(ts, StartsOf(ts)), find)
    ensures r.Some? <==> StartsOf(ts) != [] && exists defs :: Tiles(ts, StartsOf(ts), defs)
    ensures forall defs :: StartsOf(ts) != [] && Tiles(ts, StartsOf(ts), defs) ==>
              r == Some(Meaning(ContextOf(ts, tags, find), defs))
    ensures forall defs, i :: r.Some? && Tiles(ts, StartsOf(ts), defs) && 0 <= i < |defs| ==>
              |r.value.trees| == |defs| && AsWritten(tags, defs[i], r.value.trees[i])
  {
    hide ReadDefinition, Defines, Build, ActionsOf, RefsOf, WithActions, Counted, AreStarts, NamesAt, EndOf, ReadAll,
      AllActions, AllRefs, BuildDefs, Tiles, Finds, ReadType, StartsBefore, Defined, AsWritten;
    var at, names := BuildTypeList(ts);
    var x := Context(tags, names, find);
    StartsAre(ts, |ts|);
    TilingDecides(ts, at);
    if at == [] { return None; }
    var p := new Parser(x, ts);
    NoDefs(x, ts, at, p.refCounts);
    var trees: seq<Tree> := [];
    ghost var defs: seq<Type> := [];
    for i := 0 to |at|
      invariant p.Valid() && p.x == x && p.ts == ts && fresh(p)
      invariant ReadAll(ts, at, i) == Some(defs)
      invariant Parsed(trees, p.actions, p.refCounts) == Meaning(x, defs)
    {
      StartsApart(ts, at, i);
      OneRead(ts, at, i);
      var end := EndOf(ts, at, i);
      ghost var t := ReadType(ts, Defined(names), at[i] + 2, end);
      var tree := p.ParseType(at[i] + 2, end, None);
      if tree.None? || tree.value.1 != end {
        NoMoreRead(ts, at, i + 1, |at|);
        return None;
      }
      OneMoreDef(x, defs, t.value.0);
      trees := trees + [tree.value.0];
      defs := defs + [t.value.0];
    }
    AllDefsAsWritten(x, ts, at, defs);
    return Some(Parsed(trees, p.actions, p.refCounts));
  }

  lemma {:induction false} TilingDecides(ts: seq<Token>, starts: seq<nat>)
    requires AreStarts(ts, starts, |ts|)
    ensures ReadAll(ts, starts, |starts|).Some? ==> Tiles(ts, starts, ReadAll(ts, starts, |starts|).value)
    ensures forall defs :: Tiles(ts, starts, defs) ==> ReadAll(ts, starts, |starts|) == Some(defs)
  {
    hide ReadAll, Defines, AreStarts;
    forall defs { AllRead(ts, starts, |starts|, defs); }
  }

  lemma {:induction false} NoDefs(x: Context, ts: seq<Token>, starts: seq<nat>, counts: seq<nat>)
    requires |counts| == |x.types| && forall i :: 0 <= i < |counts| ==> counts[i] == 0
    ensures Meaning(x, []) == Parsed([], [], counts) && ReadAll(ts, starts, 0) == Some([])
  {
    assert counts == Zeros(|x.types|);
  }

  lemma {:induction false} OneRead(ts: seq<Token>, starts: seq<nat>, i: nat)
    requires i < |starts| && EndOf(ts, starts, i) <= |ts|
    ensures var end := EndOf(ts, starts, i);
            var t := ReadType(ts, Defined(NamesAt(ts, starts)), starts[i] + 2, end);
            var before := ReadAll(ts, starts, i);
            ReadAll(ts, starts, i + 1) ==
              if before.Some? && t.Some? && t.value.1 == end then Some(before.value + [t.value.0]) else None
  {
    hide ReadType, EndOf, NamesAt;
  }

  lemma {:induction false} NoMoreRead(ts: seq<Token>, starts: seq<nat>, m: nat, n: nat)
    requires m <= n <= |starts| && ReadAll(ts, starts, m).None?
    ensures ReadAll(ts, starts, n).None?
    decreases n
  {
    hide ReadDefinition;
    if m < n {
      NoMoreRead(ts, starts, m, n - 1);
    }
  }

  lemma {:induction false} OneMoreDef(x: Context, defs: seq<Type>, t: Type)
    ensures var m, n := Meaning(x, defs), Meaning(x, defs + [t]);
            && n.trees == m.trees + [Build(x, t, None)]
            && n.actions == WithActions(m.actions, ActionsOf(t))
            && n.refCounts == Counted(x.find, m.refCounts, RefsOf(t))
  {
    hide Build, ActionsOf, RefsOf, WithActions, Counted, Zeros;
    assert (defs + [t])[..|defs|] == defs;
    WithActionsConcat([], AllActions(defs), ActionsOf(t));
    CountedConcat(x.find, Zeros(|x.types|), AllRefs(defs), RefsOf(t));
  }

  // ----- a printed grammar --------------------------------------------------------------

  function PrintDef(name: string, t: Type): seq<Token> {
    [TypeName(name), Assignment] + Print(t)
  }

  function PrintDefs(names: seq<string>, defs: seq<Type>): seq<Token>
    requires |names| == |defs|
  {
    if defs == [] then []
    else PrintDefs(names[..|names| - 1], defs[..|defs| - 1]) + PrintDef(names[|names| - 1], defs[|defs| - 1])
  }

  predicate NoAssignment(ts: seq<Token>) {
    forall i :: 0 <= i < |ts| ==> ts[i] != Assignment
  }

  lemma {:induction false} NoneInBoth(a: seq<Token>, b: seq<Token>)
    requires NoAssignment(a) && NoAssignment(b)
    ensures NoAssignment(a + b)
  {
  }

  /** `::=` is no part of a type. */
  lemma {:induction false} NoneInType(t: Type, types: set<string>)
    requires WellFormed(t, types)
    ensures NoAssignment(Print(t))
    decreases t, 1
  {
    NoneInCore(t.core, types);
    NoneAround(t);
    hide PrintCore, NoAssignment, PrintSuffix, CoreOk, PrintLabel, PrintMarker;
    NoneInBoth(PrintLabel(t.tagging), PrintMarker(t.marker));
    NoneInBoth(PrintLabel(t.tagging) + PrintMarker(t.marker), PrintCore(t.core));
    NoneInBoth(PrintLabel(t.tagging) + PrintMarker(t.marker) + PrintCore(t.core), PrintSuffix(t));
  }

  lemma {:induction false} NoneAround(t: Type)
    ensures NoAssignment(PrintLabel(t.tagging)) && NoAssignment(PrintMarker(t.marker)) && NoAssignment(PrintSuffix(t))
  {
  }

  lemma {:induction false} NoneInCore(c: Core, types: set<string>)
    requires CoreOk(c, types)
    ensures NoAssignment(PrintCore(c))
    decreases c, 0
  {
    hide Print, PrintFields, WellFormed, FieldsOk;
    match c
    case ChoiceOf(fields) => NoneInFields(fields, types); NoneInBoth([ChoiceWord, OpenCurly], PrintFields(fields));
    case SequenceWith(fields) => NoneInFields(fields, types); NoneInBoth([SequenceWord, OpenCurly], PrintFields(fields));
    case SetWith(fields) => NoneInFields(fields, types); NoneInBoth([SetWord, OpenCurly], PrintFields(fields));
    case SequenceOf(item) => NoneInType(item, types); NoneInBoth([SequenceWord, OfWord], Print(item));
    case SetOf(item) => NoneInType(item, types); NoneInBoth([SetWord, OfWord], Print(item));
    case _ =>
  }

  lemma {:induction false} NoneInFields(fields: seq<Field>, types: set<string>)
    requires FieldsOk(fields, types)
    ensures NoAssignment(PrintFields(fields))
    decreases fields, 0
  {
    hide NoAssignment, PrintField;
    NoneInField(fields[0], types);
    Separators();
    if |fields| > 1 {
      NoneInFields(fields[1..], types);
      NoneInBoth([Comma], PrintFields(fields[1..]));
      NoneInBoth(PrintField(fields[0]), [Comma] + PrintFields(fields[1..]));
    } else {
      NoneInBoth(PrintField(fields[0]), [CloseCurly]);
    }
  }

  lemma {:induction false} Separators()
    ensures NoAssignment([Comma]) && NoAssignment([CloseCurly])
  {
  }

  lemma {:induction false} NoneInField(f: Field, types: set<string>)
    requires FieldOk(f, types)
    ensures NoAssignment(PrintField(f))
    decreases f, 0
  {
    NoneInType(f.content, types);
    hide Print, WellFormed;
    NoneInBoth(PrintName(f.name), Print(f.content));
  }

  /** One more definition behind others adds one start. */
  lemma {:induction false} StartsGrow(u: seq<Token>, name: string, p: seq<Token>, n: nat)
    requires NoAssignment(p) && n <= |u| + 2 + |p|
    ensures var ts := u + ([TypeName(name), Assignment] + p);
            StartsBefore(ts, n) == if n <= |u| then StartsBefore(u, n) else StartsOf(u) + [|u|]
    decreases n
  {
    var d := [TypeName(name), Assignment] + p;
    var ts := u + d;
    assert forall i :: 0 <= i < |d| ==> ts[|u| + i] == d[i];
    if n > 0 {
      StartsGrow(u, name, p, n - 1);
      if n - 1 < |u| {
        assert ts[n - 1] == u[n - 1];
        if n < |u| { assert ts[n] == u[n]; } else { assert ts[n] == d[0]; }
        assert IsDefinition(ts, n - 1) <==> IsDefinition(u, n - 1);
      } else if n - 1 == |u| {
        assert ts[n - 1] == d[0] && ts[n] == d[1];
      } else {
        assert n < |ts| ==> ts[n] == d[n - |u|] == p[n - |u| - 2];
        assert !IsDefinition(ts, n - 1);
      }
    }
  }

  /** The definitions stand where `StartsOf` finds them. */
  predicate Laid(ts: seq<Token>, starts: seq<nat>, names: seq<string>, defs: seq<Type>) {
    && |starts| == |names| == |defs|
    && forall i :: 0 <= i < |starts| ==>
         starts[i] <= EndOf(ts, starts, i) <= |ts| && ts[starts[i]..EndOf(ts, starts, i)] == PrintDef(names[i], defs[i])
  }

  lemma {:induction false} DefsAreLaid(names: seq<string>, defs: seq<Type>, types: set<string>)
    requires |names| == |defs| && forall i :: 0 <= i < |defs| ==> WellFormed(defs[i], types)
    ensures Laid(PrintDefs(names, defs), StartsOf(PrintDefs(names, defs)), names, defs)
    ensures |StartsOf(PrintDefs(names, defs))| == |defs|
    decreases defs
  {
    hide Print, WellFormed, PrintDef, Laid;
    if defs == [] {
      NothingLaid();
    } else {
      var n, d := names[|names| - 1], defs[|defs| - 1];
      var u := PrintDefs(names[..|names| - 1], defs[..|defs| - 1]);
      DefsAreLaid(names[..|names| - 1], defs[..|defs| - 1], types);
      NoneInType(d, types);
      StartsGrow(u, n, Print(d), |u| + 2 + |Print(d)|);
      DefIs(n, d);
      assert StartsOf(u + PrintDef(n, d)) == StartsOf(u) + [|u|];
      assert names == names[..|names| - 1] + [n] && defs == defs[..|defs| - 1] + [d];
      OneMoreLaid(u, StartsOf(u), names[..|names| - 1], defs[..|defs| - 1], n, d);
    }
  }

  lemma {:induction false} NothingLaid()
    ensures Laid(PrintDefs([], []), StartsOf(PrintDefs([], [])), [], []) && StartsOf(PrintDefs([], [])) == []
  {
  }

  lemma {:induction false} DefIs(n: string, d: Type)
    ensures PrintDef(n, d) == [TypeName(n), Assignment] + Print(d) && |PrintDef(n, d)| == 2 + |Print(d)|
  {
  }

  lemma {:induction false} OneMoreLaid(u: seq<Token>, starts: seq<nat>, names: seq<string>, defs: seq<Type>, n: string, d: Type)
    requires Laid(u, starts, names, defs)
    ensures Laid(u + PrintDef(n, d), starts + [|u|], names + [n], defs + [d])
  {
    hide PrintDef;
    var ts, all := u + PrintDef(n, d), starts + [|u|];
    forall i | 0 <= i < |all|
      ensures all[i] <= EndOf(ts, all, i) <= |ts|
      ensures ts[all[i]..EndOf(ts, all, i)] == PrintDef((names + [n])[i], (defs + [d])[i])
    {
      if i < |starts| {
        assert EndOf(ts, all, i) == EndOf(u, starts, i);
        assert ts[all[i]..EndOf(ts, all, i)] == u[starts[i]..EndOf(u, starts, i)];
      }
    }
  }

  /** The front end undoes the printer: the tokens of any well-formed definitions parse to
      exactly what these definitions mean. */
  lemma {:induction false} PrintedIsTiled(names: seq<string>, defs: seq<Type>)
    requires |names| == |defs| && defs != []
    requires forall i :: 0 <= i < |defs| ==> WellFormed(defs[i], Defined(names))
    ensures var ts := PrintDefs(names, defs);
            StartsOf(ts) != [] && NamesAt(ts, StartsOf(ts)) == names && Tiles(ts, StartsOf(ts), defs)
  {
    DefsAreLaid(names, defs, Defined(names));
    hide Print, WellFormed, PrintDefs, StartsOf, Laid, NamesAt, EndOf, Defines;
    var ts := PrintDefs(names, defs);
    var starts := StartsOf(ts);
    forall i | 0 <= i < |starts|
      ensures NamesAt(ts, starts)[i] == names[i]
    {
      LaidAt(ts, starts, names, defs, i);
    }
    assert NamesAt(ts, starts) == names;
    forall i | 0 <= i < |starts|
      ensures Defines(ts, starts, i, defs[i])
    {
      LaidAt(ts, starts, names, defs, i);
    }
  }

  lemma {:induction false} LaidAt(ts: seq<Token>, starts: seq<nat>, names: seq<string>, defs: seq<Type>, i: nat)
    requires Laid(ts, starts, names, defs) && i < |starts|
    ensures NamesAt(ts, starts)[i] == names[i]
    ensures NamesAt(ts, starts) == names && WellFormed(defs[i], Defined(names)) ==> Defines(ts, starts, i, defs[i])
  {
    hide Print, WellFormed;
    var slice := ts[starts[i]..EndOf(ts, starts, i)];
    assert slice == PrintDef(names[i], defs[i]);
    assert |slice| == 2 + |Print(defs[i])| && ts[starts[i]] == slice[0];
  }
}
