/** The notation the compiler reads, after tokenisation: type expressions, how they are
    written, and what the recursive descent of `parse_type` recognises. */
module Syntax {
  import opened Grammar
  import opened Slices

  /** `Word` is any type named by one directive, `Other` any token that begins no type. */
  datatype Token =
    | Word(code: nat) | AnyWord | ExternalWord | BitWord | OctetWord | ObjectWord
    | ChoiceWord | SequenceWord | SetWord
    | StringWord | IdentifierWord | OfWord | OptionalWord | DefaultWord | ImplicitWord | ExplicitWord
    | UniversalWord | ApplicationWord | PrivateWord
    | OpenCurly | CloseCurly | OpenSquare | CloseSquare | OpenAction | CloseAction | Comma | Assignment
    | Number(value: nat) | TypeName(name: string) | ElementName(name: string)
    | Other(code: nat)

  datatype Class = Universal | Application | ContextSpecific | Private

  datatype Label = Label(cls: Class, number: nat)

  datatype Marker = NoMarker | Implicit | Explicit

  datatype Presence = Required | Optional | Default

  /** A type expression. */
  datatype Type = Type(tagging: Option<Label>, marker: Marker, core: Core, presence: Presence, action: Option<string>)

  /** `Single` is a type of one token, `Double` one of two, such as OCTET STRING. */
  datatype Core =
    | Single(token: Token)
    | Double(token: Token)
    | Reference(name: string)
    | ChoiceOf(fields: seq<Field>)
    | SequenceWith(fields: seq<Field>)
    | SetWith(fields: seq<Field>)
    | SequenceOf(item: Type)
    | SetOf(item: Type)

  datatype Field = Field(name: Option<string>, content: Type)

  // ----- writing ------------------------------------------------------------------------

  function PrintLabel(tagging: Option<Label>): seq<Token> {
    if tagging.None? then []
    else
      [OpenSquare]
      + (match tagging.value.cls
         case Universal => [UniversalWord]
         case Application => [ApplicationWord]
         case ContextSpecific => []
         case Private => [PrivateWord])
      + [Number(tagging.value.number), CloseSquare]
  }

  function PrintMarker(marker: Marker): seq<Token> {
    match marker
    case NoMarker => []
    case Implicit => [ImplicitWord]
    case Explicit => [ExplicitWord]
  }

  function PrintPresence(presence: Presence): seq<Token> {
    match presence
    case Required => []
    case Optional => [OptionalWord]
    case Default => [DefaultWord]
  }

  function PrintAction(action: Option<string>): seq<Token> {
    if action.None? then [] else [OpenAction, ElementName(action.value), CloseAction]
  }

  function SuffixOf(p: Presence, a: Option<string>): seq<Token> {
    PrintPresence(p) + PrintAction(a)
  }

  function PrintSuffix(t: Type): seq<Token> {
    SuffixOf(t.presence, t.action)
  }

  function Partner(t: Token): Token {
    if t == ObjectWord then IdentifierWord else StringWord
  }

  function Print(t: Type): seq<Token> {
    PrintLabel(t.tagging) + PrintMarker(t.marker) + PrintCore(t.core) + PrintSuffix(t)
  }

  function PrintCore(c: Core): seq<Token> {
    match c
    case Single(t) => [t]
    case Double(t) => [t, Partner(t)]
    case Reference(name) => [TypeName(name)]
    case ChoiceOf(fields) => [ChoiceWord, OpenCurly] + PrintFields(fields)
    case SequenceWith(fields) => [SequenceWord, OpenCurly] + PrintFields(fields)
    case SetWith(fields) => [SetWord, OpenCurly] + PrintFields(fields)
    case SequenceOf(item) => [SequenceWord, OfWord] + Print(item)
    case SetOf(item) => [SetWord, OfWord] + Print(item)
  }

  function PrintName(name: Option<string>): seq<Token> {
    if name.None? then [] else [ElementName(name.value)]
  }

  /** The fields and the closing brace. */
  function PrintFields(fields: seq<Field>): seq<Token> {
    if fields == [] then []
    else PrintField(fields[0]) + (if |fields| == 1 then [CloseCurly] else [Comma] + PrintFields(fields[1..]))
  }

  function PrintField(field: Field): seq<Token> {
    PrintName(field.name) + Print(field.content)
  }

  // ----- well-formedness ----------------------------------------------------------------

  /** What can stand behind such a suffix without being taken for a part of it. */
  predicate EndsSuffix(p: Presence, a: Option<string>, next: Token) {
    && (a.None? ==> next != OpenAction)
    && (a.None? && p == Required ==> next != OptionalWord && next != DefaultWord)
  }

  /** What can stand behind `t` without being taken for a part of it. */
  predicate CanFollow(t: Type, next: Token) {
    && EndsSuffix(t.presence, t.action, next)
    && (t.action.None? && t.presence == Required ==> CanFollowCore(t.core, next))
  }

  predicate CanFollowCore(c: Core, next: Token) {
    match c
    case SequenceOf(item) => CanFollow(item, next)
    case SetOf(item) => CanFollow(item, next)
    case _ => true
  }

  /** Only defined types are referred to, no compound is empty, and the suffix of a SEQUENCE
      OF or SET OF is not one its item would take for its own. */
  predicate WellFormed(t: Type, types: set<string>) {
    CoreOk(t.core, types) && (PrintSuffix(t) != [] ==> CanFollowCore(t.core, PrintSuffix(t)[0]))
  }

  predicate CoreOk(c: Core, types: set<string>) {
    match c
    case Single(t) => t.Word? || t.AnyWord? || t.ExternalWord?
    case Double(t) => t.BitWord? || t.OctetWord? || t.ObjectWord?
    case Reference(name) => name in types
    case ChoiceOf(fields) => FieldsOk(fields, types)
    case SequenceWith(fields) => FieldsOk(fields, types)
    case SetWith(fields) => FieldsOk(fields, types)
    case SequenceOf(item) => WellFormed(item, types)
    case SetOf(item) => WellFormed(item, types)
  }

  predicate FieldsOk(fields: seq<Field>, types: set<string>) {
    fields != [] && FieldOk(fields[0], types) && (|fields| > 1 ==> FieldsOk(fields[1..], types))
  }

  predicate FieldOk(field: Field, types: set<string>) {
    WellFormed(field.content, types)
  }

  // ----- recognising --------------------------------------------------------------------

  /** A result and the position behind what it was read from. */
  type Read<T> = Option<(T, nat)>

  function ReadClass(ts: seq<Token>, c: nat): (r: Read<Class>)
    requires c < |ts|
    ensures r.Some? ==> c <= r.value.1 <= c + 1
  {
    match ts[c]
    case UniversalWord => Some((Universal, c + 1))
    case ApplicationWord => Some((Application, c + 1))
    case Number(_) => Some((ContextSpecific, c))
    case PrivateWord => Some((Private, c + 1))
    case _ => None
  }

  function ReadLabel(ts: seq<Token>, c: nat, end: nat): (r: Read<Option<Label>>)
    requires c < |ts| && end <= |ts|
    ensures r.Some? ==> c <= r.value.1 < |ts|
  {
    if ts[c] != OpenSquare then Some((None, c))
    else if c + 1 >= end then None
    else
      var k := ReadClass(ts, c + 1);
      if k.None? || k.value.1 >= end || !ts[k.value.1].Number? then None
      else
        var n := k.value.1;
        if n + 1 >= end || ts[n + 1] != CloseSquare || n + 2 >= end then None
        else Some((Some(Label(k.value.0, ts[n].value)), n + 2))
  }

  function ReadMarker(ts: seq<Token>, c: nat, end: nat): (r: Read<Marker>)
    requires c < |ts| && end <= |ts|
    ensures r.Some? ==> c <= r.value.1 < |ts|
  {
    if ts[c] == ImplicitWord then (if c + 1 >= end then None else Some((Implicit, c + 1)))
    else if ts[c] == ExplicitWord then (if c + 1 >= end then None else Some((Explicit, c + 1)))
    else Some((NoMarker, c))
  }

  function ReadPresence(ts: seq<Token>, c: nat, end: nat): (Presence, nat)
    requires end <= |ts|
  {
    if c < end && ts[c] == OptionalWord then (Optional, c + 1)
    else if c < end && ts[c] == DefaultWord then (Default, c + 1)
    else (Required, c)
  }

  function ReadAction(ts: seq<Token>, c: nat, end: nat): Read<Option<string>>
    requires end <= |ts|
  {
    if c >= end || ts[c] != OpenAction then Some((None, c))
    else if c + 1 >= end || !ts[c + 1].ElementName? then None
    else if c + 2 >= end || ts[c + 2] != CloseAction then None
    else Some((Some(ts[c + 1].name), c + 3))
  }

  function ReadType(ts: seq<Token>, types: set<string>, c: nat, end: nat): (r: Read<Type>)
    requires end <= |ts|
    ensures r.Some? ==> c < r.value.1
    decreases |ts| - c, 2
  {
    if c >= |ts| then None else
    var l := ReadLabel(ts, c, end);
    if l.None? then None else
    var m := ReadMarker(ts, l.value.1, end);
    if m.None? then None else
    var k := ReadCore(ts, types, m.value.1, end);
    if k.None? then None else
    var (presence, d) := ReadPresence(ts, k.value.1, end);
    var a := ReadAction(ts, d, end);
    if a.None? then None
    else Some((Type(l.value.0, m.value.0, k.value.0, presence, a.value.0), a.value.1))
  }

  function ReadCore(ts: seq<Token>, types: set<string>, c: nat, end: nat): (r: Read<Core>)
    requires c < |ts| && end <= |ts|
    ensures r.Some? ==> c < r.value.1
    decreases |ts| - c, 1
  {
    match ts[c]
    case Word(_) => Some((Single(ts[c]), c + 1))
    case AnyWord => Some((Single(ts[c]), c + 1))
    case ExternalWord => Some((Single(ts[c]), c + 1))
    case BitWord => if c + 1 < end && ts[c + 1] == StringWord then Some((Double(ts[c]), c + 2)) else None
    case OctetWord => if c + 1 < end && ts[c + 1] == StringWord then Some((Double(ts[c]), c + 2)) else None
    case ObjectWord => if c + 1 < end && ts[c + 1] == IdentifierWord then Some((Double(ts[c]), c + 2)) else None
    case TypeName(name) => if name in types then Some((Reference(name), c + 1)) else None
    case ChoiceWord =>
      var f := ReadCompound(ts, types, c + 1, end);
      if f.None? then None else Some((ChoiceOf(f.value.0), f.value.1))
    case SequenceWord =>
      if c + 1 >= end then None
      else if ts[c + 1] == OfWord then
        var t := if c + 2 >= end then None else ReadType(ts, types, c + 2, end);
        if t.None? then None else Some((Core.SequenceOf(t.value.0), t.value.1))
      else
        var f := ReadCompound(ts, types, c + 1, end);
        if f.None? then None else Some((SequenceWith(f.value.0), f.value.1))
    case SetWord =>
      if c + 1 >= end then None
      else if ts[c + 1] == OfWord then
        var t := if c + 2 >= end then None else ReadType(ts, types, c + 2, end);
        if t.None? then None else Some((Core.SetOf(t.value.0), t.value.1))
      else
        var f := ReadCompound(ts, types, c + 1, end);
        if f.None? then None else Some((SetWith(f.value.0), f.value.1))
    case _ => None
  }

  function ReadCompound(ts: seq<Token>, types: set<string>, c: nat, end: nat): (r: Read<seq<Field>>)
    requires end <= |ts|
    ensures r.Some? ==> c < r.value.1
    decreases |ts| - c, 3
  {
    if c >= |ts| || ts[c] != OpenCurly || c + 1 >= end then None
    else ReadFields(ts, types, c + 1, end)
  }

  function ReadName(ts: seq<Token>, c: nat, end: nat): (r: Read<Option<string>>)
    requires c < |ts| && end <= |ts|
    ensures r.Some? ==> c <= r.value.1 < |ts|
  {
    if ts[c].ElementName? then (if c + 1 >= end then None else Some((Some(ts[c].name), c + 1)))
    else Some((None, c))
  }

  function ReadFields(ts: seq<Token>, types: set<string>, c: nat, end: nat): (r: Read<seq<Field>>)
    requires c < |ts| && end <= |ts|
    ensures r.Some? ==> c < r.value.1
    decreases |ts| - c, 3
  {
    var n := ReadName(ts, c, end);
    if n.None? then None else
    var t := ReadType(ts, types, n.value.1, end);
    if t.None? || t.value.1 >= end then None else
    var d, field := t.value.1, Field(n.value.0, t.value.0);
    if ts[d] == Comma then
      var rest := if d + 1 >= end then None else ReadFields(ts, types, d + 1, end);
      if rest.None? then None else Some(([field] + rest.value.0, rest.value.1))
    else if ts[d] == CloseCurly then Some(([field], d + 1))
    else None
  }

  // ----- what is written is read back ---------------------------------------------------

  /** The tokens `p` stand at `c`, before `end`. */
  predicate Stands(ts: seq<Token>, c: nat, end: nat, p: seq<Token>) {
    c + |p| <= end <= |ts| && ts[c..c + |p|] == p
  }

  lemma {:induction false} StandsBoth(ts: seq<Token>, c: nat, end: nat, p: seq<Token>, q: seq<Token>)
    ensures Stands(ts, c, end, p + q) <==> Stands(ts, c, end, p) && Stands(ts, c + |p|, end, q)
  {
    if Stands(ts, c, end, p + q) {
      Cut(ts, c, c + |p + q|, p, q);
    }
    if Stands(ts, c, end, p) && Stands(ts, c + |p|, end, q) {
      assert ts[c..c + |p + q|] == ts[c..c + |p|] + ts[c + |p|..c + |p| + |q|];
    }
  }

  lemma {:induction false} StandsFirst(ts: seq<Token>, c: nat, end: nat, t: Token, q: seq<Token>)
    ensures Stands(ts, c, end, [t] + q) <==> c < end <= |ts| && ts[c] == t && Stands(ts, c + 1, end, q)
  {
    StandsBoth(ts, c, end, [t], q);
    StandsOne(ts, c, end, t);
  }

  lemma {:induction false} StandsOne(ts: seq<Token>, c: nat, end: nat, t: Token)
    ensures Stands(ts, c, end, [t]) <==> c < end <= |ts| && ts[c] == t
  {
    if c < end <= |ts| {
      assert ts[c..c + 1] == [ts[c]];
    }
  }

  /** No type expression begins like a tag or a marker behind that point. */
  predicate BeginsCore(t: Token) {
    t != OpenSquare && t != ImplicitWord && t != ExplicitWord
  }

  lemma {:induction false} LabelRead(ts: seq<Token>, c: nat, end: nat)
    requires c < end <= |ts| && ReadLabel(ts, c, end).Some?
    ensures var (l, d) := ReadLabel(ts, c, end).value;
            d < end && d == c + |PrintLabel(l)| && Stands(ts, c, end, PrintLabel(l))
  {
    var (l, d) := ReadLabel(ts, c, end).value;
    if l.Some? {
      assert ts[c..d] == PrintLabel(l);
    }
  }

  lemma {:induction false} LabelWritten(ts: seq<Token>, c: nat, end: nat, l: Option<Label>)
    requires Stands(ts, c, end, PrintLabel(l)) && c + |PrintLabel(l)| < end
    requires l.None? ==> ts[c] != OpenSquare
    ensures ReadLabel(ts, c, end) == Some((l, c + |PrintLabel(l)|))
  {
    At(ts, c, c + |PrintLabel(l)|, PrintLabel(l));
    if l.Some? {
      var p := PrintLabel(l);
      assert ts[c + 0] == p[0] && ts[c + 1] == p[1] && ts[c + 2] == p[2];
      assert |p| > 3 ==> ts[c + 3] == p[3];
    }
  }

  lemma {:induction false} MarkerRead(ts: seq<Token>, c: nat, end: nat)
    requires c < end <= |ts| && ReadMarker(ts, c, end).Some?
    ensures var (m, d) := ReadMarker(ts, c, end).value;
            d < end && d == c + |PrintMarker(m)| && Stands(ts, c, end, PrintMarker(m))
  {
    StandsOne(ts, c, end, ts[c]);
  }

  lemma {:induction false} MarkerWritten(ts: seq<Token>, c: nat, end: nat, m: Marker)
    requires Stands(ts, c, end, PrintMarker(m)) && c + |PrintMarker(m)| < end
    requires m.NoMarker? ==> BeginsCore(ts[c])
    ensures ReadMarker(ts, c, end) == Some((m, c + |PrintMarker(m)|))
    ensures ts[c] != OpenSquare
  {
    StandsOne(ts, c, end, ts[c]);
    if !m.NoMarker? {
      assert ts[c..c + 1][0] == ts[c];
    }
  }

  /** The suffix as it is read from `c`. */
  function ReadSuffix(ts: seq<Token>, c: nat, end: nat): Read<(Presence, Option<string>)>
    requires end <= |ts|
  {
    var (presence, d) := ReadPresence(ts, c, end);
    var a := ReadAction(ts, d, end);
    if a.None? then None else Some(((presence, a.value.0), a.value.1))
  }

  lemma {:induction false} SuffixRead(ts: seq<Token>, c: nat, end: nat)
    requires c <= end <= |ts| && ReadSuffix(ts, c, end).Some?
    ensures var ((p, a), d) := ReadSuffix(ts, c, end).value;
            && d == c + |SuffixOf(p, a)| && Stands(ts, c, end, SuffixOf(p, a))
            && (d < end ==> EndsSuffix(p, a, ts[d]))
  {
    var ((p, a), d) := ReadSuffix(ts, c, end).value;
    assert ts[c..d] == SuffixOf(p, a);
  }

  lemma {:induction false} PresenceWritten(ts: seq<Token>, c: nat, end: nat, p: Presence)
    requires Stands(ts, c, end, PrintPresence(p))
    requires p == Required && c < end ==> ts[c] != OptionalWord && ts[c] != DefaultWord
    ensures ReadPresence(ts, c, end) == (p, c + |PrintPresence(p)|)
  {
    match p
    case Required =>
    case Optional => StandsOne(ts, c, end, OptionalWord);
    case Default => StandsOne(ts, c, end, DefaultWord);
  }

  lemma {:induction false} ActionWritten(ts: seq<Token>, c: nat, end: nat, a: Option<string>)
    requires Stands(ts, c, end, PrintAction(a))
    requires a.None? && c < end ==> ts[c] != OpenAction
    ensures ReadAction(ts, c, end) == Some((a, c + |PrintAction(a)|))
    ensures a.Some? ==> ts[c] == OpenAction
  {
    if a.Some? {
      assert PrintAction(a) == [OpenAction] + ([ElementName(a.value)] + ([CloseAction] + []));
      StandsFirst(ts, c, end, OpenAction, [ElementName(a.value)] + ([CloseAction] + []));
      StandsFirst(ts, c + 1, end, ElementName(a.value), [CloseAction] + []);
      StandsFirst(ts, c + 2, end, CloseAction, []);
      hide Stands;
    }
  }

  lemma {:induction false} SuffixWritten(ts: seq<Token>, c: nat, end: nat, p: Presence, a: Option<string>)
    requires Stands(ts, c, end, SuffixOf(p, a))
    requires var d := c + |SuffixOf(p, a)|; d < end ==> EndsSuffix(p, a, ts[d])
    ensures ReadSuffix(ts, c, end) == Some(((p, a), c + |SuffixOf(p, a)|))
  {
    StandsBoth(ts, c, end, PrintPresence(p), PrintAction(a));
    var d := c + |PrintPresence(p)|;
    ActionWritten(ts, d, end, a);
    PresenceWritten(ts, c, end, p);
    hide ReadPresence, ReadAction;
  }

  // ----- soundness: what is read is a written type --------------------------------------

  /** What has been read is the writing of a well-formed type, up to a token that cannot be
      a part of it. */
  lemma {:induction false} TypeRead(ts: seq<Token>, types: set<string>, c: nat, end: nat)
    requires c < end <= |ts| && ReadType(ts, types, c, end).Some?
    ensures var (t, d) := ReadType(ts, types, c, end).value;
            && d <= end && d == c + |Print(t)| && Stands(ts, c, end, Print(t)) && WellFormed(t, types)
            && (d < end ==> CanFollow(t, ts[d]))
    decreases |ts| - c, 2
  {
    hide Stands, ReadLabel, ReadMarker, ReadCore, ReadPresence, ReadAction, PrintLabel, PrintMarker, PrintCore,
      EndsSuffix, CanFollowCore, CoreOk, PrintPresence, PrintAction;
    var (t, d) := ReadType(ts, types, c, end).value;
    LabelRead(ts, c, end);
    var c1 := ReadLabel(ts, c, end).value.1;
    MarkerRead(ts, c1, end);
    var c2 := ReadMarker(ts, c1, end).value.1;
    CoreRead(ts, types, c2, end);
    var k := ReadCore(ts, types, c2, end).value.1;
    SuffixRead(ts, k, end);
    StandsBoth(ts, c2, end, PrintCore(t.core), PrintSuffix(t));
    StandsBoth(ts, c1, end, PrintMarker(t.marker), PrintCore(t.core) + PrintSuffix(t));
    StandsBoth(ts, c, end, PrintLabel(t.tagging), PrintMarker(t.marker) + (PrintCore(t.core) + PrintSuffix(t)));
    assert Print(t) == PrintLabel(t.tagging) + (PrintMarker(t.marker) + (PrintCore(t.core) + PrintSuffix(t)));
    SuffixBegins(ts, k, end, t.presence, t.action);
  }

  lemma {:induction false} SuffixBegins(ts: seq<Token>, c: nat, end: nat, p: Presence, a: Option<string>)
    requires Stands(ts, c, end, SuffixOf(p, a))
    ensures SuffixOf(p, a) != [] ==> c < end && ts[c] == SuffixOf(p, a)[0]
    ensures SuffixOf(p, a) == [] <==> p == Required && a.None?
  {
    if SuffixOf(p, a) != [] {
      assert ts[c] == ts[c..c + |SuffixOf(p, a)|][0];
    }
  }

  lemma {:induction false} CoreRead(ts: seq<Token>, types: set<string>, c: nat, end: nat)
    requires c < end <= |ts| && ReadCore(ts, types, c, end).Some?
    ensures var (k, d) := ReadCore(ts, types, c, end).value;
            && d <= end && d == c + |PrintCore(k)| && Stands(ts, c, end, PrintCore(k)) && CoreOk(k, types)
            && (d < end ==> CanFollowCore(k, ts[d]))
    decreases |ts| - c, 1
  {
    hide Stands, ReadType, ReadFields, Print, PrintFields, WellFormed, FieldsOk, CanFollow;
    if ts[c].ChoiceWord? {
      CompoundRead(ts, types, c, end);
    } else if ts[c].SequenceWord? || ts[c].SetWord? {
      if ts[c + 1] == OfWord {
        ItemRead(ts, types, c, end);
      } else {
        CompoundRead(ts, types, c, end);
      }
    } else {
      StandsOne(ts, c, end, ts[c]);
      if ts[c].BitWord? || ts[c].OctetWord? || ts[c].ObjectWord? {
        StandsOne(ts, c + 1, end, ts[c + 1]);
        StandsFirst(ts, c, end, ts[c], [ts[c + 1]]);
        assert [ts[c]] + [ts[c + 1]] == [ts[c], ts[c + 1]];
      }
    }
  }

  lemma {:induction false} ItemRead(ts: seq<Token>, types: set<string>, c: nat, end: nat)
    requires c + 2 < end <= |ts| && ts[c + 1] == OfWord && ReadType(ts, types, c + 2, end).Some?
    ensures var (t, d) := ReadType(ts, types, c + 2, end).value;
            && d <= end && d == c + |[ts[c], OfWord] + Print(t)| && Stands(ts, c, end, [ts[c], OfWord] + Print(t))
            && WellFormed(t, types) && (d < end ==> CanFollow(t, ts[d]))
    decreases |ts| - c, 0
  {
    hide Stands, ReadType, Print, WellFormed, CanFollow;
    TypeRead(ts, types, c + 2, end);
    var t := ReadType(ts, types, c + 2, end).value.0;
    StandsFirst(ts, c + 1, end, OfWord, Print(t));
    StandsFirst(ts, c, end, ts[c], [OfWord] + Print(t));
    assert [ts[c], OfWord] + Print(t) == [ts[c]] + ([OfWord] + Print(t));
  }

  lemma {:induction false} CompoundRead(ts: seq<Token>, types: set<string>, c: nat, end: nat)
    requires c < end <= |ts| && ReadCompound(ts, types, c + 1, end).Some?
    ensures var (f, d) := ReadCompound(ts, types, c + 1, end).value;
            && d <= end && d == c + |[ts[c], OpenCurly] + PrintFields(f)| && Stands(ts, c, end, [ts[c], OpenCurly] + PrintFields(f))
            && FieldsOk(f, types)
    decreases |ts| - c, 0
  {
    hide Stands, ReadFields, PrintFields, FieldsOk;
    FieldsRead(ts, types, c + 2, end);
    var f := ReadCompound(ts, types, c + 1, end).value.0;
    StandsFirst(ts, c + 1, end, OpenCurly, PrintFields(f));
    StandsFirst(ts, c, end, ts[c], [OpenCurly] + PrintFields(f));
    assert [ts[c], OpenCurly] + PrintFields(f) == [ts[c]] + ([OpenCurly] + PrintFields(f));
  }

  lemma {:induction false} NameRead(ts: seq<Token>, c: nat, end: nat)
    requires c < end <= |ts| && ReadName(ts, c, end).Some?
    ensures var (n, d) := ReadName(ts, c, end).value;
            d < end && d == c + |PrintName(n)| && Stands(ts, c, end, PrintName(n))
  {
    StandsOne(ts, c, end, ts[c]);
  }

  lemma {:induction false} FieldsRead(ts: seq<Token>, types: set<string>, c: nat, end: nat)
    requires c < end <= |ts| && ReadFields(ts, types, c, end).Some?
    ensures var (f, d) := ReadFields(ts, types, c, end).value;
            d <= end && d == c + |PrintFields(f)| && Stands(ts, c, end, PrintFields(f)) && FieldsOk(f, types)
    decreases |ts| - c, 3
  {
    hide Stands, ReadType, Print, WellFormed, CanFollow, ReadName, PrintName;
    var (f, d) := ReadFields(ts, types, c, end).value;
    NameRead(ts, c, end);
    var c1 := ReadName(ts, c, end).value.1;
    TypeRead(ts, types, c1, end);
    var k := ReadType(ts, types, c1, end).value.1;
    StandsBoth(ts, c, end, PrintName(f[0].name), Print(f[0].content));
    if ts[k] == Comma {
      FieldsRead(ts, types, k + 1, end);
      assert f[1..] == ReadFields(ts, types, k + 1, end).value.0;
      StandsFirst(ts, k, end, Comma, PrintFields(f[1..]));
      StandsBoth(ts, c, end, PrintField(f[0]), [Comma] + PrintFields(f[1..]));
    } else {
      StandsOne(ts, k, end, CloseCurly);
      StandsBoth(ts, c, end, PrintField(f[0]), [CloseCurly]);
    }
  }

  // ----- completeness: what is written is read ------------------------------------------

  lemma {:induction false} CoreBegins(c: Core, types: set<string>)
    requires CoreOk(c, types)
    ensures PrintCore(c) != [] && BeginsCore(PrintCore(c)[0]) && !PrintCore(c)[0].ElementName?
  {
    hide Print, PrintFields;
  }

  lemma {:induction false} TypeBegins(t: Type, types: set<string>)
    requires WellFormed(t, types)
    ensures Print(t) != [] && !Print(t)[0].ElementName?
  {
    CoreBegins(t.core, types);
    hide PrintCore, CoreOk;
  }

  /** Every writing of a well-formed type is read back as that type, up to its last token. */
  lemma {:induction false} TypeWritten(ts: seq<Token>, types: set<string>, c: nat, end: nat, t: Type)
    requires Stands(ts, c, end, Print(t)) && WellFormed(t, types)
    requires var d := c + |Print(t)|; d < end ==> CanFollow(t, ts[d])
    ensures ReadType(ts, types, c, end) == Some((t, c + |Print(t)|))
    decreases t, 0
  {
    hide Stands, ReadLabel, ReadMarker, ReadCore, ReadPresence, ReadAction, PrintLabel, PrintMarker, PrintCore,
      EndsSuffix, CanFollowCore, CoreOk, PrintPresence, PrintAction, BeginsCore, SuffixOf;
    PartsStand(ts, c, end, t);
    var c1 := c + |PrintLabel(t.tagging)|;
    var c2 := c1 + |PrintMarker(t.marker)|;
    var c3 := c2 + |PrintCore(t.core)|;
    PrefixWritten(ts, types, c, end, t);
    SuffixBegins(ts, c3, end, t.presence, t.action);
    SuffixWritten(ts, c3, end, t.presence, t.action);
    CoreWritten(ts, types, c2, end, t.core);
  }

  lemma {:induction false} PrintParts(t: Type)
    ensures Print(t) == PrintLabel(t.tagging) + (PrintMarker(t.marker) + (PrintCore(t.core) + PrintSuffix(t)))
  {
    hide PrintLabel, PrintMarker, PrintCore, PrintSuffix;
  }

  lemma {:induction false} StandsFits(ts: seq<Token>, c: nat, end: nat, p: seq<Token>)
    requires Stands(ts, c, end, p)
    ensures c + |p| <= end <= |ts|
  {
  }

  /** The four parts of a type expression, one behind the other. */
  lemma {:induction false} PartsStand(ts: seq<Token>, c: nat, end: nat, t: Type)
    requires Stands(ts, c, end, Print(t))
    ensures var c1 := c + |PrintLabel(t.tagging)|;
            var c2 := c1 + |PrintMarker(t.marker)|;
            var c3 := c2 + |PrintCore(t.core)|;
            && Stands(ts, c, end, PrintLabel(t.tagging)) && Stands(ts, c1, end, PrintMarker(t.marker))
            && Stands(ts, c2, end, PrintCore(t.core)) && Stands(ts, c3, end, PrintSuffix(t))
            && c + |Print(t)| == c3 + |PrintSuffix(t)| && end <= |ts|
  {
    PrintParts(t);
    StandsFits(ts, c, end, Print(t));
    hide Stands, Print, PrintLabel, PrintMarker, PrintCore, PrintSuffix;
    FourStand(ts, c, end, PrintLabel(t.tagging), PrintMarker(t.marker), PrintCore(t.core), PrintSuffix(t));
  }

  lemma {:induction false} FourStand(ts: seq<Token>, c: nat, end: nat,
                                     l: seq<Token>, m: seq<Token>, k: seq<Token>, x: seq<Token>)
    requires Stands(ts, c, end, l + (m + (k + x)))
    ensures Stands(ts, c, end, l) && Stands(ts, c + |l|, end, m) && Stands(ts, c + |l| + |m|, end, k)
    ensures Stands(ts, c + |l| + |m| + |k|, end, x)
    ensures |l + (m + (k + x))| == |l| + |m| + |k| + |x|
  {
    hide Stands;
    StandsBoth(ts, c, end, l, m + (k + x));
    StandsBoth(ts, c + |l|, end, m, k + x);
    StandsBoth(ts, c + |l| + |m|, end, k, x);
  }

  lemma {:induction false} PrefixWritten(ts: seq<Token>, types: set<string>, c: nat, end: nat, t: Type)
    requires Stands(ts, c, end, Print(t)) && CoreOk(t.core, types) && end <= |ts|
    ensures var c1 := c + |PrintLabel(t.tagging)|;
            var c2 := c1 + |PrintMarker(t.marker)|;
            && c <= c1 <= c2 < end
            && ReadLabel(ts, c, end) == Some((t.tagging, c1)) && ReadMarker(ts, c1, end) == Some((t.marker, c2))
  {
    CoreBegins(t.core, types);
    hide Stands, ReadLabel, ReadMarker, PrintLabel, PrintMarker, PrintCore, CoreOk, BeginsCore, PrintSuffix, Print;
    PartsStand(ts, c, end, t);
    MarkedCore(ts, c + |PrintLabel(t.tagging)|, end, t.marker, PrintCore(t.core));
    NoLabelIsEmpty(t.tagging);
    LabelWritten(ts, c, end, t.tagging);
  }

  lemma {:induction false} MarkedCore(ts: seq<Token>, c: nat, end: nat, m: Marker, k: seq<Token>)
    requires Stands(ts, c, end, PrintMarker(m)) && Stands(ts, c + |PrintMarker(m)|, end, k)
    requires k != [] && BeginsCore(k[0])
    ensures c <= c + |PrintMarker(m)| < end <= |ts|
    ensures ReadMarker(ts, c, end) == Some((m, c + |PrintMarker(m)|)) && ts[c] != OpenSquare
  {
    hide Stands, ReadMarker, PrintMarker, BeginsCore;
    FirstOf(ts, c + |PrintMarker(m)|, end, k);
    NoMarkerIsEmpty(m);
    MarkerWritten(ts, c, end, m);
  }

  lemma {:induction false} NoMarkerIsEmpty(m: Marker)
    ensures m.NoMarker? ==> PrintMarker(m) == []
  {
  }

  lemma {:induction false} NoLabelIsEmpty(l: Option<Label>)
    ensures l.None? ==> PrintLabel(l) == []
  {
  }

  lemma {:induction false} FirstOf(ts: seq<Token>, c: nat, end: nat, p: seq<Token>)
    requires Stands(ts, c, end, p) && p != []
    ensures c < end <= |ts| && ts[c] == p[0]
  {
    assert ts[c] == ts[c..c + |p|][0];
  }

  lemma {:induction false} CoreWritten(ts: seq<Token>, types: set<string>, c: nat, end: nat, k: Core)
    requires Stands(ts, c, end, PrintCore(k)) && CoreOk(k, types)
    requires var d := c + |PrintCore(k)|; d < end ==> CanFollowCore(k, ts[d])
    ensures c < end <= |ts| && ReadCore(ts, types, c, end) == Some((k, c + |PrintCore(k)|))
    decreases k
  {
    hide Stands, ReadType, ReadCompound, Print, PrintFields, WellFormed, FieldsOk, CanFollow, ReadCore;
    match k
    case ChoiceOf(fields) =>
      CompoundWritten(ts, types, c, end, ChoiceWord, fields);
      CompoundIsCore(ts, types, c, end);
    case SequenceWith(fields) =>
      CompoundWritten(ts, types, c, end, SequenceWord, fields);
      CompoundIsCore(ts, types, c, end);
    case SetWith(fields) =>
      CompoundWritten(ts, types, c, end, SetWord, fields);
      CompoundIsCore(ts, types, c, end);
    case SequenceOf(item) =>
      ItemWritten(ts, types, c, end, SequenceWord, item);
      ItemIsCore(ts, types, c, end);
    case SetOf(item) =>
      ItemWritten(ts, types, c, end, SetWord, item);
      ItemIsCore(ts, types, c, end);
    case _ =>
      SimpleWritten(ts, types, c, end, k);
  }

  lemma {:induction false} CompoundIsCore(ts: seq<Token>, types: set<string>, c: nat, end: nat)
    requires c + 1 < end <= |ts| && ts[c + 1] == OpenCurly && ReadCompound(ts, types, c + 1, end).Some?
    ensures var (f, d) := ReadCompound(ts, types, c + 1, end).value;
            && (ts[c] == ChoiceWord ==> ReadCore(ts, types, c, end) == Some((ChoiceOf(f), d)))
            && (ts[c] == SequenceWord ==> ReadCore(ts, types, c, end) == Some((SequenceWith(f), d)))
            && (ts[c] == SetWord ==> ReadCore(ts, types, c, end) == Some((SetWith(f), d)))
  {
    hide ReadType, ReadCompound;
  }

  lemma {:induction false} ItemIsCore(ts: seq<Token>, types: set<string>, c: nat, end: nat)
    requires c + 2 < end <= |ts| && ts[c + 1] == OfWord && ReadType(ts, types, c + 2, end).Some?
    ensures var (t, d) := ReadType(ts, types, c + 2, end).value;
            && (ts[c] == SequenceWord ==> ReadCore(ts, types, c, end) == Some((Core.SequenceOf(t), d)))
            && (ts[c] == SetWord ==> ReadCore(ts, types, c, end) == Some((Core.SetOf(t), d)))
  {
    hide ReadType, ReadCompound;
  }

  lemma {:induction false} SimpleWritten(ts: seq<Token>, types: set<string>, c: nat, end: nat, k: Core)
    requires Stands(ts, c, end, PrintCore(k)) && CoreOk(k, types)
    requires k.Single? || k.Double? || k.Reference?
    ensures c < end <= |ts| && ReadCore(ts, types, c, end) == Some((k, c + |PrintCore(k)|))
  {
    FirstOf(ts, c, end, PrintCore(k));
    hide Stands, ReadType, ReadCompound;
    if k.Double? {
      DoubleWritten(ts, c, end, k.token);
    }
  }

  lemma {:induction false} DoubleWritten(ts: seq<Token>, c: nat, end: nat, t: Token)
    requires Stands(ts, c, end, [t, Partner(t)])
    ensures c + 1 < end <= |ts| && ts[c] == t && ts[c + 1] == Partner(t)
  {
    assert [t, Partner(t)] == [t] + [Partner(t)];
    StandsFirst(ts, c, end, t, [Partner(t)]);
    StandsOne(ts, c + 1, end, Partner(t));
  }

  lemma {:induction false} ItemWritten(ts: seq<Token>, types: set<string>, c: nat, end: nat, w: Token, item: Type)
    requires Stands(ts, c, end, [w, OfWord] + Print(item)) && WellFormed(item, types)
    requires var d := c + |[w, OfWord] + Print(item)|; d < end ==> CanFollow(item, ts[d])
    ensures c + 2 < end <= |ts| && ts[c] == w && ts[c + 1] == OfWord
    ensures ReadType(ts, types, c + 2, end) == Some((item, c + |[w, OfWord] + Print(item)|))
    decreases item, 1
  {
    hide Stands, ReadType, Print, WellFormed, CanFollow;
    TypeBegins(item, types);
    TwoBefore(ts, c, end, w, OfWord, Print(item));
    FirstOf(ts, c + 2, end, Print(item));
    TypeWritten(ts, types, c + 2, end, item);
  }

  lemma {:induction false} TwoBefore(ts: seq<Token>, c: nat, end: nat, t: Token, u: Token, p: seq<Token>)
    requires Stands(ts, c, end, [t, u] + p)
    ensures c + 1 < end <= |ts| && ts[c] == t && ts[c + 1] == u && Stands(ts, c + 2, end, p)
    ensures c + |[t, u] + p| == c + 2 + |p|
  {
    assert [t, u] + p == [t] + ([u] + p);
    hide Stands;
    StandsFirst(ts, c, end, t, [u] + p);
    StandsFirst(ts, c + 1, end, u, p);
  }

  lemma {:induction false} CompoundWritten(ts: seq<Token>, types: set<string>, c: nat, end: nat, w: Token, fields: seq<Field>)
    requires Stands(ts, c, end, [w, OpenCurly] + PrintFields(fields)) && FieldsOk(fields, types)
    ensures c + 1 < end <= |ts| && ts[c] == w && ts[c + 1] == OpenCurly
    ensures ReadCompound(ts, types, c + 1, end) == Some((fields, c + |[w, OpenCurly] + PrintFields(fields)|))
    decreases fields, 1
  {
    hide Stands, ReadFields, PrintFields, FieldsOk;
    TwoBefore(ts, c, end, w, OpenCurly, PrintFields(fields));
    FieldsWritten(ts, types, c + 2, end, fields);
  }

  lemma {:induction false} SeparatorFollows(t: Type)
    ensures CanFollow(t, Comma) && CanFollow(t, CloseCurly)
  {
    match t.core
    case SequenceOf(item) => SeparatorFollows(item);
    case SetOf(item) => SeparatorFollows(item);
    case _ =>
  }

  lemma {:induction false} FieldWritten(ts: seq<Token>, types: set<string>, c: nat, end: nat, f: Field)
    requires Stands(ts, c, end, PrintField(f)) && FieldOk(f, types)
    requires var d := c + |PrintField(f)|; d < end && (ts[d] == Comma || ts[d] == CloseCurly)
    ensures c < end <= |ts| && ReadName(ts, c, end) == Some((f.name, c + |PrintName(f.name)|))
    ensures ReadType(ts, types, c + |PrintName(f.name)|, end) == Some((f.content, c + |PrintField(f)|))
    decreases f
  {
    hide ReadType, Print, WellFormed, CanFollow, Stands, ReadName, PrintName;
    TypeBegins(f.content, types);
    StandsBoth(ts, c, end, PrintName(f.name), Print(f.content));
    FirstOf(ts, c + |PrintName(f.name)|, end, Print(f.content));
    NameWritten(ts, c, end, f.name);
    SeparatorFollows(f.content);
    TypeWritten(ts, types, c + |PrintName(f.name)|, end, f.content);
  }

  lemma {:induction false} NameWritten(ts: seq<Token>, c: nat, end: nat, n: Option<string>)
    requires Stands(ts, c, end, PrintName(n)) && c + |PrintName(n)| < end <= |ts|
    requires !ts[c + |PrintName(n)|].ElementName?
    ensures ReadName(ts, c, end) == Some((n, c + |PrintName(n)|))
  {
    if n.Some? {
      FirstOf(ts, c, end, PrintName(n));
    }
  }

  lemma {:induction false} FieldsWritten(ts: seq<Token>, types: set<string>, c: nat, end: nat, fields: seq<Field>)
    requires Stands(ts, c, end, PrintFields(fields)) && FieldsOk(fields, types)
    ensures c < end <= |ts| && ReadFields(ts, types, c, end) == Some((fields, c + |PrintFields(fields)|))
    decreases fields, 0
  {
    hide Stands, ReadType, PrintField, FieldOk, ReadName, PrintName;
    var f, rest := fields[0], fields[1..];
    var d := c + |PrintField(f)|;
    if |fields| == 1 {
      StandsBoth(ts, c, end, PrintField(f), [CloseCurly]);
      StandsOne(ts, d, end, CloseCurly);
      FieldWritten(ts, types, c, end, f);
      assert fields == [f];
    } else {
      StandsBoth(ts, c, end, PrintField(f), [Comma] + PrintFields(rest));
      StandsFirst(ts, d, end, Comma, PrintFields(rest));
      FieldWritten(ts, types, c, end, f);
      FieldsWritten(ts, types, d + 1, end, rest);
      assert [f] + rest == fields;
    }
  }
}
