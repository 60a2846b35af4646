/** The grammars whose machine decodes the encodings of their values, and what is known about
    their code: which octets an element can begin with, and how absent elements are passed over. */
module RegularGrammars {
  import opened Octets
  import opened Grammar
  import opened Code
  import opened Layout
  import opened SupportedGrammars
  import Der

  // ----- tag sets -----------------------------------------------------------------------

  /** An element beginning with octet `o` is taken by the first instructions of `c`. */
  predicate Grabs(c: Code, o: Octet) {
    match c
    case Then(a, b) => Grabs(a, o) || Grabs(b, o)
    case MatchAny(_, _) => true
    case MatchPrim(optag, _, _, _) => TagMatches(optag, o)
    case Block(optag, _, _, _) => TagMatches(optag, o)
    case Call(optag, _, _, _) => TagMatches(optag, o)
    case _ => false
  }

  /** Some field of `es` that nothing mandatory comes before begins with `o`. */
  predicate MayBegin(g: Grammar, fuel: nat, es: seq<Element>, o: Octet) {
    es != [] && (Grabs(Render(g, es[0], None, fuel), o) || (es[0].skippable && MayBegin(g, fuel, es[1..], o)))
  }

  /** The tags of an optional field are distinct from those of whatever may follow it. */
  ghost predicate Separate(g: Grammar, fuel: nat, es: seq<Element>) {
    es == [] ||
    (&& (es[0].skippable ==> forall o: Octet :: Grabs(Render(g, es[0], None, fuel), o) ==> !MayBegin(g, fuel, es[1..], o))
     && Separate(g, fuel, es[1..]))
  }

  // ----- the conditions -----------------------------------------------------------------

  /** A type an IMPLICIT tag can replace the tag of: not a CHOICE, not ANY, not one with an
      IMPLICIT tag of its own. */
  predicate Overridable(g: Grammar, e: Element, fuel: nat)
    decreases fuel
  {
    match e.compound
    case TypeRef(t) => fuel > 0 && t < |g.types| && Overridable(g, g.types[t], fuel - 1)
    case TagOverride(_) => false
    case Choice(_) => false
    case Any => false
    case _ => true
  }

  /** No reference that `e` stands for carries an action. */
  predicate Quiet(g: Grammar, e: Element, fuel: nat)
    decreases fuel
  {
    e.compound.TypeRef? ==>
      && e.action.None?
      && (fuel > 0 && e.compound.target < |g.types| ==> Quiet(g, g.types[e.compound.target], fuel - 1))
  }

  predicate Unflagged(e: Element) {
    !e.skippable && !e.conditional
  }

  /** A CHOICE alternative that keeps its flags in the code, whatever type it is of. */
  predicate IsAlternative(e: Element) {
    !e.compound.TypeRef? && !e.compound.Choice?
  }

  /** Alternatives with the flags `parse_compound` gives them: all skippable, all but the
      first conditional. */
  ghost predicate Alternatives(g: Grammar, fuel: nat, es: seq<Element>, first: bool)
    decreases es, 0
  {
    es == [] ||
    (&& IsAlternative(es[0]) && Regular(g, fuel, es[0]) && es[0].skippable && es[0].conditional == !first
     && Alternatives(g, fuel, es[1..], false))
  }

  lemma {:induction false} AlternativeAt(g: Grammar, fuel: nat, es: seq<Element>, first: bool, i: nat)
    requires Alternatives(g, fuel, es, first) && i < |es|
    ensures IsAlternative(es[i]) && Regular(g, fuel, es[i]) && es[i].skippable
    decreases es
  {
    hide Regular;
    if i > 0 {
      AlternativeAt(g, fuel, es[1..], false, i - 1);
    }
  }

  /** The tags of an alternative are distinct from those of the ones before it; only ANY may
      begin with the tag of another. */
  ghost predicate Apart(g: Grammar, fuel: nat, es: seq<Element>) {
    forall i, j, o: Octet :: 0 <= i < j < |es| && !es[j].compound.Any? ==>
      !(Grabs(Render(g, es[i], None, fuel), o) && Grabs(Render(g, es[j], None, fuel), o))
  }

  /** No alternative before the one at `i` takes an element that begins with `o`. */
  predicate Unclaimed(g: Grammar, fuel: nat, es: seq<Element>, i: nat, o: Octet)
    requires i <= |es|
  {
    forall j :: 0 <= j < i ==> !Grabs(Render(g, es[j], None, fuel), o)
  }

  /** A field: the flags of a bare reference would be lost. */
  predicate FieldOk(e: Element) {
    !e.conditional && (e.compound.TypeRef? ==> !e.skippable)
  }

  ghost predicate Regular(g: Grammar, fuel: nat, e: Element)
    decreases e, 1
  {
    match e.compound
    case Choice(es) =>
      Alternatives(g, fuel, es, true) && Apart(g, fuel, es) && (e.action.Some? ==> !e.skippable)
    case Sequence(es) => AllRegular(g, fuel, es) && Separate(g, fuel, es)
    case SequenceOf(item) => FieldOk(item) && !item.skippable && Regular(g, fuel, item)
    case SetOf(item) => FieldOk(item) && !item.skippable && Regular(g, fuel, item)
    case Set(_) => false
    case TagOverride(inner) =>
      && Unflagged(inner) && Overridable(g, inner, fuel) && Regular(g, fuel, inner)
      && (e.skippable ==> Quiet(g, inner, fuel))
    case _ => true
  }

  ghost predicate AllRegular(g: Grammar, fuel: nat, es: seq<Element>)
    decreases es, 0
  {
    es == [] || (FieldOk(es[0]) && Regular(g, fuel, es[0]) && AllRegular(g, fuel, es[1..]))
  }

  /** Every type is regular, and none is marked optional at its definition. */
  ghost predicate RegularGrammar(g: Grammar, fuel: nat) {
    forall t :: 0 <= t < |g.types| ==> Regular(g, fuel, g.types[t]) && Unflagged(g.types[t])
  }

  // ----- fuel does not matter -----------------------------------------------------------

  lemma {:induction false} RenderStable(g: Grammar, e: Element, tag: Override, fuel: nat, more: nat)
    requires fuel <= more && Finite(Render(g, e, tag, fuel))
    ensures Render(g, e, tag, more) == Render(g, e, tag, fuel)
    decreases fuel, e, 1
  {
    match e.compound
    case TagOverride(inner) => RenderStable(g, inner, Some(e), fuel, more);
    case TypeRef(t) => RenderStable(g, g.types[t], tag, fuel - 1, more - 1);
    case Choice(es) => AllStable(g, es, fuel, more);
    case Sequence(es) => if !OutOfLine(g, e, tag) { AllStable(g, es, fuel, more); }
    case SequenceOf(item) => if !OutOfLine(g, e, tag) { RenderStable(g, item, None, fuel, more); }
    case SetOf(item) => if !OutOfLine(g, e, tag) { RenderStable(g, item, None, fuel, more); }
    case _ =>
  }

  lemma {:induction false} AllStable(g: Grammar, es: seq<Element>, fuel: nat, more: nat)
    requires fuel <= more && Finite(RenderAll(g, es, fuel))
    ensures RenderAll(g, es, more) == RenderAll(g, es, fuel)
    decreases fuel, es, 0
  {
    if es != [] {
      RenderStable(g, es[0], None, fuel, more);
      AllStable(g, es[1..], fuel, more);
    }
  }

  lemma {:induction false} SoundIsFinite(c: Code, nrActions: nat)
    requires Sound(c, nrActions)
    ensures Finite(c)
  {
    match c
    case Then(a, b) =>
      SoundIsFinite(a, nrActions);
      SoundIsFinite(b, nrActions);
    case Block(_, _, inner, _) => SoundIsFinite(inner, nrActions);
    case _ =>
  }

  /** The code of a reference is that of the type it refers to. */
  lemma {:induction false} RefCode(g: Grammar, e: Element, tag: Override, fuel: nat, nrActions: nat)
    requires e.compound.TypeRef? && Sound(Render(g, e, tag, fuel), nrActions)
    ensures fuel > 0 && e.compound.target < |g.types|
    ensures Render(g, e, tag, fuel) ==
            Then(Render(g, g.types[e.compound.target], tag, fuel), ActCode(e.action))
  {
    var c := Render(g, g.types[e.compound.target], tag, fuel - 1);
    SoundIsFinite(c, nrActions);
    RenderStable(g, g.types[e.compound.target], tag, fuel - 1, fuel);
  }

  lemma {:induction false} OverridableMono(g: Grammar, e: Element, fuel: nat, more: nat)
    requires fuel <= more && Overridable(g, e, fuel)
    ensures Overridable(g, e, more)
    decreases fuel
  {
    match e.compound
    case TypeRef(t) => OverridableMono(g, g.types[t], fuel - 1, more - 1);
    case _ =>
  }

  // ----- identifiers and first octets ---------------------------------------------------

  /** The operand tag is the identifier octet. */
  lemma {:induction false} IdentifierIsOpTag(e: Element, tag: Override, nrActions: nat)
    requires ElementOk(e, nrActions) && (tag.Some? ==> TagOk(tag.value) && !tag.value.cons)
    requires e.compound.NotCompound? || Der.IsConstructed(e.compound)
    ensures OpTag(e, tag) == Der.Identifier(e, tag)
    ensures !IsLongTag(Der.Identifier(e, tag))
    ensures HasConsBit(Der.Identifier(e, tag)) <==> Der.IsConstructed(e.compound)
    ensures TagMatches(Der.Identifier(e, tag), Der.Identifier(e, tag))
  {
    var t := if tag.Some? then tag.value else e;
    TagArithmetic(t.cls, Der.IsConstructed(e.compound), t.number);
    hide TagMatches, IsLongTag, HasConsBit;
  }

  lemma {:induction false} TagArithmetic(cls: nat, constructed: bool, number: nat)
    requires cls < 4 && number < 31
    ensures cls % 4 == cls && number % 32 == number
    ensures var x := cls * 64 + (if constructed then 32 else 0) + number;
            !IsLongTag(x) && (HasConsBit(x) <==> constructed) && TagMatches(x, x)
  {
  }

  // ----- CHOICE alternatives ------------------------------------------------------------

  /** A single tag-matching instruction that can be skipped, conditional or not. */
  predicate OneMatch(c: Code, cond: bool) {
    match c
    case Then(a, b) => OneMatch(a, cond) && b.Nil?
    case MatchAny(flag, _) => flag == cond
    case MatchPrim(_, flag, skip, _) => skip && flag == cond
    case Call(_, flag, skip, _) => skip && flag == cond
    case _ => false
  }

  /** A CHOICE alternative is one instruction: an earlier match passes it over if it is not
      the first. */
  lemma {:induction false} AlternativeCode(g: Grammar, fuel: nat, e: Element, nrActions: nat)
    requires RegularGrammar(g, fuel) && Regular(g, fuel, e) && IsAlternative(e) && e.skippable
    requires Sound(Render(g, e, None, fuel), nrActions)
    ensures OneMatch(Render(g, e, None, fuel), e.conditional)
  {
    if e.compound.TagOverride? {
      OverrideCode(g, fuel, fuel, e.compound.inner, e, nrActions);
    }
  }

  lemma {:induction false} OverrideCode(g: Grammar, fuel: nat, f: nat, e: Element, tag: Element, nrActions: nat)
    requires RegularGrammar(g, fuel) && f <= fuel && tag.skippable && Unflagged(e)
    requires Overridable(g, e, f) && Quiet(g, e, f)
    requires Sound(Render(g, e, Some(tag), fuel), nrActions)
    ensures OneMatch(Render(g, e, Some(tag), fuel), tag.conditional)
    decreases f
  {
    match e.compound
    case TypeRef(t) =>
      RefCode(g, e, Some(tag), fuel, nrActions);
      OverrideCode(g, fuel, f - 1, g.types[t], tag, nrActions);
    case _ =>
  }

  lemma {:induction false} AltIsSound(g: Grammar, fuel: nat, es: seq<Element>, i: nat, nrActions: nat)
    requires i < |es| && Sound(RenderAll(g, es, fuel), nrActions)
    ensures Sound(Render(g, es[i], None, fuel), nrActions)
    decreases es
  {
    hide Render;
    if i > 0 {
      AltIsSound(g, fuel, es[1..], i - 1, nrActions);
    }
  }

  lemma {:induction false} AltGrabs(g: Grammar, fuel: nat, es: seq<Element>, i: nat, o: Octet)
    requires i < |es| && Grabs(Render(g, es[i], None, fuel), o)
    ensures Grabs(RenderAll(g, es, fuel), o)
    decreases es
  {
    hide Render;
    if i > 0 {
      AltGrabs(g, fuel, es[1..], i - 1, o);
    }
  }

  // ----- first octets -------------------------------------------------------------------

  lemma {:induction false} BeginsGrabbed(g: Grammar, fuel: nat, e: Element, tag: Override, v: Der.Value, nrActions: nat)
    requires AllOk(g.types, nrActions) && ElementOk(e, nrActions) && (tag.Some? ==> TagOk(tag.value) && !tag.value.cons)
    requires RegularGrammar(g, fuel) && Regular(g, fuel, e)
    requires tag.Some? ==> exists f: nat :: Overridable(g, e, f)
    requires Sound(Render(g, e, tag, fuel), nrActions)
    requires Der.Conforms(g, e, v)
    ensures |Der.Encode(g, e, tag, v)| >= 2
    ensures var o := Der.Encode(g, e, tag, v)[0]; !IsLongTag(o) && Grabs(Render(g, e, tag, fuel), o)
    decreases v, e
  {
    hide TagOk, HasConsBit, IsLongTag, TagMatches, OpTag, Der.Identifier, Separate, Apart;
    Der.EncodeIsTlv(g, e, tag, v);
    match e.compound
    case TypeRef(t) =>
      RefCode(g, e, tag, fuel, nrActions);
      AllOkAt(g.types, t, nrActions);
      if tag.Some? {
        var f: nat :| Overridable(g, e, f);
        assert Overridable(g, g.types[t], f - 1);
      }
      BeginsGrabbed(g, fuel, g.types[t], tag, v.val, nrActions);
    case TagOverride(inner) =>
      BeginsGrabbed(g, fuel, inner, Some(e), v, nrActions);
    case Choice(es) =>
      AlternativeAt(g, fuel, es, true, v.index);
      AllOkAt(es, v.index, nrActions);
      AltIsSound(g, fuel, es, v.index, nrActions);
      BeginsGrabbed(g, fuel, es[v.index], None, v.val, nrActions);
      AltGrabs(g, fuel, es, v.index, Der.Encode(g, es[v.index], None, v.val)[0]);
    case Any =>
      Der.AnyIsShort(g, e, v);
    case _ =>
      IdentifierIsOpTag(e, tag, nrActions);
  }

  /** The octets of the remaining fields begin with a tag that may begin them. */
  lemma {:induction false} FieldsBegin(g: Grammar, fuel: nat, es: seq<Element>, vs: seq<Der.Value>, nrActions: nat)
    requires AllOk(g.types, nrActions) && AllOk(es, nrActions)
    requires RegularGrammar(g, fuel) && AllRegular(g, fuel, es)
    requires Sound(RenderAll(g, es, fuel), nrActions)
    requires Der.FieldsConform(g, es, vs) && Der.EncodeFields(g, es, vs) != []
    ensures |Der.EncodeFields(g, es, vs)| >= 2
    ensures var o := Der.EncodeFields(g, es, vs)[0]; !IsLongTag(o) && MayBegin(g, fuel, es, o)
    decreases es
  {
    hide Grabs, IsLongTag, Regular;
    if vs[0].Absent? {
      AbsentIsEmpty(g, es[0], None);
      FieldsBegin(g, fuel, es[1..], vs[1..], nrActions);
    } else {
      BeginsGrabbed(g, fuel, es[0], None, vs[0], nrActions);
    }
  }

  lemma {:induction false} AbsentIsEmpty(g: Grammar, e: Element, tag: Override)
    ensures Der.Encode(g, e, tag, Der.Absent) == []
  {
    match e.compound
    case TagOverride(inner) => AbsentIsEmpty(g, inner, if tag.Some? then tag else Some(e));
    case _ =>
  }

  // ----- code that can be passed over ---------------------------------------------------

  /** Nothing but skippable tag-matching instructions. */
  predicate Passable(c: Code) {
    match c
    case Nil => true
    case Then(a, b) => Passable(a) && Passable(b)
    case MatchAny(_, _) => true
    case MatchPrim(_, _, skip, _) => skip
    case Call(_, _, skip, _) => skip
    case _ => false
  }

  /** The code of an optional element of a regular grammar. */
  lemma {:induction false} OptionalIsPassable(g: Grammar, fuel: nat, e: Element, nrActions: nat)
    requires RegularGrammar(g, fuel) && Regular(g, fuel, e)
    requires Sound(Render(g, e, None, fuel), nrActions)
    requires e.skippable && !e.compound.TypeRef?
    ensures Passable(Render(g, e, None, fuel))
  {
    if e.compound.Choice? {
      AlternativesArePassable(g, fuel, e.compound.alternatives, true, nrActions);
    } else {
      AlternativeCode(g, fuel, e, nrActions);
      OneMatchIsPassable(Render(g, e, None, fuel), e.conditional);
    }
  }

  lemma {:induction false} OneMatchIsPassable(c: Code, cond: bool)
    requires OneMatch(c, cond)
    ensures Passable(c)
  {
    match c
    case Then(a, _) => OneMatchIsPassable(a, cond);
    case _ =>
  }

  lemma {:induction false} AlternativesArePassable(g: Grammar, fuel: nat, es: seq<Element>, first: bool, nrActions: nat)
    requires RegularGrammar(g, fuel) && Alternatives(g, fuel, es, first)
    requires Sound(RenderAll(g, es, fuel), nrActions)
    ensures Passable(RenderAll(g, es, fuel))
    decreases es
  {
    hide Render, Regular, RegularGrammar;
    if es != [] {
      AlternativeCode(g, fuel, es[0], nrActions);
      OneMatchIsPassable(Render(g, es[0], None, fuel), es[0].conditional);
      AlternativesArePassable(g, fuel, es[1..], false, nrActions);
    }
  }
}
