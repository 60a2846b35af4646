/** The hotkey list of showhotkeys.c: each new variable goes to the front of the ring and is
    bubbled to its place by swapping links. */
module HotKeys {
  import opened Ring

  // ----- option numbers -----------------------------------------------------------------

  /** What the digit `c` adds to a number read so far: `A` to `F` count as 0 to 5, and
      characters that are no digits are left out. */
  function WithDigit(n: nat, c: char): nat {
    if '0' <= c <= '9' then n * 10 + (c as int - '0' as int)
    else if 'A' <= c <= 'F' then n * 10 + (c as int - 'A' as int)
    else n
  }

  /** The number read from characters 3 up to `i`. */
  function NumberUpTo(name: string, i: nat): nat
    requires i <= |name|
  {
    if i <= 3 then 0 else WithDigit(NumberUpTo(name, i - 1), name[i - 1])
  }

  /** The key hotkeys are sorted by. */
  function OptionNumber(name: string): nat {
    if |name| < 7 then 0 else NumberUpTo(name, 7)
  }

  lemma {:induction false} NumberFits(name: string, i: nat)
    requires 3 <= i <= |name| && i <= 7
    ensures NumberUpTo(name, i) < if i == 3 then 1 else if i == 4 then 10 else if i == 5 then 100 else if i == 6 then 1000 else 10000
  {
    if i > 3 {
      NumberFits(name, i - 1);
    }
  }

  /** `CompareOptionNumbers`, with its 16-bit variables. */
  method CompareOptionNumbers(name1: string, name2: string) returns (r: int)
    requires |name1| >= 7 && |name2| >= 7
    ensures r > 0 <==> OptionNumber(name1) > OptionNumber(name2)
    ensures r < 0 <==> OptionNumber(name1) < OptionNumber(name2)
  {
    var optionNumber1, optionNumber2 := 0, 0;
    for index := 3 to 7
      invariant optionNumber1 == NumberUpTo(name1, index)
    {
      NumberFits(name1, index + 1);
      if '0' <= name1[index] <= '9' {
        optionNumber1 := (optionNumber1 * 10 + name1[index] as int - '0' as int) % 0x10000;
      } else if 'A' <= name1[index] <= 'F' {
        optionNumber1 := (optionNumber1 * 10 + name1[index] as int - 'A' as int) % 0x10000;
      }
    }
    for index := 3 to 7
      invariant optionNumber2 == NumberUpTo(name2, index)
    {
      NumberFits(name2, index + 1);
      if '0' <= name2[index] <= '9' {
        optionNumber2 := (optionNumber2 * 10 + name2[index] as int - '0' as int) % 0x10000;
      } else if 'A' <= name2[index] <= 'F' {
        optionNumber2 := (optionNumber2 * 10 + name2[index] as int - 'A' as int) % 0x10000;
      }
    }
    if optionNumber1 > optionNumber2 { return 1; }
    if optionNumber1 < optionNumber2 { return -1; }
    return 0;
  }

  /** The number the digits stand for in a `Key####` variable: four hexadecimal digits. */
  function HexUpTo(name: string, i: nat): nat
    requires i <= |name|
  {
    if i <= 3 then 0
    else
      var c, n := name[i - 1], HexUpTo(name, i - 1);
      if '0' <= c <= '9' then n * 16 + (c as int - '0' as int)
      else if 'A' <= c <= 'F' then n * 16 + 10 + (c as int - 'A' as int)
      else n
  }

  predicate HexDigits(name: string, i: nat)
    requires i <= |name|
  {
    forall k :: 3 <= k < i ==> '0' <= name[k] <= '9' || 'A' <= name[k] <= 'F'
  }

  /** The value of a digit: as a hexadecimal one, or as the comparison takes it. */
  function Digit(c: char, hex: bool): int {
    if '0' <= c <= '9' then c as int - '0' as int else c as int - 'A' as int + (if hex then 10 else 0)
  }

  function Direction(x: int): int {
    if x > 0 then 1 else if x < 0 then -1 else 0
  }

  /** The direction of the first place, before `i`, where the values of the digits differ; 0 if
      there is none. */
  function FirstDifference(a: string, b: string, i: nat, hex: bool): int
    requires i <= |a| && i <= |b|
  {
    if i <= 3 then 0
    else
      var d := FirstDifference(a, b, i - 1, hex);
      if d != 0 then d else Direction(Digit(a[i - 1], hex) - Digit(b[i - 1], hex))
  }

  /** Numbers compare as their first differing digits do, in either reading. */
  lemma {:induction false} DigitsDecide(a: string, b: string, i: nat)
    requires i <= |a| && i <= |b| && HexDigits(a, i) && HexDigits(b, i)
    ensures Direction(NumberUpTo(a, i) - NumberUpTo(b, i)) == FirstDifference(a, b, i, false)
    ensures Direction(HexUpTo(a, i) - HexUpTo(b, i)) == FirstDifference(a, b, i, true)
  {
    if i > 3 {
      DigitsDecide(a, b, i - 1);
    }
  }

  /** Exactly when two hotkeys are in the order of their hexadecimal numbers: the first digits
      that differ with `A` to `F` taken as 0 to 5, and the first that differ at all, differ in the
      same direction, or there are none of either. */
  lemma {:induction false} OrderIsHexOrder(a: string, b: string)
    requires |a| >= 7 && |b| >= 7 && HexDigits(a, 7) && HexDigits(b, 7)
    ensures Direction(OptionNumber(a) - OptionNumber(b)) == Direction(HexUpTo(a, 7) - HexUpTo(b, 7))
            <==> FirstDifference(a, b, 7, false) == FirstDifference(a, b, 7, true)
  {
    DigitsDecide(a, b, 7);
    hide NumberUpTo, HexUpTo, FirstDifference;
  }

  /** Between names without letters it always is. */
  lemma {:induction false} DecimalOrder(a: string, b: string, i: nat)
    requires i <= |a| && i <= |b| && forall k :: 3 <= k < i ==> '0' <= a[k] <= '9' && '0' <= b[k] <= '9'
    ensures FirstDifference(a, b, i, false) == FirstDifference(a, b, i, true)
  {
    if i > 3 {
      DecimalOrder(a, b, i - 1);
    }
  }

  /** In general it is not: the tenth option sorts before the first. */
  lemma {:induction false} OrderIsNotHexOrder()
    ensures var first, tenth := "Key0001", "Key000A";
            OptionNumber(tenth) < OptionNumber(first) && HexUpTo(tenth, 7) > HexUpTo(first, 7)
  {
    var first, tenth := "Key0001", "Key000A";
    assert NumberUpTo(first, 4) == 0 == NumberUpTo(tenth, 4) && HexUpTo(first, 4) == 0 == HexUpTo(tenth, 4);
    assert NumberUpTo(first, 6) == 0 == NumberUpTo(tenth, 6) && HexUpTo(first, 6) == 0 == HexUpTo(tenth, 6);
  }

  // ----- sorting as a function ----------------------------------------------------------

  /** Where a name goes: before the first one whose number is not smaller. */
  function Place(names: seq<string>, name: string): (p: nat)
    ensures p <= |names|
  {
    if names == [] || OptionNumber(names[0]) >= OptionNumber(name) then 0 else 1 + Place(names[1..], name)
  }

  ghost predicate Ascending(names: seq<string>) {
    forall i, j :: 0 <= i < j < |names| ==> OptionNumber(names[i]) <= OptionNumber(names[j])
  }

  lemma {:induction false} PlaceMeans(names: seq<string>, name: string, p: nat)
    requires p <= |names|
    requires forall i :: 0 <= i < p ==> OptionNumber(names[i]) < OptionNumber(name)
    requires p < |names| ==> OptionNumber(names[p]) >= OptionNumber(name)
    ensures Place(names, name) == p
  {
    if p > 0 {
      PlaceMeans(names[1..], name, p - 1);
    }
  }

  /** The names the list holds after all insertions, front first. */
  function Collected(names: seq<string>, sort: bool): seq<string> {
    if names == [] then []
    else
      var before, name := Collected(names[..|names| - 1], sort), names[|names| - 1];
      Inserted(before, if sort then Place(before, name) else 0, name)
  }

  lemma {:induction false} PlaceSplits(names: seq<string>, name: string)
    requires Ascending(names)
    ensures forall i :: 0 <= i < Place(names, name) ==> OptionNumber(names[i]) < OptionNumber(name)
    ensures forall i :: Place(names, name) <= i < |names| ==> OptionNumber(names[i]) >= OptionNumber(name)
  {
    if names != [] && OptionNumber(names[0]) < OptionNumber(name) {
      PlaceSplits(names[1..], name);
      var p := Place(names[1..], name);
      forall i | 0 <= i < |names|
        ensures i < p + 1 ==> OptionNumber(names[i]) < OptionNumber(name)
        ensures i >= p + 1 ==> OptionNumber(names[i]) >= OptionNumber(name)
      {
        assert i > 0 ==> names[i] == names[1..][i - 1];
      }
    }
  }

  lemma {:induction false} InsertedAscends(names: seq<string>, name: string)
    requires Ascending(names)
    ensures Ascending(Inserted(names, Place(names, name), name))
  {
    PlaceSplits(names, name);
    hide OptionNumber, Place;
    var p := Place(names, name);
    var t := Inserted(names, p, name);
    forall i, j | 0 <= i < j < |t|
      ensures OptionNumber(t[i]) <= OptionNumber(t[j])
    {
      assert t[i] == if i < p then names[i] else if i == p then name else names[i - 1];
      assert t[j] == if j < p then names[j] else if j == p then name else names[j - 1];
    }
  }

  /** The sorted list is ascending by option number and holds exactly the given names; of
      names with the same number, each one stands before all that came earlier. */
  lemma {:induction false} SortedHotKeys(names: seq<string>)
    ensures Ascending(Collected(names, true))
    ensures multiset(Collected(names, true)) == multiset(names)
    ensures forall n :: WithNumber(Collected(names, true), n) == Backwards(WithNumber(names, n))
    ensures names != [] ==> LeadsItsEquals(Collected(names, true), names[|names| - 1])
  {
    NoneAscends();
    hide OptionNumber, Place, Ascending, Inserted, LeadsItsEquals, WithNumber, Backwards;
    forall n { NoneWithNumber(n); }
    if names != [] {
      var before, last := names[..|names| - 1], names[|names| - 1];
      SortedHotKeys(before);
      var list := Collected(before, true);
      InsertedAscends(list, last);
      InsertedLeads(list, last);
      InsertedHolds(list, Place(list, last), last);
      assert names == before + [last];
      forall n
        ensures WithNumber(Collected(names, true), n) == Backwards(WithNumber(names, n))
      {
        InsertedWithNumber(list, last, n);
        LastWithNumber(before, last, n);
        assert Collected(names, true) == Inserted(list, Place(list, last), last);
      }
    }
  }

  /** The names with option number `n`, in their order. */
  function WithNumber(names: seq<string>, n: nat): seq<string> {
    if names == [] then []
    else
      var last := names[|names| - 1];
      WithNumber(names[..|names| - 1], n) + (if OptionNumber(last) == n then [last] else [])
  }

  function Backwards(names: seq<string>): seq<string> {
    if names == [] then [] else [names[|names| - 1]] + Backwards(names[..|names| - 1])
  }

  lemma {:induction false} NoneWithNumber(n: nat)
    ensures WithNumber([], n) == [] && Backwards(WithNumber([], n)) == []
  {
  }

  lemma {:induction false} LastWithNumber(names: seq<string>, last: string, n: nat)
    ensures Backwards(WithNumber(names + [last], n)) ==
            (if OptionNumber(last) == n then [last] else []) + Backwards(WithNumber(names, n))
  {
    assert (names + [last])[..|names|] == names;
    var w := WithNumber(names, n);
    assert (w + [last])[..|w|] == w && w + [] == w;
    hide OptionNumber;
  }

  lemma {:induction false} WithNumberConcat(a: seq<string>, b: seq<string>, n: nat)
    ensures WithNumber(a + b, n) == WithNumber(a, n) + WithNumber(b, n)
  {
    hide OptionNumber;
    if b == [] {
      assert a + b == a;
    } else {
      assert (a + b)[..|a + b| - 1] == a + b[..|b| - 1];
      WithNumberConcat(a, b[..|b| - 1], n);
    }
  }

  lemma {:induction false} NoneBelow(names: seq<string>, n: nat)
    requires forall i :: 0 <= i < |names| ==> OptionNumber(names[i]) < n
    ensures WithNumber(names, n) == []
  {
    hide OptionNumber;
    if names != [] {
      NoneBelow(names[..|names| - 1], n);
    }
  }

  lemma {:induction false} InsertedWithNumber(list: seq<string>, name: string, n: nat)
    requires Ascending(list)
    ensures WithNumber(Inserted(list, Place(list, name), name), n) ==
            (if OptionNumber(name) == n then [name] else []) + WithNumber(list, n)
  {
    PlaceSplits(list, name);
    var p := Place(list, name);
    var a, b := list[..p], list[p..];
    assert Inserted(list, p, name) == a + ([name] + b) && list == a + b;
    assert OptionNumber(name) == n ==> forall i :: 0 <= i < |a| ==> OptionNumber(a[i]) < n;
    hide OptionNumber, Place, Ascending, Inserted;
    BetweenWithNumber(a, name, b, n);
  }

  lemma {:induction false} BetweenWithNumber(a: seq<string>, name: string, b: seq<string>, n: nat)
    requires OptionNumber(name) == n ==> forall i :: 0 <= i < |a| ==> OptionNumber(a[i]) < n
    ensures WithNumber(a + ([name] + b), n) == (if OptionNumber(name) == n then [name] else []) + WithNumber(a + b, n)
  {
    hide *;
    WithNumberConcat(a, [name] + b, n);
    WithNumberConcat([name], b, n);
    WithNumberConcat(a, b, n);
    OneWithNumber(name, n);
    if OptionNumber(name) == n {
      NoneBelow(a, n);
      EmptyVanishes([name], WithNumber(b, n));
    } else {
      EmptyVanishes(WithNumber(a, n), WithNumber(b, n));
    }
  }

  lemma {:induction false} EmptyVanishes(u: seq<string>, v: seq<string>)
    ensures [] + (u + v) == u + ([] + v) == u + v
  {
  }

  lemma {:induction false} OneWithNumber(name: string, n: nat)
    ensures WithNumber([name], n) == if OptionNumber(name) == n then [name] else []
  {
    hide OptionNumber;
    assert [name][..0] == [] && WithNumber([], n) == [];
  }

  lemma {:induction false} NoneAscends()
    ensures Ascending([])
  {
  }

  /** `name` stands in the list, and everything before it has a smaller number. */
  ghost predicate LeadsItsEquals(list: seq<string>, name: string) {
    exists p :: 0 <= p < |list| && list[p] == name
      && forall i :: 0 <= i < p ==> OptionNumber(list[i]) < OptionNumber(name)
  }

  lemma {:induction false} InsertedLeads(list: seq<string>, name: string)
    requires Ascending(list)
    ensures LeadsItsEquals(Inserted(list, Place(list, name), name), name)
  {
    PlaceSplits(list, name);
    hide OptionNumber, Place, Ascending;
    var p := Place(list, name);
    assert Inserted(list, p, name)[p] == name;
  }

  lemma {:induction false} InsertedHolds(list: seq<string>, p: nat, name: string)
    requires p <= |list|
    ensures multiset(Inserted(list, p, name)) == multiset(list) + multiset{name}
  {
    assert list == list[..p] + list[p..];
  }

  // ----- the list -----------------------------------------------------------------------

  function Names(items: seq<ListEntry>): (names: seq<string>)
    ensures |names| == |items|
  {
    seq(|items|, i requires 0 <= i < |items| => items[i].name)
  }

  /** The ring of the list head and the entries `items`. */
  ghost predicate IsList(head: ListEntry, items: seq<ListEntry>)
    reads head, items
  {
    IsRing([head] + items)
  }

  ghost predicate NamesOk(items: seq<ListEntry>) {
    forall i :: 0 <= i < |items| ==> |items[i].name| >= 7
  }

  /** The new entry `x` goes to the front and, if the list is to be sorted, is swapped with
      the entry behind it as long as its number is greater. */
  method InsertHotKey(head: ListEntry, x: ListEntry, ghost items: seq<ListEntry>, sort: bool)
    requires IsList(head, items) && x !in [head] + items && |x.name| >= 7 && NamesOk(items)
    requires sort ==> Ascending(Names(items))
    modifies head, items, x
    ensures IsList(head, Inserted(items, if sort then Place(Names(items), x.name) else 0, x))
  {
    hide OptionNumber, Place;
    var h := InsertHeadList(head, x, [head] + items, 1);
    assert Inserted([head] + items, 1, x) == [head] + ([x] + items) == [head] + Inserted(items, 0, x);
    if sort {
      Bubble(head, x, items);
    }
  }

  method Bubble(head: ListEntry, x: ListEntry, ghost items: seq<ListEntry>)
    requires IsList(head, [x] + items) && |x.name| >= 7 && NamesOk(items)
    requires Ascending(Names(items))
    modifies head, items, x
    ensures IsList(head, Inserted(items, Place(Names(items), x.name), x))
  {
    hide OptionNumber, Place, IsRing, Inserted, Swapped, Ascending;
    ghost var p, at := 0, 1;
    ghost var s := [head] + Inserted(items, 0, x);
    NothingBefore(items, x);
    OnRing(head, items, 0, x, 0);
    var node, prevNode := head.forwardLink, head.forwardLink;
    while node != head
      invariant 0 <= p <= |items| && s == [head] + Inserted(items, p, x) && |s| == |items| + 2 && IsRing(s)
      invariant p + 1 <= at <= |items| + 2 && node == (if at == |items| + 2 then head else s[at])
      invariant prevNode == x
      invariant forall i :: 0 <= i < p ==> OptionNumber(items[i].name) < OptionNumber(x.name)
      invariant forall i :: p <= i < at - 2 ==> OptionNumber(items[i].name) == OptionNumber(x.name)
      decreases |items| - p, |items| + 2 - at
    {
      OnRing(head, items, p, x, at);
      EqualsThenMore(items, x, p, at);
      var result := CompareOptionNumbers(prevNode.name, node.name);
      if result > 0 {
        SwappedOn(head, items, p, x);
        node := SwapListEntries(prevNode, node, s, p + 1, p + 2);
        p := p + 1;
        s := [head] + Inserted(items, p, x);
        at := p;
        OnRing(head, items, p, x, at);
      } else if result < 0 {
        FoundPlace(items, x, p, at);
        return;
      }
      node := node.forwardLink;
      at := at + 1;
    }
    if at < |items| + 2 {
      OnRing(head, items, p, x, at);
    }
    FoundPlace(items, x, p, at);
  }

  lemma {:induction false} NothingBefore(items: seq<ListEntry>, x: ListEntry)
    ensures Inserted(items, 0, x) == [x] + items
  {
  }

  /** What stands at place `at` of the ring, and what it is linked to. */
  lemma {:induction false} OnRing(head: ListEntry, items: seq<ListEntry>, p: nat, x: ListEntry, at: nat)
    requires p <= |items| && at < |items| + 2 && IsRing([head] + Inserted(items, p, x))
    ensures var s := [head] + Inserted(items, p, x);
            && |s| == |items| + 2
            && s[at] == (if at == 0 then head else if at <= p then items[at - 1] else if at == p + 1 then x else items[at - 2])
            && (at > 0 ==> s[at] != head)
            && s[p + 1] == x && (p < |items| ==> s[p + 2] == items[p])
            && (s[at].forwardLink == if at + 1 == |s| then head else s[at + 1])
            && forall i :: 0 <= i < |s| ==> s[i] == head || s[i] == x || s[i] in items
  {
    var s := [head] + Inserted(items, p, x);
    assert s[0] == head;
    assert LinkedAt(s, at);
  }

  /** In an ascending list only the entry right behind `x` can have a smaller number. */
  lemma {:induction false} EqualsThenMore(items: seq<ListEntry>, x: ListEntry, p: nat, at: nat)
    requires Ascending(Names(items)) && p + 1 <= at < |items| + 2
    requires forall i :: p <= i < at - 2 ==> OptionNumber(items[i].name) == OptionNumber(x.name)
    ensures at > p + 2 ==> OptionNumber(items[at - 2].name) >= OptionNumber(x.name)
  {
    hide OptionNumber;
    if at > p + 2 {
      assert Names(items)[p] == items[p].name && Names(items)[at - 2] == items[at - 2].name;
    }
  }

  lemma {:induction false} SwappedOn(head: ListEntry, items: seq<ListEntry>, p: nat, x: ListEntry)
    requires p < |items|
    ensures |Inserted(items, p, x)| == |items| + 1
    ensures Swapped([head] + Inserted(items, p, x), p + 1, p + 2) == [head] + Inserted(items, p + 1, x)
  {
  }

  lemma {:induction false} FoundPlace(items: seq<ListEntry>, x: ListEntry, p: nat, at: nat)
    requires Ascending(Names(items)) && p <= |items| && p + 1 <= at <= |items| + 2
    requires forall i :: 0 <= i < p ==> OptionNumber(items[i].name) < OptionNumber(x.name)
    requires forall i :: p <= i < at - 2 ==> OptionNumber(items[i].name) == OptionNumber(x.name)
    requires at < |items| + 2 ==> at > p + 1 && OptionNumber(x.name) < OptionNumber(items[at - 2].name)
    ensures Place(Names(items), x.name) == p
  {
    hide OptionNumber;
    var names := Names(items);
    assert forall i :: 0 <= i < |items| ==> names[i] == items[i].name;
    if p < |items| {
      assert names[p] == items[p].name;
    }
    PlaceMeans(names, x.name, p);
  }

  // ----- the program --------------------------------------------------------------------

  /** A firmware variable: its name, and whether its GUID is that of the global variables. */
  datatype Variable = Variable(name: string, isGlobal: bool)

  predicate IsHotKeyVariable(v: Variable) {
    v.isGlobal && |v.name| == 7 && v.name[..3] == "Key"
  }

  function HotKeyNames(variables: seq<Variable>): seq<string> {
    if variables == [] then []
    else
      var before, v := HotKeyNames(variables[..|variables| - 1]), variables[|variables| - 1];
      if IsHotKeyVariable(v) then before + [v.name] else before
  }

  /** How often a name is to be shown: once for each global variable that has it, if it has seven
      characters and begins with `Key`. */
  function TimesShown(variables: seq<Variable>, n: string): nat {
    if |n| == 7 && n[..3] == "Key" then multiset(variables)[Variable(n, true)] else 0
  }

  lemma {:induction false} NamesAsOften(variables: seq<Variable>, n: string)
    ensures multiset(HotKeyNames(variables))[n] == TimesShown(variables, n)
    decreases variables
  {
    if variables != [] {
      var before, v := variables[..|variables| - 1], variables[|variables| - 1];
      NamesAsOften(before, n);
      assert variables == before + [v];
    }
  }

  lemma {:induction false} CollectedHolds(names: seq<string>)
    ensures multiset(Collected(names, false)) == multiset(names)
    decreases names
  {
    hide Inserted;
    if names != [] {
      var before, last := names[..|names| - 1], names[|names| - 1];
      CollectedHolds(before);
      InsertedHolds(Collected(before, false), 0, last);
      assert names == before + [last];
    }
  }

  /** The names to be shown, those of the last variables first. */
  function LatestFirst(variables: seq<Variable>): seq<string> {
    if variables == [] then []
    else
      var Variable(n, isGlobal) := variables[0];
      LatestFirst(variables[1..]) + (if isGlobal && |n| == 7 && n[..3] == "Key" then [n] else [])
  }

  lemma {:induction false} LatestSnoc(variables: seq<Variable>, v: Variable)
    ensures LatestFirst(variables + [v]) == LatestFirst([v]) + LatestFirst(variables)
    decreases variables
  {
    if variables == [] {
      assert variables + [v] == [v] && LatestFirst(variables) == [];
    } else {
      assert (variables + [v])[1..] == variables[1..] + [v] && (variables + [v])[0] == variables[0];
      LatestSnoc(variables[1..], v);
    }
  }

  lemma {:induction false} CollectedBackwards(variables: seq<Variable>)
    ensures Collected(HotKeyNames(variables), false) == LatestFirst(variables)
    decreases variables
  {
    if variables != [] {
      var before, v := variables[..|variables| - 1], variables[|variables| - 1];
      assert variables == before + [v] && [v][1..] == [];
      CollectedBackwards(before);
      LatestSnoc(before, v);
      CollectedNext(HotKeyNames(before), v.name, false);
      assert LatestFirst([v]) == if IsHotKeyVariable(v) then [v.name] else [];
    }
  }

  lemma {:induction false} ShownAsOften(variables: seq<Variable>, sort: bool)
    ensures var out := Collected(HotKeyNames(variables), sort);
            && (forall n :: multiset(out)[n] == TimesShown(variables, n))
            && (forall n :: n in out <==> |n| == 7 && n[..3] == "Key" && Variable(n, true) in variables)
            && (sort ==> Ascending(out))
            && (!sort ==> out == LatestFirst(variables))
  {
    hide HotKeyNames, Collected, Ascending, LatestFirst;
    var names := HotKeyNames(variables);
    if sort {
      SortedHotKeys(names);
    } else {
      CollectedHolds(names);
      CollectedBackwards(variables);
    }
    var out := Collected(names, sort);
    forall n
      ensures multiset(out)[n] == TimesShown(variables, n)
      ensures n in out <==> |n| == 7 && n[..3] == "Key" && Variable(n, true) in variables
    {
      NamesAsOften(variables, n);
      assert n in out <==> multiset(out)[n] > 0;
    }
  }

  /** The loop over the variables, which builds the list, and the loop that prints and
      empties it. */
  method ShowHotKeys(variables: seq<Variable>, noSort: bool) returns (out: seq<string>)
    ensures out == Collected(HotKeyNames(variables), !noSort)
    ensures forall n :: multiset(out)[n] == TimesShown(variables, n)
    ensures forall n :: n in out <==> |n| == 7 && n[..3] == "Key" && Variable(n, true) in variables
    ensures !noSort ==> Ascending(out)
    ensures noSort ==> out == LatestFirst(variables)
  {
    hide OptionNumber, Place, IsList, Ascending, IsHotKeyVariable, Inserted, Collected, Names, HotKeyNames, NamesOk;
    ShownAsOften(variables, !noSort);
    var head := new ListEntry("");
    InitializeListHead(head);
    ghost var items: seq<ListEntry> := [];
    NoItems(head, !noSort);
    for i := 0 to |variables|
      invariant fresh(head) && (forall k :: 0 <= k < |items| ==> fresh(items[k])) && head !in items
      invariant IsList(head, items) && NamesOk(items)
      invariant Names(items) == Collected(HotKeyNames(variables[..i]), !noSort)
    {
      NamesNext(variables, i);
      if IsHotKeyVariable(variables[i]) {
        var x := new ListEntry(variables[i].name);
        if !noSort { SortedHotKeys(HotKeyNames(variables[..i])); }
        HotKeyLength(variables[i]);
        ghost var p := if noSort then 0 else Place(Names(items), x.name);
        NotThere(head, items, x);
        NamesInserted(items, p, x);
        InsertHotKey(head, x, items, !noSort);
        CollectedNext(HotKeyNames(variables[..i]), x.name, !noSort);
        items := Inserted(items, p, x);
      }
    }
    assert variables[..|variables|] == variables;
    out := Drain(head, items);
  }

  lemma {:induction false} NotThere(head: ListEntry, items: seq<ListEntry>, x: ListEntry)
    requires x != head && forall k :: 0 <= k < |items| ==> items[k] != x
    ensures x !in [head] + items
  {
  }

  lemma {:induction false} NoItems(head: ListEntry, sort: bool)
    requires IsRing([head])
    ensures IsList(head, []) && Names([]) == Collected(HotKeyNames([]), sort) && NamesOk([])
  {
    assert [head] + [] == [head];
  }

  lemma {:induction false} HotKeyLength(v: Variable)
    requires IsHotKeyVariable(v)
    ensures |v.name| == 7
  {
  }

  lemma {:induction false} NamesNext(variables: seq<Variable>, i: nat)
    requires i < |variables|
    ensures HotKeyNames(variables[..i + 1]) ==
            if IsHotKeyVariable(variables[i]) then HotKeyNames(variables[..i]) + [variables[i].name]
            else HotKeyNames(variables[..i])
    ensures variables[..0] == []
  {
    assert variables[..i + 1][..i] == variables[..i];
  }

  lemma {:induction false} NamesInserted(items: seq<ListEntry>, p: nat, x: ListEntry)
    requires p <= |items| && NamesOk(items) && |x.name| >= 7
    ensures Names(Inserted(items, p, x)) == Inserted(Names(items), p, x.name) && NamesOk(Inserted(items, p, x))
    ensures forall k :: 0 <= k < |Inserted(items, p, x)| ==>
              Inserted(items, p, x)[k] == x || Inserted(items, p, x)[k] in items
  {
  }

  lemma {:induction false} CollectedNext(names: seq<string>, name: string, sort: bool)
    ensures Collected(names + [name], sort) ==
            Inserted(Collected(names, sort), if sort then Place(Collected(names, sort), name) else 0, name)
  {
    assert (names + [name])[..|names|] == names;
  }

  /** Prints the first entry and takes it off until the list is empty. */
  method Drain(head: ListEntry, ghost items: seq<ListEntry>) returns (out: seq<string>)
    requires IsList(head, items)
    modifies head, items
    ensures out == Names(items) && IsList(head, [])
  {
    hide Names;
    ghost var left := items;
    out := [];
    assert LinkedAt([head] + items, 0);
    while head.forwardLink != head
      invariant IsList(head, left) && |left| <= |items| && left == items[|items| - |left|..]
      invariant out + Names(left) == Names(items)
      invariant head.forwardLink == if left == [] then head else left[0]
      decreases |left|
    {
      var node := head.forwardLink;
      assert ([head] + left)[1] == left[0];
      FirstName(left, out);
      out := out + [node.name];
      var next := RemoveEntryList(node, [head] + left, 1);
      assert Removed([head] + left, 1) == [head] + left[1..];
      left := left[1..];
      assert LinkedAt([head] + left, 0);
    }
    OnlyHead(head, left);
  }

  lemma {:induction false} FirstName(left: seq<ListEntry>, out: seq<string>)
    requires left != []
    ensures out + Names(left) == out + [left[0].name] + Names(left[1..])
  {
    assert Names(left) == [left[0].name] + Names(left[1..]);
  }

  lemma {:induction false} OnlyHead(head: ListEntry, left: seq<ListEntry>)
    requires IsList(head, left) && head.forwardLink == head
    ensures left == []
  {
    var s := [head] + left;
    assert LinkedAt(s, 0);
    assert s[0] == s[After(0, |s|)];
  }
}
