/** The index of type names: whatever order `qsort` gives to equal names, `bsearch` in the sorted
    index finds a type by its name. */
module TypeIndex {
  import opened Parser
  import opened FrontEnd

  /** `type_index_compare` and `type_finder`: by length, then by content. */
  function Compare(a: string, b: string): int {
    if |a| != |b| then |a| - |b| else StrCmp(a, b)
  }

  lemma {:induction false} CompareFlips(a: string, b: string)
    ensures Compare(a, b) < 0 <==> Compare(b, a) > 0
    ensures Compare(a, b) == 0 <==> a == b
  {
    StrCmpFlips(a, b);
    StrCmpEqual(a, b);
    hide StrCmp;
  }

  lemma {:induction false} CompareTrans(a: string, b: string, c: string)
    requires Compare(a, b) <= 0 && Compare(b, c) < 0
    ensures Compare(a, c) < 0
  {
    CompareFlips(a, b);
    if a != b && |a| == |b| == |c| {
      StrCmpTrans(a, b, c);
    }
    hide StrCmp;
  }

  /** The numbers of all types, ascending by name. */
  ghost predicate IsIndex(types: seq<string>, index: seq<nat>) {
    && |index| == |types|
    && (forall i :: 0 <= i < |index| ==> index[i] < |types|)
    && (forall t :: 0 <= t < |types| ==> t in index)
    && (forall i, j :: 0 <= i < j < |index| ==> Compare(types[index[i]], types[index[j]]) <= 0)
  }

  /** `bsearch` between `lo` and `hi`; the number of types stands for NULL. */
  function Search(types: seq<string>, index: seq<nat>, name: string, lo: nat, hi: nat): nat
    requires hi <= |index| && forall i :: 0 <= i < |index| ==> index[i] < |types|
    decreases hi - lo
  {
    if lo >= hi then |types|
    else
      var mid := (lo + hi) / 2;
      var c := Compare(name, types[index[mid]]);
      if c < 0 then Search(types, index, name, lo, mid)
      else if c > 0 then Search(types, index, name, mid + 1, hi)
      else index[mid]
  }

  lemma {:induction false} SearchMeans(types: seq<string>, index: seq<nat>, name: string, lo: nat, hi: nat)
    requires IsIndex(types, index) && lo <= hi <= |index|
    requires forall i :: 0 <= i < |index| && types[index[i]] == name ==> lo <= i < hi
    ensures var r := Search(types, index, name, lo, hi);
            r <= |types| && (r < |types| ==> types[r] == name) && (r == |types| <==> name !in types)
    decreases hi - lo
  {
    hide Compare;
    if lo < hi {
      var mid := (lo + hi) / 2;
      var at := types[index[mid]];
      CompareFlips(name, at);
      forall i | 0 <= i < |index| && types[index[i]] == name
        ensures Compare(name, at) < 0 ==> i < mid
        ensures Compare(name, at) > 0 ==> i > mid
      {
        if Compare(name, at) < 0 && mid < i {
          CompareTrans(at, name, at);
        }
        if Compare(name, at) > 0 && i < mid {
          CompareTrans(name, at, name);
        }
      }
      if Compare(name, at) < 0 {
        SearchMeans(types, index, name, lo, mid);
      } else if Compare(name, at) > 0 {
        SearchMeans(types, index, name, mid + 1, hi);
      }
    } else {
      forall t | 0 <= t < |types|
        ensures types[t] != name
      {
        assert t in index;
        var i :| 0 <= i < |index| && index[i] == t;
      }
    }
  }

  /** The search the parser relies on. */
  lemma {:induction false} IndexFinds(types: seq<string>, index: seq<nat>)
    requires IsIndex(types, index)
    ensures Finds(types, n => Search(types, index, n, 0, |index|))
  {
    forall n: string { SearchMeans(types, index, n, 0, |index|); }
    hide Search, IsIndex;
  }
}
