/** The intrusive doubly linked rings of showhotkeys/efilink.c. */
module Ring {
  /** A LIST_ENTRY; `name` is what the structure around it carries. */
  class ListEntry {
    var forwardLink: ListEntry?
    var backLink: ListEntry?
    const name: string

    constructor (name: string)
      ensures this.name == name
    {
      this.name := name;
      forwardLink, backLink := null, null;
    }
  }

  // ----- rings as sequences -------------------------------------------------------------

  function After(i: nat, n: nat): nat {
    if i + 1 == n then 0 else i + 1
  }

  ghost predicate Distinct(s: seq<ListEntry>) {
    forall i, j :: 0 <= i < j < |s| ==> s[i] != s[j]
  }

  /** Both directions of the link from `a` to `b`. */
  ghost predicate Linked(a: ListEntry, b: ListEntry)
    reads a, b
  {
    a.forwardLink == b && b.backLink == a
  }

  ghost predicate LinkedAt(s: seq<ListEntry>, i: nat)
    requires i < |s|
    reads s
  {
    Linked(s[i], s[After(i, |s|)])
  }

  /** The nodes `s`, in this order, form a ring. */
  ghost predicate IsRing(s: seq<ListEntry>)
    reads s
  {
    |s| > 0 && Distinct(s) && forall i :: 0 <= i < |s| ==> LinkedAt(s, i)
  }

  function Inserted<T>(s: seq<T>, p: nat, e: T): seq<T>
    requires p <= |s|
  {
    s[..p] + [e] + s[p..]
  }

  function Removed<T>(s: seq<T>, p: nat): seq<T>
    requires p < |s|
  {
    s[..p] + s[p + 1..]
  }

  /** The node before and the node after place `p`. */
  function Pred<T>(s: seq<T>, p: nat): T
    requires 0 < |s| && p <= |s|
  {
    if p == 0 then s[|s| - 1] else s[p - 1]
  }

  function Succ<T>(s: seq<T>, p: nat): T
    requires 0 < |s| && p <= |s|
  {
    if p == |s| then s[0] else s[p]
  }

  /** Number of the link that is cut when something goes to place `p`. */
  function CutAt(n: nat, p: nat): nat
    requires 0 < n
  {
    if p == 0 then n - 1 else p - 1
  }

  lemma {:induction false} InsertedIsRing(s: seq<ListEntry>, p: nat, e: ListEntry)
    requires |s| > 0 && Distinct(s) && p <= |s| && e !in s
    requires forall i :: 0 <= i < |s| && i != CutAt(|s|, p) ==> LinkedAt(s, i)
    requires Linked(Pred(s, p), e) && Linked(e, Succ(s, p))
    ensures IsRing(Inserted(s, p, e))
  {
    var t := Inserted(s, p, e);
    assert forall i :: 0 <= i < |t| ==> t[i] == if i < p then s[i] else if i == p then e else s[i - 1];
    forall i | 0 <= i < |t|
      ensures LinkedAt(t, i)
    {
      if i == p {
      } else if i + 1 == p {
      } else if i < p {
        assert LinkedAt(s, i);
      } else if i < |s| {
        assert LinkedAt(s, i - 1);
      } else if p > 0 {
        assert LinkedAt(s, i - 1);
      }
    }
  }

  lemma {:induction false} RemovedIsDistinct(s: seq<ListEntry>, p: nat)
    requires Distinct(s) && p < |s|
    ensures Distinct(Removed(s, p)) && s[p] !in Removed(s, p)
  {
    var t := Removed(s, p);
    assert forall i :: 0 <= i < |t| ==> t[i] == if i < p then s[i] else s[i + 1];
    forall i, j | 0 <= i < j < |t|
      ensures t[i] != t[j]
    {
      assert t[i] == if i < p then s[i] else s[i + 1];
      assert t[j] == if j < p then s[j] else s[j + 1];
    }
  }

  lemma {:induction false} RemovedIsRing(s: seq<ListEntry>, p: nat)
    requires |s| > 1 && Distinct(s) && p < |s|
    requires forall i :: 0 <= i < |s| && i != p && i != CutAt(|s|, p) ==> LinkedAt(s, i)
    requires Linked(s[CutAt(|s|, p)], s[After(p, |s|)])
    ensures IsRing(Removed(s, p)) && s[p] !in Removed(s, p)
  {
    var t := Removed(s, p);
    RemovedIsDistinct(s, p);
    assert forall i :: 0 <= i < |t| ==> t[i] == if i < p then s[i] else s[i + 1];
    forall i | 0 <= i < |t|
      ensures LinkedAt(t, i)
    {
      if i < p {
        assert i != CutAt(|s|, p) ==> LinkedAt(s, i);
      } else {
        assert i + 1 != CutAt(|s|, p) ==> LinkedAt(s, i + 1);
      }
    }
  }

  // ----- the operations -----------------------------------------------------------------

  method InitializeListHead(listHead: ListEntry)
    modifies listHead
    ensures IsRing([listHead])
  {
    listHead.forwardLink := listHead;
    listHead.backLink := listHead;
  }

  /** Puts `entry` behind `listHead`. */
  method InsertHeadList(listHead: ListEntry, entry: ListEntry, ghost s: seq<ListEntry>, ghost p: nat)
    returns (r: ListEntry)
    requires IsRing(s) && entry !in s && 0 < p <= |s| && s[p - 1] == listHead
    modifies s, entry
    ensures IsRing(Inserted(s, p, entry)) && r == listHead
  {
    assert LinkedAt(s, p - 1);
    entry.forwardLink := listHead.forwardLink;
    entry.backLink := listHead;
    entry.forwardLink.backLink := entry;
    listHead.forwardLink := entry;
    forall i | 0 <= i < |s| && i != CutAt(|s|, p)
      ensures LinkedAt(s, i)
    {
      assert old(LinkedAt(s, i));
    }
    InsertedIsRing(s, p, entry);
    return listHead;
  }

  /** Puts `entry` in front of `listHead`. */
  method InsertTailList(listHead: ListEntry, entry: ListEntry, ghost s: seq<ListEntry>, ghost p: nat)
    returns (r: ListEntry)
    requires IsRing(s) && entry !in s && p <= |s| && Succ(s, p) == listHead
    modifies s, entry
    ensures IsRing(Inserted(s, p, entry)) && r == listHead
  {
    assert LinkedAt(s, CutAt(|s|, p));
    entry.forwardLink := listHead;
    entry.backLink := listHead.backLink;
    entry.backLink.forwardLink := entry;
    listHead.backLink := entry;
    forall i | 0 <= i < |s| && i != CutAt(|s|, p)
      ensures LinkedAt(s, i)
    {
      assert old(LinkedAt(s, i));
    }
    InsertedIsRing(s, p, entry);
    return listHead;
  }

  /** Unlinks `entry`, whose own links stay as they are; alone in its ring it stays there. */
  method RemoveEntryList(entry: ListEntry, ghost s: seq<ListEntry>, ghost p: nat) returns (r: ListEntry)
    requires IsRing(s) && p < |s| && s[p] == entry
    modifies s
    ensures |s| > 1 ==> IsRing(Removed(s, p)) && entry !in Removed(s, p)
    ensures |s| == 1 ==> IsRing(s)
    ensures r == s[After(p, |s|)]
  {
    assert LinkedAt(s, p);
    assert LinkedAt(s, CutAt(|s|, p));
    entry.forwardLink.backLink := entry.backLink;
    entry.backLink.forwardLink := entry.forwardLink;
    if |s| > 1 {
      forall i | 0 <= i < |s| && i != p && i != CutAt(|s|, p)
        ensures LinkedAt(s, i)
      {
        assert old(LinkedAt(s, i));
      }
      RemovedIsRing(s, p);
    } else {
      assert After(0, 1) == 0;
    }
    return entry.forwardLink;
  }

  /** The sequence with the entries at `p` and `q` exchanged. */
  function Swapped<T>(s: seq<T>, p: nat, q: nat): seq<T>
    requires p < |s| && q < |s|
  {
    s[p := s[q]][q := s[p]]
  }

  /** Two entries exchange their places, whatever their places are; all others keep theirs. */
  method SwapListEntries(first: ListEntry, second: ListEntry, ghost s: seq<ListEntry>, ghost p: nat, ghost q: nat)
    returns (r: ListEntry)
    requires IsRing(s) && p < |s| && q < |s| && s[p] == first && s[q] == second
    modifies s
    ensures IsRing(Swapped(s, p, q)) && r == second
  {
    hide LinkedAt, Inserted, Removed, Swapped, Distinct;
    if first == second {
      SameSwapped(s, p, q);
      return second;
    }
    assert first in s;
    var ptr := RemoveEntryList(first, s, p);
    ghost var s1 := Removed(s, p);
    ghost var q1 := if q < p then q else q - 1;
    RemovedAt(s, p, q);
    BackOf(s, p, q);
    if ptr.backLink == second {
      r := InsertTailList(second, first, s1, q1);
      FollowerSwapped(s, p, q);
      return;
    }
    var back := InsertHeadList(second, first, s1, q1 + 1);
    ghost var s2 := Inserted(s1, q1 + 1, first);
    if ptr == back {
      LeaderSwapped(s, p, q);
      return ptr;
    }
    InsertedAt(s1, q1, first);
    var gone := RemoveEntryList(second, s2, q1);
    ghost var s3 := Removed(s2, q1);
    FarSwapped(s, p, q, s3);
    RemovedAt(s2, q1, q1 + 1);
    var end := InsertTailList(ptr, second, s3, p);
    return second;
  }

  lemma {:induction false} RemovedAt(s: seq<ListEntry>, p: nat, q: nat)
    requires p < |s| && q < |s| && p != q
    ensures var t, q1 := Removed(s, p), if q < p then q else q - 1;
            |t| == |s| - 1 && q1 < |t| && t[q1] == s[q] && Succ(t, q1) == s[q] && forall i :: 0 <= i < |t| ==> t[i] in s
  {
  }

  lemma {:induction false} InsertedAt(s: seq<ListEntry>, q: nat, e: ListEntry)
    requires q < |s|
    ensures var t := Inserted(s, q + 1, e);
            |t| == |s| + 1 && t[q] == s[q] && t[q + 1] == e && forall i :: 0 <= i < |t| ==> t[i] in s || t[i] == e
  {
  }

  lemma {:induction false} SameSwapped(s: seq<ListEntry>, p: nat, q: nat)
    requires Distinct(s) && p < |s| && q < |s| && s[p] == s[q]
    ensures Swapped(s, p, q) == s
  {
  }

  /** With the node at `p` gone, the node behind it has the one before it as predecessor. */
  lemma {:induction false} BackOf(s: seq<ListEntry>, p: nat, q: nat)
    requires Distinct(s) && p < |s| && q < |s| && p != q
    requires IsRing(Removed(s, p))
    ensures s[After(p, |s|)].backLink == s[CutAt(|s|, p)]
  {
    var t := Removed(s, p);
    var j := CutAt(|t|, if p == |t| then 0 else p);
    assert LinkedAt(t, j);
    assert t[j] == s[CutAt(|s|, p)];
    assert t[After(j, |t|)] == s[After(p, |s|)];
  }

  /** Where a ring is thought to begin does not matter. */
  lemma {:induction false} RotatedIsRing(t: seq<ListEntry>)
    requires IsRing(t)
    ensures IsRing(t[1..] + [t[0]]) && IsRing([t[|t| - 1]] + t[..|t| - 1])
  {
    var n, u, v := |t|, t[1..] + [t[0]], [t[|t| - 1]] + t[..|t| - 1];
    forall i | 0 <= i < n
      ensures LinkedAt(u, i) && LinkedAt(v, i)
    {
      assert LinkedAt(t, After(i, n)) && LinkedAt(t, CutAt(n, i));
      assert u[i] == t[After(i, n)] && u[After(i, n)] == t[After(After(i, n), n)];
      assert v[i] == t[CutAt(n, i)] && v[After(i, n)] == t[CutAt(n, After(i, n))];
      assert CutAt(n, After(i, n)) == i == After(CutAt(n, i), n);
    }
  }

  /** First has stood right behind second. */
  lemma {:induction false} FollowerSwapped(s: seq<ListEntry>, p: nat, q: nat)
    requires Distinct(s) && p < |s| && q < |s| && p != q && s[CutAt(|s|, p)] == s[q]
    requires IsRing(Inserted(Removed(s, p), if q < p then q else q - 1, s[p]))
    ensures IsRing(Swapped(s, p, q))
  {
    assert q == CutAt(|s|, p);
    var t := Inserted(Removed(s, p), if q < p then q else q - 1, s[p]);
    if q < p {
      assert t == Swapped(s, p, q);
    } else {
      RotatedIsRing(t);
      assert [t[|t| - 1]] + t[..|t| - 1] == Swapped(s, p, q);
    }
  }

  /** Second has stood right behind first. */
  lemma {:induction false} LeaderSwapped(s: seq<ListEntry>, p: nat, q: nat)
    requires Distinct(s) && p < |s| && q < |s| && p != q && s[After(p, |s|)] == s[q]
    requires IsRing(Inserted(Removed(s, p), if q < p then q + 1 else q, s[p]))
    ensures IsRing(Swapped(s, p, q))
  {
    assert q == After(p, |s|);
    var t := Inserted(Removed(s, p), if q < p then q + 1 else q, s[p]);
    if p < q {
      assert t == Swapped(s, p, q);
    } else {
      RotatedIsRing(t);
      assert t[1..] + [t[0]] == Swapped(s, p, q);
    }
  }

  lemma {:induction false} FarSwapped(s: seq<ListEntry>, p: nat, q: nat, s3: seq<ListEntry>)
    requires Distinct(s) && p < |s| && q < |s| && p != q
    requires s[CutAt(|s|, p)] != s[q] && s[After(p, |s|)] != s[q]
    requires var q1 := if q < p then q else q - 1;
             s3 == Removed(Inserted(Removed(s, p), q1 + 1, s[p]), q1)
    ensures p <= |s3| && |s3| > 0 && Succ(s3, p) == s[After(p, |s|)]
    ensures Inserted(s3, p, s[q]) == Swapped(s, p, q)
  {
    assert q != CutAt(|s|, p) && q != After(p, |s|);
    if q < p {
      MovedBack(s, q, p, s3);
    } else {
      MovedOn(s, p, q, s3);
    }
  }

  lemma {:induction false} RemovedFrom<T>(u: seq<T>, x: T, v: seq<T>)
    ensures Removed(u + [x] + v, |u|) == u + v
  {
  }

  lemma {:induction false} InsertedInto<T>(u: seq<T>, x: T, v: seq<T>)
    ensures Inserted(u + v, |u|, x) == u + [x] + v
  {
  }

  lemma {:induction false} MovedBack(s: seq<ListEntry>, q: nat, p: nat, s3: seq<ListEntry>)
    requires q + 1 < p < |s|
    requires s3 == Removed(Inserted(Removed(s, p), q + 1, s[p]), q)
    ensures |s3| == |s| - 1 && Succ(s3, p) == if p + 1 < |s| then s[p + 1] else s3[0]
    ensures q > 0 ==> s3[0] == s[0]
    ensures Inserted(s3, p, s[q]) == Swapped(s, p, q)
  {
    var a, y, b, x, c := s[..q], s[q], s[q + 1..p], s[p], s[p + 1..];
    assert s == a + [y] + b + [x] + c;
    assert Swapped(s, p, q) == a + [x] + b + [y] + c;
    hide Removed, Inserted, Swapped;
    assert |a| == q && |a| + 1 + |b| == p;
    PiecesBack(a, y, b, x, c);
  }

  lemma {:induction false} PiecesBack<T>(a: seq<T>, y: T, b: seq<T>, x: T, c: seq<T>)
    ensures var s, q, p := a + [y] + b + [x] + c, |a|, |a| + 1 + |b|;
            var s3 := Removed(Inserted(Removed(s, p), q + 1, x), q);
            s3 == a + [x] + b + c && Inserted(s3, p, y) == a + [x] + b + [y] + c
  {
    hide Removed, Inserted;
    RemovedFrom(a + [y] + b, x, c);
    Regroup(a + [y], b, c);
    InsertedInto(a + [y], x, b + c);
    Regroup(a + [y], [x], b + c);
    Regroup([x], b, c);
    RemovedFrom(a, y, [x] + b + c);
    Regroup(a, [x], b + c);
    Regroup(a + [x], b, c);
    InsertedInto(a + [x] + b, y, c);
  }

  lemma {:induction false} Regroup<T>(u: seq<T>, v: seq<T>, w: seq<T>)
    ensures u + v + w == u + (v + w)
  {
  }

  lemma {:induction false} MovedOn(s: seq<ListEntry>, p: nat, q: nat, s3: seq<ListEntry>)
    requires p + 1 < q < |s|
    requires s3 == Removed(Inserted(Removed(s, p), q, s[p]), q - 1)
    ensures |s3| == |s| - 1 && Succ(s3, p) == s[p + 1]
    ensures Inserted(s3, p, s[q]) == Swapped(s, p, q)
  {
    var a, x, b, y, c := s[..p], s[p], s[p + 1..q], s[q], s[q + 1..];
    assert s == a + [x] + b + [y] + c;
    assert Swapped(s, p, q) == a + [y] + b + [x] + c;
    hide Removed, Inserted, Swapped;
    assert |a| == p && |a| + 1 + |b| == q;
    PiecesOn(a, x, b, y, c);
    assert s3[p] == s[p + 1];
  }

  lemma {:induction false} PiecesOn<T>(a: seq<T>, x: T, b: seq<T>, y: T, c: seq<T>)
    ensures var s, p, q := a + [x] + b + [y] + c, |a|, |a| + 1 + |b|;
            var s3 := Removed(Inserted(Removed(s, p), q, x), q - 1);
            s3 == a + b + [x] + c && Inserted(s3, p, y) == a + [y] + b + [x] + c
  {
    hide Removed, Inserted;
    FourPieces(a + [x], b, [y], c);
    RemovedFrom(a, x, b + [y] + c);
    FourPieces(a, b, [y], c);
    InsertedInto(a + b + [y], x, c);
    Regroup(a + b + [y], [x], c);
    Regroup(a + b, [y], [x] + c);
    RemovedFrom(a + b, y, [x] + c);
    Regroup(a + b, [x], c);
    FourPieces(a, b, [x], c);
    InsertedInto(a, y, b + [x] + c);
    FourPieces(a + [y], b, [x], c);
  }

  lemma {:induction false} FourPieces<T>(u: seq<T>, v: seq<T>, w: seq<T>, z: seq<T>)
    ensures u + v + w + z == u + (v + w + z)
  {
  }
}
