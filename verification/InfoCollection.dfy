/**
  Collecting the signal, slot or parameter infos of a class and all its ancestors.

  Infos are compared as pointers, written as numbers.  A class lists its own infos by a
  recursion over counters, then lets every parent add, sort and deduplicate the same
  vector, and finally sorts and deduplicates it itself.
*/
module InfoCollection {
  // Counters first + 1 .. last may each own an info; the recursion starts at last.
  datatype ClassDef = ClassDef(first: nat, last: nat, own: map<nat, nat>, parents: seq<nat>)

  // A class can only derive from classes that are complete before it.
  ghost predicate WellFormed(h: seq<ClassDef>) {
    forall c, i :: 0 <= c < |h| && 0 <= i < |h[c].parents| ==> h[c].parents[i] < c
  }

  function Elems(s: seq<nat>): set<nat> { set x | x in s }

  function OwnEntries(d: ClassDef, n: nat): set<nat> {
    set k | k in d.own && d.first < k <= n :: d.own[k]
  }

  // c is a, or derives from it along some path.
  ghost predicate Derives(h: seq<ClassDef>, c: nat, a: nat)
    requires WellFormed(h) && c < |h|
  {
    c == a || exists i :: 0 <= i < |h[c].parents| && Derives(h, h[c].parents[i], a)
  }

  ghost function AllEntries(h: seq<ClassDef>, c: nat): set<nat>
    requires WellFormed(h) && c < |h|
    decreases c, |h[c].parents| + 1
  {
    OwnEntries(h[c], h[c].last) + ParentEntries(h, c, |h[c].parents|)
  }

  ghost function ParentEntries(h: seq<ClassDef>, c: nat, n: nat): set<nat>
    requires WellFormed(h) && c < |h| && n <= |h[c].parents|
    decreases c, n
  {
    if n == 0 then {} else ParentEntries(h, c, n - 1) + AllEntries(h, h[c].parents[n - 1])
  }

  // ------------------------------------------------------------------ std::sort and std::unique

  predicate Ascending(s: seq<nat>) { forall i, j :: 0 <= i < j < |s| ==> s[i] <= s[j] }

  predicate Increasing(s: seq<nat>) { forall i, j :: 0 <= i < j < |s| ==> s[i] < s[j] }

  function Insert(x: nat, s: seq<nat>): seq<nat> {
    if s == [] || x <= s[0] then [x] + s else [s[0]] + Insert(x, s[1..])
  }

  function Sort(s: seq<nat>): seq<nat> { if s == [] then [] else Insert(s[0], Sort(s[1..])) }

  function Unique(s: seq<nat>): seq<nat> {
    if |s| < 2 then s else (if s[0] == s[1] then [] else [s[0]]) + Unique(s[1..])
  }

  lemma ElemsCons(x: nat, s: seq<nat>)
    ensures Elems([x] + s) == {x} + Elems(s)
  {
    assert forall y :: y in [x] + s <==> y == x || y in s;
  }

  lemma AscendingCons(x: nat, s: seq<nat>)
    requires Ascending(s) && forall y :: y in Elems(s) ==> x <= y
    ensures Ascending([x] + s)
  {
    forall k | 0 <= k < |s|
      ensures x <= s[k]
    {
      assert s[k] in Elems(s);
    }
  }

  lemma ElemsEmpty(s: seq<nat>)
    ensures Elems(s) == {} <==> s == []
  {
    if s != [] {
      assert s[0] in Elems(s);
    }
  }

  lemma {:induction false} InsertElems(x: nat, s: seq<nat>)
    ensures Elems(Insert(x, s)) == {x} + Elems(s)
  {
    if s == [] || x <= s[0] {
      ElemsCons(x, s);
    } else {
      InsertElems(x, s[1..]);
      ElemsCons(s[0], s[1..]);
      ElemsCons(s[0], Insert(x, s[1..]));
      assert [s[0]] + s[1..] == s;
    }
  }

  lemma {:induction false} InsertAscending(x: nat, s: seq<nat>)
    requires Ascending(s)
    ensures Ascending(Insert(x, s))
  {
    if s != [] && x > s[0] {
      InsertAscending(x, s[1..]);
      InsertElems(x, s[1..]);
      AscendingCons(s[0], Insert(x, s[1..]));
    }
  }

  lemma {:induction false} SortKeeps(s: seq<nat>)
    ensures Ascending(Sort(s)) && Elems(Sort(s)) == Elems(s)
  {
    if s != [] {
      SortKeeps(s[1..]);
      InsertElems(s[0], Sort(s[1..]));
      InsertAscending(s[0], Sort(s[1..]));
      ElemsCons(s[0], s[1..]);
      assert [s[0]] + s[1..] == s;
    }
  }

  lemma {:induction false} UniqueKeeps(s: seq<nat>)
    requires Ascending(s)
    ensures Increasing(Unique(s)) && Elems(Unique(s)) == Elems(s)
    ensures s != [] ==> Unique(s) != [] && Unique(s)[0] == s[0]
  {
    if |s| >= 2 {
      var rest := s[1..];
      assert [s[0]] + rest == s && s[0] <= rest[0];
      UniqueKeeps(rest);
      ElemsCons(s[0], rest);
      ElemsCons(s[0], Unique(rest));
      if s[0] == rest[0] {
        assert rest[0] in Elems(rest);
      } else {
      }
    }
  }

  // ------------------------------------------------------------------ the code

  class InfoVector {
    var info: seq<nat>

    constructor ()
      ensures info == []
    {
      info := [];
    }

    method PushBack(x: nat)
      modifies this
      ensures info == old(info) + [x]
      ensures Elems(info) == old(Elems(info)) + {x}
    {
      info := info + [x];
    }

    // list_parameter_info_ pushes before it recurs, list_signal_info_ and list_slots_ after.
    method ListOwn(d: ClassDef, n: nat, pushFirst: bool)
      modifies this
      ensures Elems(info) == old(Elems(info)) + OwnEntries(d, n)
      decreases n
    {
      if n <= d.first {
        assert OwnEntries(d, n) == {};
        return;
      }
      if n in d.own && pushFirst {
        PushBack(d.own[n]);
      }
      ListOwn(d, n - 1, pushFirst);
      if n in d.own && !pushFirst {
        PushBack(d.own[n]);
      }
    }

    method SortUnique()
      modifies this
      ensures Increasing(info) && Elems(info) == old(Elems(info))
    {
      SortKeeps(info);
      info := Sort(info);
      UniqueKeeps(info);
      info := Unique(info);
    }

    // Whatever the vector holds on entry is kept, once.
    method GetInfoStatic(h: seq<ClassDef>, c: nat, pushFirst: bool)
      requires WellFormed(h) && c < |h|
      modifies this
      ensures Increasing(info)
      ensures Elems(info) == old(Elems(info)) + AllEntries(h, c)
      decreases c
    {
      ListOwn(h[c], h[c].last, pushFirst);
      for i := 0 to |h[c].parents|
        invariant Elems(info) == old(Elems(info)) + OwnEntries(h[c], h[c].last) + ParentEntries(h, c, i)
      {
        GetInfoStatic(h, h[c].parents[i], pushFirst);
      }
      SortUnique();
    }
  }

  // ------------------------------------------------------------------ what is collected

  lemma {:induction false} ParentEntriesMember(h: seq<ClassDef>, c: nat, n: nat, e: nat)
    requires WellFormed(h) && c < |h| && n <= |h[c].parents|
    ensures e in ParentEntries(h, c, n) <==> exists i :: 0 <= i < n && e in AllEntries(h, h[c].parents[i])
  {
    if n > 0 {
      ParentEntriesMember(h, c, n - 1, e);
    }
  }

  // Exactly the infos of the class and of everything it derives from, along any path.
  lemma {:induction false} AllEntriesAreInherited(h: seq<ClassDef>, c: nat, e: nat)
    requires WellFormed(h) && c < |h|
    ensures e in AllEntries(h, c)
       <==> exists a :: 0 <= a < |h| && Derives(h, c, a) && e in OwnEntries(h[a], h[a].last)
    decreases c
  {
    ParentEntriesMember(h, c, |h[c].parents|, e);
    forall i | 0 <= i < |h[c].parents|
      ensures e in AllEntries(h, h[c].parents[i])
         <==> exists a :: 0 <= a < |h| && Derives(h, h[c].parents[i], a) && e in OwnEntries(h[a], h[a].last)
    {
      AllEntriesAreInherited(h, h[c].parents[i], e);
    }
    if e in OwnEntries(h[c], h[c].last) {
      assert Derives(h, c, c);
    }
    if i :| 0 <= i < |h[c].parents| && e in AllEntries(h, h[c].parents[i]) {
      var a :| 0 <= a < |h| && Derives(h, h[c].parents[i], a) && e in OwnEntries(h[a], h[a].last);
      assert Derives(h, c, a);
    }
    if a :| 0 <= a < |h| && Derives(h, c, a) && e in OwnEntries(h[a], h[a].last) {
      if a != c {
        var i :| 0 <= i < |h[c].parents| && Derives(h, h[c].parents[i], a);
        assert e in AllEntries(h, h[c].parents[i]);
      }
    }
  }

  // Same class definitions up to the order and repetition of parents.
  ghost predicate SameUpToOrder(h: seq<ClassDef>, k: seq<ClassDef>) {
    && |h| == |k|
    && forall c :: 0 <= c < |h| ==>
         && Elems(h[c].parents) == Elems(k[c].parents)
         && OwnEntries(h[c], h[c].last) == OwnEntries(k[c], k[c].last)
  }

  lemma {:induction false} ParentOrderIsIrrelevant(h: seq<ClassDef>, k: seq<ClassDef>, c: nat)
    requires WellFormed(h) && WellFormed(k) && SameUpToOrder(h, k) && c < |h|
    ensures AllEntries(h, c) == AllEntries(k, c)
    decreases c
  {
    forall p | p in Elems(h[c].parents)
      ensures p < c && AllEntries(h, p) == AllEntries(k, p)
    {
      ParentOrderIsIrrelevant(h, k, p);
    }
    forall e
      ensures e in ParentEntries(h, c, |h[c].parents|) <==> e in ParentEntries(k, c, |k[c].parents|)
    {
      ParentEntriesMember(h, c, |h[c].parents|, e);
      ParentEntriesMember(k, c, |k[c].parents|, e);
      if i :| 0 <= i < |h[c].parents| && e in AllEntries(h, h[c].parents[i]) {
        assert h[c].parents[i] in Elems(k[c].parents);
        var j :| 0 <= j < |k[c].parents| && k[c].parents[j] == h[c].parents[i];
        assert e in AllEntries(k, k[c].parents[j]);
      }
      if j :| 0 <= j < |k[c].parents| && e in AllEntries(k, k[c].parents[j]) {
        assert k[c].parents[j] in Elems(h[c].parents);
        var i :| 0 <= i < |h[c].parents| && h[c].parents[i] == k[c].parents[j];
        assert e in AllEntries(h, h[c].parents[i]);
      }
    }
  }

  // A strictly increasing list is determined by what it holds, so the collected list is unique.
  lemma {:induction false} IncreasingListsAreEqual(s: seq<nat>, t: seq<nat>)
    requires Increasing(s) && Increasing(t) && Elems(s) == Elems(t)
    ensures s == t
  {
    ElemsEmpty(s);
    ElemsEmpty(t);
    if s != [] {
      assert s[0] in Elems(t);
      assert t[0] in Elems(s);
      assert s[0] == t[0];
      ElemsCons(s[0], s[1..]);
      ElemsCons(t[0], t[1..]);
      assert s == [s[0]] + s[1..] && t == [t[0]] + t[1..];
      assert Elems(s[1..]) == Elems(s) - {s[0]};
      assert Elems(t[1..]) == Elems(t) - {t[0]};
      IncreasingListsAreEqual(s[1..], t[1..]);
    }
  }
}
