// Lists without repetition, and erasing from a list.
module Sequences {
  ghost predicate Once<R>(rs: seq<R>) { forall i, j :: 0 <= i < j < |rs| ==> rs[i] != rs[j] }

  // vector::erase of the first entry equal to r.
  function RemoveFirst<T(==)>(rs: seq<T>, r: T): (out: seq<T>)
    ensures forall k :: k in out ==> k in rs
    ensures forall k :: k in rs && k != r ==> k in out
  {
    if rs == [] then []
    else if rs[0] == r then (assert rs == [rs[0]] + rs[1..]; rs[1..])
    else (assert rs == [rs[0]] + rs[1..]; [rs[0]] + RemoveFirst(rs[1..], r))
  }

  lemma {:induction false} RemoveFirstAt<T>(rs: seq<T>, i: nat)
    requires i < |rs| && rs[i] !in rs[..i]
    ensures RemoveFirst(rs, rs[i]) == rs[..i] + rs[i + 1..]
  {
    if i > 0 {
      assert rs[0] in rs[..i];
      assert forall x :: x in rs[1..][..i - 1] ==> x in rs[..i];
      RemoveFirstAt(rs[1..], i - 1);
      assert rs[..i] == [rs[0]] + rs[1..][..i - 1];
      assert rs[1..][i..] == rs[i + 1..];
    }
  }

  lemma {:induction false} RemoveFirstAbsent<T>(rs: seq<T>, r: T)
    requires r !in rs
    ensures RemoveFirst(rs, r) == rs
  {
    if rs != [] { RemoveFirstAbsent(rs[1..], r); }
  }

  lemma {:induction false} RemoveFirstKeeps<T>(rs: seq<T>, r: T)
    ensures forall x :: x in rs && x != r ==> x in RemoveFirst(rs, r)
    ensures multiset(RemoveFirst(rs, r)) == multiset(rs) - multiset{r}
  {
    if rs != [] {
      assert rs == [rs[0]] + rs[1..];
      RemoveFirstKeeps(rs[1..], r);
    }
  }

  lemma OnceCons<T>(r: T, rs: seq<T>)
    ensures Once([r] + rs) <==> r !in rs && Once(rs)
  {
    var all := [r] + rs;
    assert forall i :: 0 <= i < |rs| ==> all[i + 1] == rs[i];
    if Once(all) {
      assert all[0] == r;
    }
  }

  lemma {:induction false} RemoveFirstOnce<T>(rs: seq<T>, r: T)
    requires Once(rs)
    ensures Once(RemoveFirst(rs, r)) && r !in RemoveFirst(rs, r)
  {
    if rs != [] {
      assert rs == [rs[0]] + rs[1..];
      OnceCons(rs[0], rs[1..]);
      RemoveFirstOnce(rs[1..], r);
      OnceCons(rs[0], RemoveFirst(rs[1..], r));
    }
  }

}
