/**
 * A collection of (owner, target) documents such as the like, save and follow
 * collections, and the toggle the controllers perform on it: delete the
 * matching document when one exists (`findOne` + `deleteOne`), create one
 * otherwise (`create`).
 */
module Records {

  datatype Record = Record(owner: string, target: string)

  /** Number of documents naming `target` (the counter the controllers keep in step). */
  function CountFor(rs: seq<Record>, target: string): nat {
    if rs == [] then 0
    else (if rs[0].target == target then 1 else 0) + CountFor(rs[1..], target)
  }

  /** No document occurs twice. */
  predicate NoDup(rs: seq<Record>) {
    forall i, j :: 0 <= i < j < |rs| ==> rs[i] != rs[j]
  }

  /** `deleteOne` on the first matching document. */
  function RemoveFirst(rs: seq<Record>, x: Record): (r: seq<Record>)
    ensures x in rs ==> multiset(r) == multiset(rs) - multiset{x}
    ensures x !in rs ==> r == rs
  {
    if rs == [] then []
    else
      assert rs == [rs[0]] + rs[1..];
      if rs[0] == x then rs[1..] else [rs[0]] + RemoveFirst(rs[1..], x)
  }

  /** The toggle: remove `x` when present, append it otherwise. */
  function Toggle(rs: seq<Record>, x: Record): seq<Record> {
    if x in rs then RemoveFirst(rs, x) else rs + [x]
  }

  /** `deleteMany({ target })`: every document naming `target` goes. */
  function RemoveTarget(rs: seq<Record>, target: string): (r: seq<Record>)
    ensures forall i :: 0 <= i < |r| ==> r[i] in rs && r[i].target != target
    ensures forall i :: 0 <= i < |rs| && rs[i].target != target ==> rs[i] in r
  {
    if rs == [] then []
    else
      var rest := RemoveTarget(rs[1..], target);
      assert forall i :: 1 <= i < |rs| ==> rs[i] == rs[1..][i - 1];
      if rs[0].target == target then rest else [rs[0]] + rest
  }

  /** `deleteMany` removes documents and never adds a copy of one. */
  lemma {:induction false} RemoveTargetShrinks(rs: seq<Record>, target: string)
    ensures multiset(RemoveTarget(rs, target)) <= multiset(rs)
  {
    if rs != [] {
      RemoveTargetShrinks(rs[1..], target);
      assert rs == [rs[0]] + rs[1..];
    }
  }

  lemma {:induction false} CountAppend(rs: seq<Record>, x: Record, target: string)
    ensures CountFor(rs + [x], target) == CountFor(rs, target) + (if x.target == target then 1 else 0)
  {
    if rs != [] {
      assert (rs + [x])[1..] == rs[1..] + [x];
      CountAppend(rs[1..], x, target);
    }
  }

  lemma {:induction false} CountRemoveFirst(rs: seq<Record>, x: Record, target: string)
    requires x in rs
    ensures CountFor(RemoveFirst(rs, x), target) == CountFor(rs, target) - (if x.target == target then 1 else 0)
  {
    if rs[0] != x {
      CountRemoveFirst(rs[1..], x, target);
    }
  }

  /** A counter of documents with `target` drops by one per removed document naming it. */
  lemma {:induction false} CountRemoveTarget(rs: seq<Record>, target: string, other: string)
    ensures CountFor(RemoveTarget(rs, target), other) == if other == target then 0 else CountFor(rs, other)
  {
    if rs != [] {
      CountRemoveTarget(rs[1..], target, other);
    }
  }

  /** `deleteOne` only removes: every remaining document was there before. */
  lemma {:induction false} RemoveFirstMembers(rs: seq<Record>, x: Record)
    ensures forall y :: y in RemoveFirst(rs, x) ==> y in rs
  {
    if rs != [] && rs[0] != x {
      RemoveFirstMembers(rs[1..], x);
    }
  }

  lemma {:induction false} NoDupRemoveFirst(rs: seq<Record>, x: Record)
    requires NoDup(rs)
    ensures NoDup(RemoveFirst(rs, x))
    ensures x !in RemoveFirst(rs, x)
  {
    if rs != [] && rs[0] != x {
      NoDupTail(rs);
      NoDupRemoveFirst(rs[1..], x);
      var tail := RemoveFirst(rs[1..], x);
      RemoveFirstMembers(rs[1..], x);
      forall k | 0 <= k < |tail| ensures tail[k] != rs[0] {
        assert tail[k] in rs[1..];
      }
    } else if rs != [] {
      forall k | 0 <= k < |rs[1..]| ensures rs[1..][k] != x {
        assert rs[1..][k] == rs[k + 1];
      }
    }
  }

  lemma {:induction false} NoDupRemoveTarget(rs: seq<Record>, target: string)
    requires NoDup(rs)
    ensures NoDup(RemoveTarget(rs, target))
  {
    if rs != [] {
      NoDupTail(rs);
      NoDupRemoveTarget(rs[1..], target);
      var rest := RemoveTarget(rs[1..], target);
      forall k | 0 <= k < |rest| ensures rest[k] != rs[0] {
        assert rest[k] in rs[1..];
      }
    }
  }

  lemma NoDupTail(rs: seq<Record>)
    requires NoDup(rs) && rs != []
    ensures NoDup(rs[1..]) && rs[0] !in rs[1..]
  {
    forall a, b | 0 <= a < b < |rs[1..]| ensures rs[1..][a] != rs[1..][b] {
      assert rs[1..][a] == rs[a + 1] && rs[1..][b] == rs[b + 1];
    }
  }

  /** Toggling keeps the collection free of duplicates and flips membership of `x`. */
  lemma ToggleNoDup(rs: seq<Record>, x: Record)
    requires NoDup(rs)
    ensures NoDup(Toggle(rs, x))
    ensures x in Toggle(rs, x) <==> x !in rs
  {
    if x in rs {
      NoDupRemoveFirst(rs, x);
    } else {
      assert (rs + [x])[|rs|] == x;
    }
  }

  /** Each toggle moves the count of its own target by exactly one and no other count. */
  lemma ToggleCount(rs: seq<Record>, x: Record, target: string)
    ensures CountFor(Toggle(rs, x), target) ==
      CountFor(rs, target) + (if x.target != target then 0 else if x in rs then -1 else 1)
  {
    if x in rs {
      CountRemoveFirst(rs, x, target);
    } else {
      CountAppend(rs, x, target);
    }
  }

  /** Toggling the same document twice restores the collection (as a set of documents). */
  lemma ToggleTwice(rs: seq<Record>, x: Record)
    requires NoDup(rs)
    ensures multiset(Toggle(Toggle(rs, x), x)) == multiset(rs)
  {
    if x in rs {
      NoDupRemoveFirst(rs, x);
      var once := RemoveFirst(rs, x);
      assert Toggle(once, x) == once + [x];
      assert multiset(once + [x]) == multiset(once) + multiset{x};
    } else {
      var once := rs + [x];
      assert RemoveFirst(once, x) == rs by { RemoveFirstAppended(rs, x); }
    }
  }

  lemma {:induction false} RemoveFirstAppended(rs: seq<Record>, x: Record)
    requires x !in rs
    ensures RemoveFirst(rs + [x], x) == rs
  {
    if rs != [] {
      assert (rs + [x])[1..] == rs[1..] + [x];
      RemoveFirstAppended(rs[1..], x);
    }
  }
}
