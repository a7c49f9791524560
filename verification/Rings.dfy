/** Circular doubly linked lists threaded through a pool by index. */
module Rings {

  /** The null pointer. */
  const NULL: int := -1

  datatype Link = Link(prev: int, next: int)

  function Succ(s: seq<int>, i: nat): int
    requires i < |s|
  {
    if i + 1 == |s| then s[0] else s[i + 1]
  }

  function Pred(s: seq<int>, i: nat): int
    requires i < |s|
  {
    if i == 0 then s[|s| - 1] else s[i - 1]
  }

  ghost predicate Injective(s: seq<int>) {
    forall i, j | 0 <= i < j < |s| :: s[i] != s[j]
  }

  predicate Linked(ls: seq<Link>, s: seq<int>, i: nat)
    requires i < |s|
  {
    0 <= s[i] < |ls| && ls[s[i]] == Link(Pred(s, i), Succ(s, i))
  }

  /** Following the links from any member visits exactly `s`, in order, both ways round. */
  ghost predicate Ring(ls: seq<Link>, s: seq<int>) {
    s != [] && Injective(s) && forall i | 0 <= i < |s| :: Linked(ls, s, i)
  }

  /** `k` is the position a member is inserted at; the neighbours it comes to stand between. */
  function Left(s: seq<int>, k: nat): int
    requires s != [] && k <= |s|
  {
    if k == 0 then s[|s| - 1] else s[k - 1]
  }

  function Right(s: seq<int>, k: nat): int
    requires s != [] && k <= |s|
  {
    if k == |s| then s[0] else s[k]
  }

  function InsertAt(s: seq<int>, k: nat, x: int): seq<int>
    requires k <= |s|
  {
    s[..k] + [x] + s[k..]
  }

  function RemoveAt(s: seq<int>, k: nat): seq<int>
    requires k < |s|
  {
    s[..k] + s[k + 1..]
  }

  /** The effect of linking `x` in between `p` and `n`. */
  ghost predicate LinkedIn(ls: seq<Link>, ls': seq<Link>, x: int, p: int, n: int) {
    && |ls'| == |ls|
    && forall j | 0 <= j < |ls| ::
         ls'[j] == if j == x then Link(p, n)
                   else Link(if j == n then x else ls[j].prev, if j == p then x else ls[j].next)
  }

  /** The effect of unlinking `x` from between `p` and `n`; the links of `x` itself no longer matter. */
  ghost predicate LinkedOut(ls: seq<Link>, ls': seq<Link>, x: int, p: int, n: int) {
    && |ls'| == |ls|
    && forall j | 0 <= j < |ls| && j != x ::
         ls'[j] == Link(if j == n then p else ls[j].prev, if j == p then n else ls[j].next)
  }

  lemma {:induction false} RingInsert(ls: seq<Link>, ls': seq<Link>, s: seq<int>, k: nat, x: int)
    requires Ring(ls, s) && k <= |s| && 0 <= x < |ls| && x !in s
    requires LinkedIn(ls, ls', x, Left(s, k), Right(s, k))
    ensures Ring(ls', InsertAt(s, k, x))
  {
    var t := InsertAt(s, k, x);
    forall i | 0 <= i < |t| ensures Linked(ls', t, i) {
      if i < k {
        assert t[i] == s[i] && Linked(ls, s, i);
      } else if i > k {
        assert t[i] == s[i - 1] && Linked(ls, s, i - 1);
      }
    }
  }

  lemma {:induction false} RingRemove(ls: seq<Link>, ls': seq<Link>, s: seq<int>, k: nat)
    requires Ring(ls, s) && k < |s| && |s| >= 2
    requires LinkedOut(ls, ls', s[k], Pred(s, k), Succ(s, k))
    ensures Ring(ls', RemoveAt(s, k))
  {
    var t := RemoveAt(s, k);
    forall i | 0 <= i < |t| ensures Linked(ls', t, i) {
      var j := if i < k then i else i + 1;
      assert t[i] == s[j] && Linked(ls, s, j);
    }
  }

  lemma {:induction false} RingFrame(ls: seq<Link>, ls': seq<Link>, s: seq<int>)
    requires Ring(ls, s) && |ls'| == |ls|
    requires forall i | 0 <= i < |s| && 0 <= s[i] < |ls| :: ls'[s[i]] == ls[s[i]]
    ensures Ring(ls', s)
  {
    forall i | 0 <= i < |s| ensures Linked(ls', s, i) {
      assert Linked(ls, s, i);
    }
  }

  lemma {:induction false} RingSingle(ls: seq<Link>, x: int)
    requires 0 <= x < |ls| && ls[x] == Link(x, x)
    ensures Ring(ls, [x])
  {
  }
}
