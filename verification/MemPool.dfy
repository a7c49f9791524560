/** The fixed-size pool from which both order books take their orders and price levels. */
module MemPools {

  datatype Block<T> = Block(item: T, isFree: bool)

  function FreeCount<T>(s: seq<Block<T>>): nat {
    if s == [] then 0 else (if s[0].isFree then 1 else 0) + FreeCount(s[1..])
  }

  ghost predicate AnotherFree<T>(s: seq<Block<T>>, k: nat) {
    exists j | 0 <= j < |s| :: j != k && s[j].isFree
  }

  lemma {:induction false} SomeFree<T>(s: seq<Block<T>>)
    ensures FreeCount(s) > 0 <==> exists j | 0 <= j < |s| :: s[j].isFree
  {
    if s != [] {
      SomeFree(s[1..]);
      if exists j | 0 <= j < |s| :: s[j].isFree {
        var j :| 0 <= j < |s| && s[j].isFree;
        assert j > 0 ==> s[1..][j - 1].isFree;
      }
      if exists j | 0 <= j < |s[1..]| :: s[1..][j].isFree {
        var j :| 0 <= j < |s[1..]| && s[1..][j].isFree;
        assert s[j + 1].isFree;
      }
    }
  }

  /** A pool of N blocks hands out at most N - 1 objects: it needs a second free block to return one. */
  lemma {:induction false} CapacityExact<T>(s: seq<Block<T>>, k: nat)
    requires k < |s| && s[k].isFree
    ensures AnotherFree(s, k) <==> FreeCount(s) >= 2
  {
    var t := s[1..];
    if k == 0 {
      SomeFree(t);
      if AnotherFree(s, 0) {
        var j :| 0 <= j < |s| && j != 0 && s[j].isFree;
        assert t[j - 1].isFree;
      }
      if FreeCount(t) > 0 {
        var j :| 0 <= j < |t| && t[j].isFree;
        assert s[j + 1].isFree;
      }
    } else {
      assert t[k - 1].isFree;
      SomeFree(t);
      CapacityExact(t, k - 1);
      if AnotherFree(s, k) && !s[0].isFree {
        var j :| 0 <= j < |s| && j != k && s[j].isFree;
        assert t[j - 1].isFree;
      }
      if AnotherFree(t, k - 1) {
        var j :| 0 <= j < |t| && j != k - 1 && t[j].isFree;
        assert s[j + 1].isFree;
      }
    }
  }

  lemma {:induction false} FreeCountUpdate<T>(s: seq<Block<T>>, k: nat, b: Block<T>)
    requires k < |s|
    ensures FreeCount(s[k := b]) == FreeCount(s) - (if s[k].isFree then 1 else 0) + (if b.isFree then 1 else 0)
  {
    var t := s[k := b];
    if k == 0 {
      assert t[1..] == s[1..];
    } else {
      assert t[1..] == s[1..][k - 1 := b];
      FreeCountUpdate(s[1..], k - 1, b);
    }
  }

  lemma {:induction false} AllFreeCount<T>(s: seq<Block<T>>)
    requires forall i | 0 <= i < |s| :: s[i].isFree
    ensures FreeCount(s) == |s|
  {
    if s != [] {
      AllFreeCount(s[1..]);
    }
  }

  class MemPool<T> {
    const store: array<Block<T>>
    var nextFree: nat

    ghost predicate Valid()
      reads this, store
    {
      nextFree < store.Length && store[nextFree].isFree
    }

    ghost predicate CanAllocate()
      reads this, store
    {
      AnotherFree(store[..], nextFree)
    }

    constructor (n: nat, default: T)
      requires n > 0
      ensures Valid() && fresh(store) && nextFree == 0
      ensures store[..] == seq(n, _ => Block(default, true))
    {
      store := new Block<T>[n](_ => Block(default, true));
      nextFree := 0;
    }

    /**
      Takes the block at `nextFree`, which is never in use. The call fails (the process aborts)
      exactly when that was the last free block.
    */
    method Allocate(value: T) returns (ok: bool, index: nat)
      requires Valid()
      modifies this, store
      ensures index == old(nextFree) < store.Length && old(store[index].isFree)
      ensures store[..] == old(store[..])[index := Block(value, false)]
      ensures ok <==> old(CanAllocate())
      ensures ok ==> Valid()
    {
      index := nextFree;
      store[index] := Block(value, false);
      assert forall j | 0 <= j < store.Length && j != index :: store[j] == old(store[..])[j];
      ok := UpdateNextFreeIndex();
    }

    /** The cyclic scan: it stops at the first free block after the current one, or reports that there is none. */
    method UpdateNextFreeIndex() returns (ok: bool)
      requires nextFree < store.Length && !store[nextFree].isFree
      modifies this`nextFree
      ensures ok <==> exists j | 0 <= j < store.Length :: store[j].isFree
      ensures ok ==> Valid()
    {
      var initial := nextFree;
      ghost var steps: nat := 0;
      while !store[nextFree].isFree
        invariant steps < store.Length
        invariant nextFree == Wrapped(initial, steps, store.Length)
        invariant forall k | 0 <= k < steps :: !store[Wrapped(initial, k, store.Length)].isFree
        decreases store.Length - steps
      {
        nextFree := nextFree + 1;
        if nextFree == store.Length {
          nextFree := 0;
        }
        steps := steps + 1;
        if initial == nextFree {
          forall j | 0 <= j < store.Length ensures !store[j].isFree {
            var k := if initial <= j then j - initial else j + store.Length - initial;
            assert Wrapped(initial, k, store.Length) == j;
          }
          return false;
        }
      }
      return true;
    }

    static ghost function Wrapped(start: nat, steps: nat, n: nat): (r: nat)
      requires start < n && steps < n
      ensures r < n
    {
      if start + steps < n then start + steps else start + steps - n
    }

    method Deallocate(index: nat)
      requires Valid() && index < store.Length && !store[index].isFree
      modifies store
      ensures store[..] == old(store[..])[index := Block(old(store[index].item), true)]
      ensures Valid()
    {
      store[index] := store[index].(isFree := true);
    }

    /** A write through a pointer to a block's object. */
    method Write(index: nat, value: T)
      requires index < store.Length
      modifies store
      ensures store[..] == old(store[..])[index := Block(value, old(store[index].isFree))]
      ensures old(Valid()) ==> Valid()
      ensures old(CanAllocate()) ==> CanAllocate()
    {
      ghost var was := store[..];
      store[index] := store[index].(item := value);
      assert forall j | 0 <= j < |was| :: store[..][j].isFree == was[j].isFree;
    }
  }
}
