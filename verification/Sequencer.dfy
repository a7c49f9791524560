/** The FIFO sequencer: requests read in one polling round go to the matching engine in order of receive time. */
module Sequencers {
  import opened Types

  datatype Stamped<R> = Stamped(rx: int, req: R)

  ghost predicate Ascending<R>(s: seq<Stamped<R>>) {
    forall i, j | 0 <= i < j < |s| :: s[i].rx <= s[j].rx
  }

  function Requests<R>(s: seq<Stamped<R>>): (r: seq<R>)
    ensures |r| == |s| && forall i | 0 <= i < |s| :: r[i] == s[i].req
  {
    seq(|s|, i requires 0 <= i < |s| => s[i].req)
  }

  /** Where a newcomer stands among requests in order of time. */
  function Place<R>(s: seq<Stamped<R>>, rx: int): (k: nat)
    ensures k <= |s|
    ensures forall i | 0 <= i < k :: s[i].rx <= rx
    ensures k < |s| ==> rx < s[k].rx
  {
    if s == [] || rx < s[0].rx then 0 else 1 + Place(s[1..], rx)
  }

  lemma {:induction false} PlacedAscending<R>(s: seq<Stamped<R>>, x: Stamped<R>)
    requires Ascending(s)
    ensures var k := Place(s, x.rx); Ascending(s[..k] + [x] + s[k..])
  {
  }

  lemma {:induction false} OneMore<X>(s: seq<X>, k: nat, x: X)
    requires k <= |s|
    ensures multiset(s[..k] + [x] + s[k..]) == multiset(s) + multiset{x}
  {
    assert s == s[..k] + s[k..];
  }

  lemma {:induction false} Inserted<R>(s: seq<Stamped<R>>, k: nat, x: Stamped<R>)
    requires k <= |s|
    ensures multiset(s[..k] + [x] + s[k..]) == multiset(s) + multiset{x}
    ensures multiset(Requests(s[..k] + [x] + s[k..])) == multiset(Requests(s)) + multiset{x.req}
  {
    OneMore(s, k, x);
    var r := Requests(s);
    assert Requests(s[..k] + [x] + s[k..]) == r[..k] + [x.req] + r[k..];
    OneMore(r, k, x.req);
  }

  /** `std::sort`: some ascending permutation; requests with equal times may come out in any order. */
  method SortByTime<R>(s: seq<Stamped<R>>) returns (r: seq<Stamped<R>>)
    ensures Ascending(r) && multiset(r) == multiset(s)
  {
    r := [];
    for i := 0 to |s|
      invariant Ascending(r) && multiset(r) == multiset(s[..i])
    {
      PlacedAscending(r, s[i]);
      var k := Place(r, s[i].rx);
      Inserted(r, k, s[i]);
      r := r[..k] + [s[i]] + r[k..];
      assert s[..i + 1] == s[..i] + [s[i]];
    }
    assert s[..|s|] == s;
  }

  class FIFOSequencer<R> {
    const pending: array<Stamped<R>>
    var size: nat
    /** What has been written to the matching engine's queue. */
    var published: seq<R>

    ghost predicate Valid()
      reads this
    {
      size <= pending.Length
    }

    ghost function Waiting(): seq<Stamped<R>>
      requires Valid()
      reads this, pending
    {
      pending[..size]
    }

    constructor (capacity: nat, default: R)
      ensures Valid() && fresh(pending) && pending.Length == capacity && Waiting() == [] && published == []
    {
      pending := new Stamped<R>[capacity](_ => Stamped(0, default));
      size, published := 0, [];
    }

    /** Fails (the process exits) exactly when the array is full. */
    method AddClientRequest(rx: int, req: R) returns (ok: bool)
      requires Valid()
      modifies this`size, pending
      ensures Valid() && (ok <==> |old(Waiting())| < pending.Length)
      ensures Waiting() == old(Waiting()) + if ok then [Stamped(rx, req)] else []
    {
      if size >= pending.Length {
        return false;
      }
      pending[size] := Stamped(rx, req);
      size := size + 1;
      ok := true;
    }

    /** Everything waiting is published once, in an order that ascends in receive time. */
    method SequenceAndPublish() returns (batch: seq<Stamped<R>>)
      requires Valid()
      modifies this, pending
      ensures Valid() && Waiting() == []
      ensures Ascending(batch) && multiset(batch) == multiset(old(Waiting()))
      ensures published == old(published) + Requests(batch)
    {
      ghost var waiting := Waiting();
      batch := SortByTime(pending[..size]);
      assert |batch| == |multiset(batch)| == size;
      forall i | 0 <= i < size {
        pending[i] := batch[i];
      }
      var i := 0;
      while i < size
        invariant 0 <= i <= size == |batch| && size <= pending.Length && pending[..size] == batch
        invariant published == old(published) + Requests(batch)[..i]
      {
        published := published + [pending[i].req];
        i := i + 1;
      }
      size := 0;
    }
  }

  // ---------------------------------------------------------------- across all rounds

  /** A request as it reached the server, with the number its client gave it. */
  datatype Item = Item(client: nat, num: nat, body: seq<int>)

  /** Expected number per client, what waits, what was published, and every request that passed the check. */
  datatype Intake = Intake(next: map<nat, nat>, waiting: seq<Stamped<Item>>, published: seq<Item>, accepted: seq<Item>)

  datatype Event = Arrive(rx: int, item: Item) | Publish(batch: seq<Stamped<Item>>)

  const NOTHING: Intake := Intake(map[], [], [], [])

  function Next(s: Intake, client: nat): nat {
    if client in s.next then s.next[client] else 1
  }

  ghost predicate Enabled(s: Intake, e: Event) {
    e.Publish? ==> Ascending(e.batch) && multiset(e.batch) == multiset(s.waiting)
  }

  function After(s: Intake, e: Event): Intake {
    match e
    case Arrive(rx, item) =>
      if item.num != Next(s, item.client) then s
      else
        Intake(s.next[item.client := item.num + 1], s.waiting + [Stamped(rx, item)], s.published,
               s.accepted + [item])
    case Publish(batch) => s.(waiting := [], published := s.published + Requests(batch))
  }

  ghost function Exec(es: seq<Event>): Option<Intake> {
    if es == [] then Some(NOTHING)
    else
      match Exec(es[..|es| - 1])
      case None => None
      case Some(s) => if Enabled(s, es[|es| - 1]) then Some(After(s, es[|es| - 1])) else None
  }

  /** The numbers accepted from one client, in order. */
  function Numbers(items: seq<Item>, client: nat): seq<nat> {
    if items == [] then []
    else
      var last := items[|items| - 1];
      Numbers(items[..|items| - 1], client) + if last.client == client then [last.num] else []
  }

  lemma {:induction false} TakenOut<R>(s: seq<Stamped<R>>, k: nat)
    requires k < |s|
    ensures var t := s[..k] + s[k + 1..];
            && multiset(t) == multiset(s) - multiset{s[k]}
            && multiset(Requests(s)) == multiset(Requests(t)) + multiset{s[k].req}
  {
    var t := s[..k] + s[k + 1..];
    assert s == t[..k] + [s[k]] + t[k..];
    Inserted(t, k, s[k]);
  }

  lemma {:induction false} Partner<R>(a: seq<Stamped<R>>, b: seq<Stamped<R>>) returns (k: nat)
    requires multiset(a) == multiset(b) && a != []
    ensures k < |b| && b[k] == a[0]
  {
    assert a[0] in multiset(b);
    k :| 0 <= k < |b| && b[k] == a[0];
  }

  lemma {:induction false} RequestsPermuted<R>(a: seq<Stamped<R>>, b: seq<Stamped<R>>)
    requires multiset(a) == multiset(b)
    ensures multiset(Requests(a)) == multiset(Requests(b))
    decreases |a|
  {
    if a == [] {
      assert |b| == |multiset(b)| == 0;
    } else {
      hide Requests;
      var k := Partner(a, b);
      var a', b' := a[..0] + a[1..], b[..k] + b[k + 1..];
      TakenOut(a, 0);
      TakenOut(b, k);
      RequestsPermuted(a', b');
    }
  }

  /** What passed the check is what was published and what waits. */
  ghost predicate Conserved(s: Intake) {
    multiset(s.accepted) == multiset(s.published) + multiset(Requests(s.waiting))
  }

  /** The numbers accepted from this client are 1 .. n, and n + 1 is expected. */
  ghost predicate InSequence(s: Intake, client: nat) {
    && |Numbers(s.accepted, client)| + 1 == Next(s, client)
    && forall i | 0 <= i < |Numbers(s.accepted, client)| :: Numbers(s.accepted, client)[i] == i + 1
  }

  lemma {:induction false} ArriveInSequence(s: Intake, rx: int, item: Item, client: nat)
    requires InSequence(s, client)
    ensures InSequence(After(s, Arrive(rx, item)), client)
  {
  }

  lemma {:induction false} ArriveConserved(s: Intake, rx: int, item: Item)
    requires Conserved(s)
    ensures Conserved(After(s, Arrive(rx, item)))
  {
    assert Requests(s.waiting + [Stamped(rx, item)]) == Requests(s.waiting) + [item];
  }

  lemma {:induction false} PublishConserved(s: Intake, batch: seq<Stamped<Item>>)
    requires Conserved(s) && Enabled(s, Publish(batch))
    ensures Conserved(After(s, Publish(batch)))
  {
    RequestsPermuted(batch, s.waiting);
  }

  /**
    Across all rounds: every request that passes the sequence check is published exactly once or still waits,
    and the numbers accepted from each client are exactly 1 .. n in order.
  */
  lemma {:induction false} ExactlyOnce(es: seq<Event>, client: nat)
    requires Exec(es).Some?
    ensures Conserved(Exec(es).value) && InSequence(Exec(es).value, client)
  {
    if es != [] {
      var s, e := Exec(es[..|es| - 1]).value, es[|es| - 1];
      ExactlyOnce(es[..|es| - 1], client);
      if e.Arrive? {
        ArriveConserved(s, e.rx, e.item);
        ArriveInSequence(s, e.rx, e.item, client);
      } else {
        PublishConserved(s, e.batch);
      }
    }
  }
}
