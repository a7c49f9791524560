/**
  The public feed. Folding ADD, MODIFY and CANCEL over an empty book is what every consumer of the
  feed does; here it is compared with the book the exchange holds, at every prefix of the stream.
*/
module Feed {
  import opened Types
  import opened PriceTime
  import opened Matching

  /** A book as the public sees it: orders without owners. */
  type PublicBook = Book<()>

  const EMPTY_BOOK: PublicBook := Book([], [])

  function Public(o: Order<Owner>): Order<()> {
    Order((), o.id, o.side, o.price, o.qty, o.priority)
  }

  function PublicHalf(s: seq<Order<Owner>>): seq<Order<()>> {
    seq(|s|, i requires 0 <= i < |s| => Public(s[i]))
  }

  function PublicOf(b: Book<Owner>): PublicBook {
    Book(PublicHalf(b.bids), PublicHalf(b.asks))
  }

  function Added(u: Update): Order<()>
    requires u.Add?
  {
    Order((), u.id, u.side, u.price, u.qty, u.priority)
  }

  /** What one update does to the book of its ticker. */
  function Apply(b: PublicBook, u: Update): PublicBook {
    match u
    case Add(_, _, side, _, _, _) => WithHalf(b, side, Insert(Half(b, side), Added(u)))
    case Modify(id, _, side, _, qty, _) => WithHalf(b, side, SetQty(Half(b, side), id, qty))
    case Cancel(id, _, side, _, _, _) => WithHalf(b, side, Remove(Half(b, side), id))
    case Clear(_) => EMPTY_BOOK
    case _ => b
  }

  predicate HasTicker(u: Update, n: nat) {
    !u.SnapshotStart? && !u.SnapshotEnd? && u.ticker < n
  }

  function Step(bs: seq<PublicBook>, u: Update): (r: seq<PublicBook>)
    ensures |r| == |bs|
  {
    if HasTicker(u, |bs|) then bs[u.ticker := Apply(bs[u.ticker], u)] else bs
  }

  function Fold(bs: seq<PublicBook>, us: seq<Update>): (r: seq<PublicBook>)
    ensures |r| == |bs|
  {
    if us == [] then bs else Step(Fold(bs, us[..|us| - 1]), us[|us| - 1])
  }

  function EmptyBooks(n: nat): (r: seq<PublicBook>)
    ensures |r| == n && forall t | 0 <= t < n :: r[t] == EMPTY_BOOK
  {
    seq(n, _ => EMPTY_BOOK)
  }

  /**
    What a consumer may rely on when an update arrives: an ADD carries an id above every live one
    and does not cross, a MODIFY reduces an order it names correctly, a CANCEL names a live order.
    The exchange never sends CLEAR or a snapshot marker on this feed.
  */
  ghost predicate WellFormed(b: PublicBook, u: Update) {
    match u
    case Add(id, _, side, price, qty, _) =>
      && qty > 0
      && (forall i | 0 <= i < |b.bids| :: b.bids[i].id < id)
      && (forall i | 0 <= i < |b.asks| :: b.asks[i].id < id)
      && (var opp := Half(b, Opposite(side)); opp == [] || !Crosses(side, price, opp[0].price))
    case Modify(id, _, side, price, qty, priority) =>
      var s := Half(b, side);
      var k := Find(s, id);
      k < |s| && s[k].price == price && s[k].priority == priority && 0 < qty < s[k].qty
    case Cancel(id, _, side, price, _, _) =>
      var s := Half(b, side);
      var k := Find(s, id);
      k < |s| && s[k].price == price
    case Trade(_, _, _, qty) => qty > 0
    case _ => false
  }

  ghost predicate StepOk(bs: seq<PublicBook>, u: Update) {
    HasTicker(u, |bs|) && WellFormed(bs[u.ticker], u)
  }

  ghost predicate GoodStream(bs: seq<PublicBook>, us: seq<Update>) {
    us == [] || (GoodStream(bs, us[..|us| - 1]) && StepOk(Fold(bs, us[..|us| - 1]), us[|us| - 1]))
  }

  lemma {:induction false} FoldConcat(bs: seq<PublicBook>, us: seq<Update>, vs: seq<Update>)
    ensures Fold(bs, us + vs) == Fold(Fold(bs, us), vs)
  {
    if vs == [] {
      assert us + vs == us;
    } else {
      var ws := us + vs;
      assert ws[..|ws| - 1] == us + vs[..|vs| - 1];
      FoldConcat(bs, us, vs[..|vs| - 1]);
    }
  }

  lemma {:induction false} GoodExtend(bs: seq<PublicBook>, us: seq<Update>, u: Update)
    requires GoodStream(bs, us) && StepOk(Fold(bs, us), u)
    ensures GoodStream(bs, us + [u])
  {
  }

  lemma {:induction false} GoodConcat(bs: seq<PublicBook>, us: seq<Update>, vs: seq<Update>)
    requires GoodStream(bs, us) && GoodStream(Fold(bs, us), vs)
    ensures GoodStream(bs, us + vs)
  {
    hide StepOk, Step;
    if vs == [] {
      assert us + vs == us;
    } else {
      var ws := us + vs;
      var w := vs[|vs| - 1];
      assert ws[..|ws| - 1] == us + vs[..|vs| - 1] && ws[|ws| - 1] == w;
      FoldConcat(bs, us, vs[..|vs| - 1]);
      GoodConcat(bs, us, vs[..|vs| - 1]);
      GoodExtend(bs, us + vs[..|vs| - 1], w);
      assert ws == (us + vs[..|vs| - 1]) + [w];
    }
  }

  lemma {:induction false} GoodPrefix(bs: seq<PublicBook>, us: seq<Update>, k: nat)
    requires GoodStream(bs, us) && k <= |us|
    ensures GoodStream(bs, us[..k])
  {
    if k == |us| {
      assert us[..k] == us;
    } else {
      GoodPrefix(bs, us[..|us| - 1], k);
      assert us[..|us| - 1][..k] == us[..k];
    }
  }

  lemma {:induction false} GoodTwo(bs: seq<PublicBook>, u: Update, v: Update)
    requires StepOk(bs, u) && StepOk(Step(bs, u), v)
    ensures GoodStream(bs, [u, v]) && Fold(bs, [u, v]) == Step(Step(bs, u), v)
  {
    assert [u, v][..1] == [u] && [u][..0] == [];
    assert Fold(bs, []) == bs && Fold(bs, [u]) == Step(bs, u);
    assert GoodStream(bs, []) && GoodStream(bs, [u]);
  }

  lemma {:induction false} GoodOne(bs: seq<PublicBook>, u: Update)
    requires StepOk(bs, u)
    ensures GoodStream(bs, [u]) && Fold(bs, [u]) == Step(bs, u)
  {
    assert [u][..0] == [];
    assert Fold(bs, []) == bs && GoodStream(bs, []);
  }

  lemma {:induction false} GoodSuffix(bs: seq<PublicBook>, us: seq<Update>, vs: seq<Update>)
    requires GoodStream(bs, us + vs)
    ensures GoodStream(Fold(bs, us), vs)
  {
    hide StepOk, Fold;
    if vs != [] {
      var ws := us + vs;
      assert ws[..|ws| - 1] == us + vs[..|vs| - 1] && ws[|ws| - 1] == vs[|vs| - 1];
      GoodSuffix(bs, us, vs[..|vs| - 1]);
      FoldConcat(bs, us, vs[..|vs| - 1]);
    }
  }

  // ---------------------------------------------------------------- what a replica may be given

  /** A replica takes the updates of the feed, and a CLEAR of a book that is empty already. */
  ghost predicate Usable(b: PublicBook, u: Update) {
    WellFormed(b, u) || (u.Clear? && b == EMPTY_BOOK)
  }

  ghost predicate UsableStream(bs: seq<PublicBook>, us: seq<Update>) {
    us == [] ||
    var before, u := Fold(bs, us[..|us| - 1]), us[|us| - 1];
    UsableStream(bs, us[..|us| - 1]) && HasTicker(u, |bs|) && Usable(before[u.ticker], u)
  }

  lemma {:induction false} GoodUsable(bs: seq<PublicBook>, us: seq<Update>)
    requires GoodStream(bs, us)
    ensures UsableStream(bs, us)
  {
    if us != [] {
      hide WellFormed;
      GoodUsable(bs, us[..|us| - 1]);
    }
  }

  lemma {:induction false} UsableConcat(bs: seq<PublicBook>, us: seq<Update>, vs: seq<Update>)
    requires UsableStream(bs, us) && UsableStream(Fold(bs, us), vs)
    ensures UsableStream(bs, us + vs)
  {
    hide Usable, Step;
    if vs == [] {
      assert us + vs == us;
    } else {
      var ws := us + vs;
      assert ws[..|ws| - 1] == us + vs[..|vs| - 1] && ws[|ws| - 1] == vs[|vs| - 1];
      FoldConcat(bs, us, vs[..|vs| - 1]);
      UsableConcat(bs, us, vs[..|vs| - 1]);
    }
  }

  predicate IsFor(u: Update, t: nat) {
    HasTicker(u, t + 1) && u.ticker == t
  }

  /** One ticker's part of a stream, and what it does to that ticker's book. */
  function Only(us: seq<Update>, t: nat): seq<Update> {
    if us == [] then []
    else
      var u := us[|us| - 1];
      Only(us[..|us| - 1], t) + if IsFor(u, t) then [u] else []
  }

  function ApplyAll(b: PublicBook, us: seq<Update>): PublicBook {
    if us == [] then b else Apply(ApplyAll(b, us[..|us| - 1]), us[|us| - 1])
  }

  ghost predicate UsableAll(b: PublicBook, us: seq<Update>) {
    forall k | 0 <= k < |us| :: Usable(ApplyAll(b, us[..k]), us[k])
  }

  lemma {:induction false} ApplyAllConcat(b: PublicBook, us: seq<Update>, vs: seq<Update>)
    ensures ApplyAll(b, us + vs) == ApplyAll(ApplyAll(b, us), vs)
  {
    hide Apply;
    if vs == [] {
      assert us + vs == us;
    } else {
      var ws := us + vs;
      assert ws[..|ws| - 1] == us + vs[..|vs| - 1];
      ApplyAllConcat(b, us, vs[..|vs| - 1]);
    }
  }

  /** A stream can be taken exactly when its first part can, and the rest by the book that leads to. */
  lemma {:induction false} UsableAllConcat(b: PublicBook, us: seq<Update>, vs: seq<Update>)
    ensures UsableAll(b, us + vs) <==> UsableAll(b, us) && UsableAll(ApplyAll(b, us), vs)
  {
    var ws := us + vs;
    hide Usable, ApplyAll;
    assert forall k | 0 <= k < |us| :: ws[..k] == us[..k] && ws[k] == us[k];
    forall k | 0 <= k < |vs|
      ensures ws[|us| + k] == vs[k] && ApplyAll(b, ws[..|us| + k]) == ApplyAll(ApplyAll(b, us), vs[..k])
    {
      assert ws[..|us| + k] == us + vs[..k];
      ApplyAllConcat(b, us, vs[..k]);
    }
    if UsableAll(b, us + vs) {
      forall k | 0 <= k < |vs| ensures Usable(ApplyAll(ApplyAll(b, us), vs[..k]), vs[k]) {
        assert Usable(ApplyAll(b, ws[..|us| + k]), ws[|us| + k]);
      }
    }
    if UsableAll(b, us) && UsableAll(ApplyAll(b, us), vs) {
      forall k | 0 <= k < |ws| ensures Usable(ApplyAll(b, ws[..k]), ws[k]) {
        if k >= |us| {
          assert Usable(ApplyAll(ApplyAll(b, us), vs[..k - |us|]), vs[k - |us|]);
          assert ws[|us| + (k - |us|)] == vs[k - |us|];
        }
      }
    }
  }

  lemma {:induction false} UsableOne(b: PublicBook, u: Update)
    ensures UsableAll(b, [u]) <==> Usable(b, u)
  {
    assert [u][..0] == [] && ApplyAll(b, []) == b;
    hide Usable, ApplyAll;
    assert UsableAll(b, [u]) ==> Usable(ApplyAll(b, [u][..0]), [u][0]);
  }

  lemma {:induction false} OnlyConcat(us: seq<Update>, vs: seq<Update>, t: nat)
    ensures Only(us + vs, t) == Only(us, t) + Only(vs, t)
  {
    if vs == [] {
      assert us + vs == us;
    } else {
      var ws := us + vs;
      assert ws[..|ws| - 1] == us + vs[..|vs| - 1];
      OnlyConcat(us, vs[..|vs| - 1], t);
    }
  }

  lemma {:induction false} OnlyNothing(t: nat)
    ensures Only([], t) == []
  {
  }

  lemma {:induction false} OnlyOne(u: Update, t: nat)
    ensures Only([u], t) == if IsFor(u, t) then [u] else []
  {
    assert [u][..0] == [];
  }

  lemma {:induction false} ApplyNothing(b: PublicBook)
    ensures ApplyAll(b, []) == b
  {
  }

  lemma {:induction false} ApplyMore(b: PublicBook, us: seq<Update>, u: Update)
    ensures ApplyAll(b, us + [u]) == Apply(ApplyAll(b, us), u)
  {
    assert (us + [u])[..|us|] == us;
  }

  /** The replica of one ticker ends at that ticker's book. */
  lemma {:induction false} OnlyApplies(bs: seq<PublicBook>, us: seq<Update>, t: nat)
    requires t < |bs|
    ensures Fold(bs, us)[t] == ApplyAll(bs[t], Only(us, t))
  {
    hide ApplyAll, Apply;
    if us == [] {
      ApplyNothing(bs[t]);
    } else {
      var before, u := us[..|us| - 1], us[|us| - 1];
      OnlyApplies(bs, before, t);
      ApplyMore(bs[t], Only(before, t), u);
      assert !IsFor(u, t) ==> Only(us, t) == Only(before, t);
    }
  }

  /** It can take its part of any stream that all of them together can take. */
  lemma {:induction false} OnlyUsable(bs: seq<PublicBook>, us: seq<Update>, t: nat)
    requires UsableStream(bs, us) && t < |bs|
    ensures UsableAll(bs[t], Only(us, t))
  {
    if us != [] {
      var before, u := us[..|us| - 1], us[|us| - 1];
      OnlyUsable(bs, before, t);
      OnlyApplies(bs, before, t);
      hide Usable, UsableAll, ApplyAll, Fold;
      UsableAllConcat(bs[t], Only(before, t), [u]);
      UsableOne(Fold(bs, before)[t], u);
      assert u.ticker != t ==> Only(us, t) == Only(before, t);
    }
  }

  // ---------------------------------------------------------------- soundness of every prefix

  predicate Distinct<O>(a: Order<O>, b: Order<O>) {
    a.id != b.id
  }

  /** A public book: both sides in price-time order, ids distinct, nothing empty, bid below ask. */
  ghost predicate BookOk(b: PublicBook) {
    && Sorted(Buy, b.bids) && Sorted(Sell, b.asks)
    && (forall i | 0 <= i < |b.bids| :: b.bids[i].qty > 0)
    && (forall i | 0 <= i < |b.asks| :: b.asks[i].qty > 0)
    && (forall i, j | 0 <= i < j < |b.bids| :: Distinct(b.bids[i], b.bids[j]))
    && (forall i, j | 0 <= i < j < |b.asks| :: Distinct(b.asks[i], b.asks[j]))
    && Uncrossed(b)
  }

  ghost predicate Uncrossed(b: PublicBook) {
    forall i, j | 0 <= i < |b.bids| && 0 <= j < |b.asks| ::
      b.bids[i].price < b.asks[j].price && Distinct(b.bids[i], b.asks[j])
  }

  ghost predicate HalfSound(side: Side, s: seq<Order<()>>) {
    && Sorted(side, s)
    && (forall i | 0 <= i < |s| :: s[i].qty > 0)
    && (forall i, j | 0 <= i < j < |s| :: Distinct(s[i], s[j]))
  }

  lemma {:induction false} HalfSoundInsert(side: Side, s: seq<Order<()>>, o: Order<()>)
    requires HalfSound(side, s) && o.side == side && o.qty > 0
    requires forall i | 0 <= i < |s| :: s[i].id < o.id
    ensures HalfSound(side, Insert(s, o))
  {
  }

  lemma {:induction false} HalfSoundWithout(side: Side, s: seq<Order<()>>, k: nat)
    requires HalfSound(side, s) && k < |s|
    ensures HalfSound(side, Without(s, k))
  {
  }

  lemma {:induction false} HalfSoundSetQty(side: Side, s: seq<Order<()>>, k: nat, qty: nat)
    requires HalfSound(side, s) && k < |s| && qty > 0
    ensures HalfSound(side, s[k := s[k].(qty := qty)])
  {
    SetQtySorted(side, s, k, qty);
  }

  lemma {:induction false} UncrossedInsert(b: PublicBook, side: Side, o: Order<()>)
    requires BookOk(b) && o.side == side
    requires forall i | 0 <= i < |Half(b, Opposite(side))| :: Half(b, Opposite(side))[i].id < o.id
    requires var opp := Half(b, Opposite(side)); opp == [] || !Crosses(side, o.price, opp[0].price)
    ensures Uncrossed(WithHalf(b, side, Insert(Half(b, side), o)))
  {
    var s := Half(b, side);
    var opp := Half(b, Opposite(side));
    SortedMonotone(Opposite(side), opp);
    var t := Insert(s, o);
    var k := Rank(s, side, o.price);
    forall i, j | 0 <= i < |t| && 0 <= j < |opp|
      ensures !Crosses(side, t[i].price, opp[j].price) && Distinct(t[i], opp[j])
    {
      if i == k {
        assert j == 0 || !Better(Opposite(side), opp[j].price, opp[0].price);
      } else {
        assert t[i] == s[if i < k then i else i - 1];
      }
    }
  }

  lemma {:induction false} AddKeepsOk(b: PublicBook, u: Update)
    requires BookOk(b) && u.Add? && WellFormed(b, u)
    ensures BookOk(Apply(b, u))
  {
    HalfSoundInsert(u.side, Half(b, u.side), Added(u));
    UncrossedInsert(b, u.side, Added(u));
  }

  lemma {:induction false} ModifyKeepsOk(b: PublicBook, u: Update)
    requires BookOk(b) && u.Modify? && WellFormed(b, u)
    ensures BookOk(Apply(b, u))
  {
    var s := Half(b, u.side);
    var k := Find(s, u.id);
    HalfSoundSetQty(u.side, s, k, u.qty);
    UncrossedSetQty(b, u.side, k, u.qty);
  }

  lemma {:induction false} UncrossedSetQty(b: PublicBook, side: Side, k: nat, qty: nat)
    requires Uncrossed(b) && k < |Half(b, side)|
    ensures var s := Half(b, side); Uncrossed(WithHalf(b, side, s[k := s[k].(qty := qty)]))
  {
  }

  lemma {:induction false} UncrossedWithout(b: PublicBook, side: Side, k: nat)
    requires Uncrossed(b) && k < |Half(b, side)|
    ensures Uncrossed(WithHalf(b, side, Without(Half(b, side), k)))
  {
  }

  lemma {:induction false} CancelKeepsOk(b: PublicBook, u: Update)
    requires BookOk(b) && u.Cancel? && WellFormed(b, u)
    ensures BookOk(Apply(b, u))
  {
    var s := Half(b, u.side);
    var k := Find(s, u.id);
    HalfSoundWithout(u.side, s, k);
    UncrossedWithout(b, u.side, k);
  }

  /** Every well-formed update keeps a sound public book sound, and in particular uncrossed. */
  lemma {:induction false} ApplyKeepsOk(b: PublicBook, u: Update)
    requires BookOk(b) && WellFormed(b, u)
    ensures BookOk(Apply(b, u))
  {
    if u.Add? {
      AddKeepsOk(b, u);
    } else if u.Modify? {
      ModifyKeepsOk(b, u);
    } else if u.Cancel? {
      CancelKeepsOk(b, u);
    }
  }

  ghost predicate BooksOk(bs: seq<PublicBook>) {
    forall t | 0 <= t < |bs| :: BookOk(bs[t])
  }

  /** At every prefix of a good stream all public books are sound: sorted, uncrossed, ids ascending in each level. */
  lemma {:induction false} PrefixesSound(bs: seq<PublicBook>, us: seq<Update>, k: nat)
    requires BooksOk(bs) && GoodStream(bs, us) && k <= |us|
    ensures BooksOk(Fold(bs, us[..k]))
  {
    hide BookOk, WellFormed, Apply;
    if k > 0 {
      GoodPrefix(bs, us, k);
      var vs := us[..k];
      assert vs[..k - 1] == us[..k - 1];
      PrefixesSound(bs, us, k - 1);
      ApplyKeepsOk(Fold(bs, vs[..k - 1])[vs[k - 1].ticker], vs[k - 1]);
    }
  }

  // ---------------------------------------------------------------- the exchange's stream is good

  lemma {:induction false} PublicHalfPrefix(s: seq<Order<Owner>>, i: nat, j: nat)
    requires i <= j <= |s|
    ensures PublicHalf(s[i..j]) == PublicHalf(s)[i..j]
  {
  }

  lemma {:induction false} PublicWithout(s: seq<Order<Owner>>, k: nat)
    requires k < |s|
    ensures PublicHalf(Without(s, k)) == Without(PublicHalf(s), k)
  {
  }

  lemma {:induction false} PublicRank(s: seq<Order<Owner>>, side: Side, price: int)
    ensures Rank(PublicHalf(s), side, price) == Rank(s, side, price)
  {
    if s != [] && !Better(side, price, s[0].price) {
      PublicRank(s[1..], side, price);
      PublicHalfPrefix(s, 1, |s|);
      assert PublicHalf(s)[1..] == PublicHalf(s[1..]);
    }
  }

  lemma {:induction false} PublicInsert(s: seq<Order<Owner>>, o: Order<Owner>)
    ensures PublicHalf(Insert(s, o)) == Insert(PublicHalf(s), Public(o))
  {
    PublicRank(s, o.side, o.price);
  }

  lemma {:induction false} MatchHeadFeed(bs: seq<PublicBook>, inc: Incoming, opp: seq<Order<Owner>>, leaves: nat)
    requires inc.ticker < |bs| && CanMatch(inc, opp, leaves)
    requires Half(bs[inc.ticker], Opposite(inc.side)) == PublicHalf(opp)
    requires opp[0].side == Opposite(inc.side) && opp[0].qty > 0
    ensures var m := MatchHead(inc, opp, leaves);
            && GoodStream(bs, m.upds)
            && Fold(bs, m.upds)
               == bs[inc.ticker := WithHalf(bs[inc.ticker], Opposite(inc.side), PublicHalf(m.opp))]
  {
    var m := MatchHead(inc, opp, leaves);
    var p := PublicHalf(opp);
    assert Step(bs, m.upds[0]) == bs;
    assert Find(p, opp[0].id) == 0;
    assert PublicHalf(m.opp) == if |m.opp| < |opp| then Without(p, 0) else p[0 := p[0].(qty := m.opp[0].qty)];
    GoodTwo(bs, m.upds[0], m.upds[1]);
  }

  lemma {:induction false} MatchAllFeed(bs: seq<PublicBook>, inc: Incoming, opp: seq<Order<Owner>>, leaves: nat)
    requires inc.ticker < |bs|
    requires Half(bs[inc.ticker], Opposite(inc.side)) == PublicHalf(opp)
    requires forall i | 0 <= i < |opp| :: opp[i].side == Opposite(inc.side) && opp[i].qty > 0
    ensures var m := MatchAll(inc, opp, leaves);
            && GoodStream(bs, m.upds)
            && Fold(bs, m.upds)
               == bs[inc.ticker := WithHalf(bs[inc.ticker], Opposite(inc.side), PublicHalf(m.opp))]
    decreases |opp| + leaves
  {
    hide MatchHead, Fold, GoodStream, PublicHalf;
    if !CanMatch(inc, opp, leaves) {
      NothingFolds(bs);
    } else {
      var m := MatchHead(inc, opp, leaves);
      MatchHeadFeed(bs, inc, opp, leaves);
      MatchHeadKeeps(inc, opp, leaves);
      var cs := Fold(bs, m.upds);
      MatchAllFeed(cs, inc, m.opp, m.leaves);
      var rest := MatchAll(inc, m.opp, m.leaves);
      FoldConcat(bs, m.upds, rest.upds);
      GoodConcat(bs, m.upds, rest.upds);
    }
  }

  lemma {:induction false} NothingFolds(bs: seq<PublicBook>)
    ensures GoodStream(bs, []) && Fold(bs, []) == bs
  {
  }

  /** One match leaves orders of the same side with something left, and less to do. */
  lemma {:induction false} MatchHeadKeeps(inc: Incoming, opp: seq<Order<Owner>>, leaves: nat)
    requires CanMatch(inc, opp, leaves)
    requires forall i | 0 <= i < |opp| :: opp[i].side == Opposite(inc.side) && opp[i].qty > 0
    ensures var m := MatchHead(inc, opp, leaves);
            && (forall i | 0 <= i < |m.opp| :: m.opp[i].side == Opposite(inc.side) && m.opp[i].qty > 0)
            && |m.opp| + m.leaves < |opp| + leaves
  {
  }

  /** The remainder's ADD is well formed and brings the public book to the exchange's. */
  lemma {:induction false} RestingFeed(bs: seq<PublicBook>, t: nat, y: Exchange, o: Order<Owner>)
    requires t < |bs| && bs[t] == PublicOf(y.book) && Inv(y) && o.id == y.nextId && o.qty > 0
    requires var opp := Half(y.book, Opposite(o.side)); opp == [] || !Crosses(o.side, o.price, opp[0].price)
    ensures var u := Add(o.id, t, o.side, o.price, o.qty, o.priority);
            && StepOk(bs, u)
            && Step(bs, u) == bs[t := PublicOf(WithHalf(y.book, o.side, Insert(Half(y.book, o.side), o)))]
  {
    PublicInsert(Half(y.book, o.side), o);
    var b := bs[t];
    forall i | 0 <= i < |b.bids| ensures b.bids[i].id < o.id {
      assert OrderOk(y.book.bids[i], Buy, y.nextId);
    }
    forall i | 0 <= i < |b.asks| ensures b.asks[i].id < o.id {
      assert OrderOk(y.book.asks[i], Sell, y.nextId);
    }
  }

  lemma {:induction false} CancelFeed(bs: seq<PublicBook>, x: Exchange, side: Side, k: nat, t: nat)
    requires t < |bs| && bs[t] == PublicOf(x.book) && Inv(x) && k < |Half(x.book, side)|
    ensures var out := RemoveAt(x, side, k, t);
            && GoodStream(bs, out.upds)
            && Fold(bs, out.upds) == bs[t := PublicOf(out.exchange.book)]
  {
    var s := Half(x.book, side);
    var out := RemoveAt(x, side, k, t);
    var p := PublicHalf(s);
    var f := Find(p, s[k].id);
    assert p[k].id == s[k].id;
    assert forall i | 0 <= i < k :: PairOk(s[i], s[k]);
    assert f == k;
    PublicWithout(s, k);
    assert HasTicker(out.upds[0], |bs|);
    GoodOne(bs, out.upds[0]);
  }

  /** The matching phase of an incoming order, before any remainder rests. */
  lemma {:induction false} MatchedFeed(bs: seq<PublicBook>, x: Exchange, inc: Incoming, qty: nat)
    requires inc.ticker < |bs| && bs[inc.ticker] == PublicOf(x.book) && Inv(x)
    ensures var m := MatchAll(inc, Half(x.book, Opposite(inc.side)), qty);
            && GoodStream(bs, m.upds)
            && Fold(bs, m.upds) == bs[inc.ticker := PublicOf(WithHalf(x.book, Opposite(inc.side), m.opp))]
  {
    var opp := Half(x.book, Opposite(inc.side));
    forall i | 0 <= i < |opp| ensures opp[i].side == Opposite(inc.side) && opp[i].qty > 0 {
      assert OrderOk(opp[i], Opposite(inc.side), x.nextId);
    }
    MatchAllFeed(bs, inc, opp, qty);
  }

  lemma {:induction false} AddFeed(
      bs: seq<PublicBook>, x: Exchange, client: nat, coid: nat, t: nat, side: Side, price: int, qty: nat)
    requires t < |bs| && bs[t] == PublicOf(x.book) && Inv(x)
    ensures var out := AddOrder(x, client, coid, t, side, price, qty);
            && GoodStream(bs, out.upds)
            && Fold(bs, out.upds) == bs[t := PublicOf(out.exchange.book)]
  {
    var owner := Owner(client, coid);
    var inc := Incoming(t, owner, x.nextId % TWO_32, side, price);
    var m := MatchAll(inc, Half(x.book, Opposite(side)), qty);
    MatchedFeed(bs, x, inc, qty);
    var y := Exchange(WithHalf(x.book, Opposite(side), m.opp), x.nextId);
    if m.leaves > 0 {
      var o := Order(owner, x.nextId, side, price, m.leaves, NextPriority(Half(y.book, side), side, price));
      assert Inv(y) && (m.opp == [] || !Crosses(side, price, m.opp[0].price)) by {
        var k := MatchedBook(x, inc, qty);
      }
      RestedFeed(bs, t, y, m.upds, o);
    }
  }

  lemma {:induction false} RestedFeed(bs: seq<PublicBook>, t: nat, y: Exchange, us: seq<Update>, o: Order<Owner>)
    requires t < |bs| && GoodStream(bs, us) && Fold(bs, us) == bs[t := PublicOf(y.book)]
    requires Inv(y) && o.id == y.nextId && o.qty > 0
    requires var opp := Half(y.book, Opposite(o.side)); opp == [] || !Crosses(o.side, o.price, opp[0].price)
    ensures var vs := us + [Add(o.id, t, o.side, o.price, o.qty, o.priority)];
            && GoodStream(bs, vs)
            && Fold(bs, vs) == bs[t := PublicOf(WithHalf(y.book, o.side, Insert(Half(y.book, o.side), o)))]
  {
    var cs := Fold(bs, us);
    var u := Add(o.id, t, o.side, o.price, o.qty, o.priority);
    RestingFeed(cs, t, y, o);
    GoodExtend(bs, us, u);
    assert (us + [u])[..|us|] == us;
  }

  /** Folding what one request publishes takes the public book to the exchange's new book, one good update at a time. */
  lemma {:induction false} ProcessFeed(bs: seq<PublicBook>, x: Exchange, req: Request)
    requires req.ticker < |bs| && bs[req.ticker] == PublicOf(x.book) && Inv(x)
    ensures var out := Process(x, req);
            && GoodStream(bs, out.upds)
            && Fold(bs, out.upds) == bs[req.ticker := PublicOf(out.exchange.book)]
  {
    match req
    case New(client, coid, ticker, side, price, qty) =>
      AddFeed(bs, x, client, coid, ticker, side, price, qty);
    case CancelOrder(client, coid, ticker) =>
      var owner := Owner(client, coid);
      var i := FindOwner(x.book.bids, owner);
      var j := FindOwner(x.book.asks, owner);
      if i < |x.book.bids| {
        CancelFeed(bs, x, Buy, i, ticker);
      } else if j < |x.book.asks| {
        CancelFeed(bs, x, Sell, j, ticker);
      }
  }

  // ---------------------------------------------------------------- whole runs of the matching engine

  /** All books of the exchange and everything they have sent so far. */
  datatype Engine = Engine(books: seq<Exchange>, resps: seq<Response>, upds: seq<Update>)

  function Handle(e: Engine, req: Request): (r: Engine)
    requires req.ticker < |e.books|
    ensures |r.books| == |e.books|
  {
    var out := Process(e.books[req.ticker], req);
    Engine(e.books[req.ticker := out.exchange], e.resps + out.resps, e.upds + out.upds)
  }

  function Run(n: nat, reqs: seq<Request>): (e: Engine)
    requires forall i | 0 <= i < |reqs| :: reqs[i].ticker < n
    ensures |e.books| == n
  {
    if reqs == [] then Engine(seq(n, _ => EMPTY), [], [])
    else Handle(Run(n, reqs[..|reqs| - 1]), reqs[|reqs| - 1])
  }

  ghost predicate LegalRun(n: nat, reqs: seq<Request>) {
    && (forall i | 0 <= i < |reqs| :: reqs[i].ticker < n)
    && (reqs == [] ||
        (&& LegalRun(n, reqs[..|reqs| - 1])
         && (var req := reqs[|reqs| - 1]; Legal(Run(n, reqs[..|reqs| - 1]).books[req.ticker], req))))
  }

  function PublicBooks(xs: seq<Exchange>): seq<PublicBook> {
    seq(|xs|, t requires 0 <= t < |xs| => PublicOf(xs[t].book))
  }

  /** The engine's own state agrees with the feed it has published. */
  ghost predicate Agrees(n: nat, e: Engine) {
    && |e.books| == n
    && (forall t | 0 <= t < n :: Inv(e.books[t]) && e.books[t].nextId >= 1)
    && GoodStream(EmptyBooks(n), e.upds)
    && Fold(EmptyBooks(n), e.upds) == PublicBooks(e.books)
  }

  lemma {:induction false} HandleAgrees(n: nat, e: Engine, req: Request)
    requires Agrees(n, e) && req.ticker < n && Legal(e.books[req.ticker], req)
    ensures Agrees(n, Handle(e, req))
  {
    hide Process, Fold, GoodStream, Inv;
    var x := e.books[req.ticker];
    ProcessKeepsInv(x, req);
    var bs := PublicBooks(e.books);
    ProcessFeed(bs, x, req);
    var out := Process(x, req);
    FoldConcat(EmptyBooks(n), e.upds, out.upds);
    GoodConcat(EmptyBooks(n), e.upds, out.upds);
    assert PublicBooks(Handle(e, req).books) == bs[req.ticker := PublicOf(out.exchange.book)];
  }

  /**
    In every run of the matching engine: each book is sorted, uncrossed and duplicate free; every
    update is well formed when it is published; and folding the feed gives the books exactly.
  */
  lemma {:induction false} FeedAgrees(n: nat, reqs: seq<Request>)
    requires LegalRun(n, reqs)
    ensures Agrees(n, Run(n, reqs))
  {
    if reqs == [] {
      assert PublicOf(EMPTY.book) == EMPTY_BOOK;
      assert PublicBooks(Run(n, reqs).books) == EmptyBooks(n);
    } else {
      FeedAgrees(n, reqs[..|reqs| - 1]);
      HandleAgrees(n, Run(n, reqs[..|reqs| - 1]), reqs[|reqs| - 1]);
    }
  }

  /** At every prefix of the published stream, best bid is below best ask on every ticker. */
  lemma {:induction false} FeedUncrossed(n: nat, reqs: seq<Request>, k: nat)
    requires LegalRun(n, reqs) && k <= |Run(n, reqs).upds|
    ensures BooksOk(Fold(EmptyBooks(n), Run(n, reqs).upds[..k]))
  {
    FeedAgrees(n, reqs);
    assert BooksOk(EmptyBooks(n));
    PrefixesSound(EmptyBooks(n), Run(n, reqs).upds, k);
  }
}
