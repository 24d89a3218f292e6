/** The portfolio ledger: portfolios, their append-only transactions and the
    holdings derived from them, as stored by the persistence layer; and the
    holding projection rule that turns one buy or sell into a change of one
    holding. */
module Ledger {
  import opened Common

  type UserId = string
  type PortfolioId = int
  type TransactionId = int

  datatype Portfolio = Portfolio(id: PortfolioId, owner: UserId, name: string)

  /** A stored trade. The entity's `type` column is called `kind` here. */
  datatype Transaction = Transaction(
    id: TransactionId, portfolioId: PortfolioId, cryptoId: string,
    kind: string, quantity: real, price: real, fee: real)

  /** The composite key of a holding. */
  datatype HoldingId = HoldingId(cryptoId: string, portfolioId: PortfolioId)

  datatype Holding = Holding(cryptoId: string, portfolioId: PortfolioId, quantity: real)

  function KeyOf(t: Transaction): HoldingId
  {
    HoldingId(t.cryptoId, t.portfolioId)
  }

  function KeysOf(ts: seq<Transaction>): set<HoldingId>
  {
    set t | t in ts :: KeyOf(t)
  }

  /** Transaction kinds are matched ignoring case. */
  predicate IsBuy(kind: string)
  {
    EqualsIgnoreCase(kind, "buy")
  }

  predicate IsSell(kind: string)
  {
    EqualsIgnoreCase(kind, "sell")
  }

  predicate KnownKind(kind: string)
  {
    IsBuy(kind) || IsSell(kind)
  }

  function InvalidKind(kind: string): Error
  {
    IllegalArgument("Invalid transaction type: " + kind)
  }

  /** The stored quantity of a holding, or 0 when there is no holding: a
      missing holding starts at quantity 0. */
  function QuantityAt(holdings: map<HoldingId, Holding>, k: HoldingId): real
  {
    if k in holdings then holdings[k].quantity else 0.0
  }

  /** updateHoldingFromTransaction on the holding table, for a buy or a sell:
      a buy adds the quantity and saves the holding, whatever the sum; a sell
      subtracts it and saves the holding only while the result stays above 0,
      deleting it otherwise. Only the transaction's own holding changes, and
      no holding is left at or below 0 by a sell. */
  function Apply(holdings: map<HoldingId, Holding>, t: Transaction): (r: map<HoldingId, Holding>)
    requires KnownKind(t.kind)
    ensures forall k :: k != KeyOf(t) ==> (k in r <==> k in holdings)
    ensures forall k :: k in holdings && k != KeyOf(t) ==> k in r && r[k] == holdings[k]
    ensures IsBuy(t.kind) ==> KeyOf(t) in r
    ensures IsSell(t.kind) && KeyOf(t) in r ==> r[KeyOf(t)].quantity > 0.0
    ensures QuantityAt(r, KeyOf(t)) ==
      if IsBuy(t.kind) then QuantityAt(holdings, KeyOf(t)) + t.quantity
      else if QuantityAt(holdings, KeyOf(t)) - t.quantity <= 0.0 then 0.0
      else QuantityAt(holdings, KeyOf(t)) - t.quantity
  {
    var k := KeyOf(t);
    var current := QuantityAt(holdings, k);
    if IsBuy(t.kind) then
      holdings[k := Holding(t.cryptoId, t.portfolioId, current + t.quantity)]
    else if current - t.quantity <= 0.0 then
      holdings - {k}
    else
      holdings[k := Holding(t.cryptoId, t.portfolioId, current - t.quantity)]
  }

  /** Price and fee never affect the holding. */
  lemma PriceAndFeeIgnored(holdings: map<HoldingId, Holding>, t: Transaction, price: real, fee: real)
    requires KnownKind(t.kind)
    ensures Apply(holdings, t) == Apply(holdings, t.(price := price, fee := fee))
  {
  }

  /** A buy of 0 on a key with no holding stores a holding of quantity 0, and
      a buy that leaves a negative quantity is stored as well. */
  lemma BuySavesEvenWhenNotPositive(cryptoId: string, p: PortfolioId)
    ensures var t := Transaction(1, p, cryptoId, "buy", 0.0, 0.0, 0.0);
      Apply(map[], t) == map[KeyOf(t) := Holding(cryptoId, p, 0.0)]
    ensures var t := Transaction(1, p, cryptoId, "BUY", -2.0, 0.0, 0.0);
      Apply(map[], t) == map[KeyOf(t) := Holding(cryptoId, p, -2.0)]
  {
    assert IsBuy("buy");
    assert Lower("BUY") == "buy";
  }

  // ---------------------------------------------------------------------
  // Replaying a list of transactions

  /** Applies the transactions one at a time, in list order, stopping at the
      first one whose kind is neither buy nor sell (the update throws there,
      and what was applied before it stays applied). */
  function Replay(holdings: map<HoldingId, Holding>, ts: seq<Transaction>): map<HoldingId, Holding>
    decreases |ts|
  {
    if ts == [] || !KnownKind(ts[0].kind) then holdings
    else Replay(Apply(holdings, ts[0]), ts[1..])
  }

  /** The list update: recompute the holdings of the list's keys starting from
      no holding, then replay the list. */
  function Recompute(holdings: map<HoldingId, Holding>, ts: seq<Transaction>): map<HoldingId, Holding>
  {
    Replay(holdings - KeysOf(ts), ts)
  }

  predicate AllKnown(ts: seq<Transaction>)
  {
    forall i :: 0 <= i < |ts| ==> KnownKind(ts[i].kind)
  }

  /** Replaying a concatenation replays the first part and, if every kind in
      it is known, then the second part from where the first left off. */
  lemma {:induction false} ReplayAppend(holdings: map<HoldingId, Holding>, a: seq<Transaction>, b: seq<Transaction>)
    ensures Replay(holdings, a + b) ==
      if AllKnown(a) then Replay(Replay(holdings, a), b) else Replay(holdings, a)
    decreases |a|
  {
    if a == [] {
      assert a + b == b;
    } else {
      assert (a + b)[0] == a[0];
      assert (a + b)[1..] == a[1..] + b;
      if KnownKind(a[0].kind) {
        ReplayAppend(Apply(holdings, a[0]), a[1..], b);
        if AllKnown(a[1..]) {
          forall i | 0 <= i < |a| ensures KnownKind(a[i].kind) {
            if i > 0 { assert a[i] == a[1..][i - 1]; }
          }
        } else {
          var i :| 0 <= i < |a[1..]| && !KnownKind(a[1..][i].kind);
          assert a[i + 1] == a[1..][i];
        }
      }
    }
  }

  /** Replaying one more transaction after a fully known prefix applies it,
      or stops there when its kind is unknown. */
  lemma ReplaySnoc(holdings: map<HoldingId, Holding>, ts: seq<Transaction>, t: Transaction)
    requires AllKnown(ts)
    ensures Replay(holdings, ts + [t]) ==
      if KnownKind(t.kind) then Apply(Replay(holdings, ts), t) else Replay(holdings, ts)
  {
    ReplayAppend(holdings, ts, [t]);
    assert [t][1..] == [];
  }

  /** Replaying touches no holding outside the keys of the list. */
  lemma {:induction false} ReplayFrame(holdings: map<HoldingId, Holding>, ts: seq<Transaction>)
    ensures Replay(holdings, ts) - KeysOf(ts) == holdings - KeysOf(ts)
    decreases |ts|
  {
    if ts != [] && KnownKind(ts[0].kind) {
      var h1 := Apply(holdings, ts[0]);
      ReplayFrame(h1, ts[1..]);
      assert KeysOf(ts[1..]) <= KeysOf(ts) by {
        forall k | k in KeysOf(ts[1..]) ensures k in KeysOf(ts) {
          var t :| t in ts[1..] && KeyOf(t) == k;
          assert t in ts;
        }
      }
      assert KeyOf(ts[0]) in KeysOf(ts);
      var K, K1 := KeysOf(ts), KeysOf(ts[1..]);
      assert Replay(holdings, ts) == Replay(h1, ts[1..]);
      forall k | k !in K
        ensures (k in Replay(h1, ts[1..]) <==> k in holdings)
        ensures k in holdings ==> Replay(h1, ts[1..])[k] == holdings[k]
      {
        assert k !in K1;
        assert k in Replay(h1, ts[1..]) - K1 <==> k in h1 - K1;
      }
    }
  }

  /** Recomputing a key set twice from the same list gives what recomputing
      once gives: the list update is idempotent. */
  lemma RecomputeIdempotent(holdings: map<HoldingId, Holding>, ts: seq<Transaction>)
    ensures Recompute(Recompute(holdings, ts), ts) == Recompute(holdings, ts)
  {
    var K := KeysOf(ts);
    ReplayFrame(holdings - K, ts);
    assert (holdings - K) - K == holdings - K;
  }

  // ---------------------------------------------------------------------
  // The projection against the running sum of the ledger

  /** A transaction's signed contribution to its holding: +quantity for a buy,
      -quantity for a sell. */
  function Signed(t: Transaction): real
  {
    if IsBuy(t.kind) then t.quantity else if IsSell(t.kind) then -t.quantity else 0.0
  }

  /** The net bought-minus-sold quantity of a list. */
  function Net(ts: seq<Transaction>): real
    decreases |ts|
  {
    if ts == [] then 0.0 else Signed(ts[0]) + Net(ts[1..])
  }

  /** No sell in the list takes the running total (starting at `start`) below
      zero, so the delete-on-sell rule never discards a negative remainder. */
  predicate NoOversell(start: real, ts: seq<Transaction>)
  {
    forall i :: 0 <= i < |ts| && IsSell(ts[i].kind) ==> start + Net(ts[..i + 1]) >= 0.0
  }

  /** When every transaction of a list is a known buy or sell for one key and
      no sell oversells, replaying it leaves exactly the starting quantity plus
      bought minus sold (an absent holding counting as 0). */
  lemma {:induction false} ReplayIsRunningSum(holdings: map<HoldingId, Holding>, k: HoldingId, ts: seq<Transaction>)
    requires AllKnown(ts)
    requires forall i :: 0 <= i < |ts| ==> KeyOf(ts[i]) == k
    requires NoOversell(QuantityAt(holdings, k), ts)
    ensures QuantityAt(Replay(holdings, ts), k) == QuantityAt(holdings, k) + Net(ts)
    decreases |ts|
  {
    if ts != [] {
      var t := ts[0];
      var q := QuantityAt(holdings, k);
      var h1 := Apply(holdings, t);
      assert ts[..1] == [t];
      assert Net([t]) == Signed(t);
      if IsSell(t.kind) {
        assert q + Net(ts[..1]) >= 0.0;
      }
      assert QuantityAt(h1, k) == q + Signed(t);
      forall i | 0 <= i < |ts[1..]| && IsSell(ts[1..][i].kind)
        ensures QuantityAt(h1, k) + Net(ts[1..][..i + 1]) >= 0.0
      {
        assert ts[1..][i] == ts[i + 1];
        assert ts[..i + 2][0] == t;
        assert ts[..i + 2][1..] == ts[1..][..i + 1];
        assert Net(ts[..i + 2]) == Signed(t) + Net(ts[1..][..i + 1]);
      }
      assert AllKnown(ts[1..]) by {
        forall i | 0 <= i < |ts[1..]| ensures KnownKind(ts[1..][i].kind) {
          assert ts[1..][i] == ts[i + 1];
        }
      }
      ReplayIsRunningSum(h1, k, ts[1..]);
    }
  }

  function Buy(id: TransactionId, p: PortfolioId, cryptoId: string, quantity: real): Transaction
  {
    Transaction(id, p, cryptoId, "buy", quantity, 0.0, 0.0)
  }

  function Sell(id: TransactionId, p: PortfolioId, cryptoId: string, quantity: real): Transaction
  {
    Transaction(id, p, cryptoId, "sell", quantity, 0.0, 0.0)
  }

  /** Replaying three known transactions applies them one after another. */
  lemma ReplayThree(holdings: map<HoldingId, Holding>, a: Transaction, b: Transaction, c: Transaction)
    requires KnownKind(a.kind) && KnownKind(b.kind) && KnownKind(c.kind)
    ensures Replay(holdings, [a, b, c]) == Apply(Apply(Apply(holdings, a), b), c)
  {
    var h1 := Apply(holdings, a);
    var h2 := Apply(h1, b);
    assert [a, b, c][1..] == [b, c] && [b, c][1..] == [c] && [c][1..] == [];
    assert Replay(holdings, [a, b, c]) == Replay(h1, [b, c]);
    assert Replay(h1, [b, c]) == Replay(h2, [c]);
    assert Replay(h2, [c]) == Replay(Apply(h2, c), []);
  }

  lemma BuySellKinds()
    ensures IsBuy("buy") && KnownKind("buy")
    ensures IsSell("sell") && !IsBuy("sell") && KnownKind("sell")
  {
    assert Lower("buy") == "buy";
    assert Lower("sell") == "sell";
    assert Lower("sell")[0] != Lower("buy")[0];
  }

  /** Buying 2, buying 3 and selling 1 leaves a holding of 4. */
  lemma ReplaySumExample(p: PortfolioId, c: string)
    ensures var k := HoldingId(c, p);
      QuantityAt(Replay(map[], [Buy(1, p, c, 2.0), Buy(2, p, c, 3.0), Sell(3, p, c, 1.0)]), k) == 4.0
  {
    BuySellKinds();
    ReplayThree(map[], Buy(1, p, c, 2.0), Buy(2, p, c, 3.0), Sell(3, p, c, 1.0));
  }

  /** Replay depends on the order of the transactions: because a sell that
      would go to or below 0 deletes the holding, buy 3, sell 5, buy 3 ends at
      3 while buy 3, buy 3, sell 5 ends at 1, although both lists hold the same
      transactions. */
  lemma ReplayIsOrderDependent(p: PortfolioId, c: string)
    ensures var k := HoldingId(c, p);
      var first := [Buy(1, p, c, 3.0), Sell(2, p, c, 5.0), Buy(3, p, c, 3.0)];
      var second := [Buy(1, p, c, 3.0), Buy(3, p, c, 3.0), Sell(2, p, c, 5.0)];
      && multiset(first) == multiset(second)
      && k in Replay(map[], first) && Replay(map[], first)[k].quantity == 3.0
      && k in Replay(map[], second) && Replay(map[], second)[k].quantity == 1.0
  {
    var b1, s2, b3 := Buy(1, p, c, 3.0), Sell(2, p, c, 5.0), Buy(3, p, c, 3.0);
    BuySellKinds();
    ReplayThree(map[], b1, s2, b3);
    ReplayThree(map[], b1, b3, s2);
    assert multiset([b1, s2, b3]) == multiset([b1, b3, s2]) by {
      assert [b1, s2, b3] == [b1] + [s2] + [b3];
      assert [b1, b3, s2] == [b1] + [b3] + [s2];
    }
  }

  // ---------------------------------------------------------------------
  // The store

  /** Transaction ids grow along the table, as an identity column does. */
  predicate IdsIncreasing(ts: seq<Transaction>)
  {
    forall i, j :: 0 <= i < j < |ts| ==> ts[i].id < ts[j].id
  }

  /** No user has two portfolios of the same name. */
  ghost predicate UniqueNames(portfolios: map<PortfolioId, Portfolio>)
  {
    forall a, b ::
      a in portfolios && b in portfolios && a != b && portfolios[a].owner == portfolios[b].owner
      ==> portfolios[a].name != portfolios[b].name
  }

  /** The three tables the portfolio services read and write: portfolios by
      id, transactions in insertion order, and holdings by (cryptoId,
      portfolioId). The two `next` counters are the identity columns. */
  class Store {
    var portfolios: map<PortfolioId, Portfolio>
    var transactions: seq<Transaction>
    var holdings: map<HoldingId, Holding>
    var nextPortfolioId: PortfolioId
    var nextTransactionId: TransactionId

    ghost predicate Valid()
      reads this
    {
      && 0 < nextPortfolioId && 0 < nextTransactionId
      && (forall id :: id in portfolios ==> portfolios[id].id == id && 0 < id < nextPortfolioId)
      && UniqueNames(portfolios)
      && (forall i :: 0 <= i < |transactions| ==>
            transactions[i].portfolioId in portfolios && 0 < transactions[i].id < nextTransactionId)
      && IdsIncreasing(transactions)
      && (forall k :: k in holdings ==>
            holdings[k].cryptoId == k.cryptoId && holdings[k].portfolioId == k.portfolioId
            && k.portfolioId in portfolios)
    }

    constructor ()
      ensures Valid()
      ensures portfolios == map[] && transactions == [] && holdings == map[]
    {
      portfolios := map[];
      transactions := [];
      holdings := map[];
      nextPortfolioId := 1;
      nextTransactionId := 1;
    }
  }
}
