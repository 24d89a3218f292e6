/** HoldingService: reads a user's holdings and keeps the holding table in
    step with the transactions, one transaction at a time. */
module HoldingService {
  import opened Common
  import opened Ledger
  import PortfolioService

  const HoldingNotFound: string := "Holding not found"

  /** The user owns the portfolio with this id. */
  predicate OwnsPortfolio(portfolios: map<PortfolioId, Portfolio>, id: PortfolioId, user: UserId)
  {
    id in portfolios && portfolios[id].owner == user
  }

  /** findById: the holding of (cryptoId, portfolioId) when it exists and the
      portfolio belongs to the user; not-found otherwise. */
  function FindById(store: Store, cryptoId: string, portfolioId: PortfolioId, user: UserId): (r: Result<Holding>)
    reads store
    requires store.Valid()
    ensures r.Success? <==>
      HoldingId(cryptoId, portfolioId) in store.holdings && OwnsPortfolio(store.portfolios, portfolioId, user)
    ensures r.Success? ==>
      r.value == store.holdings[HoldingId(cryptoId, portfolioId)]
      && r.value.cryptoId == cryptoId && r.value.portfolioId == portfolioId
    ensures r.Failure? ==> r.error == Http(NotFound, HoldingNotFound)
  {
    var k := HoldingId(cryptoId, portfolioId);
    if k in store.holdings && OwnsPortfolio(store.portfolios, portfolioId, user) then Success(store.holdings[k])
    else Failure(Http(NotFound, HoldingNotFound))
  }

  /** getAllByPortfolioIdAndUser: after the ownership check of findByIdAndUser,
      exactly the holdings of that portfolio. */
  function GetAllByPortfolioIdAndUser(store: Store, portfolioId: PortfolioId, user: UserId): (r: Result<set<Holding>>)
    reads store
    requires store.Valid()
    ensures r.Failure? <==> !OwnsPortfolio(store.portfolios, portfolioId, user)
    ensures r.Failure? ==> r.error == Http(NotFound, PortfolioService.PortfolioNotFound)
    ensures r.Success? ==> forall h :: h in r.value <==> h in store.holdings.Values && h.portfolioId == portfolioId
  {
    var found := PortfolioService.FindByIdAndUser(store, portfolioId, user);
    if found.Failure? then Failure(found.error)
    else Success(set h | h in store.holdings.Values && h.portfolioId == portfolioId)
  }

  /** updateHoldingFromTransaction: a holding missing from the table starts at
      quantity 0; a buy adds the quantity and saves; a sell subtracts it, and
      deletes the holding instead of saving it when the result is at or below
      0; any other type fails with IllegalArgumentException and changes
      nothing. Only the transaction's own holding is read or written. */
  method UpdateHoldingFromTransaction(store: Store, t: Transaction) returns (r: Outcome)
    requires store.Valid()
    requires t.portfolioId in store.portfolios
    modifies store
    ensures store.Valid()
    ensures store.portfolios == old(store.portfolios) && store.transactions == old(store.transactions)
    ensures store.nextPortfolioId == old(store.nextPortfolioId)
    ensures store.nextTransactionId == old(store.nextTransactionId)
    ensures r == if KnownKind(t.kind) then Ok else Fail(InvalidKind(t.kind))
    ensures store.holdings == if KnownKind(t.kind) then Apply(old(store.holdings), t) else old(store.holdings)
  {
    var k := KeyOf(t);
    var quantity := if k in store.holdings then store.holdings[k].quantity else 0.0;
    if IsBuy(t.kind) {
      quantity := quantity + t.quantity;
    } else if IsSell(t.kind) {
      quantity := quantity - t.quantity;
      if quantity <= 0.0 {
        assert store.holdings - {k} == Apply(store.holdings, t);
        store.holdings := store.holdings - {k};
        return Ok;
      }
    } else {
      return Fail(InvalidKind(t.kind));
    }
    assert store.holdings[k := Holding(t.cryptoId, t.portfolioId, quantity)] == Apply(store.holdings, t);
    store.holdings := store.holdings[k := Holding(t.cryptoId, t.portfolioId, quantity)];
    r := Ok;
  }

  /** The first transaction of the list whose kind is neither buy nor sell. */
  function FirstUnknown(ts: seq<Transaction>): (i: nat)
    requires !AllKnown(ts)
    ensures i < |ts| && !KnownKind(ts[i].kind) && AllKnown(ts[..i])
  {
    if !KnownKind(ts[0].kind) then 0
    else
      var j := FirstUnknown(ts[1..]);
      assert forall m :: 0 <= m < j ==> ts[1..][..j][m] == ts[..j + 1][m + 1];
      j + 1
  }

  /** One more known transaction extends the replayed prefix by one update. */
  lemma ReplayStep(start: map<HoldingId, Holding>, ts: seq<Transaction>, i: nat)
    requires i < |ts| && AllKnown(ts[..i]) && KnownKind(ts[i].kind)
    ensures AllKnown(ts[..i + 1])
    ensures Replay(start, ts[..i + 1]) == Apply(Replay(start, ts[..i]), ts[i])
  {
    assert ts[..i + 1] == ts[..i] + [ts[i]];
    ReplaySnoc(start, ts[..i], ts[i]);
  }

  /** A list whose first unknown kind sits at i replays only its first i
      transactions. */
  lemma ReplayStopsAt(start: map<HoldingId, Holding>, ts: seq<Transaction>, i: nat)
    requires i < |ts| && AllKnown(ts[..i]) && !KnownKind(ts[i].kind)
    ensures !AllKnown(ts) && FirstUnknown(ts) == i
    ensures Replay(start, ts) == Replay(start, ts[..i])
  {
    ReplayAppend(start, ts[..i], ts[i..]);
    assert ts[..i] + ts[i..] == ts;
    assert ts[i..][0] == ts[i];
  }

  /** updateHolding(List): this method is called by createTransaction but is
      not defined in the service. It is modelled as recomputing the holdings
      of the list's keys from no holding, applying updateHoldingFromTransaction
      to each transaction in list order, and stopping at the first transaction
      of unknown type, which fails as the single update does. */
  method UpdateHolding(store: Store, ts: seq<Transaction>) returns (r: Outcome)
    requires store.Valid()
    requires forall i :: 0 <= i < |ts| ==> ts[i].portfolioId in store.portfolios
    modifies store
    ensures store.Valid()
    ensures store.portfolios == old(store.portfolios) && store.transactions == old(store.transactions)
    ensures store.nextPortfolioId == old(store.nextPortfolioId)
    ensures store.nextTransactionId == old(store.nextTransactionId)
    ensures store.holdings == Recompute(old(store.holdings), ts)
    ensures r == if AllKnown(ts) then Ok else Fail(InvalidKind(ts[FirstUnknown(ts)].kind))
  {
    store.holdings := store.holdings - KeysOf(ts);
    ghost var start := store.holdings;
    var i := 0;
    while i < |ts|
      invariant 0 <= i <= |ts|
      invariant store.Valid()
      invariant store.portfolios == old(store.portfolios) && store.transactions == old(store.transactions)
      invariant store.nextPortfolioId == old(store.nextPortfolioId)
      invariant store.nextTransactionId == old(store.nextTransactionId)
      invariant AllKnown(ts[..i])
      invariant store.holdings == Replay(start, ts[..i])
    {
      r := UpdateHoldingFromTransaction(store, ts[i]);
      if r.Fail? {
        ReplayStopsAt(start, ts, i);
        return;
      }
      ReplayStep(start, ts, i);
      i := i + 1;
    }
    assert ts[..i] == ts;
    r := Ok;
  }

  /** Two holding tables hold the same holdings at every key of K. */
  predicate AgreeOn(h1: map<HoldingId, Holding>, h2: map<HoldingId, Holding>, K: set<HoldingId>)
  {
    forall k :: k in K ==> (k in h1 <==> k in h2) && (k in h1 ==> h1[k] == h2[k])
  }

  /** A replay reads only the holdings of its own keys. */
  lemma {:induction false} ReplayAgrees(h1: map<HoldingId, Holding>, h2: map<HoldingId, Holding>,
                                        ts: seq<Transaction>, K: set<HoldingId>)
    requires KeysOf(ts) <= K && AgreeOn(h1, h2, K)
    ensures AgreeOn(Replay(h1, ts), Replay(h2, ts), K)
    decreases |ts|
  {
    if ts != [] && KnownKind(ts[0].kind) {
      assert KeyOf(ts[0]) in KeysOf(ts);
      assert KeysOf(ts[1..]) <= KeysOf(ts) by {
        forall k | k in KeysOf(ts[1..]) ensures k in KeysOf(ts) {
          var t :| t in ts[1..] && KeyOf(t) == k;
          assert t in ts;
        }
      }
      ReplayAgrees(Apply(h1, ts[0]), Apply(h2, ts[0]), ts[1..], K);
    }
  }

  /** The list update forgets what was stored for the list's keys: whatever
      the table held before, the recomputed holdings of those keys are the
      same. */
  lemma RecomputeForgetsOldHoldings(h1: map<HoldingId, Holding>, h2: map<HoldingId, Holding>, ts: seq<Transaction>)
    ensures AgreeOn(Recompute(h1, ts), Recompute(h2, ts), KeysOf(ts))
  {
    ReplayAgrees(h1 - KeysOf(ts), h2 - KeysOf(ts), ts, KeysOf(ts));
  }

  /** For a non-empty history of one key with only buys and sells and no
      oversell, the list update leaves that key holding exactly bought minus
      sold. */
  lemma RecomputeIsNetSum(h: map<HoldingId, Holding>, k: HoldingId, ts: seq<Transaction>)
    requires |ts| > 0 && AllKnown(ts)
    requires forall i :: 0 <= i < |ts| ==> KeyOf(ts[i]) == k
    requires NoOversell(0.0, ts)
    ensures QuantityAt(Recompute(h, ts), k) == Net(ts)
  {
    assert k in KeysOf(ts) by { assert KeyOf(ts[0]) == k; }
    ReplayIsRunningSum(h - KeysOf(ts), k, ts);
  }
}
