/** TransactionService: records a buy or sell in one of the user's
    portfolios and recomputes the affected holding; lists a portfolio's
    transactions. */
module TransactionService {
  import opened Common
  import opened Ledger
  import opened Requests
  import PortfolioService
  import HoldingService

  /** The transactions of one portfolio, optionally only those of one coin,
      in table order. */
  function Where(ts: seq<Transaction>, portfolioId: PortfolioId, cryptoId: Option<string>): (r: seq<Transaction>)
    ensures forall t :: t in r <==>
      t in ts && t.portfolioId == portfolioId && (cryptoId.Some? ==> t.cryptoId == cryptoId.value)
    ensures |r| <= |ts|
  {
    if ts == [] then []
    else
      var rest := Where(ts[1..], portfolioId, cryptoId);
      if ts[0].portfolioId == portfolioId && (cryptoId.Some? ==> ts[0].cryptoId == cryptoId.value)
      then [ts[0]] + rest
      else rest
  }

  /** Filtering a table that grew by one row gives the old answer, plus that
      row at the end when it matches. */
  lemma {:induction false} WhereSnoc(ts: seq<Transaction>, t: Transaction, portfolioId: PortfolioId, cryptoId: Option<string>)
    ensures Where(ts + [t], portfolioId, cryptoId) ==
      Where(ts, portfolioId, cryptoId)
      + (if t.portfolioId == portfolioId && (cryptoId.Some? ==> t.cryptoId == cryptoId.value) then [t] else [])
    decreases |ts|
  {
    if ts == [] {
      assert [t][1..] == [];
    } else {
      assert (ts + [t])[0] == ts[0];
      assert (ts + [t])[1..] == ts[1..] + [t];
      WhereSnoc(ts[1..], t, portfolioId, cryptoId);
    }
  }

  /** getAllByCryptoId: the user's transactions of that portfolio and coin;
      none when the portfolio is absent or not the user's. */
  function GetAllByCryptoId(store: Store, portfolioId: PortfolioId, cryptoId: string, user: UserId): (r: seq<Transaction>)
    reads store
    ensures forall t :: t in r <==>
      && t in store.transactions && t.portfolioId == portfolioId && t.cryptoId == cryptoId
      && HoldingService.OwnsPortfolio(store.portfolios, portfolioId, user)
    ensures forall t :: t in r ==> KeyOf(t) == HoldingId(cryptoId, portfolioId)
  {
    if HoldingService.OwnsPortfolio(store.portfolios, portfolioId, user)
    then Where(store.transactions, portfolioId, Some(cryptoId))
    else []
  }

  /** getAll: the user's transactions of that portfolio; none when the
      portfolio is absent or not the user's. */
  function GetAll(store: Store, portfolioId: PortfolioId, user: UserId): (r: seq<Transaction>)
    reads store
    ensures forall t :: t in r <==>
      && t in store.transactions && t.portfolioId == portfolioId
      && HoldingService.OwnsPortfolio(store.portfolios, portfolioId, user)
  {
    if HoldingService.OwnsPortfolio(store.portfolios, portfolioId, user)
    then Where(store.transactions, portfolioId, None)
    else []
  }

  /** The transaction createTransaction stores for a request, under a given id. */
  function FromRequest(id: TransactionId, portfolioId: PortfolioId, req: CreateTransactionRequest): (t: Transaction)
    ensures t.id == id && t.portfolioId == portfolioId
    ensures t.cryptoId == req.cryptoId && t.kind == req.kind
    ensures t.quantity == req.quantity && t.price == req.price && t.fee == req.fee
  {
    Transaction(id, portfolioId, req.cryptoId, req.kind, req.quantity, req.price, req.fee)
  }

  /** createTransaction: checks ownership first (not-found, nothing stored,
      no holding changed); then saves the transaction under a fresh id and,
      after saving, hands the user's whole history for that portfolio and
      coin, which now ends with the new transaction, to the list update of
      the holdings. The saved transaction is returned; an unknown type makes
      the update throw after the transaction is already saved. */
  method CreateTransaction(store: Store, user: UserId, portfolioId: PortfolioId, req: CreateTransactionRequest)
    returns (r: Result<Transaction>)
    requires store.Valid()
    modifies store
    ensures store.Valid()
    ensures store.portfolios == old(store.portfolios) && store.nextPortfolioId == old(store.nextPortfolioId)
    ensures old(PortfolioService.FindByIdAndUser(store, portfolioId, user)).Failure? ==>
      && r == Failure(Http(NotFound, PortfolioService.PortfolioNotFound))
      && store.transactions == old(store.transactions)
      && store.holdings == old(store.holdings)
      && store.nextTransactionId == old(store.nextTransactionId)
    ensures old(PortfolioService.FindByIdAndUser(store, portfolioId, user)).Success? ==>
      var t := FromRequest(old(store.nextTransactionId), portfolioId, req);
      var history := GetAllByCryptoId(store, portfolioId, req.cryptoId, user);
      && store.transactions == old(store.transactions) + [t]
      && store.nextTransactionId == old(store.nextTransactionId) + 1
      && history == old(GetAllByCryptoId(store, portfolioId, req.cryptoId, user)) + [t]
      && store.holdings == Recompute(old(store.holdings), history)
      && r == if AllKnown(history) then Success(t)
              else Failure(InvalidKind(history[HoldingService.FirstUnknown(history)].kind))
  {
    var found := PortfolioService.FindByIdAndUser(store, portfolioId, user);
    if found.Failure? {
      return Failure(found.error);
    }
    ghost var before := GetAllByCryptoId(store, portfolioId, req.cryptoId, user);
    var t := SaveTransaction(store, portfolioId, req);
    WhereSnoc(old(store.transactions), t, portfolioId, Some(req.cryptoId));
    var history := GetAllByCryptoId(store, portfolioId, req.cryptoId, user);
    assert history == before + [t];
    forall i | 0 <= i < |history| ensures history[i].portfolioId in store.portfolios {
      assert history[i] in history;
    }
    var updated := HoldingService.UpdateHolding(store, history);
    r := if updated.Ok? then Success(t) else Failure(updated.error);
  }

  /** transactionDao.save: appends the transaction under the next id of the
      identity column. */
  method SaveTransaction(store: Store, portfolioId: PortfolioId, req: CreateTransactionRequest)
    returns (t: Transaction)
    requires store.Valid() && portfolioId in store.portfolios
    modifies store
    ensures store.Valid()
    ensures t == FromRequest(old(store.nextTransactionId), portfolioId, req)
    ensures store.transactions == old(store.transactions) + [t]
    ensures store.nextTransactionId == old(store.nextTransactionId) + 1
    ensures store.portfolios == old(store.portfolios) && store.holdings == old(store.holdings)
    ensures store.nextPortfolioId == old(store.nextPortfolioId)
  {
    t := FromRequest(store.nextTransactionId, portfolioId, req);
    AppendKeepsOrder(store.transactions, t);
    store.transactions := store.transactions + [t];
    store.nextTransactionId := store.nextTransactionId + 1;
  }

  /** A row whose id exceeds every id of the table keeps ids increasing when
      appended. */
  lemma AppendKeepsOrder(ts: seq<Transaction>, t: Transaction)
    requires IdsIncreasing(ts)
    requires forall i :: 0 <= i < |ts| ==> ts[i].id < t.id
    ensures IdsIncreasing(ts + [t])
  {
  }

  /** After creating a transaction in a portfolio the user owns, only the
      holding of that portfolio and coin can differ from before. */
  lemma CreateTouchesOneHolding(holdings: map<HoldingId, Holding>, history: seq<Transaction>, k: HoldingId)
    requires forall t :: t in history ==> KeyOf(t) == k
    ensures forall other :: other != k ==>
      (other in Recompute(holdings, history) <==> other in holdings)
      && (other in holdings ==> Recompute(holdings, history)[other] == holdings[other])
  {
    var K := KeysOf(history);
    ReplayFrame(holdings - K, history);
    var r := Recompute(holdings, history);
    assert r == Replay(holdings - K, history);
    forall other | other != k
      ensures (other in r <==> other in holdings)
      ensures other in holdings ==> r[other] == holdings[other]
    {
      assert other !in K;
      assert (other in r <==> other in r - K);
      if other in r {
        assert (r - K)[other] == r[other];
      }
    }
  }

  /** A request that passed validation has a type the holding update accepts,
      so the update after creating it never fails on that transaction. */
  lemma ValidatedTypeIsKnown(req: CreateTransactionRequest)
    requires CreateTransactionViolations(req) == {}
    ensures KnownKind(req.kind)
  {
    CreateTransactionAccepted(req);
    if req.kind == "buy" {
      assert IsBuy(req.kind);
    } else {
      assert IsSell(req.kind);
    }
  }
}
