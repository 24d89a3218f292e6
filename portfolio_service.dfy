/** PortfolioService: create, rename, list, look up and delete a user's
    portfolios, keeping portfolio names unique per user and checking
    ownership on every lookup and change. */
module PortfolioService {
  import opened Common
  import opened Ledger

  const DuplicateName: string := "You already a portfolio with that name."
  const PortfolioNotFound: string := "Portfolio not found."

  /** existsByNameAndUser: the user owns a portfolio with exactly this name. */
  predicate NameTaken(portfolios: map<PortfolioId, Portfolio>, name: string, user: UserId)
  {
    exists id :: id in portfolios && portfolios[id].name == name && portfolios[id].owner == user
  }

  /** existsByNameAndUserAndIdNot, by the meaning of its name: the user owns
      another portfolio, with a different id, that has this name. */
  predicate NameTakenByOther(portfolios: map<PortfolioId, Portfolio>, name: string, user: UserId, id: PortfolioId)
  {
    exists other :: other in portfolios && other != id
      && portfolios[other].name == name && portfolios[other].owner == user
  }

  /** findByIdAndUser: the portfolio with this id if the user owns it, and
      not-found when it is absent or belongs to someone else. */
  function FindByIdAndUser(store: Store, id: PortfolioId, user: UserId): (r: Result<Portfolio>)
    reads store
    ensures r.Success? <==> id in store.portfolios && store.portfolios[id].owner == user
    ensures r.Success? ==> r.value == store.portfolios[id]
    ensures r.Failure? ==> r.error == Http(NotFound, PortfolioNotFound)
  {
    if id in store.portfolios && store.portfolios[id].owner == user then Success(store.portfolios[id])
    else Failure(Http(NotFound, PortfolioNotFound))
  }

  /** findAllByUser: exactly the portfolios the user owns. */
  function FindAllByUser(store: Store, user: UserId): (r: set<Portfolio>)
    reads store
    ensures forall p :: p in r <==> p in store.portfolios.Values && p.owner == user
  {
    set p | p in store.portfolios.Values && p.owner == user
  }

  /** Adding a portfolio whose name its owner does not use yet keeps names
      unique per user. */
  lemma AddKeepsNamesUnique(portfolios: map<PortfolioId, Portfolio>, p: Portfolio)
    requires UniqueNames(portfolios)
    requires p.id !in portfolios
    requires !NameTaken(portfolios, p.name, p.owner)
    ensures UniqueNames(portfolios[p.id := p])
  {
  }

  /** Renaming a portfolio to a name no other portfolio of its owner uses
      keeps names unique per user. */
  lemma RenameKeepsNamesUnique(portfolios: map<PortfolioId, Portfolio>, id: PortfolioId, newName: string)
    requires UniqueNames(portfolios)
    requires id in portfolios
    requires !NameTakenByOther(portfolios, newName, portfolios[id].owner, id)
    ensures UniqueNames(portfolios[id := portfolios[id].(name := newName)])
  {
  }

  /** createPortfolio: fails with bad-request and stores nothing when the user
      already has a portfolio of that name (another user's portfolio of the
      same name does not count); otherwise stores a new portfolio with that
      name and owner under a fresh id. */
  method CreatePortfolio(store: Store, name: string, user: UserId) returns (r: Result<Portfolio>)
    requires store.Valid()
    modifies store
    ensures store.Valid()
    ensures store.transactions == old(store.transactions) && store.holdings == old(store.holdings)
    ensures store.nextTransactionId == old(store.nextTransactionId)
    ensures old(NameTaken(store.portfolios, name, user)) ==>
      && r == Failure(Http(BadRequest, DuplicateName)) && store.portfolios == old(store.portfolios)
      && store.nextPortfolioId == old(store.nextPortfolioId)
    ensures !old(NameTaken(store.portfolios, name, user)) ==>
      && r.Success?
      && store.nextPortfolioId == old(store.nextPortfolioId) + 1
      && r.value == Portfolio(old(store.nextPortfolioId), user, name)
      && r.value.id !in old(store.portfolios)
      && store.portfolios == old(store.portfolios)[r.value.id := r.value]
  {
    if NameTaken(store.portfolios, name, user) {
      return Failure(Http(BadRequest, DuplicateName));
    }
    var p := Portfolio(store.nextPortfolioId, user, name);
    AddKeepsNamesUnique(store.portfolios, p);
    store.portfolios := store.portfolios[p.id := p];
    store.nextPortfolioId := store.nextPortfolioId + 1;
    r := Success(p);
  }

  /** updatePortfolio: checks ownership first (not-found for an absent or
      foreign id), then fails with bad-request only when a different portfolio
      of the user already has the new name, so renaming a portfolio to its own
      name succeeds; a successful rename changes only the name. */
  method UpdatePortfolio(store: Store, id: PortfolioId, newName: string, user: UserId) returns (r: Result<Portfolio>)
    requires store.Valid()
    modifies store
    ensures store.Valid()
    ensures store.transactions == old(store.transactions) && store.holdings == old(store.holdings)
    ensures store.nextPortfolioId == old(store.nextPortfolioId)
    ensures store.nextTransactionId == old(store.nextTransactionId)
    ensures old(FindByIdAndUser(store, id, user)).Failure? ==>
      r == Failure(Http(NotFound, PortfolioNotFound)) && store.portfolios == old(store.portfolios)
    ensures old(FindByIdAndUser(store, id, user)).Success? && old(NameTakenByOther(store.portfolios, newName, user, id)) ==>
      r == Failure(Http(BadRequest, DuplicateName)) && store.portfolios == old(store.portfolios)
    ensures old(FindByIdAndUser(store, id, user)).Success? && !old(NameTakenByOther(store.portfolios, newName, user, id)) ==>
      && r == Success(old(store.portfolios)[id].(name := newName))
      && store.portfolios == old(store.portfolios)[id := r.value]
  {
    var found := FindByIdAndUser(store, id, user);
    if found.Failure? {
      return Failure(found.error);
    }
    if NameTakenByOther(store.portfolios, newName, user, id) {
      return Failure(Http(BadRequest, DuplicateName));
    }
    RenameKeepsNamesUnique(store.portfolios, id, newName);
    var renamed := found.value.(name := newName);
    store.portfolios := store.portfolios[id := renamed];
    r := Success(renamed);
  }

  /** The transactions that do not belong to the portfolio. */
  function WithoutPortfolio(ts: seq<Transaction>, id: PortfolioId): (r: seq<Transaction>)
    ensures forall t :: t in r <==> t in ts && t.portfolioId != id
    ensures |r| <= |ts|
  {
    if ts == [] then []
    else if ts[0].portfolioId == id then WithoutPortfolio(ts[1..], id)
    else [ts[0]] + WithoutPortfolio(ts[1..], id)
  }

  /** The tail of an increasing table is increasing, and every id in it
      exceeds the head's. */
  lemma TailIncreasing(ts: seq<Transaction>)
    requires ts != [] && IdsIncreasing(ts)
    ensures IdsIncreasing(ts[1..])
    ensures forall t :: t in ts[1..] ==> ts[0].id < t.id
  {
    forall i, j | 0 <= i < j < |ts[1..]| ensures ts[1..][i].id < ts[1..][j].id {
      assert ts[1..][i] == ts[i + 1] && ts[1..][j] == ts[j + 1];
    }
    forall t | t in ts[1..] ensures ts[0].id < t.id {
      var k :| 0 <= k < |ts[1..]| && ts[1..][k] == t;
      assert ts[k + 1] == t;
    }
  }

  /** A row whose id is below every id of an increasing table keeps it
      increasing when put in front. */
  lemma ConsIncreasing(t: Transaction, rest: seq<Transaction>)
    requires IdsIncreasing(rest)
    requires forall u :: u in rest ==> t.id < u.id
    ensures IdsIncreasing([t] + rest)
  {
    var r := [t] + rest;
    forall i, j | 0 <= i < j < |r| ensures r[i].id < r[j].id {
      assert r[j] == rest[j - 1] && r[j] in rest;
      if i > 0 {
        assert r[i] == rest[i - 1];
      }
    }
  }

  /** Dropping rows keeps the identity column increasing. */
  lemma {:induction false} WithoutPortfolioKeepsOrder(ts: seq<Transaction>, id: PortfolioId)
    requires IdsIncreasing(ts)
    ensures IdsIncreasing(WithoutPortfolio(ts, id))
  {
    if ts != [] {
      TailIncreasing(ts);
      WithoutPortfolioKeepsOrder(ts[1..], id);
      if ts[0].portfolioId != id {
        ConsIncreasing(ts[0], WithoutPortfolio(ts[1..], id));
      }
    }
  }

  /** The holdings of every other portfolio, unchanged. */
  function HoldingsOutside(holdings: map<HoldingId, Holding>, id: PortfolioId): (r: map<HoldingId, Holding>)
    ensures forall k :: k in r <==> k in holdings && k.portfolioId != id
    ensures forall k :: k in r ==> r[k] == holdings[k]
  {
    map k | k in holdings && k.portfolioId != id :: holdings[k]
  }

  /** deletePortfolio: deletes a portfolio only when the caller owns it
      (not-found otherwise, with nothing changed); orphan removal takes its
      transactions and holdings with it and leaves everything else. */
  method DeletePortfolio(store: Store, id: PortfolioId, user: UserId) returns (r: Outcome)
    requires store.Valid()
    modifies store
    ensures store.Valid()
    ensures store.nextPortfolioId == old(store.nextPortfolioId)
    ensures store.nextTransactionId == old(store.nextTransactionId)
    ensures old(FindByIdAndUser(store, id, user)).Failure? ==>
      && r == Fail(Http(NotFound, PortfolioNotFound))
      && store.portfolios == old(store.portfolios)
      && store.transactions == old(store.transactions)
      && store.holdings == old(store.holdings)
    ensures old(FindByIdAndUser(store, id, user)).Success? ==>
      && r == Ok
      && store.portfolios == old(store.portfolios) - {id}
      && store.transactions == WithoutPortfolio(old(store.transactions), id)
      && store.holdings == HoldingsOutside(old(store.holdings), id)
  {
    var found := FindByIdAndUser(store, id, user);
    if found.Failure? {
      return Fail(found.error);
    }
    WithoutPortfolioKeepsOrder(store.transactions, id);
    var remaining := WithoutPortfolio(store.transactions, id);
    forall i | 0 <= i < |remaining|
      ensures remaining[i].portfolioId in store.portfolios - {id}
      ensures 0 < remaining[i].id < store.nextTransactionId
    {
      assert remaining[i] in store.transactions;
    }
    store.transactions := remaining;
    store.holdings := HoldingsOutside(store.holdings, id);
    store.portfolios := store.portfolios - {id};
    r := Ok;
  }
}
