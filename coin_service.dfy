/** CoinService: the market-data front of the backend. Three in-memory
    caches sit in front of the upstream CoinGecko API: coin listing pages by
    their request parameters, single-coin data by coin id, and search results
    by query. An entry is served while it is younger than its window;
    otherwise the upstream is asked and its answer replaces the entry. */
module CoinService {
  import opened Common
  import opened Config

  /** The window of the listing and coin-data caches: 2 minutes in
      production and 10 minutes otherwise. */
  function Window(environment: string): int
  {
    if IsProduction(environment) then 2 * Minute else 10 * Minute
  }

  /** The search cache keeps its entries for 10 minutes in every environment. */
  const SearchWindow: int := 10 * Minute

  /** A market listing row; of its many market fields only the identity is
      modelled. */
  datatype Coin = Coin(id: string, symbol: string, name: string)

  /** The listing request, compared by value as the cache key; a missing
      `ids` filter is None. */
  datatype CoinPageParams = CoinPageParams(vsCurrency: string, page: int, perPage: int, ids: Option<string>)

  /** A cached listing page; the upstream may have answered with no array
      at all (None), which is cached too. */
  datatype CachedCoinPage = CachedCoinPage(coins: Option<seq<Coin>>, cachedAt: int)

  /** Single-coin data as the upstream returns it, with the time it was
      cached (None until the service stamps it). */
  datatype CoinData = CoinData(id: string, symbol: string, name: string, cachedAt: Option<int>)

  datatype SearchCoin = SearchCoin(id: string, name: string, symbol: string)

  datatype SearchResult = SearchResult(coins: Option<seq<SearchCoin>>, cachedAt: Option<int>)

  /** The messages of the errors raised for a null upstream body. */
  const NullCoinData: string := "Coin data is null for id: "
  const NullSearchResult: string := "Search result is null for query: "

  /** What one upstream GET produces: a body, a null body, or a
      RestClientException with its message. */
  datatype Fetch<T> = Body(value: T) | NullBody | RestError(message: string)

  /** An entry stamped at `cachedAt` is served at `now` when it is strictly
      after `now - window`. */
  predicate Fresh(cachedAt: int, now: int, window: int)
  {
    cachedAt > now - window
  }

  // ---------------------------------------------------------------------
  // Formatting of the request URLs

  function DigitChar(d: int): (c: char)
    requires 0 <= d < 10
    ensures '0' <= c <= '9' && c as int - '0' as int == d
  {
    ('0' as int + d) as char
  }

  /** The decimal digits of a natural number, without leading zeros. */
  function Digits(n: nat): (s: string)
    ensures |s| > 0 && (s[0] == '0' ==> n == 0)
    ensures forall i :: 0 <= i < |s| ==> '0' <= s[i] <= '9'
    decreases n
  {
    if n < 10 then [DigitChar(n)] else Digits(n / 10) + [DigitChar(n % 10)]
  }

  /** Every character is a decimal digit. */
  predicate AllDigits(s: string)
    decreases |s|
  {
    s == [] || ('0' <= s[0] <= '9' && AllDigits(s[1..]))
  }

  lemma {:induction false} AllDigitsByIndex(s: string)
    requires forall i :: 0 <= i < |s| ==> '0' <= s[i] <= '9'
    ensures AllDigits(s)
    decreases |s|
  {
    if s != [] {
      AllDigitsByIndex(s[1..]);
    }
  }

  /** The number a string of decimal digits denotes. */
  function ParseDigits(s: string): int
    decreases |s|
  {
    if s == [] then 0 else 10 * ParseDigits(s[..|s| - 1]) + (s[|s| - 1] as int - '0' as int)
  }

  /** Reading the digits back gives the number. */
  lemma {:induction false} ParseDigitsOfDigits(n: nat)
    ensures ParseDigits(Digits(n)) == n
    decreases n
  {
    var s := Digits(n);
    if n >= 10 {
      ParseDigitsOfDigits(n / 10);
      assert s[..|s| - 1] == Digits(n / 10);
    } else {
      assert s[..|s| - 1] == [];
    }
  }

  /** Java's `%d` for an int: an optional minus sign, then the digits. */
  function Decimal(n: int): (s: string)
    ensures |s| > 0
    ensures n < 0 <==> s[0] == '-'
    ensures n >= 0 ==> ParseDigits(s) == n
    ensures n < 0 ==> ParseDigits(s[1..]) == -n
    ensures n >= 0 ==> AllDigits(s) && (s[0] == '0' ==> n == 0)
    ensures n < 0 ==> |s| > 1 && AllDigits(s[1..]) && s[1] != '0'
  {
    if n < 0 then
      var d := Digits(-n);
      ParseDigitsOfDigits(-n);
      AllDigitsByIndex(d);
      assert ("-" + d)[1..] == d;
      "-" + d
    else
      ParseDigitsOfDigits(n);
      AllDigitsByIndex(Digits(n));
      Digits(n)
  }

  const MarketsPath: string := "/coins/markets?vs_currency="

  /** The markets URL of a listing request: the filter is appended only for
      a present, non-empty `ids`. */
  function MarketsUrl(apiUrl: string, vsCurrency: string, page: int, perPage: int, ids: Option<string>): string
  {
    apiUrl + MarketsPath + vsCurrency + "&page=" + Decimal(page) + "&per_page=" + Decimal(perPage)
    + (if ids.Some? && |ids.value| > 0 then "&ids=" + ids.value else "")
  }

  /** The query of the single-coin request: market data only. */
  const CoinQuery: string := "?tickers=false&market_data=true&community_data=false&developer_data=false&sparkline=false"

  function CoinUrl(apiUrl: string, id: string): string
  {
    apiUrl + "/coins/" + id + CoinQuery
  }

  function SearchUrl(apiUrl: string, query: string): string
  {
    apiUrl + "/search?query=" + query
  }

  /** A missing and an empty `ids` filter are different cache keys but ask
      the upstream the same URL. */
  lemma AbsentAndEmptyIdsShareUrl(apiUrl: string, vsCurrency: string, page: int, perPage: int)
    ensures MarketsUrl(apiUrl, vsCurrency, page, perPage, None) == MarketsUrl(apiUrl, vsCurrency, page, perPage, Some(""))
    ensures CoinPageParams(vsCurrency, page, perPage, None) != CoinPageParams(vsCurrency, page, perPage, Some(""))
  {
  }

  // ---------------------------------------------------------------------
  // The three lookups, state by state

  /** getCoins serves the cached page without asking the upstream. */
  predicate PageHit(cache: map<CoinPageParams, CachedCoinPage>, params: CoinPageParams, environment: string, now: int)
  {
    params in cache && Fresh(cache[params].cachedAt, now, Window(environment))
  }

  /** What getCoins returns for an upstream answer: the array, or no array
      for a null body; a RestClientException is rethrown wrapped. */
  function PageAnswer(response: Fetch<seq<Coin>>): Result<Option<seq<Coin>>>
  {
    match response
    case Body(coins) => Success(Some(coins))
    case NullBody => Success(None)
    case RestError(message) => Failure(Runtime(message))
  }

  /** The listing cache after a miss: the answer, null or not, is stored
      under the request with the current time; a failed request stores
      nothing. */
  function PageRefill(cache: map<CoinPageParams, CachedCoinPage>, params: CoinPageParams,
                      response: Fetch<seq<Coin>>, now: int): map<CoinPageParams, CachedCoinPage>
  {
    match response
    case Body(coins) => cache[params := CachedCoinPage(Some(coins), now)]
    case NullBody => cache[params := CachedCoinPage(None, now)]
    case RestError(_) => cache
  }

  /** getCoinById serves the cached data: it is present, stamped and fresh. */
  predicate DataHit(cache: map<string, CoinData>, id: string, environment: string, now: int)
  {
    id in cache && cache[id].cachedAt.Some? && Fresh(cache[id].cachedAt.value, now, Window(environment))
  }

  /** What getCoinById returns for an upstream answer: the data stamped with
      the current time; a null body is an error of its own. */
  function DataAnswer(id: string, response: Fetch<CoinData>, now: int): Result<CoinData>
  {
    match response
    case Body(data) => Success(data.(cachedAt := Some(now)))
    case NullBody => Failure(Runtime(NullCoinData + id))
    case RestError(message) => Failure(Runtime(message))
  }

  /** The coin-data cache after a miss: only stamped, non-null data is stored. */
  function DataRefill(cache: map<string, CoinData>, id: string, response: Fetch<CoinData>, now: int): map<string, CoinData>
  {
    match response
    case Body(data) => cache[id := data.(cachedAt := Some(now))]
    case _ => cache
  }

  predicate SearchHit(cache: map<string, SearchResult>, query: string, now: int)
  {
    query in cache && cache[query].cachedAt.Some? && Fresh(cache[query].cachedAt.value, now, SearchWindow)
  }

  function SearchAnswer(query: string, response: Fetch<SearchResult>, now: int): Result<SearchResult>
  {
    match response
    case Body(result) => Success(result.(cachedAt := Some(now)))
    case NullBody => Failure(Runtime(NullSearchResult + query))
    case RestError(message) => Failure(Runtime(message))
  }

  function SearchRefill(cache: map<string, SearchResult>, query: string, response: Fetch<SearchResult>, now: int): map<string, SearchResult>
  {
    match response
    case Body(result) => cache[query := result.(cachedAt := Some(now))]
    case _ => cache
  }

  // ---------------------------------------------------------------------
  // Properties of the lookups

  /** After a listing miss that reached the upstream, the page just fetched
      (null or not) is served for exactly one window: at every later time
      strictly before `now + window`, and no longer at `now + window`. */
  lemma PageServedForOneWindow(cache: map<CoinPageParams, CachedCoinPage>, params: CoinPageParams,
                               response: Fetch<seq<Coin>>, environment: string, now: int, later: int)
    requires !response.RestError? && now <= later
    ensures PageHit(PageRefill(cache, params, response, now), params, environment, later) <==> later < now + Window(environment)
    ensures params in PageRefill(cache, params, response, now)
    ensures Success(PageRefill(cache, params, response, now)[params].coins) == PageAnswer(response)
  {
  }

  /** A failed upstream call leaves every cache as it was. */
  lemma ErrorsLeaveCachesAlone(pages: map<CoinPageParams, CachedCoinPage>, params: CoinPageParams,
                               data: map<string, CoinData>, searches: map<string, SearchResult>,
                               key: string, message: string, now: int)
    ensures PageRefill(pages, params, RestError(message), now) == pages
    ensures DataRefill(data, key, RestError(message), now) == data
    ensures SearchRefill(searches, key, RestError(message), now) == searches
    ensures PageAnswer(RestError(message)).Failure? && DataAnswer(key, RestError(message), now).Failure?
    ensures SearchAnswer(key, RestError(message), now).Failure?
  {
  }

  /** The same listing entry, three minutes old, is still served in the
      default environment and no longer in production. */
  lemma WindowDependsOnEnvironment(cache: map<CoinPageParams, CachedCoinPage>, params: CoinPageParams, now: int)
    requires params in cache && cache[params].cachedAt == now - 3 * Minute
    ensures PageHit(cache, params, DefaultEnvironment, now)
    ensures !PageHit(cache, params, "production", now)
    ensures !PageHit(cache, params, "Production", now)
  {
    DefaultIsNotProduction();
    assert IsProduction("production");
  }

  /** After a coin-data miss, the upstream data is served, stamped with the
      time of the fetch, for exactly one window; a null body stores
      nothing. */
  lemma DataServedForOneWindow(cache: map<string, CoinData>, id: string, response: Fetch<CoinData>,
                               environment: string, now: int, later: int)
    requires now <= later
    ensures response.Body? ==>
      && (DataHit(DataRefill(cache, id, response, now), id, environment, later) <==> later < now + Window(environment))
      && Success(DataRefill(cache, id, response, now)[id]) == DataAnswer(id, response, now)
    ensures response.NullBody? ==>
      DataRefill(cache, id, response, now) == cache && DataAnswer(id, response, now).Failure?
  {
  }

  /** An entry that was never stamped is never served. */
  lemma UnstampedEntriesMiss(data: map<string, CoinData>, searches: map<string, SearchResult>,
                             key: string, environment: string, now: int)
    requires key in data && data[key].cachedAt.None?
    requires key in searches && searches[key].cachedAt.None?
    ensures !DataHit(data, key, environment, now) && !SearchHit(searches, key, now)
  {
  }

  /** A search result is served for ten minutes whatever the environment,
      so one stamped five minutes ago is served while coin data of the same
      age is refetched in production. */
  lemma SearchWindowIgnoresEnvironment(searches: map<string, SearchResult>, data: map<string, CoinData>,
                                       key: string, now: int)
    requires key in searches && searches[key].cachedAt == Some(now - 5 * Minute)
    requires key in data && data[key].cachedAt == Some(now - 5 * Minute)
    ensures SearchHit(searches, key, now)
    ensures !DataHit(data, key, "production", now)
  {
    assert IsProduction("production");
  }

  /** After a search miss, the result is served for exactly ten minutes. */
  lemma SearchServedForOneWindow(cache: map<string, SearchResult>, query: string, response: Fetch<SearchResult>,
                                 now: int, later: int)
    requires response.Body? && now <= later
    ensures SearchHit(SearchRefill(cache, query, response, now), query, later) <==> later < now + SearchWindow
    ensures Success(SearchRefill(cache, query, response, now)[query]) == SearchAnswer(query, response, now)
  {
  }

  // ---------------------------------------------------------------------
  // The service object

  /** The service with its three cache maps. The upstream is given to each
      call as a function from URL to answer; each call also reports the URL
      it requested, or None when it was served from the cache. */
  class CoinCache {
    var coinPageCache: map<CoinPageParams, CachedCoinPage>
    var coinDataCache: map<string, CoinData>
    var searchCache: map<string, SearchResult>
    const apiUrl: string

    constructor (apiUrl: string)
      ensures this.apiUrl == apiUrl
      ensures coinPageCache == map[] && coinDataCache == map[] && searchCache == map[]
    {
      this.apiUrl := apiUrl;
      coinPageCache := map[];
      coinDataCache := map[];
      searchCache := map[];
    }

    /** getCoins: a fresh entry for an equal request is returned without an
        upstream call and without being restamped; otherwise the markets URL
        is requested once and the cache refilled under this request only. */
    method GetCoins(vsCurrency: string, page: int, perPage: int, ids: Option<string>,
                    environment: string, now: int, upstream: string -> Fetch<seq<Coin>>)
      returns (r: Result<Option<seq<Coin>>>, requested: Option<string>)
      modifies this
      ensures coinDataCache == old(coinDataCache) && searchCache == old(searchCache)
      ensures var params := CoinPageParams(vsCurrency, page, perPage, ids);
        PageHit(old(coinPageCache), params, environment, now) ==>
          && r == Success(old(coinPageCache)[params].coins)
          && requested == None
          && coinPageCache == old(coinPageCache)
      ensures var params := CoinPageParams(vsCurrency, page, perPage, ids);
        var url := MarketsUrl(apiUrl, vsCurrency, page, perPage, ids);
        !PageHit(old(coinPageCache), params, environment, now) ==>
          && requested == Some(url)
          && r == PageAnswer(upstream(url))
          && coinPageCache == PageRefill(old(coinPageCache), params, upstream(url), now)
    {
      var params := CoinPageParams(vsCurrency, page, perPage, ids);
      if params in coinPageCache {
        var cached := coinPageCache[params];
        if Fresh(cached.cachedAt, now, Window(environment)) {
          return Success(cached.coins), None;
        }
      }
      var url := MarketsUrl(apiUrl, vsCurrency, page, perPage, ids);
      requested := Some(url);
      var response := upstream(url);
      match response {
        case RestError(message) =>
          r := Failure(Runtime(message));
        case Body(coins) =>
          coinPageCache := coinPageCache[params := CachedCoinPage(Some(coins), now)];
          r := Success(Some(coins));
        case NullBody =>
          coinPageCache := coinPageCache[params := CachedCoinPage(None, now)];
          r := Success(None);
      }
    }

    /** getCoinById: a stamped, fresh entry is returned as stored; otherwise
        the coin URL is requested once, and only non-null data is stamped,
        stored and returned. */
    method GetCoinById(id: string, environment: string, now: int, upstream: string -> Fetch<CoinData>)
      returns (r: Result<CoinData>, requested: Option<string>)
      modifies this
      ensures coinPageCache == old(coinPageCache) && searchCache == old(searchCache)
      ensures DataHit(old(coinDataCache), id, environment, now) ==>
        r == Success(old(coinDataCache)[id]) && requested == None && coinDataCache == old(coinDataCache)
      ensures var url := CoinUrl(apiUrl, id);
        !DataHit(old(coinDataCache), id, environment, now) ==>
          && requested == Some(url)
          && r == DataAnswer(id, upstream(url), now)
          && coinDataCache == DataRefill(old(coinDataCache), id, upstream(url), now)
    {
      if id in coinDataCache {
        var cached := coinDataCache[id];
        if cached.cachedAt.Some? && Fresh(cached.cachedAt.value, now, Window(environment)) {
          return Success(cached), None;
        }
      }
      var url := CoinUrl(apiUrl, id);
      requested := Some(url);
      var response := upstream(url);
      match response {
        case RestError(message) =>
          r := Failure(Runtime(message));
        case NullBody =>
          r := Failure(Runtime(NullCoinData + id));
        case Body(data) =>
          var stamped := data.(cachedAt := Some(now));
          coinDataCache := coinDataCache[id := stamped];
          r := Success(stamped);
      }
    }

    /** searchCoins: the same as getCoinById, with a ten-minute window in
        every environment. */
    method SearchCoins(query: string, now: int, upstream: string -> Fetch<SearchResult>)
      returns (r: Result<SearchResult>, requested: Option<string>)
      modifies this
      ensures coinPageCache == old(coinPageCache) && coinDataCache == old(coinDataCache)
      ensures SearchHit(old(searchCache), query, now) ==>
        r == Success(old(searchCache)[query]) && requested == None && searchCache == old(searchCache)
      ensures var url := SearchUrl(apiUrl, query);
        !SearchHit(old(searchCache), query, now) ==>
          && requested == Some(url)
          && r == SearchAnswer(query, upstream(url), now)
          && searchCache == SearchRefill(old(searchCache), query, upstream(url), now)
    {
      if query in searchCache {
        var cached := searchCache[query];
        if cached.cachedAt.Some? && Fresh(cached.cachedAt.value, now, SearchWindow) {
          return Success(cached), None;
        }
      }
      var url := SearchUrl(apiUrl, query);
      requested := Some(url);
      var response := upstream(url);
      match response {
        case RestError(message) =>
          r := Failure(Runtime(message));
        case NullBody =>
          r := Failure(Runtime(NullSearchResult + query));
        case Body(result) =>
          var stamped := result.(cachedAt := Some(now));
          searchCache := searchCache[query := stamped];
          r := Success(stamped);
      }
    }
  }
}
