/**
 * `fetchLeaguesData`: the league list is served from `localStorage` while the
 * stored copy is younger than one minute, and otherwise fetched and stored
 * under the request URL together with the time it arrived.
 */
module LeagueCache {
  import opened Wrappers
  import opened LeagueFilter

  /** The endpoint for the full league catalogue; also the storage key. */
  const LeaguesUrl: string := "https://www.thesportsdb.com/api/v1/json/3/all_leagues.php"

  /** The expiry window, in milliseconds. */
  const ExpiryMs: int := 60 * 1000

  /**
   * What `localStorage` holds under a key, assuming that any text there that
   * parses was written by this code: the JSON text of `{data, timestamp}`, a
   * non-empty text that `JSON.parse` rejects, or the empty text. The empty
   * text is falsy, so the cache test treats it as a missing key and never
   * parses it.
   */
  datatype Stored = Entry(data: Option<seq<League>>, timestamp: int) | Unparsable | Blank

  type Storage = map<string, Stored>

  /**
   * The outcome of `fetch(url)` and `response.json()`: the body's `leagues`
   * field (absent when the body has none), or a failure of any kind
   * (network error, a status that is not ok, a body that is not JSON).
   */
  datatype FetchOutcome = Fetched(leagues: Option<seq<League>>) | FetchFailed

  /** A copy stored at `timestamp` may be served at `now`: it is younger than the window. */
  predicate IsFresh(timestamp: int, now: int) {
    now - timestamp < ExpiryMs
  }

  /** A copy fresh at some time was fresh at every earlier time: once stale, it stays stale. */
  lemma FreshnessMonotone(timestamp: int, earlier: int, later: int)
    requires earlier <= later
    ensures IsFresh(timestamp, later) ==> IsFresh(timestamp, earlier)
  {
  }

  /** What reading the storage at `key` yields at time `now`. */
  datatype CacheRead = Hit(data: Option<seq<League>>) | Miss | Corrupt

  function ReadCache(storage: Storage, key: string, now: int): (c: CacheRead)
    ensures c.Hit? <==> key in storage && storage[key].Entry? && IsFresh(storage[key].timestamp, now)
    ensures c.Hit? ==> c.data == storage[key].data
    ensures c.Corrupt? <==> key in storage && storage[key].Unparsable?
  {
    if key !in storage then Miss
    else match storage[key]
      case Blank => Miss
      case Unparsable => Corrupt
      case Entry(data, timestamp) => if IsFresh(timestamp, now) then Hit(data) else Miss
  }

  /** The value `fetchLeaguesData` resolves to and the storage it leaves behind. */
  datatype Load = Load(result: Option<seq<League>>, storage: Storage)

  /**
   * One run of `fetchLeaguesData`: `now` is the clock when the storage is
   * read, `fetchedAt` the clock when the response has been parsed, and
   * `response` what the network returns if it is asked. A stored text that
   * does not parse makes the whole call fail before any request.
   */
  function LoadLeagues(storage: Storage, now: int, fetchedAt: int, response: FetchOutcome): (r: Load)
    ensures forall k :: k != LeaguesUrl ==>
      (k in r.storage <==> k in storage) && (k in storage ==> r.storage[k] == storage[k])
    ensures r.storage == storage || r.storage == storage[LeaguesUrl := Entry(r.result, fetchedAt)]
  {
    match ReadCache(storage, LeaguesUrl, now)
    case Hit(data) => Load(data, storage)
    case Corrupt => Load(None, storage)
    case Miss =>
      match response
      case FetchFailed => Load(None, storage)
      case Fetched(leagues) => Load(leagues, storage[LeaguesUrl := Entry(leagues, fetchedAt)])
  }

  /** A stored copy younger than the window is returned as it is, whatever the network would say. */
  lemma FreshCopyServed(storage: Storage, now: int, fetchedAt: int, response: FetchOutcome)
    requires LeaguesUrl in storage && storage[LeaguesUrl].Entry?
    requires now - storage[LeaguesUrl].timestamp < ExpiryMs
    ensures LoadLeagues(storage, now, fetchedAt, response) == Load(storage[LeaguesUrl].data, storage)
  {
  }

  /**
   * With no stored copy, or one at least a window old (exactly 60000 ms
   * included), the network is asked: success stores and returns the body's
   * leagues, failure returns nothing and leaves the storage as it was.
   */
  lemma MissedCopyRefetched(storage: Storage, now: int, fetchedAt: int, leagues: Option<seq<League>>)
    requires LeaguesUrl !in storage || storage[LeaguesUrl].Blank?
          || (storage[LeaguesUrl].Entry? && now - storage[LeaguesUrl].timestamp >= ExpiryMs)
    ensures LoadLeagues(storage, now, fetchedAt, Fetched(leagues))
         == Load(leagues, storage[LeaguesUrl := Entry(leagues, fetchedAt)])
    ensures LoadLeagues(storage, now, fetchedAt, FetchFailed) == Load(None, storage)
  {
  }

  /** At exactly one window of age the stored copy is stale. */
  lemma ExpiryBoundary(storage: Storage, now: int, fetchedAt: int, response: FetchOutcome)
    requires LeaguesUrl in storage && storage[LeaguesUrl].Entry?
    requires storage[LeaguesUrl].timestamp == now - 60000
    ensures ReadCache(storage, LeaguesUrl, now) == Miss
    ensures response.FetchFailed? ==> LoadLeagues(storage, now, fetchedAt, response).result == None
  {
  }

  /** A non-empty stored text that does not parse: nothing is fetched, nothing is stored, the result is absent. */
  lemma UnparsableCopyFails(storage: Storage, now: int, fetchedAt: int, response: FetchOutcome)
    requires LeaguesUrl in storage && storage[LeaguesUrl].Unparsable?
    ensures LoadLeagues(storage, now, fetchedAt, response) == Load(None, storage)
  {
  }

  /**
   * Two loads in a row, the second within the window of the copy the first
   * left behind and with a clock that did not go back, give the same leagues
   * and the same storage, whatever the network says the second time.
   */
  lemma SecondLoadWithinWindow(storage: Storage, now1: int, fetchedAt1: int, response1: FetchOutcome,
                               now2: int, fetchedAt2: int, response2: FetchOutcome)
    requires now1 <= now2
    requires var first := LoadLeagues(storage, now1, fetchedAt1, response1);
      LeaguesUrl in first.storage && first.storage[LeaguesUrl].Entry?
      && IsFresh(first.storage[LeaguesUrl].timestamp, now2)
    ensures var first := LoadLeagues(storage, now1, fetchedAt1, response1);
      LoadLeagues(first.storage, now2, fetchedAt2, response2) == first
  {
  }
}
