/**
 * `fetchSeasonBadgeData`: the badge shown in the modal is the `strBadge` of
 * the first season the seasons search returns, in the API's own order.
 */
module SeasonBadge {
  import opened Wrappers

  /** One record of a seasons search; only the badge field is read. */
  datatype Season = Season(strBadge: Option<string>)

  /**
   * The outcome of the seasons request: the body's `seasons` field (null or
   * missing when the league has none), or a failure of any kind.
   */
  datatype SeasonsOutcome = SeasonsFetched(seasons: Option<seq<Season>>) | SeasonsFailed

  /** The seasons search with badges; the league id is appended. */
  const SeasonsEndpoint: string := "https://www.thesportsdb.com/api/v1/json/3/search_all_seasons.php?badge=1&id="

  /** The request URL for a league's seasons. */
  function BadgeUrl(leagueId: string): (url: string)
    ensures SeasonsEndpoint <= url && url[|SeasonsEndpoint|..] == leagueId
  {
    SeasonsEndpoint + leagueId
  }

  /** Different leagues are asked for under different URLs. */
  lemma BadgeUrlInjective(id1: string, id2: string)
    requires BadgeUrl(id1) == BadgeUrl(id2)
    ensures id1 == id2
  {
    assert id1 == BadgeUrl(id1)[|SeasonsEndpoint|..];
  }

  /** `data.seasons && data.seasons.length > 0 ? data.seasons[0].strBadge : null`. */
  function FirstBadge(seasons: Option<seq<Season>>): (b: Option<string>)
    ensures seasons.Some? && |seasons.value| > 0 ==> b == seasons.value[0].strBadge
    ensures seasons.None? || seasons.value == [] ==> b == None
  {
    if seasons.Some? && |seasons.value| > 0 then seasons.value[0].strBadge else None
  }

  /**
   * The badge state once a seasons response has been handled: a response
   * with seasons sets it to the first season's badge; a response with none
   * (null or empty) clears it; a failure keeps the previous one.
   */
  function BadgeAfter(current: Option<string>, outcome: SeasonsOutcome): (b: Option<string>)
    ensures outcome.SeasonsFetched? && outcome.seasons.Some? && |outcome.seasons.value| > 0
      ==> b == outcome.seasons.value[0].strBadge
    ensures outcome.SeasonsFetched? && (outcome.seasons.None? || outcome.seasons.value == [])
      ==> b == None
    ensures outcome.SeasonsFailed? ==> b == current
  {
    match outcome
    case SeasonsFailed => current
    case SeasonsFetched(seasons) => FirstBadge(seasons)
  }

  /** Only the first season is looked at: what follows it never changes the badge. */
  lemma OnlyFirstSeasonMatters(first: Season, rest1: seq<Season>, rest2: seq<Season>, current: Option<string>)
    ensures BadgeAfter(current, SeasonsFetched(Some([first] + rest1)))
         == BadgeAfter(current, SeasonsFetched(Some([first] + rest2)))
         == first.strBadge
  {
  }
}
