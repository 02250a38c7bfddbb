/**
 * The LeaguesList component's state (its five `useState` hooks) and how
 * each handler changes it. Handlers run one at a time; a seasons response
 * arrives as an event of its own, at any later point.
 */
module ListView {
  import opened Wrappers
  import opened LeagueFilter
  import opened SeasonBadge

  /** The component's state. */
  datatype View = View(
    leagues: Option<seq<League>>,
    searchValue: string,
    sportType: string,
    isModalOpen: bool,
    badgeData: Option<string>)

  /** The state on first render: an empty list, no search, all sports, modal closed, no badge. */
  const Initial: View := View(Some([]), "", AllSports, false, None)

  /** What can happen to the component. */
  datatype Event =
    | LeaguesLoaded(result: Option<seq<League>>)  // the mount-time load resolves, with `undefined` on failure
    | Search(value: string)                        // `onSearch`
    | SportChange(value: string)                   // `handleChange`
    | RowClick(leagueId: string)                   // `handleLeagueClick`
    | OpenModal                                    // `handleOpenModal`
    | CloseModal                                   // `handleCloseModal`
    | ModalDismissed                               // the modal's `onClose` callback
    | SeasonsArrived(outcome: SeasonsOutcome)      // a seasons request started by a row click completes

  /** The state after one event. */
  function Step(v: View, e: Event): (w: View)
    ensures !e.LeaguesLoaded? ==> w.leagues == v.leagues
    ensures !e.Search? ==> w.searchValue == v.searchValue
    ensures !e.SportChange? ==> w.sportType == v.sportType
    ensures !e.SeasonsArrived? && !e.ModalDismissed? ==> w.badgeData == v.badgeData
    ensures !(e.RowClick? || e.OpenModal? || e.CloseModal? || e.ModalDismissed?) ==> w.isModalOpen == v.isModalOpen
    ensures e.RowClick? || e.OpenModal? ==> w.isModalOpen
    ensures e.CloseModal? || e.ModalDismissed? ==> !w.isModalOpen
  {
    match e
    case LeaguesLoaded(result) => v.(leagues := result)
    case Search(value) => v.(searchValue := value)
    case SportChange(value) => v.(sportType := value)
    case RowClick(_) => v.(isModalOpen := true)
    case OpenModal => v.(isModalOpen := true)
    case CloseModal => v.(isModalOpen := false)
    case ModalDismissed => v.(isModalOpen := false, badgeData := None)
    case SeasonsArrived(outcome) => v.(badgeData := BadgeAfter(v.badgeData, outcome))
  }

  /** The state after a sequence of events, first to last. */
  function Run(v: View, events: seq<Event>): (w: View)
    ensures events == [] ==> w == v
    ensures events != [] ==> w == Step(Run(v, events[..|events| - 1]), events[|events| - 1])
    decreases |events|
  {
    if events == [] then v
    else
      assert |events| > 1 ==> events[..|events| - 1][1..] == events[1..][..|events[1..]| - 1];
      Run(Step(v, events[0]), events[1..])
  }

  /** The rows the table shows: the `filteredLeagues` memo. */
  function Visible(v: View): (r: Option<seq<League>>)
    ensures r.None? <==> v.leagues.None?
    ensures r.Some? ==> forall x :: x in r.value ==> x in v.leagues.value && Keep(x, v.searchValue, v.sportType)
  {
    var r := FilterLeagues(v.leagues, v.searchValue, v.sportType);
    if v.leagues.Some? then
      FilterSoundAll(v.leagues.value, v.searchValue, v.sportType);
      r
    else
      r
  }

  /** A row click opens the modal at once and leaves the badge as it was: it does not wait for the seasons. */
  lemma RowClickOpensModal(v: View, leagueId: string)
    ensures Step(v, RowClick(leagueId)) == v.(isModalOpen := true)
    ensures Step(v, RowClick(leagueId)).badgeData == v.badgeData
  {
  }

  /** Dismissing the modal hides it and clears the badge; `handleCloseModal` alone keeps the badge. */
  lemma DismissClearsBadge(v: View)
    ensures Step(v, ModalDismissed) == v.(isModalOpen := false, badgeData := None)
    ensures Step(v, CloseModal) == v.(isModalOpen := false)
  {
  }

  /** Searching and changing the sport each change their own field and nothing else. */
  lemma CriteriaEventsTouchOnlyCriteria(v: View, value: string)
    ensures Step(v, Search(value)) == v.(searchValue := value)
    ensures Step(v, SportChange(value)) == v.(sportType := value)
    ensures Visible(Step(v, Search(value))) == FilterLeagues(v.leagues, value, v.sportType)
    ensures Visible(Step(v, SportChange(value))) == FilterLeagues(v.leagues, v.searchValue, value)
  {
  }

  /** A seasons response sets the badge from the first season, clears it when there are none, and is ignored on failure. */
  lemma SeasonsArrivalSetsBadge(v: View, outcome: SeasonsOutcome)
    ensures Step(v, SeasonsArrived(outcome)) == v.(badgeData := BadgeAfter(v.badgeData, outcome))
    ensures outcome.SeasonsFetched? && outcome.seasons.Some? && |outcome.seasons.value| > 0
      ==> Step(v, SeasonsArrived(outcome)).badgeData == outcome.seasons.value[0].strBadge
    ensures outcome.SeasonsFetched? && (outcome.seasons.None? || outcome.seasons.value == [])
      ==> Step(v, SeasonsArrived(outcome)).badgeData == None
    ensures outcome.SeasonsFailed? ==> Step(v, SeasonsArrived(outcome)) == v
  {
  }

  /** Running `first` and then `second` is running them one after the other. */
  lemma {:induction false} RunAppend(v: View, first: seq<Event>, second: seq<Event>)
    ensures Run(v, first + second) == Run(Run(v, first), second)
    decreases |first|
  {
    if first == [] {
      assert first + second == second;
    } else {
      assert (first + second)[0] == first[0];
      assert (first + second)[1..] == first[1..] + second;
      RunAppend(Step(v, first[0]), first[1..], second);
    }
  }

  /** Only a successful seasons response or a dismissal writes the badge; a failed response is ignored. */
  predicate KeepsBadge(e: Event) {
    !e.ModalDismissed? && !(e.SeasonsArrived? && e.outcome.SeasonsFetched?)
  }

  /** Events that do not write the badge, failed responses included, leave it as it was, however many of them run. */
  lemma {:induction false} BadgeUnchangedBy(v: View, events: seq<Event>)
    requires forall k :: 0 <= k < |events| ==> KeepsBadge(events[k])
    ensures Run(v, events).badgeData == v.badgeData
    decreases |events|
  {
    if events != [] {
      assert KeepsBadge(events[0]);
      BadgeUnchangedBy(Step(v, events[0]), events[1..]);
    }
  }

  /**
   * The last successful seasons response to arrive decides the badge,
   * whatever the modal did since (short of a dismissal), whatever failed
   * responses came after it, and whichever click it answers: the source
   * does not match responses to requests.
   */
  lemma LastArrivalWins(v: View, before: seq<Event>, outcome: SeasonsOutcome, after: seq<Event>)
    requires outcome.SeasonsFetched?
    requires forall k :: 0 <= k < |after| ==> KeepsBadge(after[k])
    ensures Run(v, before + [SeasonsArrived(outcome)] + after).badgeData == FirstBadge(outcome.seasons)
  {
    RunAppend(v, before + [SeasonsArrived(outcome)], after);
    RunAppend(v, before, [SeasonsArrived(outcome)]);
    BadgeUnchangedBy(Run(v, before + [SeasonsArrived(outcome)]), after);
  }

  /**
   * A response that arrives after the modal was dismissed still sets the
   * badge, while the modal stays closed: when a click on another row reopens
   * the modal, it shows that stale badge until the new response arrives.
   */
  lemma LateArrivalAfterDismiss(v: View, clicked: string, next: string, first: Season, rest: seq<Season>)
    ensures
      var w := Run(v, [RowClick(clicked), ModalDismissed, SeasonsArrived(SeasonsFetched(Some([first] + rest))), RowClick(next)]);
      w.isModalOpen && w.badgeData == first.strBadge
  {
    var e1, e2, e3, e4 := RowClick(clicked), ModalDismissed, SeasonsArrived(SeasonsFetched(Some([first] + rest))), RowClick(next);
    var v1 := Step(v, e1);
    var v2 := Step(v1, e2);
    var v3 := Step(v2, e3);
    assert Run(v, [e1, e2, e3, e4]) == Run(v1, [e2, e3, e4]);
    assert Run(v1, [e2, e3, e4]) == Run(v2, [e3, e4]);
    assert Run(v2, [e3, e4]) == Run(v3, [e4]);
    assert Run(v3, [e4]) == Run(Step(v3, e4), []);
  }

  /** Dismissing after a badge was shown and clicking a row again shows no image until that row's response arrives. */
  lemma ReopenShowsNoBadge(v: View, next: string)
    ensures
      var w := Run(v, [ModalDismissed, RowClick(next)]);
      w.isModalOpen && w.badgeData == None
  {
    var v1 := Step(v, ModalDismissed);
    assert Run(v, [ModalDismissed, RowClick(next)]) == Run(v1, [RowClick(next)]);
    assert Run(v1, [RowClick(next)]) == Run(Step(v1, RowClick(next)), []);
  }

  /** A seasons response with no seasons clears the badge, and the modal the click opened stays open. */
  lemma EmptySeasonsStillOpen(v: View, leagueId: string)
    ensures
      var w := Run(v, [RowClick(leagueId), SeasonsArrived(SeasonsFetched(Some([])))]);
      w.isModalOpen && w.badgeData == None
  {
    var e1, e2 := RowClick(leagueId), SeasonsArrived(SeasonsFetched(Some([])));
    var v1 := Step(v, e1);
    assert Run(v, [e1, e2]) == Run(v1, [e2]);
    assert Run(v1, [e2]) == Run(Step(v1, e2), []);
  }

  /** Before the load resolves the table is empty; once it resolves with a list, the whole list shows. */
  lemma LoadedListShownInFull(leagues: seq<League>)
    ensures Visible(Initial) == Some([])
    ensures Visible(Step(Initial, LeaguesLoaded(Some(leagues)))) == Some(leagues)
  {
    FilterNoCriteria(leagues);
  }

  /** A failed load leaves the list absent, and the table then has no rows to show, for any criteria. */
  lemma FailedLoadShowsNothing(v: View, searchValue: string, sportType: string)
    ensures Visible(Run(v, [LeaguesLoaded(None), Search(searchValue), SportChange(sportType)])) == None
  {
    var e1, e2, e3 := LeaguesLoaded(None), Search(searchValue), SportChange(sportType);
    var v1 := Step(v, e1);
    var v2 := Step(v1, e2);
    assert Run(v, [e1, e2, e3]) == Run(v1, [e2, e3]);
    assert Run(v1, [e2, e3]) == Run(v2, [e3]);
    assert Run(v2, [e3]) == Run(Step(v2, e3), []);
  }
}
