/**
 * The LeaguesList component as an object: its state hooks are fields, the
 * browser's `localStorage` is a map-valued field, and each handler is a
 * method that updates the fields as the corresponding `ListView` event says.
 * The clock and the network are parameters.
 */
module Component {
  import opened Wrappers
  import opened LeagueFilter
  import opened LeagueCache
  import opened SeasonBadge
  import opened ListView

  class LeaguesList {
    var leagues: Option<seq<League>>
    var searchValue: string
    var sportType: string
    var isModalOpen: bool
    var badgeData: Option<string>
    /** `localStorage`: it outlives the component, so it is given to the constructor. */
    var storage: Storage

    /** The state hooks, as one value. */
    function State(): View
      reads this
    {
      View(leagues, searchValue, sportType, isModalOpen, badgeData)
    }

    /** First render, over whatever the browser already has stored. */
    constructor (initialStorage: Storage)
      ensures State() == Initial
      ensures storage == initialStorage
    {
      leagues := Some([]);
      searchValue := "";
      sportType := AllSports;
      isModalOpen := false;
      badgeData := None;
      storage := initialStorage;
    }

    /**
     * `fetchLeaguesData`: reads the stored copy at time `now`, serves it when
     * fresh, otherwise uses `response` and, on success, stores it stamped
     * `fetchedAt`.
     */
    method FetchLeaguesData(now: int, fetchedAt: int, response: FetchOutcome) returns (result: Option<seq<League>>)
      modifies this`storage
      ensures Load(result, storage) == LoadLeagues(old(storage), now, fetchedAt, response)
    {
      if LeaguesUrl in storage {
        match storage[LeaguesUrl]
        case Blank =>
        case Unparsable =>
          return None;
        case Entry(data, timestamp) =>
          if now - timestamp < ExpiryMs {
            return data;
          }
      }
      match response
      case FetchFailed =>
        result := None;
      case Fetched(body) =>
        storage := storage[LeaguesUrl := Entry(body, fetchedAt)];
        result := body;
    }

    /** The mount effect: load the leagues and put whatever comes back, `undefined` included, into the list. */
    method LoadData(now: int, fetchedAt: int, response: FetchOutcome)
      modifies this
      ensures var load := LoadLeagues(old(storage), now, fetchedAt, response);
        State() == Step(old(State()), LeaguesLoaded(load.result)) && storage == load.storage
    {
      var result := FetchLeaguesData(now, fetchedAt, response);
      leagues := result;
    }

    /** The `filteredLeagues` memo: the rows the table shows for the current state. */
    function FilteredLeagues(): (r: Option<seq<League>>)
      reads this
      ensures r == Visible(State())
      ensures r.None? <==> leagues.None?
    {
      FilterLeagues(leagues, searchValue, sportType)
    }

    /** `onSearch`. */
    method OnSearch(value: string)
      modifies this`searchValue
      ensures State() == Step(old(State()), Search(value))
    {
      searchValue := value;
    }

    /** `handleChange`, the sport selector. */
    method HandleChange(value: string)
      modifies this`sportType
      ensures State() == Step(old(State()), SportChange(value))
    {
      sportType := value;
    }

    /** `handleOpenModal`. */
    method HandleOpenModal()
      modifies this`isModalOpen
      ensures State() == Step(old(State()), OpenModal)
    {
      isModalOpen := true;
    }

    /** `handleCloseModal`. */
    method HandleCloseModal()
      modifies this`isModalOpen
      ensures State() == Step(old(State()), CloseModal)
    {
      isModalOpen := false;
    }

    /** The `onClose` callback given to the modal: close it and clear the badge. */
    method OnClose()
      modifies this`isModalOpen, this`badgeData
      ensures State() == Step(old(State()), ModalDismissed)
    {
      HandleCloseModal();
      badgeData := None;
    }

    /**
     * `handleLeagueClick`: starts the seasons request (its URL is returned;
     * the response comes back later through `ReceiveSeasons`) and opens the
     * modal straight away.
     */
    method HandleLeagueClick(leagueId: string) returns (requestUrl: string)
      modifies this`isModalOpen
      ensures requestUrl == BadgeUrl(leagueId)
      ensures State() == Step(old(State()), RowClick(leagueId))
    {
      requestUrl := BadgeUrl(leagueId);
      HandleOpenModal();
    }

    /** The rest of `fetchSeasonBadgeData`, once its request has completed. */
    method ReceiveSeasons(outcome: SeasonsOutcome)
      modifies this`badgeData
      ensures State() == Step(old(State()), SeasonsArrived(outcome))
    {
      match outcome
      case SeasonsFailed =>
      case SeasonsFetched(seasons) =>
        if seasons.Some? && |seasons.value| > 0 {
          badgeData := seasons.value[0].strBadge;
        } else {
          badgeData := None;
        }
    }
  }
}
