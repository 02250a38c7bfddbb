/**
 * The `filteredLeagues` memo of the LeaguesList component: the leagues whose
 * name contains the search text (ignoring ASCII case) and whose sport is the
 * selected one, or any sport when the selection is "All".
 */
module LeagueFilter {
  import opened Wrappers
  import opened Text

  /** One record of the league catalogue, as the API returns it. */
  datatype League = League(
    idLeague: string,
    strLeague: string,
    strLeagueAlternate: Option<string>,
    strSport: string)

  /** The sport-type selection that matches every sport. */
  const AllSports: string := "All"

  /** The name test: the lower-cased name includes the lower-cased search text. */
  predicate NameMatch(league: League, searchValue: string) {
    Includes(ToLower(league.strLeague), ToLower(searchValue))
  }

  /** The sport test: the selection is "All" or names exactly this league's sport. */
  predicate SportMatch(league: League, sportType: string) {
    sportType == AllSports || league.strSport == sportType
  }

  /** The filter's callback: both tests hold. */
  predicate Keep(league: League, searchValue: string, sportType: string) {
    NameMatch(league, searchValue) && SportMatch(league, sportType)
  }

  /** `leagues.filter(...)` on a loaded list, scanning from the front. */
  function Filter(leagues: seq<League>, searchValue: string, sportType: string): (r: seq<League>)
    ensures |r| <= |leagues|
  {
    if leagues == [] then []
    else
      var rest := Filter(leagues[1..], searchValue, sportType);
      if Keep(leagues[0], searchValue, sportType) then [leagues[0]] + rest else rest
  }

  /** `leagues?.filter(...)`: an absent list gives an absent result, a loaded one its filter. */
  function FilterLeagues(leagues: Option<seq<League>>, searchValue: string, sportType: string): (r: Option<seq<League>>)
    ensures r.None? <==> leagues.None?
  {
    match leagues
    case None => None
    case Some(ls) => Some(Filter(ls, searchValue, sportType))
  }

  /** `idx` lists, in increasing order, the positions of `leagues` that `r` is made of. */
  ghost predicate SubsequenceVia(r: seq<League>, leagues: seq<League>, idx: seq<nat>) {
    && |idx| == |r|
    && (forall k :: 0 <= k < |idx| ==> idx[k] < |leagues| && r[k] == leagues[idx[k]])
    && (forall j, k :: 0 <= j < k < |idx| ==> idx[j] < idx[k])
  }

  /** Positions into `leagues[1..]` become positions into `leagues` by adding one. */
  lemma ShiftPositions(r: seq<League>, leagues: seq<League>, idx: seq<nat>) returns (shifted: seq<nat>)
    requires leagues != [] && SubsequenceVia(r, leagues[1..], idx)
    ensures SubsequenceVia(r, leagues, shifted)
    ensures SubsequenceVia([leagues[0]] + r, leagues, [0] + shifted)
  {
    shifted := seq(|idx|, k requires 0 <= k < |idx| => idx[k] + 1);
    forall k | 0 <= k < |shifted| ensures shifted[k] < |leagues| && r[k] == leagues[shifted[k]] {
      assert leagues[shifted[k]] == leagues[1..][idx[k]];
    }
    var r0, idx0 := [leagues[0]] + r, [0] + shifted;
    forall k | 0 <= k < |idx0| ensures idx0[k] < |leagues| && r0[k] == leagues[idx0[k]] {
      if k > 0 { assert idx0[k] == shifted[k - 1] && r0[k] == r[k - 1]; }
    }
  }

  /** Filtering picks out a subsequence: order is kept and no position is used twice. */
  lemma {:induction false} FilterIsSubsequence(leagues: seq<League>, searchValue: string, sportType: string)
    returns (idx: seq<nat>)
    ensures SubsequenceVia(Filter(leagues, searchValue, sportType), leagues, idx)
  {
    if leagues == [] {
      idx := [];
    } else {
      var rest := Filter(leagues[1..], searchValue, sportType);
      var tail := FilterIsSubsequence(leagues[1..], searchValue, sportType);
      var shifted := ShiftPositions(rest, leagues, tail);
      idx := if Keep(leagues[0], searchValue, sportType) then [0] + shifted else shifted;
    }
  }

  /**
   * Soundness, completeness and no duplication at once: each league occurs in
   * the result exactly as often as in the input when it passes both tests,
   * and not at all otherwise.
   */
  lemma {:induction false} FilterCounts(leagues: seq<League>, searchValue: string, sportType: string, x: League)
    ensures multiset(Filter(leagues, searchValue, sportType))[x]
         == if Keep(x, searchValue, sportType) then multiset(leagues)[x] else 0
  {
    if leagues != [] {
      FilterCounts(leagues[1..], searchValue, sportType, x);
      assert leagues == [leagues[0]] + leagues[1..];
    }
  }

  /** Soundness: every league shown passes the name test and the sport test. */
  lemma FilterSound(leagues: seq<League>, searchValue: string, sportType: string, x: League)
    requires x in Filter(leagues, searchValue, sportType)
    ensures NameMatch(x, searchValue) && SportMatch(x, sportType)
    ensures x in leagues
  {
    FilterCounts(leagues, searchValue, sportType, x);
  }

  /** Soundness for the whole result at once. */
  lemma FilterSoundAll(leagues: seq<League>, searchValue: string, sportType: string)
    ensures forall x :: x in Filter(leagues, searchValue, sportType) ==> x in leagues && Keep(x, searchValue, sportType)
  {
    forall x | x in Filter(leagues, searchValue, sportType) ensures x in leagues && Keep(x, searchValue, sportType) {
      FilterSound(leagues, searchValue, sportType, x);
    }
  }

  /** Completeness: every league of the list that passes both tests is shown. */
  lemma FilterComplete(leagues: seq<League>, searchValue: string, sportType: string, i: nat)
    requires i < |leagues| && Keep(leagues[i], searchValue, sportType)
    ensures leagues[i] in Filter(leagues, searchValue, sportType)
  {
    FilterCounts(leagues, searchValue, sportType, leagues[i]);
  }

  /** With an empty search text and "All" selected nothing is filtered out. */
  lemma {:induction false} FilterNoCriteria(leagues: seq<League>)
    ensures Filter(leagues, "", AllSports) == leagues
  {
    if leagues != [] {
      IncludesEmpty(ToLower(leagues[0].strLeague));
      FilterNoCriteria(leagues[1..]);
    }
  }

  /** Filtering a filtered list again with the same criteria changes nothing. */
  lemma {:induction false} FilterIdempotent(leagues: seq<League>, searchValue: string, sportType: string)
    ensures Filter(Filter(leagues, searchValue, sportType), searchValue, sportType)
         == Filter(leagues, searchValue, sportType)
  {
    if leagues != [] {
      FilterIdempotent(leagues[1..], searchValue, sportType);
    }
  }

  /** The search is case-insensitive: lower-casing the search text first gives the same list. */
  lemma {:induction false} FilterIgnoresQueryCase(leagues: seq<League>, searchValue: string, sportType: string)
    ensures Filter(leagues, ToLower(searchValue), sportType) == Filter(leagues, searchValue, sportType)
  {
    ToLowerIdempotent(searchValue);
    if leagues != [] {
      FilterIgnoresQueryCase(leagues[1..], searchValue, sportType);
    }
  }

  /** "premier" occurs in the folded name "English Premier League". */
  lemma PremierNameMatches(name: string)
    requires name == "English Premier League"
    ensures Includes(ToLower(name), ToLower("premier"))
  {
    var folded := ToLower(name);
    var query := ToLower("premier");
    forall i | 0 <= i < 7 ensures folded[8 + i] == query[i] {
      assert folded[8 + i] == LowerChar(name[8 + i]);
      assert query[i] == LowerChar("premier"[i]);
    }
    assert folded[8..15] == query;
    assert OccursAt(folded, query, 8);
  }

  /** "NASCAR" is too short to contain "premier". */
  lemma NascarNameDiffers(name: string)
    requires name == "NASCAR"
    ensures !Includes(ToLower(name), ToLower("premier"))
  {
    assert |ToLower(name)| < |ToLower("premier")|;
  }

  /** A search for "premier" over all sports keeps the Premier League and drops NASCAR. */
  lemma PremierExample(epl: League, nascar: League)
    requires epl == League("1", "English Premier League", None, "Soccer")
    requires nascar == League("2", "NASCAR", None, "Motorsport")
    ensures Filter([epl, nascar], "premier", AllSports) == [epl]
  {
    PremierNameMatches(epl.strLeague);
    NascarNameDiffers(nascar.strLeague);
    assert Keep(epl, "premier", AllSports) && !Keep(nascar, "premier", AllSports);
    assert [epl, nascar][1..] == [nascar];
    assert Filter([nascar], "premier", AllSports) == [];
  }
}
