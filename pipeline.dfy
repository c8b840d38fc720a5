/**
 * The two scripts together: a season from generate_fixtures, scored by
 * add_scores and written by save_results, is read by create_league with the
 * same team list without a KeyError, and yields one table per round.
 */
module Pipeline {
  import opened Wrappers
  import opened Fixtures
  import opened FixtureProperties
  import opened League
  import opened LeagueProperties
  import opened ResultsRoundTrip

  /** Every team named in `results` is a key of the table. */
  ghost predicate AllKnown(s: Standing, results: seq<seq<MatchResult>>) {
    forall k, l :: 0 <= k < |results| && 0 <= l < |results[k]| ==>
      results[k][l].home in s.stats && results[k][l].away in s.stats
  }

  /** Rows of known teams apply without error, and leave the same keys. */
  lemma {:induction false} ApplyKnownResults(s: Standing, rd: seq<MatchResult>)
    requires forall l :: 0 <= l < |rd| ==> rd[l].home in s.stats && rd[l].away in s.stats
    ensures ApplyResults(s, rd).Success?
    ensures ApplyResults(s, rd).value.stats.Keys == s.stats.Keys
    decreases |rd|
  {
    if rd != [] {
      var m := rd[0];
      ApplyResultEffect(s, m);
      UpdateTeamEffect(s, m.home, m.homeGoals, m.awayGoals);
      var afterHome := UpdateTeam(s, m.home, m.homeGoals, m.awayGoals).value;
      UpdateTeamEffect(afterHome, m.away, m.awayGoals, m.homeGoals);
      var next := ApplyResult(s, m).value;
      assert next.stats.Keys == s.stats.Keys;
      ApplyKnownResults(next, rd[1..]);
    }
  }

  lemma KnownTail(s: Standing, t: Standing, results: seq<seq<MatchResult>>)
    requires results != [] && AllKnown(s, results) && t.stats.Keys == s.stats.Keys
    ensures AllKnown(t, results[1..])
  {
    forall k, l | 0 <= k < |results[1..]| && 0 <= l < |results[1..][k]|
      ensures results[1..][k][l].home in t.stats && results[1..][k][l].away in t.stats
    {
      assert results[1..][k] == results[k + 1];
    }
  }

  /** A completed round puts its table in front of the tables of the rounds after it. */
  lemma ReplayStep(s: Standing, results: seq<seq<MatchResult>>, i: int, folder: string, next: Standing)
    requires WellFormed(s) && results != [] && ApplyResults(s, results[0]) == Success(next)
    ensures WellFormed(next)
    ensures var out, rest := ReplayRounds(s, results, i, folder), ReplayRounds(next, results[1..], i + 1, folder);
      && out.error == rest.error && |out.files| == 1 + |rest.files|
      && out.files[0].path == TablePath(folder, i)
      && forall k :: 0 < k < |out.files| ==> out.files[k] == rest.files[k - 1]
  {
  }

  /** Replaying rounds of known teams never stops: one table per round, at the round's own path. */
  lemma {:induction false} ReplayKnownTeams(s: Standing, results: seq<seq<MatchResult>>, i: int, folder: string)
    requires WellFormed(s) && AllKnown(s, results)
    ensures ReplayRounds(s, results, i, folder).error == None
    ensures |ReplayRounds(s, results, i, folder).files| == |results|
    ensures forall k :: 0 <= k < |results| ==> ReplayRounds(s, results, i, folder).files[k].path == TablePath(folder, i + k)
    decreases |results|
  {
    if results != [] {
      ApplyKnownResults(s, results[0]);
      var next := ApplyResults(s, results[0]).value;
      ReplayStep(s, results, i, folder, next);
      KnownTail(s, next, results);
      ReplayKnownTeams(next, results[1..], i + 1, folder);
      var out, rest := ReplayRounds(s, results, i, folder), ReplayRounds(next, results[1..], i + 1, folder);
      forall k | 0 < k < |results| ensures out.files[k].path == TablePath(folder, i + k) {
        assert out.files[k] == rest.files[k - 1];
      }
    }
  }

  /** How often `t` is at home in one round is at most how often it is at home in the season. */
  lemma {:induction false} RoundHomeCountBelow(rounds: seq<Round>, r: nat, t: Team)
    requires r < |rounds|
    ensures multiset(Homes(rounds[r]))[t] <= HomeCount(rounds, t)
    ensures multiset(Aways(rounds[r]))[t] <= AwayCount(rounds, t)
    decreases |rounds|
  {
    if r < |rounds| - 1 {
      RoundHomeCountBelow(rounds[..|rounds| - 1], r, t);
    }
  }

  /** Only listed teams play in a season. */
  lemma SeasonTeamsListed(season: seq<Round>, teams: seq<Team>, symmetric: bool, r: nat, j: nat)
    requires IsSeason(season, teams, symmetric) && r < |season| && j < |season[r]|
    ensures season[r][j].home in teams && season[r][j].away in teams
  {
    var m := season[r][j];
    assert Homes(season[r])[j] == m.home && Aways(season[r])[j] == m.away;
    RoundHomeCountBelow(season, r, m.home);
    RoundHomeCountBelow(season, r, m.away);
    if m.home !in teams {
      AbsentTeamNeverPlays(season, teams, symmetric, m.home);
    }
    if m.away !in teams {
      AbsentTeamNeverPlays(season, teams, symmetric, m.away);
    }
  }

  /**
   * A season generated from `teams` (shuffled in place into `shuffled`), scored
   * into `scores` and saved as a results file, run through create_league with
   * the same `teams`: no teams means the IndexError of `rounds[0]`; otherwise
   * every round completes and `2 (n - 1)` tables are written, round `k` to
   * its own path.
   */
  lemma GeneratedSeasonReplays(teams: seq<Team>, shuffled: seq<Team>, symmetric: bool, season: seq<Round>,
                               scores: seq<seq<MatchResult>>, folder: string)
    requires multiset(shuffled) == multiset(teams) && IsSeason(season, shuffled, symmetric)
    requires FixturesOf(scores) == season && ReadableResults(scores)
    ensures var out := CreateLeagueOutcome(teams, ResultsText(scores), folder);
      && (teams == [] ==> out.error == Some(IndexError))
      && (teams != [] ==>
        && out.error == None
        && |out.files| == 2 * (|teams| - 1)
        && forall k :: 0 <= k < |out.files| ==> out.files[k].path == TablePath(folder, k + 1))
  {
    SeasonLength(season, shuffled, symmetric);
    assert |shuffled| == |teams| by {
      assert |multiset(shuffled)| == |multiset(teams)|;
    }
    if teams == [] {
      assert scores == [];
      CreateLeagueOfNoResults(teams, folder);
    } else {
      var s := InitialStanding(teams);
      InitialStandingContents(teams);
      forall k, l | 0 <= k < |scores| && 0 <= l < |scores[k]|
        ensures scores[k][l].home in s.stats && scores[k][l].away in s.stats
      {
        assert season[k][l] == Match(scores[k][l].home, scores[k][l].away);
        SeasonTeamsListed(season, shuffled, symmetric, k, l);
        assert multiset(shuffled)[scores[k][l].home] > 0 && multiset(shuffled)[scores[k][l].away] > 0;
      }
      CreateLeagueOfResultsText(teams, scores, folder);
      ReplayKnownTeams(s, scores, 1, folder);
    }
  }
}
