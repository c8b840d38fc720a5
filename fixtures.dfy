/**
 * Fixture generation and result rows (generate_results.py).
 *
 * `generate_round_robin` pairs `half1[j]` with `half2[j]` in every round,
 * puts `half1` at home in odd rounds and `half2` at home in even rounds,
 * shuffles the round and then rotates `half1` one place to the right, in the
 * caller's list. `generate_fixtures` shuffles the teams in place, splits them
 * into two halves and builds a winter half-season followed by a summer one.
 */
module Fixtures {
  import opened Wrappers
  import opened PyText

  type Team = string

  /** A fixture `[home, away]`. */
  datatype Match = Match(home: Team, away: Team)

  type Round = seq<Match>

  datatype ScheduleError =
    | OddTeamCount     // ValueError: "The list must have an even number of elements."
    | IndexOutOfRange  // IndexError: the two halves differ in length

  /** A result row `[home, home goals, away goals, away]`, as add_scores builds it. */
  datatype MatchResult = MatchResult(home: Team, homeGoals: int, awayGoals: int, away: Team)

  // ---------------------------------------------------------------------------
  // Rotation of half1 and the rounds before their shuffle
  // ---------------------------------------------------------------------------

  /** `half1.insert(0, half1.pop(-1))` as a value: the last element moves to the front. */
  function RotateOnce<T>(s: seq<T>): (r: seq<T>)
    requires s != []
    ensures |r| == |s|
  {
    [s[|s| - 1]] + s[..|s| - 1]
  }

  /** `s` after `r` one-place rotations to the right. */
  function RotateRight<T>(s: seq<T>, r: nat): (t: seq<T>)
    ensures |t| == |s|
  {
    if r == 0 || s == [] then s else RotateOnce(RotateRight(s, r - 1))
  }

  /** The match in slot `j` of round `i`: `half1` teams are at home in odd rounds. */
  function Pairing(fromHalf1: Team, fromHalf2: Team, i: nat): Match {
    if i % 2 == 1 then Match(fromHalf1, fromHalf2) else Match(fromHalf2, fromHalf1)
  }

  /**
   * Round `i` of a half-season as built before its shuffle: slot `j` pairs
   * `half1` (rotated `i` times) at `j` with `half2[j]`.
   */
  function CanonicalRound(h1: seq<Team>, h2: seq<Team>, i: nat): (rd: Round)
    requires |h1| == |h2|
    ensures |rd| == |h2|
  {
    var cur := RotateRight(h1, i);
    seq(|h2|, j requires 0 <= j < |h2| => Pairing(cur[j], h2[j], i))
  }

  /** The number of rounds `generate_round_robin` builds for halves of size `k`: `range(2k - 1)`. */
  function HalfSeasonLength(k: nat): nat {
    if k == 0 then 0 else 2 * k - 1
  }

  /**
   * What a call of generate_round_robin on `h1`, `h2` returns: `2k - 1` rounds,
   * round `i` a permutation of `CanonicalRound(h1, h2, i)`.
   */
  ghost predicate IsHalfSeason(rounds: seq<Round>, h1: seq<Team>, h2: seq<Team>)
    requires |h1| == |h2|
  {
    && |rounds| == HalfSeasonLength(|h1|)
    && forall i :: 0 <= i < |rounds| ==> multiset(rounds[i]) == multiset(CanonicalRound(h1, h2, i))
  }

  /** `list(reversed(match))`. */
  function Reversed(m: Match): Match {
    Match(m.away, m.home)
  }

  /** The symmetric summer half: every fixture of the winter with home and away swapped. */
  function Mirrored(winter: seq<Round>): (summer: seq<Round>)
    ensures |summer| == |winter|
    ensures forall r :: 0 <= r < |winter| ==> |summer[r]| == |winter[r]|
    ensures forall r, m :: 0 <= r < |winter| && 0 <= m < |winter[r]| ==>
      summer[r][m].home == winter[r][m].away && summer[r][m].away == winter[r][m].home
  {
    seq(|winter|, r requires 0 <= r < |winter| =>
      seq(|winter[r]|, m requires 0 <= m < |winter[r]| => Reversed(winter[r][m])))
  }

  /**
   * What generate_fixtures returns for the (already shuffled) `teams`: a winter
   * half-season on the two halves, then a summer half that mirrors it
   * (symmetric) or is a second half-season started from the rotated `half1`.
   */
  ghost predicate IsSeason(season: seq<Round>, teams: seq<Team>, symmetric: bool) {
    var k := |teams| / 2;
    var h1, h2 := teams[..k], teams[k..];
    var w := HalfSeasonLength(k);
    && |teams| % 2 == 0
    && |season| == 2 * w
    && IsHalfSeason(season[..w], h1, h2)
    && (symmetric ==> season[w..] == Mirrored(season[..w]))
    && (!symmetric ==> IsHalfSeason(season[w..], RotateRight(h1, w), h2))
  }

  // ---------------------------------------------------------------------------
  // In-place operations on lists
  // ---------------------------------------------------------------------------

  /**
   * `random.shuffle(a)`: Fisher-Yates from the back, with the random index
   * `j` in `[0, i]` left as an arbitrary choice.
   */
  method Shuffle<T>(a: array<T>)
    modifies a
    ensures multiset(a[..]) == old(multiset(a[..]))
  {
    var i := a.Length - 1;
    while i > 0
      invariant -1 <= i < a.Length
      invariant multiset(a[..]) == old(multiset(a[..]))
    {
      var j :| 0 <= j <= i;
      a[i], a[j] := a[j], a[i];
      i := i - 1;
    }
  }

  /** `a.insert(0, a.pop(-1))`. */
  method RotateInPlace<T>(a: array<T>)
    requires a.Length > 0
    modifies a
    ensures a[..] == RotateOnce(old(a[..]))
  {
    var last := a[a.Length - 1];
    var i := a.Length - 1;
    while i > 0
      invariant 0 <= i < a.Length
      invariant forall k :: 0 <= k <= i ==> a[k] == old(a[k])
      invariant forall k :: i < k < a.Length ==> a[k] == old(a[k - 1])
    {
      a[i] := a[i - 1];
      i := i - 1;
    }
    a[0] := last;
  }

  // ---------------------------------------------------------------------------
  // generate_round_robin and generate_fixtures
  // ---------------------------------------------------------------------------

  /**
   * The inner loop of generate_round_robin: slots `0 .. count - 1` of round
   * `i`, reading `half1[j]` and `half2[j]`; an index past either list is an
   * IndexError.
   */
  method PairRound(half1: array<Team>, half2: seq<Team>, i: nat, count: nat) returns (r: Result<Round, ScheduleError>)
    ensures r.Failure? <==> count > half1.Length || count > |half2|
    ensures r.Failure? ==> r.error == IndexOutOfRange
    ensures r.Success? ==> |r.value| == count
    ensures r.Success? ==> forall q :: 0 <= q < count ==> r.value[q] == Pairing(half1[q], half2[q], i)
  {
    var roundMatches: seq<Match> := [];
    var j := 0;
    while j < count
      invariant 0 <= j <= count
      invariant j <= half1.Length && j <= |half2|
      invariant |roundMatches| == j
      invariant forall q :: 0 <= q < j ==> roundMatches[q] == Pairing(half1[q], half2[q], i)
    {
      if j >= half1.Length || j >= |half2| {
        return Failure(IndexOutOfRange);
      }
      if i % 2 == 1 {
        roundMatches := roundMatches + [Match(half1[j], half2[j])];
      } else {
        roundMatches := roundMatches + [Match(half2[j], half1[j])];
      }
      j := j + 1;
    }
    return Success(roundMatches);
  }

  lemma PairedRoundIsCanonical(h1: seq<Team>, h2: seq<Team>, i: nat, cur: seq<Team>, rd: Round)
    requires |h1| == |h2| == |rd| && cur == RotateRight(h1, i)
    requires forall q :: 0 <= q < |rd| ==> rd[q] == Pairing(cur[q], h2[q], i)
    ensures rd == CanonicalRound(h1, h2, i)
  {
  }

  /** `random.shuffle(round_matches)` on the list just built. */
  method ShuffleRound(rd: Round) returns (shuffled: Round)
    ensures multiset(shuffled) == multiset(rd)
  {
    var buf := new Match[|rd|](k requires 0 <= k < |rd| => rd[k]);
    assert buf[..] == rd;
    Shuffle(buf);
    shuffled := buf[..];
  }

  /** The first rounds of a half-season: each is a permutation of its canonical round. */
  ghost predicate HalfSeasonPrefix(rounds: seq<Round>, h1: seq<Team>, h2: seq<Team>) {
    |h1| == |h2| ==> forall p :: 0 <= p < |rounds| ==> multiset(rounds[p]) == multiset(CanonicalRound(h1, h2, p))
  }

  lemma HalfSeasonPrefixExtend(rounds: seq<Round>, rd: Round, h1: seq<Team>, h2: seq<Team>)
    requires HalfSeasonPrefix(rounds, h1, h2)
    requires |h1| == |h2| ==> multiset(rd) == multiset(CanonicalRound(h1, h2, |rounds|))
    ensures HalfSeasonPrefix(rounds + [rd], h1, h2)
  {
  }

  /**
   * One pass of generate_round_robin's outer loop: pair the `count` slots of
   * round `i`, shuffle them, and rotate `half1` right by one.
   */
  method PlayRound(half1: array<Team>, half2: seq<Team>, i: nat, count: nat, ghost h1: seq<Team>) returns (r: Result<Round, ScheduleError>)
    requires |h1| == |half2| ==> half1[..] == RotateRight(h1, i)
    requires count > 0
    modifies half1
    ensures r.Failure? <==> count > half1.Length || count > |half2|
    ensures r.Failure? ==> r.error == IndexOutOfRange && half1[..] == old(half1[..])
    ensures r.Success? ==> half1[..] == RotateOnce(old(half1[..]))
    ensures r.Success? && |h1| == |half2| == count ==> multiset(r.value) == multiset(CanonicalRound(h1, half2, i))
  {
    var roundMatches := PairRound(half1, half2, i, count);
    if roundMatches.Failure? {
      return Failure(roundMatches.error);
    }
    if |h1| == |half2| == count {
      PairedRoundIsCanonical(h1, half2, i, half1[..], roundMatches.value);
    }
    var shuffled := ShuffleRound(roundMatches.value);
    RotateInPlace(half1);
    return Success(shuffled);
  }

  /**
   * generate_round_robin(half1, half2). An odd team count is a ValueError;
   * halves of different lengths run off the shorter one in round 0 (an
   * IndexError, before anything is rotated). Otherwise the result is a
   * half-season and `half1` ends rotated once per round.
   */
  method GenerateRoundRobin(half1: array<Team>, half2: seq<Team>) returns (r: Result<seq<Round>, ScheduleError>)
    modifies half1
    ensures (half1.Length + |half2|) % 2 == 1 ==> r == Failure(OddTeamCount)
    ensures (half1.Length + |half2|) % 2 == 0 && half1.Length != |half2| ==> r == Failure(IndexOutOfRange)
    ensures r.Success? <==> half1.Length == |half2|
    ensures r.Failure? ==> half1[..] == old(half1[..])
    ensures r.Success? ==>
      && IsHalfSeason(r.value, old(half1[..]), half2)
      && half1[..] == RotateRight(old(half1[..]), |r.value|)
  {
    ghost var h1 := half1[..];
    var nTeams := half1.Length + |half2|;
    if nTeams % 2 == 1 {
      return Failure(OddTeamCount);
    }
    var rounds := nTeams - 1;
    var matches: seq<Round> := [];
    var i := 0;
    while i < rounds
      invariant 0 <= i <= if rounds < 0 then 0 else rounds
      invariant half1[..] == RotateRight(h1, i)
      invariant |matches| == i
      invariant i > 0 ==> half1.Length == |half2|
      invariant HalfSeasonPrefix(matches, h1, half2)
    {
      var played := PlayRound(half1, half2, i, nTeams / 2, h1);
      if played.Failure? {
        return Failure(played.error);
      }
      HalfSeasonPrefixExtend(matches, played.value, h1, half2);
      matches := matches + [played.value];
      i := i + 1;
    }
    if nTeams == 0 {
      assert i == 0;
    } else {
      assert i == rounds > 0;
    }
    assert i == HalfSeasonLength(half1.Length);
    return Success(matches);
  }

  /**
   * generate_fixtures(teams, symmetric). An odd team count is a ValueError and
   * leaves `teams` alone; otherwise `teams` is shuffled in place and the
   * season is built from its two halves.
   */
  method GenerateFixtures(teams: array<Team>, symmetric: bool := false) returns (r: Result<seq<Round>, ScheduleError>)
    modifies teams
    ensures r.Failure? <==> teams.Length % 2 == 1
    ensures r.Failure? ==> r.error == OddTeamCount && teams[..] == old(teams[..])
    ensures multiset(teams[..]) == old(multiset(teams[..]))
    ensures r.Success? ==> IsSeason(r.value, teams[..], symmetric)
  {
    var nTeams := teams.Length;
    if nTeams % 2 == 1 {
      return Failure(OddTeamCount);
    }
    Shuffle(teams);
    var k := nTeams / 2;
    var front := teams[..k];
    var half1 := new Team[k](p requires 0 <= p < k => front[p]);
    var half2 := teams[k..];
    assert half1[..] == front;
    var winter := GenerateRoundRobin(half1, half2);
    var w := winter.value;
    var summer: seq<Round>;
    if symmetric {
      summer := Mirrored(w);
    } else {
      var second := GenerateRoundRobin(half1, half2);
      summer := second.value;
    }
    assert (w + summer)[..|w|] == w;
    assert (w + summer)[|w|..] == summer;
    return Success(w + summer);
  }

  // ---------------------------------------------------------------------------
  // add_scores, with the goals drawn by an oracle
  // ---------------------------------------------------------------------------

  /** The fixtures of a table of result rows: `[row[0], row[3]]` for every row. */
  function FixturesOf(scores: seq<seq<MatchResult>>): (schedule: seq<Round>)
    ensures |schedule| == |scores|
  {
    seq(|scores|, i requires 0 <= i < |scores| =>
      seq(|scores[i]|, j requires 0 <= j < |scores[i]| => Match(scores[i][j].home, scores[i][j].away)))
  }

  /**
   * add_scores(schedule, exp_goals). `goals(i, j)` stands for the two
   * randomised goal counts of match `j` in round `i`; the rows mirror the
   * schedule and carry exactly those goals.
   */
  method AddScores(schedule: seq<Round>, goals: (nat, nat) -> (int, int)) returns (scores: seq<seq<MatchResult>>)
    ensures FixturesOf(scores) == schedule
    ensures forall i, j :: 0 <= i < |scores| && 0 <= j < |scores[i]| ==>
      (scores[i][j].homeGoals, scores[i][j].awayGoals) == goals(i, j)
  {
    scores := [];
    var i := 0;
    while i < |schedule|
      invariant 0 <= i <= |schedule|
      invariant |scores| == i
      invariant forall p :: 0 <= p < i ==> |scores[p]| == |schedule[p]|
      invariant forall p, q :: 0 <= p < i && 0 <= q < |scores[p]| ==>
        && Match(scores[p][q].home, scores[p][q].away) == schedule[p][q]
        && (scores[p][q].homeGoals, scores[p][q].awayGoals) == goals(p, q)
    {
      var roundResults: seq<MatchResult> := [];
      var j := 0;
      while j < |schedule[i]|
        invariant 0 <= j <= |schedule[i]|
        invariant |roundResults| == j
        invariant forall q :: 0 <= q < j ==>
          && Match(roundResults[q].home, roundResults[q].away) == schedule[i][q]
          && (roundResults[q].homeGoals, roundResults[q].awayGoals) == goals(i, q)
      {
        var m := schedule[i][j];
        var g := goals(i, j);
        roundResults := roundResults + [MatchResult(m.home, g.0, g.1, m.away)];
        j := j + 1;
      }
      scores := scores + [roundResults];
      i := i + 1;
    }
    var back := FixturesOf(scores);
    forall p | 0 <= p < |schedule| ensures back[p] == schedule[p] {
      assert |back[p]| == |schedule[p]|;
    }
  }

  // ---------------------------------------------------------------------------
  // The results text (print_results and save_results)
  // ---------------------------------------------------------------------------

  /** `f'{match[0]} {match[1]} - {match[2]} {match[3]}'`. */
  function ResultLine(m: MatchResult): string {
    m.home + " " + IntToString(m.homeGoals) + " - " + IntToString(m.awayGoals) + " " + m.away
  }

  /** The match lines of one round, each followed by a newline. */
  function MatchLinesText(rd: seq<MatchResult>): string {
    if rd == [] then "" else ResultLine(rd[0]) + "\n" + MatchLinesText(rd[1..])
  }

  /** `f'Round {i}:'`. */
  function RoundHeader(i: int): string {
    "Round " + IntToString(i) + ":"
  }

  /** What save_results writes, round `first` onwards: header, match lines, an empty line. */
  function ResultsTextFrom(results: seq<seq<MatchResult>>, first: int): string
  {
    if results == [] then ""
    else RoundHeader(first) + "\n" + MatchLinesText(results[0]) + "\n" + ResultsTextFrom(results[1..], first + 1)
  }

  /** The whole results file, rounds numbered from 1 as `enumerate(results, 1)`. */
  function ResultsText(results: seq<seq<MatchResult>>): string {
    ResultsTextFrom(results, 1)
  }
}
