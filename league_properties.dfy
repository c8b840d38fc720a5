/**
 * What create_league.py's tables satisfy: how one result moves a team's
 * record and the table's totals, what add_team and update_team_stats change,
 * the order and stability of the ranking, and the layout of a table line.
 */
module LeagueProperties {
  import opened Wrappers
  import opened Fixtures
  import opened League

  // ---------------------------------------------------------------------------
  // One team's record
  // ---------------------------------------------------------------------------

  /** The three derived attributes of a consistent record after one update. */
  lemma UpdatedDeltas(r: TeamStats, goalsScored: int, goalsConceded: int)
    requires Consistent(r)
    ensures var u := Updated(r, goalsScored, goalsConceded);
      && u.matches == r.matches + 1
      && u.goalDifference == r.goalDifference + (goalsScored - goalsConceded)
      && u.points == r.points + (if goalsScored > goalsConceded then 3 else if goalsScored == goalsConceded then 1 else 0)
  {
  }

  /** `update_stats()` with its default arguments records a goalless draw. */
  lemma DefaultUpdateIsDraw(r: TeamStats)
    requires Consistent(r)
    ensures var u := Updated(r, 0, 0);
      && u.draws == r.draws + 1 && u.wins == r.wins && u.defeats == r.defeats
      && u.points == r.points + 1 && u.goalDifference == r.goalDifference
  {
  }

  // ---------------------------------------------------------------------------
  // add_team and update_team_stats
  // ---------------------------------------------------------------------------

  /**
   * add_team leaves a table that already holds the name alone, and otherwise
   * appends the name with an all-zero record; adding twice is adding once.
   */
  lemma AddTeamEffect(s: Standing, name: string)
    ensures name in s.stats ==> AddTeamTo(s, name) == s
    ensures name !in s.stats ==>
      && AddTeamTo(s, name).names == s.names + [name]
      && AddTeamTo(s, name).stats.Keys == s.stats.Keys + {name}
      && AddTeamTo(s, name).stats[name] == TeamStats(name, 0, 0, 0, 0, 0, 0, 0, 0)
      && (forall n :: n in s.stats ==> AddTeamTo(s, name).stats[n] == s.stats[n])
    ensures AddTeamTo(AddTeamTo(s, name), name) == AddTeamTo(s, name)
  {
  }

  /**
   * The table create_league starts from holds exactly the listed names, each
   * with an all-zero record, and, when the names are distinct, in list order.
   */
  lemma {:induction false} InitialStandingContents(teams: seq<string>)
    ensures forall n :: n in InitialStanding(teams).stats <==> n in teams
    ensures forall n :: n in InitialStanding(teams).stats ==>
      InitialStanding(teams).stats[n] == TeamStats(n, 0, 0, 0, 0, 0, 0, 0, 0)
    ensures Distinct(teams) ==> InitialStanding(teams).names == teams
  {
    if teams != [] {
      var front := teams[..|teams| - 1];
      InitialStandingContents(front);
      assert teams == front + [teams[|teams| - 1]];
      if Distinct(teams) {
        assert Distinct(front);
      }
    }
  }

  /**
   * update_team_stats raises KeyError exactly when the name is missing, and
   * otherwise changes that team's record and nothing else.
   */
  lemma UpdateTeamEffect(s: Standing, name: string, goalsScored: int, goalsConceded: int)
    ensures UpdateTeam(s, name, goalsScored, goalsConceded).Failure? <==> name !in s.stats
    ensures UpdateTeam(s, name, goalsScored, goalsConceded).Failure? ==>
      UpdateTeam(s, name, goalsScored, goalsConceded).error == KeyError(name)
    ensures UpdateTeam(s, name, goalsScored, goalsConceded).Success? ==>
      var t := UpdateTeam(s, name, goalsScored, goalsConceded).value;
      && t.names == s.names && t.stats.Keys == s.stats.Keys
      && t.stats[name] == Updated(s.stats[name], goalsScored, goalsConceded)
      && (forall n :: n in s.stats && n != name ==> t.stats[n] == s.stats[n])
  {
  }

  /**
   * The two updates for one result succeed exactly when both teams are in the
   * table; a missing home team is reported before a missing away team.
   */
  lemma ApplyResultEffect(s: Standing, m: MatchResult)
    ensures ApplyResult(s, m).Success? <==> m.home in s.stats && m.away in s.stats
    ensures m.home !in s.stats ==> ApplyResult(s, m) == Failure(KeyError(m.home))
    ensures m.home in s.stats && m.away !in s.stats ==> ApplyResult(s, m) == Failure(KeyError(m.away))
  {
  }

  // ---------------------------------------------------------------------------
  // Table totals
  // ---------------------------------------------------------------------------

  /** The sum of `f` over the records. */
  function Total(rs: seq<TeamStats>, f: TeamStats -> int): int {
    if rs == [] then 0 else Total(rs[..|rs| - 1], f) + f(rs[|rs| - 1])
  }

  function GoalDifferenceOf(r: TeamStats): int { r.goalDifference }
  function MatchesOf(r: TeamStats): int { r.matches }
  function PointsOf(r: TeamStats): int { r.points }
  function ScoredOf(r: TeamStats): int { r.goalsScored }
  function ConcededOf(r: TeamStats): int { r.goalsConceded }

  /** Two lists that differ only at `k`: their totals differ by the change there. */
  lemma {:induction false} TotalChangeAt(a: seq<TeamStats>, b: seq<TeamStats>, k: nat, f: TeamStats -> int)
    requires |a| == |b| && k < |a|
    requires forall i :: 0 <= i < |a| && i != k ==> a[i] == b[i]
    ensures Total(b, f) == Total(a, f) - f(a[k]) + f(b[k])
    decreases |a|
  {
    var n := |a| - 1;
    if k == n {
      assert a[..n] == b[..n];
    } else {
      TotalChangeAt(a[..n], b[..n], k, f);
    }
  }

  /** A name listed in a well-formed table sits at exactly one index. */
  lemma IndexOfName(s: Standing, name: string) returns (k: nat)
    requires WellFormed(s) && name in s.stats
    ensures k < |s.names| && s.names[k] == name
    ensures forall i :: 0 <= i < |s.names| && i != k ==> s.names[i] != name
  {
    assert name in s.names;
    k :| 0 <= k < |s.names| && s.names[k] == name;
  }

  /** Updating one record changes each total by that record's change. */
  lemma UpdateTeamTotal(s: Standing, name: string, goalsScored: int, goalsConceded: int, f: TeamStats -> int)
    requires WellFormed(s) && name in s.stats
    ensures var t := UpdateTeam(s, name, goalsScored, goalsConceded).value;
      WellFormed(t) &&
      Total(Records(t), f) == Total(Records(s), f) - f(s.stats[name]) + f(Updated(s.stats[name], goalsScored, goalsConceded))
  {
    var t := UpdateTeam(s, name, goalsScored, goalsConceded).value;
    var k := IndexOfName(s, name);
    TotalChangeAt(Records(s), Records(t), k, f);
  }

  /**
   * One result keeps the total goal difference, adds both scores to the goals
   * scored and to the goals conceded, adds two matches played, and hands out
   * three points for a decisive result and two for a draw. This holds even
   * when a line names the same team on both sides.
   */
  lemma ApplyResultTotals(s: Standing, m: MatchResult)
    requires WellFormed(s) && ApplyResult(s, m).Success?
    ensures var t := ApplyResult(s, m).value;
      && Total(Records(t), GoalDifferenceOf) == Total(Records(s), GoalDifferenceOf)
      && Total(Records(t), ScoredOf) == Total(Records(s), ScoredOf) + m.homeGoals + m.awayGoals
      && Total(Records(t), ConcededOf) == Total(Records(s), ConcededOf) + m.homeGoals + m.awayGoals
      && Total(Records(t), MatchesOf) == Total(Records(s), MatchesOf) + 2
      && Total(Records(t), PointsOf) == Total(Records(s), PointsOf) + (if m.homeGoals == m.awayGoals then 2 else 3)
  {
    var mid := UpdateTeam(s, m.home, m.homeGoals, m.awayGoals).value;
    var t := ApplyResult(s, m).value;
    assert t == UpdateTeam(mid, m.away, m.awayGoals, m.homeGoals).value;
    var h := s.stats[m.home];
    var a := mid.stats[m.away];
    UpdatedDeltas(h, m.homeGoals, m.awayGoals);
    UpdatedDeltas(a, m.awayGoals, m.homeGoals);
    UpdateTeamTotal(s, m.home, m.homeGoals, m.awayGoals, GoalDifferenceOf);
    UpdateTeamTotal(mid, m.away, m.awayGoals, m.homeGoals, GoalDifferenceOf);
    UpdateTeamTotal(s, m.home, m.homeGoals, m.awayGoals, ScoredOf);
    UpdateTeamTotal(mid, m.away, m.awayGoals, m.homeGoals, ScoredOf);
    UpdateTeamTotal(s, m.home, m.homeGoals, m.awayGoals, ConcededOf);
    UpdateTeamTotal(mid, m.away, m.awayGoals, m.homeGoals, ConcededOf);
    UpdateTeamTotal(s, m.home, m.homeGoals, m.awayGoals, MatchesOf);
    UpdateTeamTotal(mid, m.away, m.awayGoals, m.homeGoals, MatchesOf);
    UpdateTeamTotal(s, m.home, m.homeGoals, m.awayGoals, PointsOf);
    UpdateTeamTotal(mid, m.away, m.awayGoals, m.homeGoals, PointsOf);
  }

  /**
   * A round of `|lines|` results keeps the total goal difference and adds two
   * matches per line; the points handed out lie between two and three per line.
   */
  lemma {:induction false} PlayLinesTotals(s: Standing, lines: seq<string>)
    requires WellFormed(s) && PlayLines(s, lines).Success?
    ensures var t := PlayLines(s, lines).value;
      && Total(Records(t), GoalDifferenceOf) == Total(Records(s), GoalDifferenceOf)
      && Total(Records(t), ScoredOf) - Total(Records(t), ConcededOf) == Total(Records(s), ScoredOf) - Total(Records(s), ConcededOf)
      && Total(Records(t), MatchesOf) == Total(Records(s), MatchesOf) + 2 * |lines|
      && Total(Records(s), PointsOf) + 2 * |lines| <= Total(Records(t), PointsOf) <= Total(Records(s), PointsOf) + 3 * |lines|
    decreases |lines|
  {
    if lines != [] {
      var m := SplitMatch(lines[0]).value;
      var next := ApplyResult(s, m).value;
      ApplyResultTotals(s, m);
      PlayLinesTotals(next, lines[1..]);
    }
  }

  lemma {:induction false} TotalOfZeros(rs: seq<TeamStats>, f: TeamStats -> int)
    requires forall i :: 0 <= i < |rs| ==> f(rs[i]) == 0
    ensures Total(rs, f) == 0
  {
    if rs != [] {
      TotalOfZeros(rs[..|rs| - 1], f);
    }
  }

  /** The table create_league starts from has every total zero. */
  lemma InitialTotals(teams: seq<string>)
    ensures var rs := Records(InitialStanding(teams));
      && Total(rs, GoalDifferenceOf) == 0 && Total(rs, MatchesOf) == 0 && Total(rs, PointsOf) == 0
      && Total(rs, ScoredOf) == 0 && Total(rs, ConcededOf) == 0
  {
    var s := InitialStanding(teams);
    InitialStandingContents(teams);
    var rs := Records(s);
    assert forall i :: 0 <= i < |rs| ==> rs[i] == TeamStats(s.names[i], 0, 0, 0, 0, 0, 0, 0, 0);
    TotalOfZeros(rs, GoalDifferenceOf);
    TotalOfZeros(rs, MatchesOf);
    TotalOfZeros(rs, PointsOf);
    TotalOfZeros(rs, ScoredOf);
    TotalOfZeros(rs, ConcededOf);
  }

  // ---------------------------------------------------------------------------
  // The ranking
  // ---------------------------------------------------------------------------

  /** Any two records of the ranking, not only neighbours, are in order. */
  lemma {:induction false} DescendingPairwise(s: seq<TeamStats>)
    requires Descending(s)
    ensures forall i, j :: 0 <= i < j < |s| ==> !KeyBelow(s[i], s[j])
    decreases |s|
  {
    if |s| > 1 {
      DescendingPairwise(s[1..]);
      forall j | 1 < j < |s|
        ensures !KeyBelow(s[0], s[j])
      {
        assert s[1..][j - 1] == s[j];
        assert !KeyBelow(s[0], s[1]);
        assert !KeyBelow(s[1..][0], s[1..][j - 1]);
      }
      forall i, j | 0 <= i < j < |s|
        ensures !KeyBelow(s[i], s[j])
      {
        if i > 0 {
          assert s[i] == s[1..][i - 1] && s[j] == s[1..][j - 1];
        }
      }
    }
  }

  /** The records of `s` whose key equals `x`'s, in their order in `s`. */
  function WithKeyOf(s: seq<TeamStats>, x: TeamStats): (r: seq<TeamStats>)
    ensures forall i :: 0 <= i < |r| ==> SameKey(r[i], x)
  {
    if s == [] then []
    else (if SameKey(s[0], x) then [s[0]] else []) + WithKeyOf(s[1..], x)
  }

  lemma WithKeyCons(h: TeamStats, rest: seq<TeamStats>, x: TeamStats)
    ensures WithKeyOf([h] + rest, x) == (if SameKey(h, x) then [h] else []) + WithKeyOf(rest, x)
  {
    assert ([h] + rest)[1..] == rest;
  }

  lemma DescendingTail(t: seq<TeamStats>)
    requires Descending(t) && t != []
    ensures Descending(t[1..])
  {
    forall i | 0 <= i < |t[1..]| - 1
      ensures !KeyBelow(t[1..][i], t[1..][i + 1])
    {
      assert t[1..][i] == t[i + 1] && t[1..][i + 1] == t[i + 2];
    }
  }

  /** The step of InsertWithKey where `y` goes behind the first record. */
  lemma InsertBehindWithKey(y: TeamStats, t: seq<TeamStats>, x: TeamStats)
    requires t != [] && KeyBelow(y, t[0])
    requires WithKeyOf(Insert(y, t[1..]), x) == (if SameKey(y, x) then [y] else []) + WithKeyOf(t[1..], x)
    ensures WithKeyOf(Insert(y, t), x) == (if SameKey(y, x) then [y] else []) + WithKeyOf(t, x)
  {
    var rest := Insert(y, t[1..]);
    assert Insert(y, t) == [t[0]] + rest;
    var own: seq<TeamStats> := if SameKey(y, x) then [y] else [];
    var first: seq<TeamStats> := if SameKey(t[0], x) then [t[0]] else [];
    WithKeyCons(t[0], rest, x);
    assert t == [t[0]] + t[1..];
    WithKeyCons(t[0], t[1..], x);
    assert first == [] || own == [];
    Rearrange(WithKeyOf(Insert(y, t), x), first, own, WithKeyOf(t[1..], x), WithKeyOf(t, x));
  }

  lemma Rearrange(a: seq<TeamStats>, first: seq<TeamStats>, own: seq<TeamStats>, tail: seq<TeamStats>, b: seq<TeamStats>)
    requires a == first + (own + tail) && b == first + tail && (first == [] || own == [])
    ensures a == own + b
  {
    if first == [] {
      assert a == own + tail && b == tail;
    } else {
      assert own + tail == tail;
    }
  }

  /** Inserting `y` into a descending list puts it ahead of every record with its key. */
  lemma {:induction false} InsertWithKey(y: TeamStats, t: seq<TeamStats>, x: TeamStats)
    requires Descending(t)
    ensures WithKeyOf(Insert(y, t), x) == (if SameKey(y, x) then [y] else []) + WithKeyOf(t, x)
    decreases |t|
  {
    if t == [] || !KeyBelow(y, t[0]) {
      WithKeyCons(y, t, x);
    } else {
      DescendingTail(t);
      InsertWithKey(y, t[1..], x);
      InsertBehindWithKey(y, t, x);
    }
  }

  /**
   * The ranking is stable: records with equal keys come out in the order
   * `self.teams.values()` listed them.
   */
  lemma {:induction false} RankIsStable(rs: seq<TeamStats>, x: TeamStats)
    ensures WithKeyOf(Rank(rs), x) == WithKeyOf(rs, x)
    decreases |rs|
  {
    if rs != [] {
      RankIsStable(rs[1..], x);
      InsertWithKey(rs[0], Rank(rs[1..]), x);
    }
  }

  /** A list already in order is left as it is, so ranking twice is ranking once. */
  lemma {:induction false} RankOfDescending(rs: seq<TeamStats>)
    requires Descending(rs)
    ensures Rank(rs) == rs
    decreases |rs|
  {
    if rs != [] {
      DescendingTail(rs);
      RankOfDescending(rs[1..]);
      assert rs == [rs[0]] + rs[1..];
    }
  }

  lemma RankIdempotent(rs: seq<TeamStats>)
    ensures Rank(Rank(rs)) == Rank(rs)
  {
    RankOfDescending(Rank(rs));
  }
}
