/**
 * What the schedules built by generate_round_robin and generate_fixtures
 * satisfy. Only `half1` rotates, so every match pairs a `half1` team with a
 * `half2` team, two teams of the same half never meet, and the pairings of
 * a half-season repeat after `k` rounds (`k` teams per half).
 */
module FixtureProperties {
  import opened Fixtures

  // ---------------------------------------------------------------------------
  // Rotation
  // ---------------------------------------------------------------------------

  /** Rotating right `r <= |s|` places moves the last `r` elements to the front. */
  lemma {:induction false} RotateRightClosedForm<T>(s: seq<T>, r: nat)
    requires r <= |s|
    ensures RotateRight(s, r) == s[|s| - r..] + s[..|s| - r]
  {
    var n := |s|;
    if r == 0 || s == [] {
      assert s[n - r..] + s[..n - r] == s;
    } else {
      RotateRightClosedForm(s, r - 1);
      var t := s[n - r + 1..] + s[..n - r + 1];
      assert t[n - 1] == s[n - r];
      assert t[..n - 1] == s[n - r + 1..] + s[..n - r];
      assert s[n - r..] == [s[n - r]] + s[n - r + 1..];
    }
  }

  lemma {:induction false} RotateRightAdd<T>(s: seq<T>, a: nat, b: nat)
    ensures RotateRight(s, a + b) == RotateRight(RotateRight(s, a), b)
  {
    if b > 0 && s != [] {
      RotateRightAdd(s, a, b - 1);
    }
  }

  /** `k` rotations of a list of length `k` give the list back, so rounds repeat every `k`. */
  lemma RotateRightPeriod<T>(s: seq<T>, r: nat)
    ensures RotateRight(s, r + |s|) == RotateRight(s, r)
  {
    RotateRightAdd(s, r, |s|);
    var t := RotateRight(s, r);
    RotateRightClosedForm(t, |t|);
    assert t[|t| - |t|..] + t[..|t| - |t|] == t;
  }

  /** Rotation only reorders `half1`. */
  lemma {:induction false} RotateRightPermutes<T>(s: seq<T>, r: nat)
    ensures multiset(RotateRight(s, r)) == multiset(s)
  {
    if r > 0 && s != [] {
      RotateRightPermutes(s, r - 1);
      var t := RotateRight(s, r - 1);
      assert t == t[..|t| - 1] + [t[|t| - 1]];
    }
  }

  /**
   * Slot `j` of round `i < k` before the shuffle: `half1` rotated right by
   * `i`, read at `j`, against `half2[j]`; `half1` is at home in odd rounds.
   */
  lemma CanonicalRoundAt(h1: seq<Team>, h2: seq<Team>, i: nat, j: nat)
    requires |h1| == |h2| && i < |h1| && j < |h1|
    ensures var k := |h1|;
      var t1 := if j < i then h1[k - i + j] else h1[j - i];
      && CanonicalRound(h1, h2, i)[j] == (if i % 2 == 1 then Match(t1, h2[j]) else Match(h2[j], t1))
  {
    RotateRightClosedForm(h1, i);
  }

  /** Round `i + k` pairs the same teams in the same slots as round `i`. */
  lemma CanonicalRoundPeriod(h1: seq<Team>, h2: seq<Team>, i: nat, j: nat)
    requires |h1| == |h2| && j < |h1|
    ensures var a, b := CanonicalRound(h1, h2, i)[j], CanonicalRound(h1, h2, i + |h1|)[j];
      {a.home, a.away} == {b.home, b.away}
  {
    RotateRightPeriod(h1, i);
  }

  // ---------------------------------------------------------------------------
  // Home and away sides of a round
  // ---------------------------------------------------------------------------

  function Homes(rd: Round): (hs: seq<Team>)
    ensures |hs| == |rd|
  {
    seq(|rd|, j requires 0 <= j < |rd| => rd[j].home)
  }

  function Aways(rd: Round): (aws: seq<Team>)
    ensures |aws| == |rd|
  {
    seq(|rd|, j requires 0 <= j < |rd| => rd[j].away)
  }

  /** Every team playing in `rd`, with multiplicity. */
  function Appearances(rd: Round): multiset<Team> {
    multiset(Homes(rd)) + multiset(Aways(rd))
  }

  lemma SidesConcat(a: Round, b: Round)
    ensures Homes(a + b) == Homes(a) + Homes(b)
    ensures Aways(a + b) == Aways(a) + Aways(b)
  {
  }

  /** Taking one match out of a round takes its two teams out of the sides. */
  lemma SidesRemove(b1: Round, x: Match, b2: Round)
    ensures multiset(Homes(b1 + [x] + b2)) == multiset(Homes(b1 + b2)) + multiset{x.home}
    ensures multiset(Aways(b1 + [x] + b2)) == multiset(Aways(b1 + b2)) + multiset{x.away}
  {
    SidesConcat(b1 + [x], b2);
    SidesConcat(b1, [x]);
    SidesConcat(b1, b2);
  }

  /** The sides of a round with one more match in front. */
  lemma SidesCons(x: Match, r: Round)
    ensures multiset(Homes([x] + r)) == multiset{x.home} + multiset(Homes(r))
    ensures multiset(Aways([x] + r)) == multiset{x.away} + multiset(Aways(r))
  {
    SidesConcat([x], r);
    assert Homes([x]) == [x.home];
    assert Aways([x]) == [x.away];
  }

  lemma UnionSwap(ma: multiset<Team>, mr: multiset<Team>, mc: multiset<Team>, mb: multiset<Team>, t: Team)
    requires ma == multiset{t} + mr && mr == mc && mb == mc + multiset{t}
    ensures ma == mb
  {
  }

  /** A shuffled round has the same home teams and the same away teams. */
  lemma {:induction false} SidesPermutation(a: Round, b: Round)
    requires multiset(a) == multiset(b)
    ensures multiset(Homes(a)) == multiset(Homes(b))
    ensures multiset(Aways(a)) == multiset(Aways(b))
    decreases |a|
  {
    if a == [] {
      assert |b| == |multiset(b)| == 0;
    } else {
      var x := a[0];
      assert x in multiset(b);
      var idx :| 0 <= idx < |b| && b[idx] == x;
      var b1, b2 := b[..idx], b[idx + 1..];
      assert b == b1 + [x] + b2;
      assert a == [x] + a[1..];
      assert multiset(b1 + b2) == multiset(b) - multiset{x} by {
        assert multiset(b) == multiset(b1) + multiset{x} + multiset(b2);
      }
      assert multiset(a[1..]) == multiset(a) - multiset{x};
      SidesPermutation(a[1..], b1 + b2);
      SidesCons(x, a[1..]);
      SidesRemove(b1, x, b2);
      UnionSwap(multiset(Homes(a)), multiset(Homes(a[1..])), multiset(Homes(b1 + b2)), multiset(Homes(b)), x.home);
      UnionSwap(multiset(Aways(a)), multiset(Aways(a[1..])), multiset(Aways(b1 + b2)), multiset(Aways(b)), x.away);
    }
  }

  lemma CanonicalSides(h1: seq<Team>, h2: seq<Team>, i: nat)
    requires |h1| == |h2|
    ensures Homes(CanonicalRound(h1, h2, i)) == if i % 2 == 1 then RotateRight(h1, i) else h2
    ensures Aways(CanonicalRound(h1, h2, i)) == if i % 2 == 1 then h2 else RotateRight(h1, i)
  {
  }

  // ---------------------------------------------------------------------------
  // One half-season
  // ---------------------------------------------------------------------------

  /**
   * Every round of a half-season has `k` matches and every team of the two
   * halves plays in it as often as it occurs in them: once, for distinct teams.
   */
  lemma RoundAppearances(rounds: seq<Round>, h1: seq<Team>, h2: seq<Team>, i: nat)
    requires |h1| == |h2| && IsHalfSeason(rounds, h1, h2) && i < |rounds|
    ensures |rounds[i]| == |h1|
    ensures Appearances(rounds[i]) == multiset(h1) + multiset(h2)
  {
    var c := CanonicalRound(h1, h2, i);
    assert |rounds[i]| == |multiset(rounds[i])| == |multiset(c)| == |c|;
    SidesPermutation(rounds[i], c);
    CanonicalSides(h1, h2, i);
    RotateRightPermutes(h1, i);
  }

  /** Every match of a half-season pairs a `half1` team with a `half2` team. */
  lemma CrossHalf(rounds: seq<Round>, h1: seq<Team>, h2: seq<Team>, i: nat, m: Match)
    requires |h1| == |h2| && IsHalfSeason(rounds, h1, h2) && i < |rounds|
    requires m in rounds[i]
    ensures (m.home in h1 && m.away in h2) || (m.home in h2 && m.away in h1)
  {
    var c := CanonicalRound(h1, h2, i);
    assert m in multiset(rounds[i]);
    assert m in c;
    var j :| 0 <= j < |c| && c[j] == m;
    var cur := RotateRight(h1, i);
    RotateRightPermutes(h1, i);
    assert cur[j] in multiset(cur);
  }

  /** With disjoint halves, two teams of the same half never meet. */
  lemma SameHalfNeverMeet(rounds: seq<Round>, h1: seq<Team>, h2: seq<Team>, i: nat, m: Match)
    requires |h1| == |h2| && IsHalfSeason(rounds, h1, h2) && i < |rounds|
    requires forall t :: t in h1 ==> t !in h2
    requires m in rounds[i]
    ensures !(m.home in h1 && m.away in h1)
    ensures !(m.home in h2 && m.away in h2)
  {
    CrossHalf(rounds, h1, h2, i, m);
  }

  /** The unordered pairs that meet in a round. */
  function Pairs(rd: Round): set<set<Team>> {
    set m | m in rd :: {m.home, m.away}
  }

  lemma PairsOfPermutation(a: Round, b: Round)
    requires multiset(a) == multiset(b)
    ensures Pairs(a) == Pairs(b)
  {
    forall m | m in a ensures m in b {
      assert m in multiset(a);
    }
    forall m | m in b ensures m in a {
      assert m in multiset(b);
    }
  }

  /**
   * The pairings of a half-season repeat: round `i + k` brings together the
   * same pairs as round `i`, so pairs of opposite halves meet twice in it.
   */
  lemma PairingsRepeat(rounds: seq<Round>, h1: seq<Team>, h2: seq<Team>, i: nat)
    requires |h1| == |h2| && IsHalfSeason(rounds, h1, h2) && i + |h1| < |rounds|
    ensures Pairs(rounds[i + |h1|]) == Pairs(rounds[i])
  {
    var k := |h1|;
    var a, b := CanonicalRound(h1, h2, i), CanonicalRound(h1, h2, i + k);
    PairsOfPermutation(rounds[i], a);
    PairsOfPermutation(rounds[i + k], b);
    forall p | p in Pairs(a) ensures p in Pairs(b) {
      var m :| m in a && p == {m.home, m.away};
      var j :| 0 <= j < |a| && a[j] == m;
      CanonicalRoundPeriod(h1, h2, i, j);
      assert b[j] in b;
    }
    forall p | p in Pairs(b) ensures p in Pairs(a) {
      var m :| m in b && p == {m.home, m.away};
      var j :| 0 <= j < |b| && b[j] == m;
      CanonicalRoundPeriod(h1, h2, i, j);
      assert a[j] in a;
    }
  }

  /**
   * Four teams split as A, B | C, D: the winter has three rounds, its first and
   * third rounds are the same two fixtures, and A never meets B.
   */
  lemma WinterOfFourTeams(rounds: seq<Round>)
    requires IsHalfSeason(rounds, ["A", "B"], ["C", "D"])
    ensures |rounds| == 3
    ensures multiset(rounds[0]) == multiset{Match("C", "A"), Match("D", "B")}
    ensures multiset(rounds[1]) == multiset{Match("B", "C"), Match("A", "D")}
    ensures multiset(rounds[2]) == multiset(rounds[0])
  {
    var h1: seq<Team> := ["A", "B"];
    assert RotateRight(h1, 1) == ["B", "A"];
    assert RotateRight(h1, 2) == h1;
    assert CanonicalRound(h1, ["C", "D"], 0) == [Match("C", "A"), Match("D", "B")];
    assert CanonicalRound(h1, ["C", "D"], 1) == [Match("B", "C"), Match("A", "D")];
    assert CanonicalRound(h1, ["C", "D"], 2) == [Match("C", "A"), Match("D", "B")];
  }

  // ---------------------------------------------------------------------------
  // Home and away counts over a season
  // ---------------------------------------------------------------------------

  /** How often `t` is the home team in `rounds`. */
  function HomeCount(rounds: seq<Round>, t: Team): nat {
    if rounds == [] then 0
    else HomeCount(rounds[..|rounds| - 1], t) + multiset(Homes(rounds[|rounds| - 1]))[t]
  }

  /** How often `t` is the away team in `rounds`. */
  function AwayCount(rounds: seq<Round>, t: Team): nat {
    if rounds == [] then 0
    else AwayCount(rounds[..|rounds| - 1], t) + multiset(Aways(rounds[|rounds| - 1]))[t]
  }

  /** How often `t` is at home and away in round `i` of a half-season. */
  lemma RoundSideCounts(rounds: seq<Round>, h1: seq<Team>, h2: seq<Team>, t: Team, i: nat)
    requires |h1| == |h2| && IsHalfSeason(rounds, h1, h2) && i < |rounds|
    ensures multiset(Homes(rounds[i]))[t] == if i % 2 == 1 then multiset(h1)[t] else multiset(h2)[t]
    ensures multiset(Aways(rounds[i]))[t] == if i % 2 == 1 then multiset(h2)[t] else multiset(h1)[t]
  {
    SidesPermutation(rounds[i], CanonicalRound(h1, h2, i));
    CanonicalSides(h1, h2, i);
    RotateRightPermutes(h1, i);
  }

  /** The sum over rounds `0 .. p - 1` of `even` in even rounds and `odd` in odd ones. */
  function Alternating(p: nat, even: nat, odd: nat): nat {
    if p == 0 then 0 else Alternating(p - 1, even, odd) + if (p - 1) % 2 == 0 then even else odd
  }

  /**
   * Over the `2k - 1` rounds of a half-season there are `k` even rounds and
   * `k - 1` odd ones.
   */
  lemma {:induction false} AlternatingHalfSeason(k: nat)
    ensures Alternating(HalfSeasonLength(k), 1, 0) == k
    ensures Alternating(HalfSeasonLength(k), 0, 1) == if k == 0 then 0 else k - 1
    ensures Alternating(HalfSeasonLength(k), 0, 0) == 0
  {
    if k > 1 {
      AlternatingHalfSeason(k - 1);
      var w := HalfSeasonLength(k);
      assert (w - 1) % 2 == 0 && (w - 2) % 2 == 1;
    }
  }

  /**
   * Counts over the first `p` rounds when the team's home and away
   * appearances per round depend only on whether the round is even or odd.
   */
  lemma {:induction false} AlternatingCounts(rounds: seq<Round>, t: Team, p: nat, c1: nat, c2: nat)
    requires p <= |rounds|
    requires forall i :: 0 <= i < p ==>
      multiset(Homes(rounds[i]))[t] == (if i % 2 == 1 then c1 else c2) &&
      multiset(Aways(rounds[i]))[t] == (if i % 2 == 1 then c2 else c1)
    ensures HomeCount(rounds[..p], t) == Alternating(p, c2, c1)
    ensures AwayCount(rounds[..p], t) == Alternating(p, c1, c2)
  {
    if p > 0 {
      var q := p - 1;
      AlternatingCounts(rounds, t, q, c1, c2);
      assert rounds[..p][..q] == rounds[..q];
      assert rounds[..p][q] == rounds[q];
    }
  }

  /**
   * Over a half-season a team is at home as often as it occurs in `half2` in
   * each even round and in `half1` in each odd round, and away the other way.
   */
  lemma HalfSeasonSideCounts(rounds: seq<Round>, h1: seq<Team>, h2: seq<Team>, t: Team)
    requires |h1| == |h2| && IsHalfSeason(rounds, h1, h2)
    ensures HomeCount(rounds, t) == Alternating(|rounds|, multiset(h2)[t], multiset(h1)[t])
    ensures AwayCount(rounds, t) == Alternating(|rounds|, multiset(h1)[t], multiset(h2)[t])
  {
    forall i | 0 <= i < |rounds|
      ensures multiset(Homes(rounds[i]))[t] == if i % 2 == 1 then multiset(h1)[t] else multiset(h2)[t]
      ensures multiset(Aways(rounds[i]))[t] == if i % 2 == 1 then multiset(h2)[t] else multiset(h1)[t]
    {
      RoundSideCounts(rounds, h1, h2, t, i);
    }
    AlternatingCounts(rounds, t, |rounds|, multiset(h1)[t], multiset(h2)[t]);
    assert rounds[..|rounds|] == rounds;
  }

  lemma EvenHalves(n: nat)
    requires n % 2 == 0
    ensures n == 2 * (n / 2)
  {
  }

  lemma {:induction false} CountsConcat(a: seq<Round>, b: seq<Round>, t: Team)
    ensures HomeCount(a + b, t) == HomeCount(a, t) + HomeCount(b, t)
    ensures AwayCount(a + b, t) == AwayCount(a, t) + AwayCount(b, t)
    decreases |b|
  {
    if b == [] {
      assert a + b == a;
    } else {
      var b0 := b[..|b| - 1];
      CountsConcat(a, b0, t);
      assert (a + b)[..|a + b| - 1] == a + b0;
    }
  }

  /** The mirrored summer swaps every team's home and away counts. */
  lemma {:induction false} MirroredCounts(w: seq<Round>, t: Team)
    ensures HomeCount(Mirrored(w), t) == AwayCount(w, t)
    ensures AwayCount(Mirrored(w), t) == HomeCount(w, t)
    decreases |w|
  {
    if w != [] {
      var n := |w|;
      MirroredCounts(w[..n - 1], t);
      assert Mirrored(w)[..n - 1] == Mirrored(w[..n - 1]);
      assert Homes(Mirrored(w)[n - 1]) == Aways(w[n - 1]);
      assert Aways(Mirrored(w)[n - 1]) == Homes(w[n - 1]);
    }
  }

  /** A team that occurs once in the list occurs once in exactly one of its two halves. */
  lemma OnceInOneHalf(teams: seq<Team>, k: nat, t: Team)
    requires k <= |teams| && multiset(teams)[t] == 1
    ensures multiset(teams[..k])[t] + multiset(teams[k..])[t] == 1
    ensures t in teams[..k] <==> multiset(teams[..k])[t] == 1
    ensures t in teams[k..] <==> multiset(teams[k..])[t] == 1
  {
    assert teams == teams[..k] + teams[k..];
  }

  /** A half-season and its mirror image, for a team of exactly one half. */
  lemma MirroredSeasonCounts(winter: seq<Round>, h1: seq<Team>, h2: seq<Team>, t: Team)
    requires |h1| == |h2| && IsHalfSeason(winter, h1, h2)
    requires multiset(h1)[t] + multiset(h2)[t] == 1
    ensures HomeCount(winter + Mirrored(winter), t) == |winter|
    ensures AwayCount(winter + Mirrored(winter), t) == |winter|
  {
    HalfSeasonSideCounts(winter, h1, h2, t);
    MirroredCounts(winter, t);
    CountsConcat(winter, Mirrored(winter), t);
    AlternatingHalfSeason(|h1|);
  }

  /**
   * A symmetric season of `n` distinct teams: every team is at home `n - 1`
   * times and away `n - 1` times.
   */
  lemma SymmetricSeasonBalance(season: seq<Round>, teams: seq<Team>, t: Team)
    requires IsSeason(season, teams, true) && multiset(teams)[t] == 1
    ensures HomeCount(season, t) == |teams| - 1
    ensures AwayCount(season, t) == |teams| - 1
  {
    var k := |teams| / 2;
    var w := HalfSeasonLength(k);
    EvenHalves(|teams|);
    OnceInOneHalf(teams, k, t);
    assert season == season[..w] + Mirrored(season[..w]);
    MirroredSeasonCounts(season[..w], teams[..k], teams[k..], t);
  }

  /**
   * A half-season followed by the one `generate_round_robin` makes from the
   * rotated `half1`, for a team of exactly one half.
   */
  lemma RegeneratedSeasonCounts(winter: seq<Round>, summer: seq<Round>, h1: seq<Team>, h2: seq<Team>, t: Team)
    requires |h1| == |h2| && IsHalfSeason(winter, h1, h2)
    requires IsHalfSeason(summer, RotateRight(h1, |winter|), h2)
    requires multiset(h1)[t] + multiset(h2)[t] == 1
    ensures multiset(h2)[t] == 1 ==> HomeCount(winter + summer, t) == 2 * |h1| && AwayCount(winter + summer, t) == 2 * |h1| - 2
    ensures multiset(h1)[t] == 1 ==> HomeCount(winter + summer, t) == 2 * |h1| - 2 && AwayCount(winter + summer, t) == 2 * |h1|
  {
    RotateRightPermutes(h1, |winter|);
    HalfSeasonSideCounts(winter, h1, h2, t);
    HalfSeasonSideCounts(summer, RotateRight(h1, |winter|), h2, t);
    CountsConcat(winter, summer, t);
    AlternatingHalfSeason(|h1|);
  }

  /**
   * A non-symmetric season of `n` distinct teams is not balanced: a team of
   * the second half is at home `n` times and away `n - 2` times, a team of
   * the first half the other way round.
   */
  lemma NonSymmetricSeasonCounts(season: seq<Round>, teams: seq<Team>, t: Team)
    requires IsSeason(season, teams, false) && multiset(teams)[t] == 1
    ensures t in teams[|teams| / 2..] ==> HomeCount(season, t) == |teams| && AwayCount(season, t) == |teams| - 2
    ensures t in teams[..|teams| / 2] ==> HomeCount(season, t) == |teams| - 2 && AwayCount(season, t) == |teams|
  {
    var k := |teams| / 2;
    var w := HalfSeasonLength(k);
    EvenHalves(|teams|);
    OnceInOneHalf(teams, k, t);
    assert season == season[..w] + season[w..];
    RegeneratedSeasonCounts(season[..w], season[w..], teams[..k], teams[k..], t);
  }

  /** A team that is not in the list never plays, in either mode. */
  lemma AbsentTeamNeverPlays(season: seq<Round>, teams: seq<Team>, symmetric: bool, t: Team)
    requires IsSeason(season, teams, symmetric) && t !in teams
    ensures HomeCount(season, t) == 0 && AwayCount(season, t) == 0
  {
    var k := |teams| / 2;
    var w := HalfSeasonLength(k);
    var h1, h2 := teams[..k], teams[k..];
    assert teams == h1 + h2;
    assert multiset(h1)[t] == 0 && multiset(h2)[t] == 0;
    AlternatingHalfSeason(k);
    assert season == season[..w] + season[w..];
    CountsConcat(season[..w], season[w..], t);
    HalfSeasonSideCounts(season[..w], h1, h2, t);
    if symmetric {
      MirroredCounts(season[..w], t);
    } else {
      RotateRightPermutes(h1, w);
      HalfSeasonSideCounts(season[w..], RotateRight(h1, w), h2, t);
    }
  }

  /** A season of `n` teams has `2 (n - 1)` rounds, and none without teams. */
  lemma SeasonLength(season: seq<Round>, teams: seq<Team>, symmetric: bool)
    requires IsSeason(season, teams, symmetric)
    ensures |season| == if |teams| == 0 then 0 else 2 * (|teams| - 1)
  {
    EvenHalves(|teams|);
  }

  /** Four distinct teams in symmetric mode: six rounds, three home and three away matches each. */
  lemma FourTeamSymmetricSeason(season: seq<Round>, teams: seq<Team>, t: Team)
    requires IsSeason(season, teams, true) && |teams| == 4 && multiset(teams)[t] == 1
    ensures |season| == 6
    ensures HomeCount(season, t) == 3 && AwayCount(season, t) == 3
  {
    SeasonLength(season, teams, true);
    SymmetricSeasonBalance(season, teams, t);
  }
}
