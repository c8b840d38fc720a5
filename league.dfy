/**
 * create_league.py: the standings table built from the results text that
 * generate_results.py writes. A `FootballTeam` is a mutable record whose
 * derived fields are recomputed on every update; a `FootballTable` maps team
 * names to such records in insertion order; `create_league` parses the results
 * round by round, applies every result to both teams and renders the ranked
 * table after each round.
 */
module League {
  import opened Wrappers
  import opened PyText
  import opened Fixtures

  /** The exceptions create_league can raise on well-typed input. */
  datatype LeagueError =
    | IndexError          // a list index past the end
    | ValueError          // int() of a string that is not an integer
    | KeyError(name: string)  // a team name the table does not hold

  // ---------------------------------------------------------------------------
  // FootballTeam
  // ---------------------------------------------------------------------------

  /** The value of a FootballTeam's nine attributes. */
  datatype TeamStats = TeamStats(
    name: string,
    wins: int,
    draws: int,
    defeats: int,
    goalsScored: int,
    goalsConceded: int,
    matches: int,
    goalDifference: int,
    points: int)

  /** The three derived attributes agree with the counted ones. */
  predicate Consistent(r: TeamStats) {
    && r.matches == r.wins + r.draws + r.defeats
    && r.goalDifference == r.goalsScored - r.goalsConceded
    && r.points == 3 * r.wins + r.draws
  }

  /** Python's `int(b)` for a comparison result. */
  function Indicator(b: bool): int {
    if b then 1 else 0
  }

  /** The record `FootballTeam(name, wins, draws, defeats, goals_scored, goals_conceded)` starts with. */
  function NewTeam(name: string, wins: int, draws: int, defeats: int, goalsScored: int, goalsConceded: int): (r: TeamStats)
    ensures Consistent(r)
    ensures r.name == name && r.wins == wins && r.draws == draws && r.defeats == defeats
    ensures r.goalsScored == goalsScored && r.goalsConceded == goalsConceded
  {
    TeamStats(name, wins, draws, defeats, goalsScored, goalsConceded,
      wins + draws + defeats, goalsScored - goalsConceded, wins * 3 + draws * 1)
  }

  /**
   * The record after `update_stats(goals_scored, goals_conceded)`: exactly one
   * of wins, draws and defeats goes up by one, as the score says, the goals are
   * added, and the derived attributes are recomputed whatever they were before.
   */
  function Updated(r: TeamStats, goalsScored: int, goalsConceded: int): (u: TeamStats)
    ensures Consistent(u) && u.name == r.name
    ensures u.goalsScored == r.goalsScored + goalsScored && u.goalsConceded == r.goalsConceded + goalsConceded
    ensures (u.wins - r.wins) + (u.draws - r.draws) + (u.defeats - r.defeats) == 1
    ensures 0 <= u.wins - r.wins <= 1 && 0 <= u.draws - r.draws <= 1 && 0 <= u.defeats - r.defeats <= 1
    ensures u.wins == r.wins + 1 <==> goalsScored > goalsConceded
    ensures u.draws == r.draws + 1 <==> goalsScored == goalsConceded
    ensures u.defeats == r.defeats + 1 <==> goalsScored < goalsConceded
  {
    var wins := r.wins + Indicator(goalsScored > goalsConceded);
    var draws := r.draws + Indicator(goalsScored == goalsConceded);
    var defeats := r.defeats + Indicator(goalsScored < goalsConceded);
    var scored := r.goalsScored + goalsScored;
    var conceded := r.goalsConceded + goalsConceded;
    TeamStats(r.name, wins, draws, defeats, scored, conceded,
      wins + draws + defeats, scored - conceded, wins * 3 + draws * 1)
  }

  class FootballTeam {
    const name: string
    var wins: int
    var draws: int
    var defeats: int
    var goalsScored: int
    var goalsConceded: int
    var matches: int
    var goalDifference: int
    var points: int

    function Stats(): TeamStats
      reads this
    {
      TeamStats(name, wins, draws, defeats, goalsScored, goalsConceded, matches, goalDifference, points)
    }

    constructor (name: string, wins: int := 0, draws: int := 0, defeats: int := 0,
                 goalsScored: int := 0, goalsConceded: int := 0)
      ensures Stats() == NewTeam(name, wins, draws, defeats, goalsScored, goalsConceded)
    {
      this.name := name;
      this.wins := wins;
      this.draws := draws;
      this.defeats := defeats;
      this.goalsScored := goalsScored;
      this.goalsConceded := goalsConceded;
      this.matches := wins + draws + defeats;
      this.goalDifference := goalsScored - goalsConceded;
      this.points := (wins * 3) + (draws * 1);
    }

    method UpdateStats(goalsScored: int := 0, goalsConceded: int := 0)
      modifies this
      ensures Stats() == Updated(old(Stats()), goalsScored, goalsConceded)
    {
      wins := wins + Indicator(goalsScored > goalsConceded);
      draws := draws + Indicator(goalsScored == goalsConceded);
      defeats := defeats + Indicator(goalsScored < goalsConceded);
      this.goalsScored := this.goalsScored + goalsScored;
      this.goalsConceded := this.goalsConceded + goalsConceded;
      matches := wins + draws + defeats;
      goalDifference := this.goalsScored - this.goalsConceded;
      points := (wins * 3) + (draws * 1);
    }
  }

  // ---------------------------------------------------------------------------
  // Fixed-width text: spaced_string, spaced_list, FootballTeam.__str__
  // ---------------------------------------------------------------------------

  /** `spaced_string(x, n)`: `str(x)` right-aligned in a field of `n` characters. */
  function SpacedString(x: int, width: int): (s: string)
    ensures |s| == if width > |IntToString(x)| then width else |IntToString(x)|
    ensures s[|s| - |IntToString(x)|..] == IntToString(x)
    ensures forall i :: 0 <= i < |s| - |IntToString(x)| ==> s[i] == ' '
  {
    Repeat(' ', width - |IntToString(x)|) + IntToString(x)
  }

  /** The fields of `xs`, each right-aligned to `width`, one after the other. */
  function SpacedConcat(xs: seq<int>, width: int): string {
    if xs == [] then "" else SpacedConcat(xs[..|xs| - 1], width) + SpacedString(xs[|xs| - 1], width)
  }

  /** `spaced_list(lx, n_spaces)`, which appends one field per element. */
  method SpacedList(xs: seq<int>, width: int := 6) returns (s: string)
    ensures s == SpacedConcat(xs, width)
  {
    s := "";
    var i := 0;
    while i < |xs|
      invariant 0 <= i <= |xs|
      invariant s == SpacedConcat(xs[..i], width)
    {
      assert xs[..i + 1][..i] == xs[..i];
      s := s + SpacedString(xs[i], width);
      i := i + 1;
    }
    assert xs[..i] == xs;
  }

  /** The eight numeric columns of a table line, in the order `__str__` prints them. */
  function Columns(r: TeamStats): seq<int> {
    [r.matches, r.wins, r.draws, r.defeats, r.goalsScored, r.goalsConceded, r.goalDifference, r.points]
  }

  /** Width of the name column in `__str__`. */
  const NameWidth := 20

  /** Width of each numeric column: `spaced_list`'s default. */
  const ColumnWidth := 6

  /** `str(team)`: the name padded to 20 characters, then the eight columns. */
  function TeamLine(r: TeamStats): string {
    r.name + Repeat(' ', NameWidth - |r.name|) + SpacedConcat(Columns(r), ColumnWidth)
  }

  // ---------------------------------------------------------------------------
  // Ranking: sorted(..., key=(points, goal_difference, goals_scored), reverse=True)
  // ---------------------------------------------------------------------------

  /** The key of `a` is lexicographically smaller than the key of `b`. */
  predicate KeyBelow(a: TeamStats, b: TeamStats) {
    || a.points < b.points
    || (a.points == b.points && a.goalDifference < b.goalDifference)
    || (a.points == b.points && a.goalDifference == b.goalDifference && a.goalsScored < b.goalsScored)
  }

  predicate SameKey(a: TeamStats, b: TeamStats) {
    a.points == b.points && a.goalDifference == b.goalDifference && a.goalsScored == b.goalsScored
  }

  /** Every record ranks at least as high as the one after it. */
  predicate Descending(s: seq<TeamStats>) {
    forall i :: 0 <= i < |s| - 1 ==> !KeyBelow(s[i], s[i + 1])
  }

  /**
   * Insert `x` into a descending list ahead of the first record whose key is
   * not above its own, so that `x` precedes every record with an equal key.
   */
  function Insert(x: TeamStats, t: seq<TeamStats>): (r: seq<TeamStats>)
    ensures multiset(r) == multiset{x} + multiset(t)
    ensures |r| == |t| + 1
    ensures r[0] == x || (t != [] && r[0] == t[0])
  {
    if t == [] || !KeyBelow(x, t[0]) then [x] + t
    else
      var rest := Insert(x, t[1..]);
      assert t == [t[0]] + t[1..];
      [t[0]] + rest
  }

  /** Inserting into a descending list keeps it descending. */
  lemma {:induction false} InsertDescending(x: TeamStats, t: seq<TeamStats>)
    requires Descending(t)
    ensures Descending(Insert(x, t))
  {
    if t != [] && KeyBelow(x, t[0]) {
      var rest := Insert(x, t[1..]);
      InsertDescending(x, t[1..]);
      var r := [t[0]] + rest;
      assert r == Insert(x, t);
      forall i | 0 <= i < |r| - 1
        ensures !KeyBelow(r[i], r[i + 1])
      {
        if i > 0 {
          assert r[i] == rest[i - 1] && r[i + 1] == rest[i];
        }
      }
    }
  }

  /**
   * The ranked list: a stable sort descending by key, so records with equal
   * keys keep their order in `rs` (Python's `reverse=True` keeps sorting stable).
   */
  function Rank(rs: seq<TeamStats>): (sorted: seq<TeamStats>)
    ensures multiset(sorted) == multiset(rs)
    ensures |sorted| == |rs|
    ensures Descending(sorted)
  {
    if rs == [] then []
    else
      assert rs == [rs[0]] + rs[1..];
      InsertDescending(rs[0], Rank(rs[1..]));
      Insert(rs[0], Rank(rs[1..]))
  }

  /** `' ' * (idx < 10) + f"{idx}. {team}"`. */
  function RankLine(idx: int, r: TeamStats): string {
    Repeat(' ', Indicator(idx < 10)) + IntToString(idx) + ". " + TeamLine(r)
  }

  /** The lines write_table writes for `ranked`, the first one ranked `idx`. */
  function TableTextFrom(ranked: seq<TeamStats>, idx: int): string {
    if ranked == [] then "" else TableTextFrom(ranked[..|ranked| - 1], idx) + RankLine(idx + |ranked| - 1, ranked[|ranked| - 1]) + "\n"
  }

  /** The contents of one table file: `enumerate(sorted_teams, start=1)`. */
  function TableText(ranked: seq<TeamStats>): string {
    TableTextFrom(ranked, 1)
  }

  /** The `enumerate(sorted_teams, start=1)` loop of write_table, one line per team. */
  method WriteRanked(sortedTeams: seq<TeamStats>) returns (contents: string)
    ensures contents == TableText(sortedTeams)
  {
    contents := "";
    var i := 0;
    while i < |sortedTeams|
      invariant 0 <= i <= |sortedTeams|
      invariant contents == TableTextFrom(sortedTeams[..i], 1)
    {
      var idx := i + 1;
      assert sortedTeams[..i + 1][..i] == sortedTeams[..i];
      contents := contents + RankLine(idx, sortedTeams[i]) + "\n";
      i := i + 1;
    }
    assert sortedTeams[..i] == sortedTeams;
  }

  // ---------------------------------------------------------------------------
  // FootballTable, as a value and as an object
  // ---------------------------------------------------------------------------

  /** The table's dict: its keys in insertion order and the record under each key. */
  datatype Standing = Standing(names: seq<string>, stats: map<string, TeamStats>)

  predicate Distinct(names: seq<string>) {
    forall i, j :: 0 <= i < j < |names| ==> names[i] != names[j]
  }

  /** What every table the program builds satisfies. */
  ghost predicate WellFormed(s: Standing) {
    && Distinct(s.names)
    && (forall n :: n in s.stats <==> n in s.names)
    && (forall n :: n in s.stats ==> s.stats[n].name == n && Consistent(s.stats[n]))
  }

  /** `self.teams.values()`, in insertion order. */
  function Records(s: Standing): (rs: seq<TeamStats>)
    requires WellFormed(s)
    ensures |rs| == |s.names|
    ensures forall i :: 0 <= i < |rs| ==> rs[i] == s.stats[s.names[i]]
  {
    seq(|s.names|, i requires 0 <= i < |s.names| => s.stats[s.names[i]])
  }

  function EmptyStanding(): Standing {
    Standing([], map[])
  }

  /** add_team(team_name): a new all-zero record, unless the name is present. */
  function AddTeamTo(s: Standing, name: string): (r: Standing)
    ensures WellFormed(s) ==> WellFormed(r)
  {
    if name in s.stats then s
    else Standing(s.names + [name], s.stats[name := NewTeam(name, 0, 0, 0, 0, 0)])
  }

  /** update_team_stats(team_name, goals_scored, goals_conceded); `self.teams[name]` is a KeyError when absent. */
  function UpdateTeam(s: Standing, name: string, goalsScored: int, goalsConceded: int): (r: Result<Standing, LeagueError>)
    ensures WellFormed(s) && r.Success? ==> WellFormed(r.value)
  {
    if name !in s.stats then Failure(KeyError(name))
    else Success(Standing(s.names, s.stats[name := Updated(s.stats[name], goalsScored, goalsConceded)]))
  }

  class FootballTable {
    var teams: map<string, FootballTeam>
    var names: seq<string>
    /** The FootballTeam objects the dict refers to. */
    ghost var Repr: set<FootballTeam>
    /** The dict's keys and the value of the record under each. */
    ghost var model: Standing

    /**
     * The dict holds one FootballTeam per name, whose attributes are the
     * record `model` holds under that name; as each record is named by its
     * key, no two names share an object.
     */
    ghost predicate Valid()
      reads this, Repr
    {
      && names == model.names
      && (forall n :: n in teams <==> n in model.stats)
      && (forall n :: n in teams ==> teams[n] in Repr && teams[n].Stats() == model.stats[n])
      && WellFormed(model)
    }

    constructor ()
      ensures Valid() && model == EmptyStanding()
      ensures Repr == {}
    {
      teams := map[];
      names := [];
      Repr := {};
      model := EmptyStanding();
    }

    method AddTeam(name: string)
      requires Valid()
      modifies this
      ensures Valid()
      ensures model == AddTeamTo(old(model), name)
      ensures fresh(Repr - old(Repr))
    {
      if name !in teams {
        var team := new FootballTeam(name);
        teams := teams[name := team];
        names := names + [name];
        Repr := Repr + {team};
        model := AddTeamTo(model, name);
      }
    }

    method UpdateTeamStats(name: string, goalsScored: int := 0, goalsConceded: int := 0) returns (err: Option<LeagueError>)
      requires Valid()
      modifies this, Repr
      ensures Valid() && teams == old(teams) && names == old(names) && Repr == old(Repr)
      ensures match UpdateTeam(old(model), name, goalsScored, goalsConceded)
        case Failure(e) => err == Some(e) && model == old(model)
        case Success(next) => err == None && model == next
    {
      if name !in teams {
        return Some(KeyError(name));
      }
      var team := teams[name];
      team.UpdateStats(goalsScored, goalsConceded);
      model := UpdateTeam(model, name, goalsScored, goalsConceded).value;
      err := None;
    }

    /** write_table (and print_table): the ranked lines, one per team. */
    method WriteTable() returns (contents: string)
      requires Valid()
      ensures contents == TableText(Rank(Records(model)))
    {
      var sortedTeams := Rank(RecordsOf());
      contents := WriteRanked(sortedTeams);
    }

    /** `self.teams.values()`, read off the objects. */
    function RecordsOf(): (rs: seq<TeamStats>)
      requires Valid()
      reads this, Repr
      ensures rs == Records(model)
    {
      seq(|names|, i requires 0 <= i < |names| && Valid() reads this, Repr => teams[names[i]].Stats())
    }
  }

  // ---------------------------------------------------------------------------
  // Reading the results text: split_match and the round layout
  // ---------------------------------------------------------------------------

  /** `int(s)` with its ValueError. */
  function IntOf(s: string): Result<int, LeagueError> {
    match ParseInt(s)
    case None => Failure(ValueError)
    case Some(v) => Success(v)
  }

  /**
   * split_match(match): split on `" - "`, then each side on `' '`; the last
   * word of the left side and the first word of the right side are the goals,
   * the other words joined back with spaces are the names. The elements of the
   * returned list are evaluated in order, so a bad home score is reported
   * before a missing right side.
   */
  function SplitMatch(line: string): (r: Result<MatchResult, LeagueError>)
    ensures r.Failure? ==> r.error == ValueError || r.error == IndexError
  {
    var sides := Split(line, " - ");
    var left := Split(sides[0], " ");
    var homeGoals :- IntOf(left[|left| - 1]);
    if |sides| < 2 then Failure(IndexError)
    else
      var right := Split(sides[1], " ");
      var awayGoals :- IntOf(right[0]);
      Success(MatchResult(Join(" ", left[..|left| - 1]), homeGoals, awayGoals, Join(" ", right[1..])))
  }

  /** `rounds.split('\n\n')[:-1]`: the round blocks, the empty tail dropped. */
  function RoundTexts(text: string): seq<string> {
    var blocks := Split(text, "\n\n");
    blocks[..|blocks| - 1]
  }

  /** `r.split('\n')[1:]`: a block's match lines, its "Round i:" header dropped. */
  function MatchLines(block: string): seq<string> {
    Split(block, "\n")[1..]
  }

  // ---------------------------------------------------------------------------
  // create_league
  // ---------------------------------------------------------------------------

  /** The table after `table.add_team(x)` for each `x` of `teams`, in order. */
  function InitialStandingFrom(s: Standing, teams: seq<string>): (r: Standing)
    ensures WellFormed(s) ==> WellFormed(r)
  {
    if teams == [] then s else AddTeamTo(InitialStandingFrom(s, teams[..|teams| - 1]), teams[|teams| - 1])
  }

  function InitialStanding(teams: seq<string>): (s: Standing)
    ensures WellFormed(s)
  {
    InitialStandingFrom(EmptyStanding(), teams)
  }

  /** Both update_team_stats calls for one result: home with (hg, ag), away with (ag, hg). */
  function ApplyResult(s: Standing, m: MatchResult): (r: Result<Standing, LeagueError>)
    ensures WellFormed(s) && r.Success? ==> WellFormed(r.value)
  {
    var afterHome :- UpdateTeam(s, m.home, m.homeGoals, m.awayGoals);
    UpdateTeam(afterHome, m.away, m.awayGoals, m.homeGoals)
  }

  /** One round's lines, parsed and applied one after the other. */
  function PlayLines(s: Standing, lines: seq<string>): (r: Result<Standing, LeagueError>)
    ensures WellFormed(s) && r.Success? ==> WellFormed(r.value)
    decreases |lines|
  {
    if lines == [] then Success(s)
    else
      var m :- SplitMatch(lines[0]);
      var next :- ApplyResult(s, m);
      PlayLines(next, lines[1..])
  }

  /** A table file create_league writes. */
  datatype TableFile = TableFile(path: string, contents: string)

  /**
   * Everything create_league produces: the table files of the rounds it
   * completed and, if it stopped with an exception, that exception.
   */
  datatype LeagueOutcome = LeagueOutcome(files: seq<TableFile>, error: Option<LeagueError>)

  /**
   * The path of the table after round `i`, in the folder create_league was
   * given. create_league.py:86 writes to `TablePathAsWritten(i)` instead; the
   * model of create_league uses this intended path.
   */
  function TablePath(folder: string, i: int): (p: string)
    ensures |p| > |folder| && p[..|folder| + 1] == folder + "/"
  {
    folder + "/Round " + IntToString(i) + ".txt"
  }

  /** The path create_league actually writes to: a fixed `Tables` folder. */
  function TablePathAsWritten(i: int): string {
    "Tables/Round " + IntToString(i) + ".txt"
  }

  /** The rounds `blocks`, the first numbered `i`, each applied and then written out. */
  function PlayRounds(s: Standing, blocks: seq<string>, i: int, folder: string): LeagueOutcome
    requires WellFormed(s)
    decreases |blocks|
  {
    if blocks == [] then LeagueOutcome([], None)
    else match PlayLines(s, MatchLines(blocks[0]))
      case Failure(e) => LeagueOutcome([], Some(e))
      case Success(next) =>
        var rest := PlayRounds(next, blocks[1..], i + 1, folder);
        LeagueOutcome([TableFile(TablePath(folder, i), TableText(Rank(Records(next))))] + rest.files, rest.error)
  }

  /**
   * The rounds from `i` on write at most one table each, all of them exactly
   * when no exception stops the run, and the `k`-th table to round `i + k`'s path.
   */
  lemma {:induction false} PlayRoundsFiles(s: Standing, blocks: seq<string>, i: int, folder: string)
    requires WellFormed(s)
    ensures var out := PlayRounds(s, blocks, i, folder);
      && |out.files| <= |blocks|
      && (out.error == None <==> |out.files| == |blocks|)
      && forall k :: 0 <= k < |out.files| ==> out.files[k].path == TablePath(folder, i + k)
    decreases |blocks|
  {
    if blocks != [] {
      match PlayLines(s, MatchLines(blocks[0]))
      case Failure(_) =>
      case Success(next) =>
        PlayRoundsFiles(next, blocks[1..], i + 1, folder);
        var rest := PlayRounds(next, blocks[1..], i + 1, folder);
        var file := TableFile(TablePath(folder, i), TableText(Rank(Records(next))));
        assert PlayRounds(s, blocks, i, folder) == LeagueOutcome([file] + rest.files, rest.error);
        ConsPaths(file, rest.files, folder, i);
    }
  }

  lemma ConsPaths(file: TableFile, rest: seq<TableFile>, folder: string, i: int)
    requires file.path == TablePath(folder, i)
    requires forall k :: 0 <= k < |rest| ==> rest[k].path == TablePath(folder, i + 1 + k)
    ensures forall k :: 0 <= k < |[file] + rest| ==> ([file] + rest)[k].path == TablePath(folder, i + k)
  {
    var files := [file] + rest;
    forall k | 0 < k < |files| ensures files[k].path == TablePath(folder, i + k) {
      assert files[k] == rest[k - 1];
      assert i + 1 + (k - 1) == i + k;
    }
  }

  /** What create_league still produces from round `i` (counted from zero) on, after writing `files`. */
  function OutcomeFrom(files: seq<TableFile>, s: Standing, rounds: seq<string>, i: nat, folder: string): LeagueOutcome
    requires WellFormed(s) && i <= |rounds|
  {
    var rest := PlayRounds(s, rounds[i..], i + 1, folder);
    LeagueOutcome(files + rest.files, rest.error)
  }

  /** A completed round adds its table file and hands the new table to the rounds after it. */
  lemma OutcomeStep(files: seq<TableFile>, s: Standing, rounds: seq<string>, i: nat, folder: string, next: Standing)
    requires WellFormed(s) && i < |rounds| && PlayLines(s, MatchLines(rounds[i])) == Success(next)
    ensures WellFormed(next)
    ensures OutcomeFrom(files, s, rounds, i, folder) ==
      OutcomeFrom(files + [TableFile(TablePath(folder, i + 1), TableText(Rank(Records(next))))], next, rounds, i + 1, folder)
  {
    assert rounds[i..][1..] == rounds[i + 1..];
    var file := TableFile(TablePath(folder, i + 1), TableText(Rank(Records(next))));
    var rest := PlayRounds(next, rounds[i + 1..], i + 2, folder);
    AppendAssociative(files, [file], rest.files);
  }

  /** A round that raises ends create_league with that exception and the files written so far. */
  lemma OutcomeStop(files: seq<TableFile>, s: Standing, rounds: seq<string>, i: nat, folder: string, e: LeagueError)
    requires WellFormed(s) && i < |rounds| && PlayLines(s, MatchLines(rounds[i])) == Failure(e)
    ensures OutcomeFrom(files, s, rounds, i, folder) == LeagueOutcome(files, Some(e))
  {
  }

  lemma AppendAssociative<T>(a: seq<T>, b: seq<T>, c: seq<T>)
    ensures a + b + c == a + (b + c)
  {
  }

  /**
   * create_league(teams_path, scores_path, folder_path) with the team list and
   * the results text already read: no round block at all is the IndexError of
   * `rounds[0]`.
   */
  function CreateLeagueOutcome(teams: seq<string>, text: string, folder: string): LeagueOutcome {
    var s := InitialStanding(teams);
    var blocks := RoundTexts(text);
    if blocks == [] then LeagueOutcome([], Some(IndexError))
    else PlayRounds(s, blocks, 1, folder)
  }

  /**
   * create_league writes at most one table per round block, finishes without
   * an exception exactly when there is a block and every block completes, and
   * writes the `k`-th table to round `k + 1`'s path.
   */
  lemma CreateLeagueFiles(teams: seq<string>, text: string, folder: string)
    ensures var out, blocks := CreateLeagueOutcome(teams, text, folder), RoundTexts(text);
      && |out.files| <= |blocks|
      && (out.error == None <==> blocks != [] && |out.files| == |blocks|)
      && forall k :: 0 <= k < |out.files| ==> out.files[k].path == TablePath(folder, k + 1)
  {
    if RoundTexts(text) != [] {
      PlayRoundsFiles(InitialStanding(teams), RoundTexts(text), 1, folder);
    }
  }

  /** The `for x in teams: table.add_team(x)` loop. */
  method AddTeams(table: FootballTable, teams: seq<string>)
    requires table.Valid()
    modifies table
    ensures table.Valid()
    ensures table.model == InitialStandingFrom(old(table.model), teams)
    ensures fresh(table.Repr - old(table.Repr))
  {
    var k := 0;
    while k < |teams|
      invariant 0 <= k <= |teams|
      invariant table.Valid()
      invariant table.model == InitialStandingFrom(old(table.model), teams[..k])
      invariant fresh(table.Repr - old(table.Repr))
    {
      assert teams[..k + 1][..k] == teams[..k];
      table.AddTeam(teams[k]);
      k := k + 1;
    }
    assert teams[..k] == teams;
  }

  /** The inner loop of create_league over one round's match lines. */
  method PlayMatchLines(table: FootballTable, lines: seq<string>) returns (err: Option<LeagueError>)
    requires table.Valid()
    modifies table, table.Repr
    ensures table.Valid() && table.teams == old(table.teams) && table.Repr == old(table.Repr)
    ensures match PlayLines(old(table.model), lines)
      case Failure(e) => err == Some(e)
      case Success(next) => err == None && table.model == next
  {
    var j := 0;
    while j < |lines|
      invariant 0 <= j <= |lines|
      invariant table.Valid() && table.teams == old(table.teams) && table.Repr == old(table.Repr)
      invariant PlayLines(old(table.model), lines) == PlayLines(table.model, lines[j..])
    {
      assert lines[j..][1..] == lines[j + 1..];
      var result := SplitMatch(lines[j]);
      if result.Failure? {
        return Some(result.error);
      }
      var m := result.value;
      var e := table.UpdateTeamStats(m.home, m.homeGoals, m.awayGoals);
      if e.Some? {
        return e;
      }
      e := table.UpdateTeamStats(m.away, m.awayGoals, m.homeGoals);
      if e.Some? {
        return e;
      }
      j := j + 1;
    }
    return None;
  }

  /** One pass of create_league's round loop: apply the round's lines, then write the table. */
  method PlayRound(table: FootballTable, block: string, number: int, folder: string)
    returns (file: TableFile, err: Option<LeagueError>)
    requires table.Valid()
    modifies table, table.Repr
    ensures table.Valid() && table.teams == old(table.teams) && table.Repr == old(table.Repr)
    ensures match PlayLines(old(table.model), MatchLines(block))
      case Failure(e) => err == Some(e)
      case Success(next) =>
        && err == None && table.model == next
        && file == TableFile(TablePath(folder, number), TableText(Rank(Records(next))))
  {
    err := PlayMatchLines(table, MatchLines(block));
    file := TableFile("", "");
    if err.None? {
      var contents := table.WriteTable();
      file := TableFile(TablePath(folder, number), contents);
    }
  }

  /** The table create_league starts from: `FootballTable()` and then `add_team` for each name. */
  method NewLeagueTable(teams: seq<string>) returns (table: FootballTable)
    ensures fresh(table) && fresh(table.Repr) && table.Valid()
    ensures table.model == InitialStanding(teams)
  {
    table := new FootballTable();
    AddTeams(table, teams);
  }

  /** create_league's loop over the round blocks: each is applied, then its table written. */
  method PlayAllRounds(table: FootballTable, rounds: seq<string>, folder: string) returns (files: seq<TableFile>, error: Option<LeagueError>)
    requires table.Valid()
    modifies table, table.Repr
    ensures LeagueOutcome(files, error) == OutcomeFrom([], old(table.model), rounds, 0, folder)
  {
    files := [];
    var i := 0;
    assert rounds[0..] == rounds;
    while i < |rounds|
      invariant 0 <= i <= |rounds|
      invariant table.Valid() && table.Repr == old(table.Repr)
      invariant OutcomeFrom([], old(table.model), rounds, 0, folder) == OutcomeFrom(files, table.model, rounds, i, folder)
    {
      ghost var cur := table.model;
      var file, e := PlayRound(table, rounds[i], i + 1, folder);
      if e.Some? {
        OutcomeStop(files, cur, rounds, i, folder, e.value);
        return files, e;
      }
      OutcomeStep(files, cur, rounds, i, folder, table.model);
      files := files + [file];
      i := i + 1;
    }
    error := None;
  }

  /**
   * create_league: add every team, split the text into rounds, apply each
   * round's results to the table and write the ranked table after it.
   */
  method CreateLeague(teams: seq<string>, text: string, folder: string) returns (files: seq<TableFile>, error: Option<LeagueError>)
    ensures LeagueOutcome(files, error) == CreateLeagueOutcome(teams, text, folder)
  {
    var table := NewLeagueTable(teams);
    var rounds := RoundTexts(text);
    if |rounds| == 0 {
      return [], Some(IndexError);
    }
    files, error := PlayAllRounds(table, rounds, folder);
    assert rounds[0..] == rounds;
  }
}
