# LeagueSim in Dafny

LeagueSim simulates a football league with two scripts:

- **generate_results.py** draws a season's fixtures, gives every match a score, and saves all results as a text file.
  - `generate_fixtures` shuffles the team list in place and splits it into two halves.
  - `generate_round_robin` builds a half-season: in round `i` it pairs `half1[j]` with `half2[j]`, puts `half1` at home in odd rounds, shuffles the round, and rotates `half1` one step to the right.
  - The summer half either mirrors the winter (symmetric mode) or is a second half-season built from the rotated `half1`.
  - `add_scores` turns the schedule into result rows `[home, home goals, away goals, away]`.
  - `save_results` writes one block per round: a `Round i:` header, one line per match, and an empty line.
- **create_league.py** reads the results back and builds the table.
  - It splits the text into round blocks and each block into match lines, and parses each line with `split_match`.
  - It updates both teams' `FootballTeam` records in a `FootballTable`.
  - After every round it writes the table, sorted by points, then goal difference, then goals scored.

## How the model is built

The model follows the scripts file by file:

- `wrappers.dfy`: `Option` and `Result`.
- `pytext.dfy`: the Python string built-ins both scripts rely on, over `seq<char>`. These are `str(int)`, `int(str)`, `' ' * k`, `str.split(sep)` and `sep.join`.
- `fixtures.dfy`: generate_results.py.
  - The in-place list operations are methods on arrays: `random.shuffle` and `half1.insert(0, half1.pop(-1))`.
  - Each loop is a method proved against a value-level description: `CanonicalRound`, `IsHalfSeason`, `IsSeason`, `FixturesOf`.
  - The text `save_results` writes is the function `ResultsText`. It is not a loop method.
- `fixture_properties.dfy`: what every generated season satisfies, in both modes. This covers:
  - rotation algebra;
  - who meets whom;
  - home and away counts per team;
  - the season's length.
- `league.dfy`: create_league.py.
  - `FootballTeam` and `FootballTable` are classes whose methods update fields in place.
  - Each method's `ensures` ties the new state to a value-level function: `Updated`, `AddTeamTo` and `UpdateTeam` on a `Standing`, and `TableText(Rank(Records(...)))`.
  - `create_league` is a method whose outcome equals the function `CreateLeagueOutcome`. The outcome is the list of table files written plus the exception that stopped it, if any.
- `league_properties.dfy`: how results move records and table totals, and the ranking's order, stability and idempotence.
- `table_layout.dfy`: the table file's format and where the files go.
- `results_round_trip.dfy`: reading back what was written.
  - `split_match` inverts the line format.
  - The file splits back into its round blocks.
  - create_league on a saved file equals applying the rows directly.
- `pipeline.dfy`: the two scripts together. A generated, scored and saved season runs through create_league without error and writes `2 (n - 1)` tables. This holds when no team name contains a newline and no name can be mistaken for the `" - "` between the scores; other names break create_league.py:15-18 and :81 themselves.

How randomness and I/O are modelled:

- `random.shuffle` is a Fisher–Yates loop with the random index left as an arbitrary choice. Its contract promises only a permutation.
- The goal counts come from an oracle parameter `goals(i, j)`.
- Files are values: the text read, or the `(path, contents)` pairs written.

## Model

| member | source | states |
|---|---|---|
| PyText.Repeat | create_league.py:6 | `' ' * k` has `k` characters, all spaces, when `k > 0`, and none when `k <= 0` |
| PyText.IntToStringShape | generate_results.py:94 | `str(x)` is non-empty, holds no space or newline, and every `-` in it is followed by a digit |
| PyText.ParseIntOfIntToString | create_league.py:18 | `int(str(x)) == x` for every integer |
| PyText.Split | create_league.py:15-16 | `s.split(sep)` yields at least one piece |
| PyText.JoinSplit | create_league.py:18 | joining the pieces of `s.split(sep)` with `sep` gives `s` back |
| PyText.SplitJoinSingle | create_league.py:81 | splitting on `c` the join, by `c`, of parts that do not contain `c` gives those parts back |
| PyText.IntToString | generate_results.py:94 | `str(x)` in decimal, with `-` for negatives. Its properties are `IntToStringShape` and `ParseIntOfIntToString` |
| PyText.ParseInt | create_league.py:18 | `int(s)` on plain decimal text, with an optional sign, giving nothing where Python raises ValueError. `ParseIntOfIntToString` proves it inverts `IntToString` |
| PyText.Join | create_league.py:18 | `sep.join(parts)`. `JoinSplit` and `SplitJoinSingle` prove it and `Split` undo each other |
| Fixtures.Shuffle | generate_results.py:31 | the array afterwards is a permutation of the array before |
| Fixtures.RotateInPlace | generate_results.py:23 | the array afterwards is the old one with its last element moved to the front |
| Fixtures.RotateOnce | generate_results.py:23 | rotating keeps the length |
| Fixtures.RotateRight | generate_results.py:23 | rotating `r` times keeps the length |
| Fixtures.CanonicalRound | generate_results.py:15-19 | a round before its shuffle has one match per slot of `half2` |
| Fixtures.PairRound | generate_results.py:15-19 | the inner loop returns IndexError exactly when a slot is past either half. Otherwise slot `j` holds `half1[j]` and `half2[j]`, with `half1` at home in odd rounds |
| Fixtures.PairedRoundIsCanonical | generate_results.py:15-19 | the slot-by-slot round equals `CanonicalRound` of the original halves, with `half1` rotated `i` times |
| Fixtures.ShuffleRound | generate_results.py:20 | the shuffled round is a permutation of the round |
| Fixtures.PlayRound | generate_results.py:14-23 | one outer-loop pass. On IndexError `half1` is unchanged. Otherwise the round is a permutation of the canonical round and `half1` is rotated once |
| Fixtures.GenerateRoundRobin | generate_results.py:6-24 | results by input: <br>• odd total: ValueError <br>• even total with unequal halves: IndexError, and `half1` is untouched <br>• otherwise: a half-season of `2k - 1` rounds, round `i` a permutation of the canonical round, `half1` ending rotated once per round |
| Fixtures.Mirrored | generate_results.py:37 | the summer has the winter's shape, each match with home and away swapped |
| Fixtures.GenerateFixtures | generate_results.py:26-40 | an odd count is a ValueError and leaves `teams` alone. Otherwise `teams` is permuted in place and the result is a season of its two halves, in the chosen mode |
| Fixtures.FixturesOf | generate_results.py:65-78 | the schedule of a table of rows has one round per row list |
| Fixtures.AddScores | generate_results.py:65-78 | the rows mirror the schedule, row for row and match for match, and carry exactly the oracle's goals |
| Fixtures.ResultLine | generate_results.py:94 | the line `f'{home} {hg} - {ag} {away}'`. `SplitMatchOfResultLine` proves split_match reads it back |
| Fixtures.ResultsText | generate_results.py:90-95 | what save_results writes: per round a `Round i:` header line, its result lines, and an empty line. `RoundTextsOfResultsText` and `CreateLeagueOfResultsText` prove create_league reads it back |
| FixtureProperties.RotateRightClosedForm | generate_results.py:23 | `r <= n` rotations move the last `r` elements to the front |
| FixtureProperties.RotateRightAdd | generate_results.py:23 | rotating `a + b` times is rotating `a` times and then `b` times |
| FixtureProperties.RotateRightPeriod | generate_results.py:23 | `n` more rotations of a list of length `n` change nothing |
| FixtureProperties.RotateRightPermutes | generate_results.py:23 | rotation only reorders `half1` |
| FixtureProperties.CanonicalRoundAt | generate_results.py:15-23 | slot `j` of round `i < k` pairs `half1[(j - i) mod k]` with `half2[j]`, with `half1` at home in odd rounds |
| FixtureProperties.CanonicalRoundPeriod | generate_results.py:15-23 | round `i + k` pairs the same teams in the same slots as round `i` |
| FixtureProperties.SidesPermutation | generate_results.py:20 | shuffling a round keeps its multiset of home teams and its multiset of away teams |
| FixtureProperties.CanonicalSides | generate_results.py:16-19 | in odd rounds the home side is the rotated `half1` and the away side is `half2`; in even rounds it is the other way round |
| FixtureProperties.RoundAppearances | generate_results.py:13-21 | every round of a half-season has `k` matches, and each team appears in it as often as it occurs in the halves |
| FixtureProperties.CrossHalf | generate_results.py:15-19 | every match pairs a team of `half1` with a team of `half2` |
| FixtureProperties.SameHalfNeverMeet | generate_results.py:32-35 | with disjoint halves, two teams of the same half never meet |
| FixtureProperties.PairsOfPermutation | generate_results.py:20 | a shuffled round brings together the same unordered pairs |
| FixtureProperties.PairingsRepeat | generate_results.py:13-23 | round `i + k` of a half-season has the same pairings as round `i` |
| FixtureProperties.WinterOfFourTeams | generate_results.py:6-24 | with halves `A, B` and `C, D` there are three rounds, round 2 repeats round 0, and A never meets B |
| FixtureProperties.RoundSideCounts | generate_results.py:16-19 | a team's home and away appearances in round `i` follow the parity of `i` |
| FixtureProperties.HalfSeasonSideCounts | generate_results.py:13-23 | over a half-season, a team's home and away counts alternate with the parity of the rounds |
| FixtureProperties.AlternatingHalfSeason | generate_results.py:11-13 | a half-season of halves of size `k` has `k` even rounds and `k - 1` odd ones |
| FixtureProperties.CountsConcat | generate_results.py:40 | home and away counts add up over `winter + summer` |
| FixtureProperties.MirroredCounts | generate_results.py:37 | the mirrored summer swaps every team's home and away counts |
| FixtureProperties.MirroredSeasonCounts | generate_results.py:35-37 | a half-season plus its mirror puts a team of one half at home and away `2k - 1` times each |
| FixtureProperties.SymmetricSeasonBalance | generate_results.py:26-40 | in symmetric mode every one of `n` distinct teams is at home `n - 1` times and away `n - 1` times |
| FixtureProperties.RegeneratedSeasonCounts | generate_results.py:35-39 | in the second half-season, built from the rotated `half1`, the home and away counts of each half are skewed the same way as in the first |
| FixtureProperties.NonSymmetricSeasonCounts | generate_results.py:26-40 | in non-symmetric mode a team of the second half is at home `n` times and away `n - 2` times, and a team of the first half the other way round |
| FixtureProperties.AbsentTeamNeverPlays | generate_results.py:26-40 | a team that is not in the list never plays |
| FixtureProperties.SeasonLength | generate_results.py:26-40 | a season of `n` teams has `2 (n - 1)` rounds, and none when `n = 0` |
| FixtureProperties.FourTeamSymmetricSeason | generate_results.py:26-40 | four distinct teams in symmetric mode give six rounds, with three home and three away matches each |
| FixtureProperties.OnceInOneHalf | generate_results.py:32-33 | a team listed once lies in exactly one half |
| League.NewTeam | create_league.py:21-30 | a new record has the given counts and consistent derived fields: `matches`, `goal_difference` and `points` |
| League.Updated | create_league.py:32-40 | after one update exactly one of wins, draws and defeats goes up by one, as the score says, and the other two stay as they were. The goals are added. The derived fields are consistent whatever they were before |
| League.FootballTeam.constructor | create_league.py:21-30 | the new object's attributes are `NewTeam` of the arguments |
| League.FootballTeam.UpdateStats | create_league.py:32-40 | the attributes afterwards are `Updated` of the attributes before |
| League.SpacedString | create_league.py:4-6 | `str(x)` right-aligned: length `max(n, len(str(x)))`, spaces and then the digits |
| League.SpacedList | create_league.py:8-12 | the loop's string is the fields of all elements, one after the other |
| League.TeamLine | create_league.py:42-44 | `FootballTeam.__str__`: the name padded to 20 characters, then the eight spaced columns. Its layout is `TeamLineName` and `TeamLineColumns` |
| League.RankLine | create_league.py:65 | one table line: a space for ranks below 10, the rank, `. ` and the team line. Its alignment is `RankLineAlignment` |
| League.TableText | create_league.py:63-65 | the text write_table writes for a ranked list, one line per team from rank 1. `TableTextJoin` and `TableTextLines` prove it is those lines, newline-terminated |
| League.Insert | create_league.py:62 | inserting adds exactly one element, and the result starts with it or with the old head |
| League.InsertDescending | create_league.py:62 | inserting into a descending list keeps it descending |
| League.Rank | create_league.py:62 | the ranking is a permutation of the records, descending by (points, goal difference, goals scored) |
| League.WriteRanked | create_league.py:63-65 | the `enumerate` loop writes exactly `TableText` of the ranked list |
| League.Records | create_league.py:62 | `teams.values()` lists the record of each name in insertion order |
| League.AddTeamTo | create_league.py:50-52 | add_team keeps a table well-formed |
| League.UpdateTeam | create_league.py:54-55 | update_team_stats keeps a table well-formed |
| League.FootballTable.constructor | create_league.py:47-48 | a new table is empty |
| League.FootballTable.AddTeam | create_league.py:50-52 | the table afterwards is `AddTeamTo` of the table before; any new object is fresh |
| League.FootballTable.UpdateTeamStats | create_league.py:54-55 | KeyError for a missing name with nothing changed. Otherwise the table afterwards is `UpdateTeam` of the table before, with the same team objects |
| League.FootballTable.WriteTable | create_league.py:61-65 | the text written is the ranking of the current records, one line per rank |
| League.FootballTable.RecordsOf | create_league.py:62 | the objects' attributes, read in insertion order, are `Records` of the table |
| League.InitialStandingFrom | create_league.py:72-73 | adding the names one by one keeps the table well-formed |
| League.InitialStanding | create_league.py:71-73 | the starting table is well-formed |
| League.ApplyResult | create_league.py:84-85 | both updates of one result keep the table well-formed |
| League.SplitMatch | create_league.py:14-18 | split_match can fail only with ValueError (a score that is not an integer) or IndexError (no `" - "`), never KeyError. In the model, as in the list at line 18, the home score is read before the right side is indexed. `SplitMatchOfResultLine` proves it inverts `ResultLine` |
| League.RoundTexts | create_league.py:76 | `rounds.split('\n\n')[:-1]`. `RoundTextsOfResultsText` proves it gives the blocks save_results wrote |
| League.MatchLines | create_league.py:81 | `r.split('\n')[1:]`. `MatchLinesOfBlock` proves it gives a block's result lines |
| League.PlayLines | create_league.py:81-85 | applying a round's lines keeps the table well-formed |
| League.OutcomeStep | create_league.py:80-86 | a completed round adds its table file and hands the new table to the next round |
| League.OutcomeStop | create_league.py:80-86 | a round that raises ends the run with that exception and the files written so far |
| League.PlayRounds | create_league.py:80-86 | the `enumerate(rounds, start = 1)` loop from round `i` on: each block's lines applied, then the table written, and the first exception ends the run. Its file count and paths are `PlayRoundsFiles` |
| League.PlayRoundsFiles | create_league.py:80-86 | the rounds from `i` on write at most one table each. All rounds complete exactly when no exception stops the run, and file `k` is at the path of round `i + k` |
| League.CreateLeagueOutcome | create_league.py:67-86 | the outcome of create_league on a team list and a results text: the IndexError of `rounds[0]` when there is no block, otherwise the rounds played from 1. Its file count and paths are `CreateLeagueFiles` |
| League.CreateLeagueFiles | create_league.py:67-86 | create_league writes at most one table per round block. It finishes without an exception exactly when there is a block and every block completes, and file `k` is at the path of round `k + 1` |
| League.AddTeams | create_league.py:72-73 | the loop leaves `InitialStandingFrom` of the old table |
| League.PlayMatchLines | create_league.py:82-85 | the loop stops on the first ValueError, IndexError or KeyError. Otherwise the table afterwards is `PlayLines` of the table before |
| League.PlayRound | create_league.py:81-86 | one round: the exception, or the new table and its table file at the intended path `TablePath(folder, i)` (see the finding on create_league.py:86) |
| League.NewLeagueTable | create_league.py:71-73 | the fresh table is `InitialStanding` of the names |
| League.PlayAllRounds | create_league.py:80-86 | the files written and the final exception are those of `OutcomeFrom` the first round, at the intended paths |
| League.CreateLeague | create_league.py:67-86 | the files and the exception equal `CreateLeagueOutcome`. When the text has no round block at all, that is the IndexError of `rounds[0]`. The tables go to the intended paths inside `folder` |
| LeagueProperties.UpdatedDeltas | create_league.py:38-40 | one update adds one match, the goal difference of the score, and 3, 1 or 0 points |
| LeagueProperties.DefaultUpdateIsDraw | create_league.py:32 | `update_stats()` with its defaults records a goalless draw |
| LeagueProperties.AddTeamEffect | create_league.py:50-52 | adding a present name changes nothing. A new name is appended with an all-zero record and nothing else changes. Adding twice is adding once |
| LeagueProperties.InitialStandingContents | create_league.py:71-73 | the starting table holds exactly the listed names, each with a zero record, in list order when the names are distinct |
| LeagueProperties.UpdateTeamEffect | create_league.py:54-55 | KeyError exactly when the name is missing. Otherwise only that team's record changes, to `Updated` |
| LeagueProperties.ApplyResultEffect | create_league.py:84-85 | a result applies exactly when both teams are present. A missing home team is reported before a missing away team |
| LeagueProperties.TotalChangeAt | create_league.py:55 | changing one record changes a sum over the table by that record's change |
| LeagueProperties.UpdateTeamTotal | create_league.py:55 | one update changes a table total by the change of one record |
| LeagueProperties.ApplyResultTotals | create_league.py:84-85 | one result keeps the total goal difference, adds both scores to the goals scored and to the goals conceded, adds two matches, and adds 2 points for a draw or 3 otherwise |
| LeagueProperties.PlayLinesTotals | create_league.py:82-85 | after a round of `m` lines, the total goal difference is unchanged and there are `2m` more matches. Points go up by between `2m` and `3m` |
| LeagueProperties.TotalOfZeros | create_league.py:71-73 | a sum over zero records is zero |
| LeagueProperties.InitialTotals | create_league.py:71-73 | the starting table's totals are all zero |
| LeagueProperties.DescendingPairwise | create_league.py:62 | in the ranking no record ranks below a later one |
| LeagueProperties.WithKeyOf | create_league.py:62 | the records picked out share the given key |
| LeagueProperties.InsertWithKey | create_league.py:62 | an inserted record goes ahead of the records with its key |
| LeagueProperties.RankIsStable | create_league.py:62 | records with equal keys keep their order in `teams.values()`, since Python's sort is stable under `reverse=True` |
| LeagueProperties.RankOfDescending | create_league.py:62 | ranking a descending list leaves it as it is |
| LeagueProperties.RankIdempotent | create_league.py:62 | ranking twice is ranking once |
| TableLayout.SpacedConcatFields | create_league.py:8-12 | when every value fits its 6-character field, the row is `6 n` characters long and field `c` is `xs[c]` right-aligned |
| TableLayout.TeamLineName | create_league.py:43-44 | a team line starts with the name, padded with spaces to 20 characters |
| TableLayout.TeamLineColumns | create_league.py:42-44 | a team line is 68 characters: eight right-aligned 6-character columns, from matches to points, follow the name column |
| TableLayout.RankLineAlignment | create_league.py:65 | for ranks 1 to 99 the rank is right-aligned in two characters and followed by `. `, so every team line starts in column 4 |
| TableLayout.TableTextJoin | create_league.py:63-65 | the table text is the rank lines joined by newlines, plus a final newline |
| TableLayout.TableTextLines | create_league.py:63-65 | a table file read back line by line gives one line per team in rank order, line `k` ranked `k + 1` |
| TableLayout.TablePathsDistinct | create_league.py:78-80 | every table path lies in the run's folder, and two rounds share a path only if they are the same round |
| League.TablePath | create_league.py:78-80 | the intended path of a round's table lies in the folder create_league was given |
| TableLayout.TablePathAsWrittenIgnoresFolder | create_league.py:86 | the path as written is the path in `Tables`, and differs from the path in any other folder |
| ResultsRoundTrip.LeftHasNoSeparator | create_league.py:15 | in a written line, the first `" - "` is the one after the home score |
| ResultsRoundTrip.RightHasNoSeparator | create_league.py:15 | the away side of a written line holds no `" - "` |
| ResultsRoundTrip.SplitMatchOfResultLine | create_league.py:14-18 | `split_match` of a line written by save_results gives back the row: names, then both scores |
| ResultsRoundTrip.Blocks | generate_results.py:90-95 | there is one block per round |
| ResultsRoundTrip.MatchLinesTextJoin | generate_results.py:93-95 | a header followed by newline-terminated lines is the join of all of them by newlines, plus a newline |
| ResultsRoundTrip.JoinHasNoBlankLine | generate_results.py:92-94 | joining non-empty single lines leaves no empty line |
| ResultsRoundTrip.BlockHasNoBlankLine | generate_results.py:92-94 | a written round block holds no empty line |
| ResultsRoundTrip.SplitResultsText | create_league.py:76 | `text.split('\n\n')` of a results file gives the round blocks, then one empty piece |
| ResultsRoundTrip.RoundTextsOfResultsText | create_league.py:76 | the blocks create_league reads are the blocks save_results wrote |
| ResultsRoundTrip.MatchLinesOfBlock | create_league.py:81 | the match lines of a block are the lines written for its round |
| ResultsRoundTrip.ApplyResults | create_league.py:82-85 | applying rows directly keeps the table well-formed |
| ResultsRoundTrip.PlayLinesOfResultLines | create_league.py:81-85 | parsing and applying the written lines equals applying the rows |
| ResultsRoundTrip.PlayRoundsOfBlocks | create_league.py:80-86 | playing the written blocks equals replaying the rounds directly |
| ResultsRoundTrip.CreateLeagueOfResultsText | create_league.py:67-86 | create_league on a saved results file gives the same tables, or the same first KeyError, as applying the rows themselves |
| ResultsRoundTrip.CreateLeagueOfNoResults | create_league.py:76-77 | a season of no rounds saves an empty file, and create_league fails on it with IndexError |
| Pipeline.ApplyKnownResults | create_league.py:84-85 | rows between known teams apply without error and keep the table's names |
| Pipeline.ReplayStep | create_league.py:80-86 | a completed round puts its table first, at the round's path |
| Pipeline.ReplayKnownTeams | create_league.py:80-86 | rounds between known teams never stop: one table per round, round `i + k` at its own path |
| Pipeline.RoundHomeCountBelow | generate_results.py:35-40 | a team's appearances in one round are bounded by its appearances in the season |
| Pipeline.SeasonTeamsListed | generate_results.py:26-40 | only listed teams play in a season |
| Pipeline.GeneratedSeasonReplays | create_league.py:67-86 | for a season generated from the team list, scored and saved, with names that hold no newline and cannot be mistaken for the `" - "` next to a score: no teams gives IndexError. Otherwise every round completes and `2 (n - 1)` tables are written, round `k` to its own path |

## Left out

- Goal generation (generate_results.py:49-63) is left out. It covers `generate_base_goals`, `generate_goals`, `generate_match_goals` and the random drift of the expected goals (lines 75-77). These are floating point and random draws, so `AddScores` takes the goals from an oracle parameter instead.
- `random.shuffle` is an arbitrary permutation. The model does not describe the distribution of orders.
- I/O is left out:
  - pandas' `read_excel` and the team list it yields;
  - opening, reading and writing files;
  - `os.path.exists` and `os.makedirs`;
  - the console output of `print_schedule`, `print_results` and `print_table`.

  The text read and the files written are values. `print_results` writes the same lines as `save_results`, which is modelled.
- `n_matches = len(rounds[0]) - 1` (create_league.py:77) is never used. Only its IndexError on a text without round blocks is modelled.
- Outside the core and not modelled: `generate_results` and `main` in both scripts, which only wire paths together; draw_tables_evolution.py; LeagueSim/generate_strengths.py; main.py.
- PyText.ParseInt: does not accept the surrounding white space, underscores or non-ASCII digits that Python's `int()` accepts. The model writes scores as plain decimal, so the round trip never needs them.
- League.FootballTeam: `name` is a `const`, because create_league never reassigns it.
- ResultsRoundTrip.SplitMatchOfResultLine: stated only for names the line format can carry. The home name followed by a space, and a space followed by the away name, must not contain `" - "`. Other names are split at the wrong place by create_league.py:15 itself.
- ResultsRoundTrip.CreateLeagueOfResultsText, Pipeline.GeneratedSeasonReplays: stated only for names that hold no newline and satisfy the `" - "` condition of `SplitMatchOfResultLine`. A newline in a name breaks create_league.py:76 and :81. A name like `X -` makes create_league.py:15-18 split at the wrong `" - "` and raise ValueError.
- FixtureProperties.SymmetricSeasonBalance and the other per-team counts: stated for a team listed once. A team listed twice is counted once per listing.
- League.CreateLeague, League.PlayRound, League.PlayAllRounds: write each table to the intended path `folder/Round i.txt`, not to `Tables/Round i.txt` as create_league.py:86 does. The code as written is `TablePathAsWritten`; see ## Findings.
- The pairings `generate_round_robin` makes do not meet the comment at generate_results.py:34 that all teams play each other twice. Teams of the same half never meet (`SameHalfNeverMeet`), and the pairings repeat every `k` rounds (`PairingsRepeat`, `WinterOfFourTeams`). The model proves what the code does.

## Findings

| source | as written | input that shows it | evidently intended | confidence | as-written member | corrected member |
|---|---|---|---|---|---|---|
| create_league.py:86 | every table is written to `Tables/Round i.txt`, whatever `folder_path` is | `create_league(..., 'Out')`: lines 78-79 create `Out`, but round 1 goes to `Tables/Round 1.txt` | the table of round `i` goes to `folder_path + '/Round i.txt'`, so the paths of one run are distinct and inside the folder (`TablePathsDistinct`) | high; not executed | TableLayout.TablePathAsWrittenIgnoresFolder | League.TablePath |
