/**
 * Reading back the results file: what save_results writes (generate_results.py)
 * is what create_league reads (create_league.py). A result line splits back
 * into its row, the file splits back into its round blocks, and replaying the
 * text is the same as applying the rows directly.
 */
module ResultsRoundTrip {
  import opened Wrappers
  import opened PyText
  import opened Fixtures
  import opened League

  /** `sep` occurs nowhere in `s`. */
  ghost predicate FreeOf(s: string, sep: string) {
    forall j :: !OccursAt(s, sep, j)
  }

  /**
   * A row whose team names split back: neither name can be confused with the
   * `" - "` between the scores, and neither holds a line break.
   */
  ghost predicate Readable(m: MatchResult) {
    && '\n' !in m.home && '\n' !in m.away
    && FreeOf(m.home + " ", " - ") && FreeOf(" " + m.away, " - ")
  }

  // ---------------------------------------------------------------------------
  // split_match(f'{home} {hg} - {ag} {away}')
  // ---------------------------------------------------------------------------

  /** In `home + " " + str(hg) + " - " + y` the first `" - "` is the one after the home score. */
  lemma LeftHasNoSeparator(home: string, hg: int, y: string)
    requires FreeOf(home + " ", " - ")
    ensures forall j :: 0 <= j < |home| + 1 + |IntToString(hg)| ==>
      !OccursAt(home + " " + IntToString(hg) + " - " + y, " - ", j)
  {
    var h := IntToString(hg);
    IntToStringShape(hg);
    var s := home + " " + h + " - " + y;
    assert s == (home + " ") + (h + " - " + y);
    forall j | 0 <= j < |home| + 1 + |h| ensures !OccursAt(s, " - ", j) {
      if j + 3 <= |home| + 1 {
        assert s[j..j + 3] == (home + " ")[j..j + 3];
        assert !OccursAt(home + " ", " - ", j);
      } else if j == |home| - 1 {
        assert s[j + 1] == ' ';
        assert s[j..j + 3][1] == s[j + 1];
      } else if j == |home| {
        assert s[j + 1] == h[0];
        assert s[j..j + 3][1] == s[j + 1] && s[j..j + 3][2] == s[j + 2];
        if |h| >= 2 {
          assert s[j + 2] == h[1];
        } else {
          assert s[j + 2] == ' ';
        }
      } else {
        assert s[j] == h[j - |home| - 1];
        assert s[j..j + 3][0] == s[j];
      }
    }
  }

  /** `str(ag) + " " + away` holds no `" - "`. */
  lemma RightHasNoSeparator(ag: int, away: string)
    requires FreeOf(" " + away, " - ")
    ensures FreeOf(IntToString(ag) + " " + away, " - ")
  {
    var a := IntToString(ag);
    IntToStringShape(ag);
    var y := a + " " + away;
    assert y == a + (" " + away);
    forall j ensures !OccursAt(y, " - ", j) {
      if 0 <= j < |a| && j + 3 <= |y| {
        assert y[j] == a[j];
        assert y[j..j + 3][0] == y[j];
      } else if |a| <= j && j + 3 <= |y| {
        SliceAfter(a, " " + away, j, j + 3);
        assert !OccursAt(" " + away, " - ", j - |a|);
      }
    }
  }

  lemma SliceAfter<T>(a: seq<T>, b: seq<T>, i: int, j: int)
    requires |a| <= i <= j <= |a| + |b|
    ensures (a + b)[i..j] == b[i - |a|..j - |a|]
  {
  }

  /**
   * split_match inverts the line format of save_results: the names are split
   * on `' '` and joined back, the scores are `int(str(goals))`.
   */
  lemma SplitMatchOfResultLine(m: MatchResult)
    requires FreeOf(m.home + " ", " - ") && FreeOf(" " + m.away, " - ")
    ensures SplitMatch(ResultLine(m)) == Success(m)
  {
    var h, a := IntToString(m.homeGoals), IntToString(m.awayGoals);
    IntToStringShape(m.homeGoals);
    IntToStringShape(m.awayGoals);
    var x, y := m.home + " " + h, a + " " + m.away;
    assert ResultLine(m) == x + " - " + y;
    LeftHasNoSeparator(m.home, m.homeGoals, y);
    SplitAtFirst(x, " - ", y);
    RightHasNoSeparator(m.awayGoals, m.away);
    SplitWithoutSeparator(y, " - ");
    assert Split(ResultLine(m), " - ") == [x, y];
    assert ' ' !in h;
    SplitAppendSingle(m.home, ' ', h);
    var left := Split(x, " ");
    assert left == Split(m.home, " ") + [h];
    assert left[..|left| - 1] == Split(m.home, " ");
    JoinSplit(m.home, " ");
    forall j | 0 <= j < |a| ensures !OccursAt(y, " ", j) {
      OccursAtSingle(y, ' ', j);
    }
    SplitAtFirst(a, " ", m.away);
    var right := Split(y, " ");
    assert right[1..] == Split(m.away, " ");
    JoinSplit(m.away, " ");
    ParseIntOfIntToString(m.homeGoals);
    ParseIntOfIntToString(m.awayGoals);
  }

  // ---------------------------------------------------------------------------
  // The round blocks of the file
  // ---------------------------------------------------------------------------

  /** The match lines of a round, without their newlines. */
  function ResultLines(rd: seq<MatchResult>): seq<string> {
    seq(|rd|, k requires 0 <= k < |rd| => ResultLine(rd[k]))
  }

  /** Round `i` as `split('\n\n')` cuts it out of the file: header and match lines, one per line. */
  function Block(rd: seq<MatchResult>, i: int): string {
    Join("\n", [RoundHeader(i)] + ResultLines(rd))
  }

  /** The blocks of rounds `first`, `first + 1`, ... */
  function Blocks(results: seq<seq<MatchResult>>, first: int): (blocks: seq<string>)
    ensures |blocks| == |results|
  {
    if results == [] then [] else [Block(results[0], first)] + Blocks(results[1..], first + 1)
  }

  /** Every row of every round is Readable. */
  ghost predicate ReadableResults(results: seq<seq<MatchResult>>) {
    forall k, l :: 0 <= k < |results| && 0 <= l < |results[k]| ==> Readable(results[k][l])
  }

  /** A text with no empty line in it: it neither starts nor ends with a newline, and has no two in a row. */
  ghost predicate NoBlankLine(s: string) {
    && s != [] && s[0] != '\n' && s[|s| - 1] != '\n'
    && FreeOf(s, "\n\n")
  }

  /** Writing a header and then each line with its newline is joining them with newlines, plus a final one. */
  lemma {:induction false} MatchLinesTextJoin(x: string, rd: seq<MatchResult>)
    ensures x + "\n" + MatchLinesText(rd) == Join("\n", [x] + ResultLines(rd)) + "\n"
    decreases |rd|
  {
    var parts := [x] + ResultLines(rd);
    if rd != [] {
      var l0 := ResultLine(rd[0]);
      MatchLinesTextJoin(l0, rd[1..]);
      TailOfCons(x, ResultLines(rd));
      ResultLinesCons(rd);
      assert MatchLinesText(rd) == l0 + "\n" + MatchLinesText(rd[1..]);
      assert Join("\n", parts) == x + "\n" + Join("\n", parts[1..]);
      Glue(x, MatchLinesText(rd), Join("\n", parts[1..]), Join("\n", parts));
    } else {
      assert parts == [x];
    }
  }

  lemma TailOfCons<T>(x: T, t: seq<T>)
    ensures ([x] + t)[1..] == t
  {
  }

  lemma ResultLinesCons(rd: seq<MatchResult>)
    requires rd != []
    ensures ResultLines(rd) == [ResultLine(rd[0])] + ResultLines(rd[1..])
  {
    var a, t := ResultLines(rd), ResultLines(rd[1..]);
    var b := [ResultLine(rd[0])] + t;
    assert |a| == |b|;
    forall k | 0 <= k < |a| ensures a[k] == b[k] {
      if k > 0 {
        assert b[k] == t[k - 1];
        assert rd[1..][k - 1] == rd[k];
      }
    }
  }

  lemma Glue(x: string, lines: string, rest: string, all: string)
    requires lines == rest + "\n" && all == x + "\n" + rest
    ensures x + "\n" + lines == all + "\n"
  {
  }

  lemma LineHasNoBlankLine(l: string)
    requires l != [] && '\n' !in l
    ensures NoBlankLine(l)
  {
    forall j | 0 <= j && j + 2 <= |l| ensures !OccursAt(l, "\n\n", j) {
      assert l[j..j + 2][0] == l[j];
    }
  }

  lemma NoBlankLineConcat(a: string, b: string)
    requires NoBlankLine(a) && NoBlankLine(b)
    ensures NoBlankLine(a + "\n" + b)
  {
    var s := a + "\n" + b;
    assert s == a + ("\n" + b);
    forall j | 0 <= j && j + 2 <= |s| ensures !OccursAt(s, "\n\n", j) {
      if j + 2 <= |a| {
        assert s[j..j + 2] == a[j..j + 2];
        assert !OccursAt(a, "\n\n", j);
      } else if j == |a| - 1 {
        assert s[j..j + 2][0] == s[j] == a[|a| - 1];
      } else if j == |a| {
        assert s[j..j + 2][1] == s[j + 1] == b[0];
      } else {
        assert s[j..j + 2] == b[j - |a| - 1..j - |a| + 1];
        assert !OccursAt(b, "\n\n", j - |a| - 1);
      }
    }
  }

  /** Joining non-empty lines with newlines leaves no empty line. */
  lemma {:induction false} JoinHasNoBlankLine(parts: seq<string>)
    requires |parts| >= 1
    requires forall k :: 0 <= k < |parts| ==> parts[k] != [] && '\n' !in parts[k]
    ensures NoBlankLine(Join("\n", parts))
    decreases |parts|
  {
    LineHasNoBlankLine(parts[0]);
    if |parts| > 1 {
      JoinHasNoBlankLine(parts[1..]);
      NoBlankLineConcat(parts[0], Join("\n", parts[1..]));
    }
  }

  /** A header or a result line is one non-empty line. */
  lemma OneLine(i: int, m: MatchResult)
    requires '\n' !in m.home && '\n' !in m.away
    ensures RoundHeader(i) != [] && '\n' !in RoundHeader(i)
    ensures ResultLine(m) != [] && '\n' !in ResultLine(m)
  {
    IntToStringShape(i);
    IntToStringShape(m.homeGoals);
    IntToStringShape(m.awayGoals);
  }

  lemma BlockLines(rd: seq<MatchResult>, i: int)
    requires forall l :: 0 <= l < |rd| ==> Readable(rd[l])
    ensures forall k :: 0 <= k < |[RoundHeader(i)] + ResultLines(rd)| ==>
      ([RoundHeader(i)] + ResultLines(rd))[k] != [] && '\n' !in ([RoundHeader(i)] + ResultLines(rd))[k]
  {
    var parts := [RoundHeader(i)] + ResultLines(rd);
    forall k | 0 <= k < |parts| ensures parts[k] != [] && '\n' !in parts[k] {
      if k == 0 {
        IntToStringShape(i);
      } else {
        OneLine(i, rd[k - 1]);
      }
    }
  }

  /** A round's block is followed by an empty line, then the next rounds. */
  lemma ResultsTextCons(results: seq<seq<MatchResult>>, first: int)
    requires results != []
    ensures ResultsTextFrom(results, first) == Block(results[0], first) + "\n\n" + ResultsTextFrom(results[1..], first + 1)
  {
    MatchLinesTextJoin(RoundHeader(first), results[0]);
  }

  /** A text without empty lines, an empty line, then anything: the split cuts after the text. */
  lemma SplitAfterParagraph(p: string, rest: string)
    requires NoBlankLine(p)
    ensures Split(p + "\n\n" + rest, "\n\n") == [p] + Split(rest, "\n\n")
  {
    var s := p + "\n\n" + rest;
    assert s == p + ("\n\n" + rest);
    forall j | 0 <= j < |p| ensures !OccursAt(s, "\n\n", j) {
      if j + 2 <= |p| {
        assert s[j..j + 2] == p[j..j + 2];
        assert !OccursAt(p, "\n\n", j);
      } else {
        assert s[j..j + 2][0] == s[j] == p[|p| - 1];
      }
    }
    SplitAtFirst(p, "\n\n", rest);
  }

  lemma BlockHasNoBlankLine(rd: seq<MatchResult>, i: int)
    requires forall l :: 0 <= l < |rd| ==> Readable(rd[l])
    ensures NoBlankLine(Block(rd, i))
  {
    BlockLines(rd, i);
    JoinHasNoBlankLine([RoundHeader(i)] + ResultLines(rd));
  }

  lemma ReadableTail(results: seq<seq<MatchResult>>)
    requires results != [] && ReadableResults(results)
    ensures forall l :: 0 <= l < |results[0]| ==> Readable(results[0][l])
    ensures ReadableResults(results[1..])
  {
    forall k, l | 0 <= k < |results[1..]| && 0 <= l < |results[1..][k]| ensures Readable(results[1..][k][l]) {
      assert results[1..][k] == results[k + 1];
    }
  }

  /** `text.split('\n\n')` on a results file: the round blocks, then the empty piece after the last one. */
  lemma {:induction false} SplitResultsText(results: seq<seq<MatchResult>>, first: int)
    requires ReadableResults(results)
    ensures Split(ResultsTextFrom(results, first), "\n\n") == Blocks(results, first) + [""]
    decreases |results|
  {
    if results == [] {
      SplitWithoutSeparator("", "\n\n");
    } else {
      ResultsTextCons(results, first);
      ReadableTail(results);
      BlockHasNoBlankLine(results[0], first);
      SplitAfterParagraph(Block(results[0], first), ResultsTextFrom(results[1..], first + 1));
      SplitResultsText(results[1..], first + 1);
    }
  }

  /** Reading a block's match lines gives back the lines that were written. */
  lemma MatchLinesOfBlock(rd: seq<MatchResult>, i: int)
    requires forall l :: 0 <= l < |rd| ==> Readable(rd[l])
    ensures MatchLines(Block(rd, i)) == ResultLines(rd)
  {
    var parts := [RoundHeader(i)] + ResultLines(rd);
    BlockLines(rd, i);
    SplitJoinSingle('\n', parts);
    assert parts[1..] == ResultLines(rd);
  }

  /** The round blocks create_league reads from a results file are the blocks that were written. */
  lemma RoundTextsOfResultsText(results: seq<seq<MatchResult>>)
    requires ReadableResults(results)
    ensures RoundTexts(ResultsText(results)) == Blocks(results, 1)
  {
    SplitResultsText(results, 1);
  }

  // ---------------------------------------------------------------------------
  // create_league on a results file
  // ---------------------------------------------------------------------------

  /** The rows of one round applied to the table directly, home side first. */
  function ApplyResults(s: Standing, rd: seq<MatchResult>): (r: Result<Standing, LeagueError>)
    ensures WellFormed(s) && r.Success? ==> WellFormed(r.value)
    decreases |rd|
  {
    if rd == [] then Success(s)
    else
      var next :- ApplyResult(s, rd[0]);
      ApplyResults(next, rd[1..])
  }

  /** The rounds applied directly, a table after each, numbered from `i`; the first KeyError stops it. */
  function ReplayRounds(s: Standing, results: seq<seq<MatchResult>>, i: int, folder: string): LeagueOutcome
    requires WellFormed(s)
    decreases |results|
  {
    if results == [] then LeagueOutcome([], None)
    else match ApplyResults(s, results[0])
      case Failure(e) => LeagueOutcome([], Some(e))
      case Success(next) =>
        var rest := ReplayRounds(next, results[1..], i + 1, folder);
        LeagueOutcome([TableFile(TablePath(folder, i), TableText(Rank(Records(next))))] + rest.files, rest.error)
  }

  /** Parsing the written lines of a round and applying them is applying its rows. */
  lemma {:induction false} PlayLinesOfResultLines(s: Standing, rd: seq<MatchResult>)
    requires forall l :: 0 <= l < |rd| ==> Readable(rd[l])
    ensures PlayLines(s, ResultLines(rd)) == ApplyResults(s, rd)
    decreases |rd|
  {
    if rd != [] {
      var lines := ResultLines(rd);
      assert lines[0] == ResultLine(rd[0]);
      SplitMatchOfResultLine(rd[0]);
      ResultLinesTail(rd);
      PlayLinesCons(s, lines, rd[0]);
      ApplyResultsCons(s, rd);
      if ApplyResult(s, rd[0]).Success? {
        PlayLinesOfResultLines(ApplyResult(s, rd[0]).value, rd[1..]);
      }
    }
  }

  lemma ResultLinesTail(rd: seq<MatchResult>)
    requires rd != []
    ensures ResultLines(rd)[1..] == ResultLines(rd[1..])
  {
    var a, b := ResultLines(rd)[1..], ResultLines(rd[1..]);
    forall k | 0 <= k < |b| ensures a[k] == b[k] {
      assert rd[1..][k] == rd[k + 1];
    }
  }

  /** A first line that parses to `m`: `PlayLines` applies `m` and goes on with the rest. */
  lemma PlayLinesCons(s: Standing, lines: seq<string>, m: MatchResult)
    requires lines != [] && SplitMatch(lines[0]) == Success(m)
    ensures ApplyResult(s, m).Failure? ==> PlayLines(s, lines) == Failure(ApplyResult(s, m).error)
    ensures ApplyResult(s, m).Success? ==> PlayLines(s, lines) == PlayLines(ApplyResult(s, m).value, lines[1..])
  {
  }

  lemma ApplyResultsCons(s: Standing, rd: seq<MatchResult>)
    requires rd != []
    ensures ApplyResult(s, rd[0]).Failure? ==> ApplyResults(s, rd) == Failure(ApplyResult(s, rd[0]).error)
    ensures ApplyResult(s, rd[0]).Success? ==> ApplyResults(s, rd) == ApplyResults(ApplyResult(s, rd[0]).value, rd[1..])
  {
  }

  lemma {:induction false} PlayRoundsOfBlocks(s: Standing, results: seq<seq<MatchResult>>, i: int, folder: string)
    requires WellFormed(s) && ReadableResults(results)
    ensures PlayRounds(s, Blocks(results, i), i, folder) == ReplayRounds(s, results, i, folder)
    decreases |results|
  {
    if results != [] {
      var blocks := Blocks(results, i);
      assert blocks[0] == Block(results[0], i) && blocks[1..] == Blocks(results[1..], i + 1);
      ReadableTail(results);
      MatchLinesOfBlock(results[0], i);
      PlayLinesOfResultLines(s, results[0]);
      match ApplyResults(s, results[0])
      case Failure(_) =>
      case Success(next) => PlayRoundsOfBlocks(next, results[1..], i + 1, folder);
    }
  }

  /**
   * create_league on a file written by save_results replays the rounds: the
   * same tables, or the same first KeyError, as applying the rows themselves.
   */
  lemma CreateLeagueOfResultsText(teams: seq<string>, results: seq<seq<MatchResult>>, folder: string)
    requires results != [] && ReadableResults(results)
    ensures CreateLeagueOutcome(teams, ResultsText(results), folder) == ReplayRounds(InitialStanding(teams), results, 1, folder)
  {
    RoundTextsOfResultsText(results);
    PlayRoundsOfBlocks(InitialStanding(teams), results, 1, folder);
  }

  /** A results file of no rounds is empty, and create_league fails on `rounds[0]`. */
  lemma CreateLeagueOfNoResults(teams: seq<string>, folder: string)
    ensures ResultsText([]) == ""
    ensures CreateLeagueOutcome(teams, ResultsText([]), folder) == LeagueOutcome([], Some(IndexError))
  {
    SplitWithoutSeparator("", "\n\n");
  }
}
