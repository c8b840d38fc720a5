/**
 * The table files of create_league.py: each team's line is a fixed-width row,
 * the rank is right-aligned in front of it, the file holds one line per team,
 * and each round's table has its own path.
 */
module TableLayout {
  import opened PyText
  import opened League

  /** `str(x)` fits in a field of `width` characters. */
  predicate Fits(x: int, width: int) {
    |IntToString(x)| <= width
  }

  // ---------------------------------------------------------------------------
  // spaced_list and FootballTeam.__str__
  // ---------------------------------------------------------------------------

  /**
   * When every value fits its 6-character field, spaced_list with its default
   * width is a row of fields of exactly that width, field `c` holding `xs[c]`
   * right-aligned.
   */
  lemma {:induction false} SpacedConcatFields(xs: seq<int>)
    requires forall c :: 0 <= c < |xs| ==> Fits(xs[c], ColumnWidth)
    ensures |SpacedConcat(xs, ColumnWidth)| == ColumnWidth * |xs|
    ensures forall c :: 0 <= c < |xs| ==>
      SpacedConcat(xs, ColumnWidth)[ColumnWidth * c..ColumnWidth * c + ColumnWidth] == SpacedString(xs[c], ColumnWidth)
    decreases |xs|
  {
    if xs != [] {
      var n := |xs|;
      var front := xs[..n - 1];
      SpacedConcatFields(front);
      var head := SpacedConcat(front, ColumnWidth);
      var last := SpacedString(xs[n - 1], ColumnWidth);
      var s := SpacedConcat(xs, ColumnWidth);
      assert s == head + last;
      assert |last| == 6;
      forall c | 0 <= c < n ensures s[6 * c..6 * c + 6] == SpacedString(xs[c], ColumnWidth) {
        if c < n - 1 {
          SliceOfLeft(head, last, 6 * c, 6 * c + 6);
          assert front[c] == xs[c];
        } else {
          SliceOfRight(head, last);
        }
      }
    }
  }

  lemma SliceOfLeft<T>(a: seq<T>, b: seq<T>, i: int, j: int)
    requires 0 <= i <= j <= |a|
    ensures (a + b)[i..j] == a[i..j]
  {
  }

  lemma SliceOfRight<T>(a: seq<T>, b: seq<T>)
    ensures (a + b)[|a|..] == b
  {
  }

  lemma SliceOfRightPart<T>(a: seq<T>, b: seq<T>, i: int, j: int)
    requires 0 <= i <= j <= |b|
    ensures (a + b)[|a| + i..|a| + j] == b[i..j]
  {
  }

  /** A team line starts with the name, padded with spaces to 20 characters. */
  lemma TeamLineName(r: TeamStats)
    requires |r.name| <= NameWidth
    ensures TeamLine(r)[..|r.name|] == r.name
    ensures forall i :: |r.name| <= i < NameWidth ==> TeamLine(r)[i] == ' '
  {
    var name := r.name + Repeat(' ', NameWidth - |r.name|);
    var cols := SpacedConcat(Columns(r), ColumnWidth);
    assert TeamLine(r) == name + cols;
    SliceOfLeft(name, cols, 0, |r.name|);
  }

  /** A 20-character column followed by the 6-character fields of `xs`. */
  lemma PaddedRow(name: string, xs: seq<int>)
    requires |name| == NameWidth
    requires forall c :: 0 <= c < |xs| ==> Fits(xs[c], ColumnWidth)
    ensures |name + SpacedConcat(xs, ColumnWidth)| == NameWidth + ColumnWidth * |xs|
    ensures forall c :: 0 <= c < |xs| ==>
      (name + SpacedConcat(xs, ColumnWidth))[NameWidth + ColumnWidth * c..NameWidth + ColumnWidth * c + ColumnWidth] == SpacedString(xs[c], ColumnWidth)
  {
    var cols := SpacedConcat(xs, ColumnWidth);
    SpacedConcatFields(xs);
    forall c | 0 <= c < |xs|
      ensures (name + cols)[20 + 6 * c..20 + 6 * c + 6] == SpacedString(xs[c], ColumnWidth)
    {
      SliceOfRightPart(name, cols, 6 * c, 6 * c + 6);
    }
  }

  /**
   * After the name column come eight 6-character columns: matches, wins,
   * draws, defeats, goals scored, goals conceded, goal difference and
   * points, each right-aligned; the line is 68 characters long.
   */
  lemma TeamLineColumns(r: TeamStats)
    requires |r.name| <= NameWidth
    requires forall c :: 0 <= c < |Columns(r)| ==> Fits(Columns(r)[c], ColumnWidth)
    ensures |TeamLine(r)| == NameWidth + 8 * ColumnWidth
    ensures forall c :: 0 <= c < 8 ==>
      TeamLine(r)[NameWidth + ColumnWidth * c..NameWidth + ColumnWidth * c + ColumnWidth] == SpacedString(Columns(r)[c], ColumnWidth)
  {
    PaddedRow(r.name + Repeat(' ', NameWidth - |r.name|), Columns(r));
  }

  /**
   * For ranks 1 to 99 the rank is right-aligned in two characters and
   * followed by `". "`, so every team line starts in the same column.
   */
  lemma RankLineAlignment(idx: int, r: TeamStats)
    requires 1 <= idx < 100
    ensures |RankLine(idx, r)| == 4 + |TeamLine(r)|
    ensures RankLine(idx, r)[..4] == SpacedString(idx, 2) + ". "
    ensures RankLine(idx, r)[4..] == TeamLine(r)
  {
    var digits := IntToString(idx);
    if idx >= 10 {
      assert digits == NatToString(idx / 10) + [DigitChar(idx % 10)];
    }
    assert |digits| == if idx < 10 then 1 else 2;
    var prefix := Repeat(' ', Indicator(idx < 10)) + digits + ". ";
    assert RankLine(idx, r) == prefix + TeamLine(r);
    assert Repeat(' ', Indicator(idx < 10)) == Repeat(' ', 2 - |digits|);
  }

  // ---------------------------------------------------------------------------
  // The lines of a table file
  // ---------------------------------------------------------------------------

  /** The lines write_table writes, without their newlines, the first one ranked `idx`. */
  function RankLines(ranked: seq<TeamStats>, idx: int): seq<string> {
    seq(|ranked|, k requires 0 <= k < |ranked| => RankLine(idx + k, ranked[k]))
  }

  lemma {:induction false} JoinSnoc(sep: string, parts: seq<string>, x: string)
    requires parts != []
    ensures Join(sep, parts + [x]) == Join(sep, parts) + sep + x
    decreases |parts|
  {
    if |parts| > 1 {
      JoinSnoc(sep, parts[1..], x);
      assert (parts + [x])[1..] == parts[1..] + [x];
    } else {
      assert parts + [x] == [parts[0], x];
    }
  }

  /** The table text is its lines joined with newlines, with a final newline. */
  lemma {:induction false} TableTextJoin(ranked: seq<TeamStats>, idx: int)
    requires ranked != []
    ensures TableTextFrom(ranked, idx) == Join("\n", RankLines(ranked, idx)) + "\n"
    decreases |ranked|
  {
    var n := |ranked|;
    var front := ranked[..n - 1];
    var line := RankLine(idx + n - 1, ranked[n - 1]);
    assert TableTextFrom(ranked, idx) == TableTextFrom(front, idx) + line + "\n";
    if n > 1 {
      TableTextJoin(front, idx);
      RankLinesSnoc(ranked, idx);
      JoinSnoc("\n", RankLines(front, idx), line);
      AppendLine(TableTextFrom(front, idx), Join("\n", RankLines(front, idx)), line);
    } else {
      assert RankLines(ranked, idx) == [line];
      assert TableTextFrom(front, idx) == "";
    }
  }

  lemma RankLinesSnoc(ranked: seq<TeamStats>, idx: int)
    requires ranked != []
    ensures RankLines(ranked, idx) == RankLines(ranked[..|ranked| - 1], idx) + [RankLine(idx + |ranked| - 1, ranked[|ranked| - 1])]
  {
    var n := |ranked|;
    var front := ranked[..n - 1];
    var a, b := RankLines(ranked, idx), RankLines(front, idx) + [RankLine(idx + n - 1, ranked[n - 1])];
    forall k | 0 <= k < n ensures a[k] == b[k] {
      if k < n - 1 {
        assert front[k] == ranked[k];
        assert b[k] == RankLine(idx + k, front[k]);
      }
    }
  }

  lemma AppendLine(text: string, joined: string, line: string)
    requires text == joined + "\n"
    ensures text + line + "\n" == (joined + "\n" + line) + "\n"
  {
  }

  lemma {:induction false} SpacedConcatOneLine(xs: seq<int>, width: int)
    ensures '\n' !in SpacedConcat(xs, width)
    decreases |xs|
  {
    if xs != [] {
      SpacedConcatOneLine(xs[..|xs| - 1], width);
      IntToStringShape(xs[|xs| - 1]);
    }
  }

  lemma RankLineOneLine(idx: int, r: TeamStats)
    requires '\n' !in r.name
    ensures '\n' !in RankLine(idx, r)
  {
    SpacedConcatOneLine(Columns(r), ColumnWidth);
    IntToStringShape(idx);
  }

  /**
   * A table file read back line by line: one line per team in rank order,
   * line `k` ranked `k + 1`, then the empty piece after the final newline.
   */
  lemma TableTextLines(ranked: seq<TeamStats>)
    requires forall k :: 0 <= k < |ranked| ==> '\n' !in ranked[k].name
    ensures Split(TableText(ranked), "\n") == RankLines(ranked, 1) + [""]
  {
    if ranked == [] {
      SplitWithoutSeparator("", "\n");
    } else {
      var lines := RankLines(ranked, 1);
      forall k | 0 <= k < |lines| ensures '\n' !in lines[k] {
        RankLineOneLine(1 + k, ranked[k]);
      }
      TableTextJoin(ranked, 1);
      SplitJoinSingle('\n', lines);
      SplitAppendSingle(Join("\n", lines), '\n', "");
      assert TableText(ranked) == Join("\n", lines) + ['\n'] + "";
    }
  }

  // ---------------------------------------------------------------------------
  // Where the tables go
  // ---------------------------------------------------------------------------

  lemma MiddleOfEqual<T>(p: seq<T>, x: seq<T>, y: seq<T>, q: seq<T>)
    requires p + x + q == p + y + q
    ensures x == y
  {
    assert |x| == |y|;
    assert (p + x + q)[|p|..|p| + |x|] == x;
    assert (p + y + q)[|p|..|p| + |y|] == y;
  }

  lemma PrefixOfEqual<T>(x: seq<T>, y: seq<T>, q: seq<T>)
    requires x + q == y + q
    ensures x == y
  {
    assert |x| == |y|;
    assert (x + q)[..|x|] == x;
    assert (y + q)[..|y|] == y;
  }

  /** The paths of a run are distinct and all lie in the run's folder. */
  lemma TablePathsDistinct(folder: string, i: int, j: int)
    ensures TablePath(folder, i)[..|folder| + 1] == folder + "/"
    ensures TablePath(folder, i) == TablePath(folder, j) <==> i == j
  {
    var p := folder + "/Round ";
    var si, sj := IntToString(i), IntToString(j);
    assert TablePath(folder, i) == p + si + ".txt";
    assert TablePath(folder, j) == p + sj + ".txt";
    assert TablePath(folder, i)[..|folder| + 1] == p[..|folder| + 1];
    if TablePath(folder, i) == TablePath(folder, j) {
      MiddleOfEqual(p, si, sj, ".txt");
      ParseIntOfIntToString(i);
      ParseIntOfIntToString(j);
    }
  }

  /**
   * As written, create_league ignores its folder: the tables go to `Tables`
   * whatever folder it was given (and created), so a run on any other
   * folder writes somewhere else.
   */
  lemma TablePathAsWrittenIgnoresFolder(folder: string, i: int)
    ensures TablePathAsWritten(i) == TablePath("Tables", i)
    ensures folder != "Tables" ==> TablePathAsWritten(i) != TablePath(folder, i)
  {
    var suffix := "/Round " + IntToString(i) + ".txt";
    assert TablePath(folder, i) == folder + suffix;
    assert TablePathAsWritten(i) == "Tables" + suffix;
    if TablePathAsWritten(i) == TablePath(folder, i) {
      PrefixOfEqual(folder, "Tables", suffix);
    }
  }
}
