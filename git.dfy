/**
 * The text handling inside the git wrapper (src/modules/git.ts): parsing the
 * output of `git diff --staged --name-only` and `--numstat`, the temporary
 * commit-message file, and the argument list of `git commit`.  Running git
 * itself is a collaborator; its standard output is an input here.
 */
module Git {
  import opened Base
  import opened Types
  import opened JsText

  /** `output.trim().split("\n").filter(Boolean)`: the non-empty lines of the trimmed output. */
  function OutputLines(output: string): (lines: seq<string>)
    ensures forall x :: x in lines <==> x in Split(Trim(output), '\n') && x != []
    ensures forall i :: 0 <= i < |lines| ==> lines[i] != [] && '\n' !in lines[i]
  {
    var parts := Split(Trim(output), '\n');
    NonEmptyParts(parts);
    RemoveEmpty(parts)
  }

  /** The non-empty parts of a split at line breaks are non-empty and hold no line break. */
  lemma NonEmptyParts(parts: seq<string>)
    requires forall i :: 0 <= i < |parts| ==> '\n' !in parts[i]
    ensures forall i :: 0 <= i < |RemoveEmpty(parts)| ==> RemoveEmpty(parts)[i] != [] && '\n' !in RemoveEmpty(parts)[i]
  {
    var lines := RemoveEmpty(parts);
    forall i | 0 <= i < |lines|
      ensures lines[i] != [] && '\n' !in lines[i]
    {
      assert lines[i] in lines;
    }
  }

  /** `getStagedFiles`: the staged paths, one per non-empty line of `--name-only` output. */
  function StagedFiles(output: string): (files: seq<string>)
    ensures forall f :: f in files ==> f != [] && '\n' !in f
  {
    OutputLines(output)
  }

  /** Lines as git prints them (`--name-only`, `--numstat`): each one followed by a line break. */
  function Listing(lines: seq<string>): string {
    if lines == [] then [] else Join(lines, '\n') + "\n"
  }

  /** A line feed alone is whitespace to `trim`. */
  lemma NewlineIsWhitespace()
    ensures AllWhitespace("\n")
  {
  }

  /** Trimming a listing drops the final line break when the joined lines are already trimmed. */
  lemma TrimListing(lines: seq<string>)
    requires lines != [] && IsTrimmed(Join(lines, '\n'))
    ensures Trim(Listing(lines)) == Join(lines, '\n')
  {
    var joined := Join(lines, '\n');
    NewlineIsWhitespace();
    TrimPadded([], joined, "\n");
    assert [] + joined + "\n" == Listing(lines);
  }

  /** Trimming the listing of non-empty lines and splitting it again gives back the lines. */
  lemma LinesOfListing(lines: seq<string>)
    requires forall i :: 0 <= i < |lines| ==> lines[i] != [] && '\n' !in lines[i]
    requires IsTrimmed(Join(lines, '\n'))
    ensures OutputLines(Listing(lines)) == lines
  {
    var output := Listing(lines);
    OutputLinesUnfold(output);
    if lines == [] {
      assert Split([], '\n') == [[]];
    } else {
      TrimListing(lines);
      SplitJoin(lines, '\n');
      RemoveEmptyKeepsNonEmpty(lines);
    }
  }

  lemma OutputLinesUnfold(output: string)
    ensures OutputLines(output) == RemoveEmpty(Split(Trim(output), '\n'))
  {
  }

  /**
   * Parsing `--name-only` output recovers the staged paths, provided no path
   * is empty or holds a line break and the listing neither starts nor ends
   * with whitespace.
   */
  lemma StagedFilesRoundTrip(files: seq<string>)
    requires forall i :: 0 <= i < |files| ==> files[i] != [] && '\n' !in files[i]
    requires IsTrimmed(Join(files, '\n'))
    ensures StagedFiles(Listing(files)) == files
  {
    LinesOfListing(files);
  }

  /** The staged list is empty exactly when the output is nothing but whitespace. */
  lemma NothingStagedIffBlank(output: string)
    ensures StagedFiles(output) == [] <==> Trim(output) == []
  {
    var t := Trim(output);
    if t != [] {
      var parts := Split(t, '\n');
      assert parts[0] != [] by {
        assert t[0] != '\n';
        assert parts == Split(t, '\n');
      }
      assert parts[0] in parts;
      assert parts[0] in StagedFiles(output);
    } else {
      assert Split(t, '\n') == [[]];
    }
  }

  /** Totals shown for the staged changes. */
  datatype DiffStats = DiffStats(filesChanged: nat, insertions: int, deletions: int)

  /**
   * `parseInt(field, 10) || 0` for tab field `k` of a numstat line: an absent
   * field (`undefined`) or one without leading digits (`NaN`, as for the `-`
   * git prints for binary files) counts as 0.
   */
  function FieldCount(line: string, k: nat): int {
    var fields := Split(line, '\t');
    if k < |fields| then ParseInt(fields[k]).GetOr(0) else 0
  }

  /** A missing field counts 0; on a line without a tab, field 0 is the whole line read as a number. */
  lemma FieldCountCases(line: string, k: nat)
    ensures k >= |Split(line, '\t')| ==> FieldCount(line, k) == 0
    ensures '\t' !in line ==> FieldCount(line, k) == if k == 0 then ParseInt(line).GetOr(0) else 0
  {
    if '\t' !in line {
      SplitNoSeparator(line, '\t');
    }
  }

  /** The sum of field `k` over the lines. */
  function ColumnTotal(lines: seq<string>, k: nat): int {
    if lines == [] then 0
    else ColumnTotal(lines[..|lines| - 1], k) + FieldCount(lines[|lines| - 1], k)
  }

  /** The `forEach` over the numstat lines: the summed first and second fields. */
  method SumColumns(lines: seq<string>) returns (insertions: int, deletions: int)
    ensures insertions == ColumnTotal(lines, 0)
    ensures deletions == ColumnTotal(lines, 1)
  {
    insertions, deletions := 0, 0;
    for i := 0 to |lines|
      invariant insertions == ColumnTotal(lines[..i], 0)
      invariant deletions == ColumnTotal(lines[..i], 1)
    {
      ColumnTotalStep(lines, i, 0);
      ColumnTotalStep(lines, i, 1);
      insertions := insertions + FieldCount(lines[i], 0);
      deletions := deletions + FieldCount(lines[i], 1);
    }
    assert lines[..|lines|] == lines;
  }

  /**
   * `getDiffStatistics`: fold the non-empty numstat lines into the number of
   * files and the summed first (insertions) and second (deletions) fields.
   */
  method DiffStatistics(output: string) returns (stats: DiffStats)
    ensures stats.filesChanged == |OutputLines(output)|
    ensures stats.insertions == ColumnTotal(OutputLines(output), 0)
    ensures stats.deletions == ColumnTotal(OutputLines(output), 1)
  {
    var lines := OutputLines(output);
    var insertions, deletions := SumColumns(lines);
    stats := DiffStats(|lines|, insertions, deletions);
  }

  lemma ColumnTotalStep(lines: seq<string>, i: nat, k: nat)
    requires i < |lines|
    ensures ColumnTotal(lines[..i + 1], k) == ColumnTotal(lines[..i], k) + FieldCount(lines[i], k)
  {
    assert lines[..i + 1][..i] == lines[..i];
  }

  /** Totals are additive over any split of the lines. */
  lemma {:induction false} ColumnTotalAppend(a: seq<string>, b: seq<string>, k: nat)
    ensures ColumnTotal(a + b, k) == ColumnTotal(a, k) + ColumnTotal(b, k)
  {
    if b == [] {
      assert a + b == a;
    } else {
      var b' := b[..|b| - 1];
      assert (a + b)[..|a + b| - 1] == a + b';
      assert (a + b)[|a + b| - 1] == b[|b| - 1];
      ColumnTotalAppend(a, b', k);
    }
  }

  /** One file's numstat record: counts, or `None` where git prints `-` (binary files). */
  datatype NumstatEntry = NumstatEntry(added: Option<nat>, removed: Option<nat>, path: string)

  function CountText(n: Option<nat>): string {
    match n
    case Some(v) => Decimal(v)
    case None => "-"
  }

  /** The line `git diff --numstat` prints for one entry. */
  function NumstatLine(e: NumstatEntry): string {
    CountText(e.added) + "\t" + CountText(e.removed) + "\t" + e.path
  }

  function NumstatLines(entries: seq<NumstatEntry>): (lines: seq<string>)
    ensures |lines| == |entries|
    ensures forall i :: 0 <= i < |entries| ==> lines[i] == NumstatLine(entries[i])
  {
    seq(|entries|, i requires 0 <= i < |entries| => NumstatLine(entries[i]))
  }

  /** The whole `--numstat` output for a list of entries. */
  function NumstatOutput(entries: seq<NumstatEntry>): string {
    Listing(NumstatLines(entries))
  }

  function SumAdded(entries: seq<NumstatEntry>): nat {
    if entries == [] then 0 else SumAdded(entries[..|entries| - 1]) + entries[|entries| - 1].added.GetOr(0)
  }

  function SumRemoved(entries: seq<NumstatEntry>): nat {
    if entries == [] then 0 else SumRemoved(entries[..|entries| - 1]) + entries[|entries| - 1].removed.GetOr(0)
  }

  /**
   * A path as numstat prints it: git quotes any path holding a tab or a
   * line break, so a printed path holds neither.  It may begin or end with
   * spaces.
   */
  predicate PlainPath(p: string) {
    '\n' !in p && '\t' !in p
  }

  lemma CountTextParses(n: Option<nat>, rest: string)
    requires rest == [] || rest[0] == '\t'
    ensures ParseInt(CountText(n) + rest).GetOr(0) == n.GetOr(0)
  {
    match n
    case Some(v) =>
      ParseIntDecimal(v, rest);
    case None =>
      ParseIntOfBareSign(rest);
  }

  lemma CountTextShape(n: Option<nat>)
    ensures CountText(n) != [] && '\t' !in CountText(n) && '\n' !in CountText(n)
    ensures !IsWhitespace(CountText(n)[0])
  {
    match n
    case Some(v) =>
      var d := Decimal(v);
      assert forall i :: 0 <= i < |d| ==> IsDigit(d[i]);
    case None =>
  }

  /** The fields of a numstat line are the two counts and the path. */
  lemma NumstatLineFields(e: NumstatEntry)
    requires '\t' !in e.path
    ensures FieldCount(NumstatLine(e), 0) == e.added.GetOr(0)
    ensures FieldCount(NumstatLine(e), 1) == e.removed.GetOr(0)
  {
    var a, r := CountText(e.added), CountText(e.removed);
    assert NumstatLine(e) == a + "\t" + r + ("\t" + e.path);
    CountsThenTail(e, "\t" + e.path);
  }

  /**
   * The two counts, a tab, and then nothing or a tab and a tab-free rest:
   * fields 0 and 1 are the counts.
   */
  lemma CountsThenTail(e: NumstatEntry, tail: string)
    requires tail == [] || (tail[0] == '\t' && '\t' !in tail[1..])
    ensures var line := CountText(e.added) + "\t" + CountText(e.removed) + tail;
      && FieldCount(line, 0) == e.added.GetOr(0)
      && FieldCount(line, 1) == e.removed.GetOr(0)
  {
    var a, r := CountText(e.added), CountText(e.removed);
    var line := a + "\t" + r + tail;
    CountTextShape(e.added);
    CountTextShape(e.removed);
    if tail == [] {
      assert line == a + ['\t'] + r;
      SplitAtFirst(a, '\t', r);
      SplitNoSeparator(r, '\t');
    } else {
      assert line == a + "\t" + r + "\t" + tail[1..];
      SplitFields(a, r, tail[1..]);
    }
    CountTextParses(e.added, []);
    CountTextParses(e.removed, []);
    assert a + [] == a && r + [] == r;
  }

  /** `trim` can cut the end of the last path, never into the counts before it. */
  lemma TrimmedLineFields(e: NumstatEntry)
    requires '\t' !in e.path
    ensures var t := TrimEnd(NumstatLine(e));
      && FieldCount(t, 0) == e.added.GetOr(0)
      && FieldCount(t, 1) == e.removed.GetOr(0)
  {
    var a, r := CountText(e.added), CountText(e.removed);
    var head, rest := a + "\t" + r, "\t" + e.path;
    CountTextShape(e.removed);
    assert head[|head| - 1] == r[|r| - 1];
    assert NumstatLine(e) == head + rest;
    TrimEndWithin(head, rest);
    TabTailTrimmed(e.path);
    CountsThenTail(e, TrimEnd(rest));
  }

  /** A tab and a tab-free path, trimmed at the end: nothing, or the tab and a tab-free rest. */
  lemma TabTailTrimmed(path: string)
    requires '\t' !in path
    ensures var q := TrimEnd("\t" + path);
      q == [] || (q[0] == '\t' && '\t' !in q[1..])
  {
    var q := TrimEnd("\t" + path);
    if q != [] {
      assert q[1..] == path[..|q| - 1];
      assert forall c :: c in q[1..] ==> c in path;
    }
  }

  lemma {:induction false} NumstatColumns(entries: seq<NumstatEntry>)
    requires forall i :: 0 <= i < |entries| ==> '\t' !in entries[i].path
    ensures ColumnTotal(NumstatLines(entries), 0) == SumAdded(entries)
    ensures ColumnTotal(NumstatLines(entries), 1) == SumRemoved(entries)
  {
    if entries != [] {
      var n := |entries|;
      var lines := NumstatLines(entries);
      assert lines[..n - 1] == NumstatLines(entries[..n - 1]);
      NumstatColumns(entries[..n - 1]);
      NumstatLineFields(entries[n - 1]);
    }
  }

  /**
   * The statistics of genuine `--numstat` output: one file per entry, and
   * the summed counts, binary entries contributing nothing.  The final
   * `trim` may shorten the last path, but never reaches its counts.
   */
  lemma NumstatRoundTrip(entries: seq<NumstatEntry>)
    requires forall i :: 0 <= i < |entries| ==> PlainPath(entries[i].path)
    ensures |OutputLines(NumstatOutput(entries))| == |entries|
    ensures ColumnTotal(OutputLines(NumstatOutput(entries)), 0) == SumAdded(entries)
    ensures ColumnTotal(OutputLines(NumstatOutput(entries)), 1) == SumRemoved(entries)
  {
    var lines := NumstatLines(entries);
    if entries == [] {
      LinesOfListing(lines);
    } else {
      var trimmed := TrimLast(lines);
      assert OutputLines(NumstatOutput(entries)) == trimmed by {
        TrimmedOutput(entries);
      }
      assert ColumnTotal(trimmed, 0) == SumAdded(entries) && ColumnTotal(trimmed, 1) == SumRemoved(entries) by {
        PrefixColumns(entries);
        TrimmedTotals(entries);
      }
    }
  }

  /** The output lines of a non-empty numstat listing are its lines with the last one trimmed. */
  lemma TrimmedOutput(entries: seq<NumstatEntry>)
    requires entries != []
    requires forall i :: 0 <= i < |entries| ==> PlainPath(entries[i].path)
    ensures OutputLines(NumstatOutput(entries)) == TrimLast(NumstatLines(entries))
  {
    var lines := NumstatLines(entries);
    NumstatLinesShape(entries);
    NumstatListingTrim(lines);
    assert NumstatOutput(entries) == Listing(lines);
  }

  /**
   * The column totals of the numstat lines, the last one trimmed, are the
   * summed counts, given that those of all lines but the last are.
   */
  lemma TrimmedTotals(entries: seq<NumstatEntry>)
    requires entries != [] && '\t' !in entries[|entries| - 1].path
    requires var prefix := entries[..|entries| - 1];
      ColumnTotal(NumstatLines(prefix), 0) == SumAdded(prefix) && ColumnTotal(NumstatLines(prefix), 1) == SumRemoved(prefix)
    ensures ColumnTotal(TrimLast(NumstatLines(entries)), 0) == SumAdded(entries)
    ensures ColumnTotal(TrimLast(NumstatLines(entries)), 1) == SumRemoved(entries)
  {
    TrimmedLines(entries);
    SumSnoc(entries);
  }

  /** The column totals of all lines but the last are those of all entries but the last. */
  lemma PrefixColumns(entries: seq<NumstatEntry>)
    requires entries != []
    requires forall i :: 0 <= i < |entries| ==> PlainPath(entries[i].path)
    ensures var prefix := entries[..|entries| - 1];
      ColumnTotal(NumstatLines(prefix), 0) == SumAdded(prefix) && ColumnTotal(NumstatLines(prefix), 1) == SumRemoved(prefix)
  {
    var prefix := entries[..|entries| - 1];
    assert forall i :: 0 <= i < |prefix| ==> PlainPath(prefix[i].path) by {
      forall i | 0 <= i < |prefix| ensures PlainPath(prefix[i].path) {
        assert prefix[i] == entries[i];
      }
    }
    NumstatColumns(prefix);
  }

  /** A column total is that of all lines but the last, plus the last line's field. */
  lemma ColumnTotalSnoc(lines: seq<string>, k: nat)
    requires lines != []
    ensures ColumnTotal(lines, k) == ColumnTotal(lines[..|lines| - 1], k) + FieldCount(lines[|lines| - 1], k)
  {
  }

  /** The summed counts are those of all entries but the last, plus the last entry's. */
  lemma SumSnoc(entries: seq<NumstatEntry>)
    requires entries != []
    ensures SumAdded(entries) == SumAdded(entries[..|entries| - 1]) + entries[|entries| - 1].added.GetOr(0)
    ensures SumRemoved(entries) == SumRemoved(entries[..|entries| - 1]) + entries[|entries| - 1].removed.GetOr(0)
  {
  }

  /** Trimming the numstat lines keeps all but the last, and the last keeps its counts. */
  lemma TrimmedLines(entries: seq<NumstatEntry>)
    requires entries != [] && '\t' !in entries[|entries| - 1].path
    ensures var trimmed, init := TrimLast(NumstatLines(entries)), NumstatLines(entries[..|entries| - 1]);
      && ColumnTotal(trimmed, 0) == ColumnTotal(init, 0) + entries[|entries| - 1].added.GetOr(0)
      && ColumnTotal(trimmed, 1) == ColumnTotal(init, 1) + entries[|entries| - 1].removed.GetOr(0)
  {
    var trimmed := TrimLast(NumstatLines(entries));
    NumstatLinesInit(entries);
    TrimmedLineFields(entries[|entries| - 1]);
    ColumnTotalSnoc(trimmed, 0);
    ColumnTotalSnoc(trimmed, 1);
  }

  lemma NumstatLinesInit(entries: seq<NumstatEntry>)
    requires entries != []
    ensures NumstatLines(entries)[..|entries| - 1] == NumstatLines(entries[..|entries| - 1])
  {
  }

  /** Every numstat line is non-empty, holds no break and starts with its first count. */
  lemma NumstatLinesShape(entries: seq<NumstatEntry>)
    requires forall i :: 0 <= i < |entries| ==> PlainPath(entries[i].path)
    ensures var lines := NumstatLines(entries);
      forall i :: 0 <= i < |lines| ==> lines[i] != [] && '\n' !in lines[i] && !IsWhitespace(lines[i][0])
  {
    var lines := NumstatLines(entries);
    forall i | 0 <= i < |lines|
      ensures lines[i] != [] && '\n' !in lines[i] && !IsWhitespace(lines[i][0])
    {
      CountTextShape(entries[i].added);
      CountTextShape(entries[i].removed);
      assert lines[i][0] == CountText(entries[i].added)[0];
    }
  }

  /** The lines with the last one cut back by `trimEnd`. */
  function TrimLast(lines: seq<string>): (r: seq<string>)
    requires lines != []
    ensures |r| == |lines| && r[..|r| - 1] == lines[..|lines| - 1]
    ensures r[|r| - 1] == TrimEnd(lines[|lines| - 1])
  {
    if |lines| == 1 then [TrimEnd(lines[0])]
    else
      var rest := TrimLast(lines[1..]);
      assert lines[..|lines| - 1] == [lines[0]] + lines[1..][..|lines| - 2];
      [lines[0]] + rest
  }

  /**
   * When every line is non-empty, holds no break and starts with a
   * non-whitespace character, `trim` on the listing only shortens its last
   * line, and the parse gives back the lines with that one cut.
   */
  lemma NumstatListingTrim(lines: seq<string>)
    requires lines != []
    requires forall i :: 0 <= i < |lines| ==> lines[i] != [] && '\n' !in lines[i] && !IsWhitespace(lines[i][0])
    ensures OutputLines(Listing(lines)) == TrimLast(lines)
  {
    var trimmed := TrimLast(lines);
    ListingTrimmed(lines);
    TrimLastLines(lines);
    SplitJoin(trimmed, '\n');
    RemoveEmptyKeepsNonEmpty(trimmed);
    OutputLinesUnfold(Listing(lines));
  }

  /** `trim` of such a listing is the join of its lines with the last one trimmed. */
  lemma ListingTrimmed(lines: seq<string>)
    requires lines != []
    requires forall i :: 0 <= i < |lines| ==> lines[i] != [] && !IsWhitespace(lines[i][0])
    ensures Trim(Listing(lines)) == Join(TrimLast(lines), '\n')
  {
    var output, l := Listing(lines), lines[|lines| - 1];
    assert TrimEnd(l)[0] == l[0];
    TrimEndOfListing(lines);
    JoinEnds(lines, '\n');
    assert output[0] == lines[0][0];
    TrimStartKeeps(output);
  }

  /** Lines that are non-empty, break-free and start with a non-blank stay non-empty and break-free once the last is trimmed. */
  lemma {:induction false} TrimLastLines(lines: seq<string>)
    requires lines != []
    requires forall i :: 0 <= i < |lines| ==> lines[i] != [] && '\n' !in lines[i] && !IsWhitespace(lines[i][0])
    ensures forall i :: 0 <= i < |lines| ==> TrimLast(lines)[i] != [] && '\n' !in TrimLast(lines)[i]
  {
    var l := lines[0];
    if |lines| == 1 {
      assert TrimEnd(l)[0] == l[0];
      assert forall c :: c in TrimEnd(l) ==> c in l;
    } else {
      var rest := lines[1..];
      assert forall i :: 0 <= i < |rest| ==> rest[i] == lines[i + 1];
      TrimLastLines(rest);
      var t := TrimLast(lines);
      forall i | 0 <= i < |lines|
        ensures t[i] != [] && '\n' !in t[i]
      {
        if i > 0 {
          assert t[i] == TrimLast(rest)[i - 1];
        }
      }
    }
  }

  /** `trimEnd` of a listing whose last line keeps something is the join with that line trimmed. */
  lemma {:induction false} TrimEndOfListing(lines: seq<string>)
    requires lines != [] && TrimEnd(lines[|lines| - 1]) != []
    ensures TrimEnd(Listing(lines)) == Join(TrimLast(lines), '\n')
  {
    var l := lines[0];
    if |lines| == 1 {
      assert Listing(lines) == l + "\n";
      assert (l + "\n")[..|l + "\n"| - 1] == l;
      assert TrimLast(lines) == [TrimEnd(l)];
    } else {
      var rest := lines[1..];
      assert rest[|rest| - 1] == lines[|lines| - 1];
      TrimEndOfListing(rest);
      JoinEnds(TrimLast(rest), '\n');
      ListingCons(lines);
      TrimEndWithin(l + "\n", Listing(rest));
      JoinCons(l, TrimLast(rest), '\n');
    }
  }

  /** A listing of two or more lines is the first line, its break, and the listing of the rest. */
  lemma ListingCons(lines: seq<string>)
    requires |lines| >= 2
    ensures Listing(lines) == (lines[0] + "\n") + Listing(lines[1..])
  {
  }

  /** Three tab-free fields joined by tabs split back into them. */
  lemma SplitFields(a: string, b: string, c: string)
    requires '\t' !in a && '\t' !in b && '\t' !in c
    ensures Split(a + "\t" + b + "\t" + c, '\t') == [a, b, c]
  {
    assert a + "\t" + b + "\t" + c == a + ['\t'] + (b + ['\t'] + c);
    SplitAtFirst(a, '\t', b + ['\t'] + c);
    SplitAtFirst(b, '\t', c);
    SplitNoSeparator(c, '\t');
  }

  lemma ColumnTotalTwo(a: string, b: string, k: nat)
    ensures ColumnTotal([a, b], k) == FieldCount(a, k) + FieldCount(b, k)
  {
    assert [a][..0] == [];
    assert ColumnTotal([a], k) == FieldCount(a, k);
    assert [a, b][..1] == [a];
  }

  /** Two numstat lines, the second with a field that is not a number. */
  const EXAMPLE_NUMSTAT: string := "10\t5\tf1\n3\tabc\tf2\n"

  lemma ExampleLines()
    ensures OutputLines(EXAMPLE_NUMSTAT) == ["10\t5\tf1", "3\tabc\tf2"]
  {
    var l1, l2 := "10\t5\tf1", "3\tabc\tf2";
    assert EXAMPLE_NUMSTAT == Listing([l1, l2]);
    assert IsTrimmed(Join([l1, l2], '\n')) by {
      assert Join([l1, l2], '\n') == l1 + ['\n'] + l2;
    }
    LinesOfListing([l1, l2]);
  }

  lemma FirstExampleFields()
    ensures FieldCount("10\t5\tf1", 0) == 10 && FieldCount("10\t5\tf1", 1) == 5
  {
    var e := NumstatEntry(Some(10), Some(5), "f1");
    assert Decimal(10) == "10" && Decimal(5) == "5";
    assert NumstatLine(e) == "10\t5\tf1";
    NumstatLineFields(e);
  }

  lemma SecondExampleFields()
    ensures FieldCount("3\tabc\tf2", 0) == 3 && FieldCount("3\tabc\tf2", 1) == 0
  {
    SplitFields("3", "abc", "f2");
    assert "3" == Decimal(3) + [];
    ParseIntDecimal(3, []);
    var abc := "abc";
    assert abc[0] == 'a' && !IsWhitespace(abc[0]);
    assert ParseInt(abc) == None;
  }

  /**
   * Two files, `10 5` and `3 abc`: the field `abc` does not parse and
   * counts as 0, so the totals are 13 insertions and 5 deletions.
   */
  lemma DiffStatisticsExample()
    ensures |OutputLines(EXAMPLE_NUMSTAT)| == 2
    ensures ColumnTotal(OutputLines(EXAMPLE_NUMSTAT), 0) == 13
    ensures ColumnTotal(OutputLines(EXAMPLE_NUMSTAT), 1) == 5
  {
    ExampleLines();
    ExampleTotals();
  }

  /** The column totals of the two example lines. */
  lemma ExampleTotals()
    ensures ColumnTotal(["10\t5\tf1", "3\tabc\tf2"], 0) == 13
    ensures ColumnTotal(["10\t5\tf1", "3\tabc\tf2"], 1) == 5
  {
    FirstExampleFields();
    SecondExampleFields();
    ColumnTotalTwo("10\t5\tf1", "3\tabc\tf2", 0);
    ColumnTotalTwo("10\t5\tf1", "3\tabc\tf2", 1);
  }

  /**
   * `createCommitMessageFile`'s content: the message alone when the
   * description is absent or empty (`if (description)`), otherwise the
   * message, a blank line and the description.
   */
  function MessageFileText(message: string, description: Option<string>): (content: string)
    ensures |content| >= |message| && content[..|message|] == message
    ensures content == message <==> !Truthy(description)
    ensures Truthy(description) ==> content[|message|..] == "\n\n" + description.value
  {
    if Truthy(description) then message + "\n\n" + description.value else message
  }

  /**
   * `readCommitMessageFile`: the first line, trimmed, is the message; the
   * second line is dropped whatever it holds; the rest, trimmed, is the
   * description.
   */
  function ReadCommitMessageFile(content: string): (c: GeneratedCommit)
    ensures '\n' !in c.message
    ensures IsTrimmed(c.message) && IsTrimmed(c.description)
  {
    var lines := Split(content, '\n');
    GeneratedCommit(Trim(lines[0]), Trim(Join(if |lines| > 2 then lines[2..] else [], '\n')))
  }

  /**
   * Reading back the file written for a single-line, trimmed message and a
   * trimmed description gives them back, an empty description included.
   */
  lemma ReadAfterCreate(message: string, description: string)
    requires '\n' !in message && IsTrimmed(message) && IsTrimmed(description)
    ensures ReadCommitMessageFile(MessageFileText(message, Some(description))) == GeneratedCommit(message, description)
  {
    TrimOfTrimmed(message);
    if description == [] {
      assert MessageFileText(message, Some(description)) == message;
      ReadOneLine(message);
    } else {
      assert MessageFileText(message, Some(description)) == message + "\n\n" + description;
      ReadBlankSeparated(message, description);
      TrimOfTrimmed(description);
    }
  }

  /** A first line, a blank line and the rest: the message and the description are those two, trimmed. */
  lemma ReadBlankSeparated(message: string, description: string)
    requires '\n' !in message
    ensures ReadCommitMessageFile(message + "\n\n" + description) == GeneratedCommit(Trim(message), Trim(description))
  {
    assert message + "\n\n" + description == message + "\n" + [] + "\n" + description;
    ReadLongFile(message, [], description);
  }

  /**
   * A file of at least three lines: the message is the trimmed first line
   * and the description is everything after the second line break, trimmed.
   */
  lemma ReadLongFile(first: string, second: string, rest: string)
    requires '\n' !in first && '\n' !in second
    ensures ReadCommitMessageFile(first + "\n" + second + "\n" + rest) == GeneratedCommit(Trim(first), Trim(rest))
  {
    var content := first + "\n" + second + "\n" + rest;
    assert content == first + ['\n'] + (second + ['\n'] + rest);
    SplitAtFirst(first, '\n', second + ['\n'] + rest);
    SplitAtFirst(second, '\n', rest);
    var lines := Split(content, '\n');
    assert lines[2..] == Split(rest, '\n');
  }

  /** A file of one line: the message is that line, trimmed, and there is no description. */
  lemma ReadOneLine(first: string)
    requires '\n' !in first
    ensures ReadCommitMessageFile(first) == GeneratedCommit(Trim(first), [])
  {
    SplitNoSeparator(first, '\n');
    assert Join([], '\n') == [];
  }

  /** A file of two lines: the message is the first line, trimmed, and there is no description. */
  lemma ReadTwoLines(first: string, second: string)
    requires '\n' !in first && '\n' !in second
    ensures ReadCommitMessageFile(first + "\n" + second) == GeneratedCommit(Trim(first), [])
  {
    SplitAtFirst(first, '\n', second);
    SplitNoSeparator(second, '\n');
    assert Split(first + "\n" + second, '\n') == [first, second];
    assert Join([], '\n') == [];
  }

  /** Whatever the second line of the file holds, it does not change what is read. */
  lemma ReadIgnoresSecondLine(first: string, x: string, y: string, rest: string)
    requires '\n' !in first && '\n' !in x && '\n' !in y
    ensures ReadCommitMessageFile(first + "\n" + x + "\n" + rest) == ReadCommitMessageFile(first + "\n" + y + "\n" + rest)
  {
    ReadLongFile(first, x, rest);
    ReadLongFile(first, y, rest);
  }

  /**
   * A file saved with Windows line endings: the carriage returns are
   * trimmed away from the message and the description, and the second
   * line, a lone carriage return, is dropped.
   */
  lemma ReadCrlf(message: string, description: string)
    requires '\n' !in message && IsTrimmed(message) && IsTrimmed(description)
    ensures ReadCommitMessageFile(message + "\r\n\r\n" + description) == GeneratedCommit(message, description)
  {
    var first := message + "\r";
    assert message + "\r\n\r\n" + description == first + "\n" + "\r" + "\n" + description;
    ReadLongFile(first, "\r", description);
    TrimCarriageReturn(message);
    TrimOfTrimmed(description);
  }

  /** `createCommit`: the arguments passed to git, with a second `-m` only for a non-empty description. */
  function CommitArgs(message: string, description: Option<string>): (args: seq<string>)
    ensures |args| == if Truthy(description) then 5 else 3
    ensures args[..3] == ["commit", "-m", message]
    ensures Truthy(description) ==> args[3..] == ["-m", description.value]
  {
    if Truthy(description) then ["commit", "-m", message, "-m", description.value]
    else ["commit", "-m", message]
  }

  /** The values of consecutive `-m` options. */
  function MessageOptions(opts: seq<string>): seq<string> {
    if |opts| >= 2 && opts[0] == "-m" then [opts[1]] + MessageOptions(opts[2..]) else []
  }

  /** Paragraphs joined by blank lines. */
  function Paragraphs(ps: seq<string>): string {
    if ps == [] then [] else if |ps| == 1 then ps[0] else ps[0] + "\n\n" + Paragraphs(ps[1..])
  }

  /**
   * The commit message git records for `git commit -m a -m b ...`: the
   * values as separate paragraphs (git's documented rule; its clean-up of
   * whitespace and comments is not modelled).
   */
  function RecordedMessage(args: seq<string>): string
    requires |args| >= 1
  {
    Paragraphs(MessageOptions(args[1..]))
  }

  /**
   * Committing a draft with `-m` options records the same text that the
   * temporary message file holds for it, so committing the draft directly
   * and committing the unedited file agree.
   */
  lemma ArgsMatchMessageFile(message: string, description: Option<string>)
    ensures RecordedMessage(CommitArgs(message, description)) == MessageFileText(message, description)
  {
    var args := CommitArgs(message, description);
    if Truthy(description) {
      var d := description.value;
      assert MessageOptions(["-m", d]) == [d] by {
        MessageOptionsCons(d, []);
        assert ["-m", d] + [] == ["-m", d];
      }
      assert MessageOptions(args[1..]) == [message, d] by {
        MessageOptionsCons(message, ["-m", d]);
        assert args[1..] == ["-m", message] + ["-m", d];
      }
      assert [message, d][1..] == [d];
      assert Paragraphs([message, d]) == message + "\n\n" + d;
    } else {
      MessageOptionsCons(message, []);
      assert args[1..] == ["-m", message] + [];
    }
  }

  lemma MessageOptionsCons(v: string, rest: seq<string>)
    ensures MessageOptions(["-m", v] + rest) == [v] + MessageOptions(rest)
  {
    assert (["-m", v] + rest)[2..] == rest;
  }
}
