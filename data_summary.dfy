/** The descriptive-statistics table of the reference data: the reference
    values of the building and roof validation files are cleaned, grouped by
    attribute, summarised (count, mean, standard deviation, minimum,
    maximum) and written as LaTeX table rows, one per configured attribute,
    with "--" placeholders for attributes that have no data. */
module DataSummary {
  import opened Wrappers
  import opened Text
  import opened Stats
  import opened Validators

  /** One line of the table: where it goes, how it is titled, which
      attribute feeds it and how many decimals its numbers get. */
  datatype RowSpec = RowSpec(category: string, title: string, attributeName: string, decimals: nat)

  const RowSpecs: seq<RowSpec> := [
    RowSpec("Building", "Footprint area (m$^2$)", "footprint_area", 2),
    RowSpec("Building", "Minimum height (m)", "min_height", 3),
    RowSpec("Roof", "Surface area (m$^2$)", "surface_area", 2),
    RowSpec("Roof", "Tilt ($^\\circ$)", "tilt", 2),
    RowSpec("Roof", "Azimuth ($^\\circ$)", "azimuth", 2)
  ]

  /** A CSV file as read: its path, its header and, per row, the text of
      each cell (`None` for an empty cell). */
  datatype Csv = Csv(path: string, columns: seq<string>, rows: seq<map<string, Option<string>>>)

  /** Names in strictly ascending order, each once: Python's `sorted` of a
      set. */
  function Sorted(xs: seq<string>): (r: seq<string>)
    ensures Ascending(r)
    ensures forall y :: y in r <==> y in xs
  {
    if xs == [] then []
    else
      var prefix := xs[..|xs| - 1];
      assert forall y :: y in xs <==> y in prefix || y == xs[|xs| - 1] by {
        assert xs == prefix + [xs[|xs| - 1]];
      }
      InsertName(Sorted(prefix), xs[|xs| - 1])
  }

  /** Python's `repr` of a list of plain strings. */
  function PyList(xs: seq<string>): string {
    "[" + Join(seq(|xs|, i requires 0 <= i < |xs| => "'" + xs[i] + "'"), ", ") + "]"
  }

  /** `_require_cols`: an error naming the file, the missing columns in
      sorted order and the columns found, when any required column is
      absent. */
  function RequireCols(csv: Csv, required: seq<string>): (r: Result<(), string>)
    ensures r.Success? <==> forall c :: c in required ==> c in csv.columns
    ensures r.Failure? ==>
      exists missing: seq<string> ::
        && Ascending(missing)
        && (forall c :: c in missing <==> c in required && c !in csv.columns)
        && r.error == Base(csv.path) + ": missing columns " + PyList(missing)
                      + ". Found columns: " + PyList(csv.columns)
  {
    var missing := Sorted(Absent(required, csv.columns));
    if missing == [] then Success(())
    else
      assert missing[0] in missing;
      Failure(Base(csv.path) + ": missing columns " + PyList(missing) + ". Found columns: " + PyList(csv.columns))
  }

  /** The names of `required` that are not among `columns`, in order. */
  function Absent(required: seq<string>, columns: seq<string>): (r: seq<string>)
    ensures forall c :: c in r <==> c in required && c !in columns
  {
    if required == [] then []
    else
      var rest := Absent(required[1..], columns);
      assert forall c :: c in required <==> c == required[0] || c in required[1..] by {
        assert required == [required[0]] + required[1..];
      }
      if required[0] in columns then rest else [required[0]] + rest
  }

  function Cell(row: map<string, Option<string>>, column: string): Option<string> {
    if column in row then row[column] else None
  }

  /** A cleaned observation: an attribute name and its numeric reference
      value. */
  type Observation = (string, real)

  /** Row `row` yields observation `o`: it names the attribute and its
      value parses as a number. */
  predicate Yields(row: map<string, Option<string>>, parse: string -> Option<real>, o: Observation) {
    && Cell(row, "attribute_name") == Some(o.0)
    && Cell(row, "thematic_value").Some?
    && parse(Cell(row, "thematic_value").value) == Some(o.1)
  }

  /** The rows that keep both an attribute name and a value that parses as
      a number (`to_numeric(errors="coerce")` then `dropna`), in order. */
  function Clean(rows: seq<map<string, Option<string>>>, parse: string -> Option<real>): (r: seq<Observation>)
    ensures |r| <= |rows|
    ensures forall o :: o in r <==> exists i :: 0 <= i < |rows| && Yields(rows[i], parse, o)
  {
    if rows == [] then []
    else
      var rest := Clean(rows[1..], parse);
      var name := Cell(rows[0], "attribute_name");
      var text := Cell(rows[0], "thematic_value");
      var value := if text.Some? then parse(text.value) else None;
      assert forall o :: (exists i :: 1 <= i < |rows| && Yields(rows[i], parse, o)) ==> o in rest by {
        forall o, i | 1 <= i < |rows| && Yields(rows[i], parse, o) ensures o in rest {
          assert rows[1..][i - 1] == rows[i];
        }
      }
      if name.Some? && value.Some? then [(name.value, value.value)] + rest else rest
  }

  /** `_load_and_clean`: the required columns must be present. */
  function LoadAndClean(csv: Csv, parse: string -> Option<real>): (r: Result<seq<Observation>, string>)
    ensures r.Success? <==> "attribute_name" in csv.columns && "thematic_value" in csv.columns
    ensures r.Success? ==> r.value == Clean(csv.rows, parse)
  {
    match RequireCols(csv, ["attribute_name", "thematic_value"])
    case Failure(e) => Failure(e)
    case Success(_) => Success(Clean(csv.rows, parse))
  }

  /** The reference values recorded for one attribute. */
  function ValuesOf(obs: seq<Observation>, name: string): (r: seq<real>)
    ensures |r| <= |obs|
    ensures forall x :: x in r <==> (name, x) in obs
    ensures |r| > 0 <==> exists o :: o in obs && o.0 == name
  {
    if obs == [] then []
    else
      var rest := ValuesOf(obs[1..], name);
      assert forall o :: o in obs <==> o == obs[0] || o in obs[1..] by {
        assert obs == [obs[0]] + obs[1..];
      }
      if obs[0].0 == name then [obs[0].1] + rest else rest
  }

  function Minimum(xs: seq<real>): (r: real)
    requires |xs| > 0
    ensures r in xs && forall x :: x in xs ==> r <= x
  {
    if |xs| == 1 then xs[0]
    else
      var m := Minimum(xs[1..]);
      assert forall x :: x in xs ==> x == xs[0] || x in xs[1..] by {
        assert xs == [xs[0]] + xs[1..];
      }
      if xs[0] <= m then xs[0] else m
  }

  function Maximum(xs: seq<real>): (r: real)
    requires |xs| > 0
    ensures r in xs && forall x :: x in xs ==> x <= r
  {
    if |xs| == 1 then xs[0]
    else
      var m := Maximum(xs[1..]);
      assert forall x :: x in xs ==> x == xs[0] || x in xs[1..] by {
        assert xs == [xs[0]] + xs[1..];
      }
      if xs[0] >= m then xs[0] else m
  }

  /** One group's aggregates. The standard deviation is missing for a
      single value. */
  datatype AttrStats = AttrStats(count: nat, mean: real, std: Option<real>, min: real, max: real)

  function StatsOf(xs: seq<real>, sqrt: real -> real): (s: AttrStats)
    requires |xs| > 0
    ensures s.count == |xs|
    ensures s.std.Some? <==> |xs| >= 2
    ensures s.min in xs && s.max in xs
    ensures forall x :: x in xs ==> s.min <= x <= s.max
    ensures Mean(xs).Some? && s.mean == Mean(xs).value
    ensures s.std == Root(sqrt, SampleVariance(xs))
  {
    AttrStats(|xs|, Mean(xs).value, Root(sqrt, SampleVariance(xs)), Minimum(xs), Maximum(xs))
  }

  /** `_stats_by_attribute`: one entry per attribute name present. */
  function StatsByAttribute(obs: seq<Observation>, sqrt: real -> real): (r: map<string, AttrStats>)
    ensures forall name :: name in r <==> exists o :: o in obs && o.0 == name
    ensures forall name :: name in r ==> |ValuesOf(obs, name)| > 0 && r[name] == StatsOf(ValuesOf(obs, name), sqrt)
  {
    var names := set o | o in obs :: o.0;
    map name | name in names :: StatsOf(ValuesOf(obs, name), sqrt)
  }

  predicate Bounded(total: real, n: real, lo: real, hi: real) {
    n * lo <= total <= n * hi
  }

  /** `lo <= x <= hi` for every value bounds their sum by `n lo` and `n hi`. */
  lemma {:induction false} SumBounds(xs: seq<real>, lo: real, hi: real)
    requires forall x :: x in xs ==> lo <= x <= hi
    ensures Bounded(Sum(xs), |xs| as real, lo, hi)
  {
    if xs != [] {
      assert xs[0] in xs;
      assert forall x :: x in xs[1..] ==> x in xs;
      SumBounds(xs[1..], lo, hi);
      BoundedStep(Sum(xs[1..]), (|xs| - 1) as real, lo, hi, xs[0]);
    }
  }

  lemma BoundedStep(rest: real, m: real, lo: real, hi: real, x: real)
    requires Bounded(rest, m, lo, hi) && lo <= x <= hi
    ensures Bounded(x + rest, m + 1.0, lo, hi)
  {
    assert (m + 1.0) * lo == m * lo + lo;
    assert (m + 1.0) * hi == m * hi + hi;
  }

  lemma FactorNonNegative(p: real, n: real)
    requires n > 0.0 && p * n >= 0.0
    ensures p >= 0.0
  {
  }

  lemma BetweenScaled(n: real, lo: real, m: real, hi: real, total: real)
    requires n > 0.0 && Scaled(total, m, n) && Bounded(total, n, lo, hi)
    ensures lo <= m <= hi
  {
    assert (m - lo) * n == total - n * lo;
    assert (hi - m) * n == n * hi - total;
    FactorNonNegative(m - lo, n);
    FactorNonNegative(hi - m, n);
  }

  /** The mean of some values lies between their minimum and maximum. */
  lemma MeanBetween(xs: seq<real>)
    requires |xs| > 0
    ensures Minimum(xs) <= Mean(xs).value <= Maximum(xs)
  {
    SumBounds(xs, Minimum(xs), Maximum(xs));
    MeanScaled(xs);
    BetweenScaled(|xs| as real, Minimum(xs), Mean(xs).value, Maximum(xs), Sum(xs));
  }

  /** Every summary line is consistent: the mean lies between the minimum
      and the maximum, and the count is the number of observations of the
      attribute. */
  lemma StatsConsistent(obs: seq<Observation>, sqrt: real -> real, name: string)
    requires name in StatsByAttribute(obs, sqrt)
    ensures var s := StatsByAttribute(obs, sqrt)[name];
      s.min <= s.mean <= s.max && s.count == |ValuesOf(obs, name)| && s.count > 0
  {
    MeanBetween(ValuesOf(obs, name));
  }

  /** `_fmt`: a missing number prints as "--"; `render(x, d)` is the text of
      `x` to `d` decimals. */
  function Fmt(x: Option<real>, decimals: nat, render: (real, nat) -> string): (r: string)
    ensures x.None? ==> r == "--"
    ensures x.Some? ==> r == render(x.value, decimals)
  {
    if x.None? then "--" else render(x.value, decimals)
  }

  /** The seven cells of a line: category, label, then count, mean, standard
      deviation, minimum and maximum, or five placeholders when the
      attribute has no data. */
  function Cells(spec: RowSpec, stats: map<string, AttrStats>, render: (real, nat) -> string): (r: seq<string>)
    ensures |r| == 7 && r[0] == spec.category && r[1] == spec.title
    ensures spec.attributeName !in stats ==> r[2..] == ["--", "--", "--", "--", "--"]
    ensures spec.attributeName in stats ==> var s := stats[spec.attributeName];
      r[2] == Itoa(s.count) && r[3] == render(s.mean, spec.decimals) && r[4] == Fmt(s.std, spec.decimals, render)
      && r[5] == render(s.min, spec.decimals) && r[6] == render(s.max, spec.decimals)
  {
    if spec.attributeName !in stats then
      [spec.category, spec.title, "--", "--", "--", "--", "--"]
    else
      var s := stats[spec.attributeName];
      [spec.category, spec.title, Itoa(s.count), Fmt(Some(s.mean), spec.decimals, render),
       Fmt(s.std, spec.decimals, render), Fmt(Some(s.min), spec.decimals, render),
       Fmt(Some(s.max), spec.decimals, render)]
  }

  const LineEnd: string := " \\\\"

  /** `_row_to_latex`: the cells joined by " & ", then the LaTeX line
      break. */
  function RowToLatex(spec: RowSpec, stats: map<string, AttrStats>, render: (real, nat) -> string): string {
    Join(Cells(spec, stats, render), " & ") + LineEnd
  }

  /** The column specification of the tabular environment and its header. */
  const ColumnSpec: string := "llrrrrr"
  const HeaderCells: seq<string> := ["Category", "Attribute", "Count", "Mean", "Std. Dev.", "Min", "Max"]

  /** Every line of the table has exactly one cell per declared column, as
      does the header. */
  lemma RowsFitTable(spec: RowSpec, stats: map<string, AttrStats>, render: (real, nat) -> string)
    ensures |Cells(spec, stats, render)| == |ColumnSpec| == |HeaderCells|
  {
  }

  /** `_full_table`: the rows wrapped in a captioned tabular environment,
      one line each. */
  function FullTable(rows: seq<string>): string {
    Join(TablePrefix() + rows + TableSuffix(), "\n")
  }

  const Caption: string :=
    "\\caption{Descriptive statistics " + "of building- and roof-level "
    + "attributes for the Bavarian " + "LoD2 dataset.}"

  function TablePrefix(): seq<string> {
    [ "\\begin{table}[t]",
      "\\centering",
      Caption,
      "\\label{tab:bavaria_summary}",
      "\\begin{tabular}{" + ColumnSpec + "}",
      "\\hline",
      Join(HeaderCells, " & ") + LineEnd,
      "\\hline" ]
  }

  function TableSuffix(): seq<string> {
    ["\\hline", "\\end{tabular}", "\\end{table}"]
  }

  /** Read back line by line, the full table is the eight opening lines
      (ending with the header between two `\hline` rules), then the rows
      unchanged and in order, then the closing rule and the two `\end`
      lines — as long as no row spans more than one line. */
  lemma FullTableLines(rows: seq<string>)
    requires forall k :: 0 <= k < |rows| ==> '\n' !in rows[k]
    ensures var lines := Split(FullTable(rows), '\n');
      && |lines| == 8 + |rows| + 3
      && lines[..8] == TablePrefix()
      && lines[8..8 + |rows|] == rows
      && lines[8 + |rows|..] == TableSuffix()
      && lines[5] == lines[7] == lines[8 + |rows|] == "\\hline"
      && lines[6] == Join(HeaderCells, " & ") + LineEnd
  {
    var all := TablePrefix() + rows + TableSuffix();
    FullTableSplit(rows);
    FrameShape();
    assert all[..8] == TablePrefix();
    assert all[8..8 + |rows|] == rows;
    assert all[8 + |rows|..] == TableSuffix();
  }

  lemma FullTableSplit(rows: seq<string>)
    requires forall k :: 0 <= k < |rows| ==> '\n' !in rows[k]
    ensures Split(FullTable(rows), '\n') == TablePrefix() + rows + TableSuffix()
  {
    FrameLines();
    NoBreakConcat(TablePrefix(), rows, TableSuffix());
    SplitJoin(TablePrefix() + rows + TableSuffix(), '\n');
  }

  lemma NoBreakConcat(a: seq<string>, b: seq<string>, c: seq<string>)
    requires forall k :: 0 <= k < |a| ==> '\n' !in a[k]
    requires forall k :: 0 <= k < |b| ==> '\n' !in b[k]
    requires forall k :: 0 <= k < |c| ==> '\n' !in c[k]
    ensures forall k :: 0 <= k < |a + b + c| ==> '\n' !in (a + b + c)[k]
  {
    var all := a + b + c;
    forall k | 0 <= k < |all| ensures '\n' !in all[k] {
      if k < |a| {
        assert all[k] == a[k];
      } else if k < |a| + |b| {
        assert all[k] == b[k - |a|];
      } else {
        assert all[k] == c[k - |a| - |b|];
      }
    }
  }

  /** The rules and the header in the table's frame. */
  lemma FrameShape()
    ensures |TablePrefix()| == 8 && |TableSuffix()| == 3
    ensures TablePrefix()[5] == TablePrefix()[7] == TableSuffix()[0] == "\\hline"
    ensures TablePrefix()[6] == Join(HeaderCells, " & ") + LineEnd
  {
  }

  /** No line of the table's frame holds a line break. */
  lemma FrameLines()
    ensures |TablePrefix()| == 8 && |TableSuffix()| == 3
    ensures forall k :: 0 <= k < 8 ==> '\n' !in TablePrefix()[k]
    ensures forall k :: 0 <= k < 3 ==> '\n' !in TableSuffix()[k]
  {
    CaptionLine();
    HeaderLine();
    PlainFrameLines();
    var p := TablePrefix();
    forall k | 0 <= k < 8 ensures '\n' !in p[k] {
      if k == 2 {
        assert p[k] == Caption;
      } else if k == 6 {
        assert p[k] == Join(HeaderCells, " & ") + LineEnd;
      }
    }
  }

  lemma PlainFrameLines()
    ensures '\n' !in "\\begin{table}[t]" && '\n' !in "\\centering"
    ensures '\n' !in "\\label{tab:bavaria_summary}"
    ensures '\n' !in "\\begin{tabular}{" + ColumnSpec + "}"
    ensures '\n' !in "\\hline" && '\n' !in "\\end{tabular}" && '\n' !in "\\end{table}"
  {
    BeginLines();
    LabelLine();
    TabularLine();
    EndLines();
  }

  lemma BeginLines()
    ensures '\n' !in "\\begin{table}[t]" && '\n' !in "\\centering"
  {
  }

  lemma LabelLine()
    ensures '\n' !in "\\label{tab:bavaria_summary}"
  {
  }

  lemma TabularLine()
    ensures '\n' !in "\\begin{tabular}{" + ColumnSpec + "}"
  {
  }

  lemma EndLines()
    ensures '\n' !in "\\hline" && '\n' !in "\\end{tabular}" && '\n' !in "\\end{table}"
  {
  }

  lemma CaptionLine()
    ensures '\n' !in Caption
  {
    CaptionStart();
    CaptionEnd();
  }

  lemma CaptionStart()
    ensures '\n' !in "\\caption{Descriptive statistics " && '\n' !in "of building- and roof-level "
  {
  }

  lemma CaptionEnd()
    ensures '\n' !in "attributes for the Bavarian " && '\n' !in "LoD2 dataset.}"
  {
  }

  lemma HeaderLine()
    ensures '\n' !in Join(HeaderCells, " & ") + LineEnd
  {
    assert forall k :: 0 <= k < |HeaderCells| ==> '\n' !in HeaderCells[k];
    JoinWithout(HeaderCells, " & ", '\n');
  }

  /** Joining texts without `c` by a separator without `c` gives a text
      without `c`. */
  lemma {:induction false} JoinWithout(xs: seq<string>, sep: string, c: char)
    requires c !in sep && forall k :: 0 <= k < |xs| ==> c !in xs[k]
    ensures c !in Join(xs, sep)
  {
    if |xs| > 1 {
      JoinWithout(xs[1..], sep, c);
    }
  }

  /** The attributes of the table that have no data. */
  function MissingAttributes(specs: seq<RowSpec>, stats: map<string, AttrStats>): (r: seq<string>)
    ensures forall w :: w in r <==> (exists s :: s in specs && s.attributeName == w) && w !in stats
  {
    if specs == [] then []
    else
      var rest := MissingAttributes(specs[1..], stats);
      assert forall s :: s in specs <==> s == specs[0] || s in specs[1..] by {
        assert specs == [specs[0]] + specs[1..];
      }
      if specs[0].attributeName in stats then rest else [specs[0].attributeName] + rest
  }

  /** What a run of the script ends with: exit code 2 for an input that
      does not exist, an error raised while loading, or the output text with
      the diagnostics (the missing attributes and, sorted, the available
      ones). */
  datatype Outcome =
    | FileNotFound(message: string)
    | Raised(message: string)
    | Done(output: string, missing: seq<string>, available: seq<string>)

  /** What is written once both files are loaded: the rows of the table
      (wrapped in the table environment when asked), the attributes that
      got placeholders, and the available attribute names, sorted. */
  function Report(obs: seq<Observation>, fullTable: bool, sqrt: real -> real, render: (real, nat) -> string)
    : (r: Outcome)
    ensures r.Done?
    ensures var stats := StatsByAttribute(obs, sqrt);
      var rows := seq(|RowSpecs|, i requires 0 <= i < |RowSpecs| => RowToLatex(RowSpecs[i], stats, render));
      && r.output == (if fullTable then FullTable(rows) else Join(rows, "\n"))
      && (forall w :: w in r.missing <==> (exists s :: s in RowSpecs && s.attributeName == w) && w !in stats)
      && Ascending(r.available) && (forall w :: w in r.available <==> w in stats)
  {
    var stats := StatsByAttribute(obs, sqrt);
    var rows := seq(|RowSpecs|, i requires 0 <= i < |RowSpecs| => RowToLatex(RowSpecs[i], stats, render));
    var output := if fullTable then FullTable(rows) else Join(rows, "\n");
    var names := seq(|obs|, i requires 0 <= i < |obs| => obs[i].0);
    assert forall w :: w in names <==> exists o :: o in obs && o.0 == w by {
      forall w | exists o :: o in obs && o.0 == w ensures w in names {
        var o :| o in obs && o.0 == w;
        var i :| 0 <= i < |obs| && obs[i] == o;
        assert names[i] == w;
      }
    }
    Done(output, MissingAttributes(RowSpecs, stats), Sorted(names))
  }

  /** `main`. The file system, argument parsing, number parsing, square
      root and number formatting are parameters. A missing input ends the
      run with exit code 2 before anything is read; a file without the
      required columns raises; otherwise the report covers both files
      together. */
  function Generate(building: Csv, buildingExists: bool, roof: Csv, roofExists: bool, fullTable: bool,
                    parse: string -> Option<real>, sqrt: real -> real, render: (real, nat) -> string)
    : (r: Outcome)
    ensures !buildingExists ==> r == FileNotFound("ERROR: file not found: " + building.path)
    ensures buildingExists && !roofExists ==> r == FileNotFound("ERROR: file not found: " + roof.path)
    ensures buildingExists && roofExists ==>
      (r.Raised? <==> LoadAndClean(building, parse).Failure? || LoadAndClean(roof, parse).Failure?)
    ensures r.Done? ==> r == Report(Clean(building.rows, parse) + Clean(roof.rows, parse), fullTable, sqrt, render)
  {
    if !buildingExists then FileNotFound("ERROR: file not found: " + building.path)
    else if !roofExists then FileNotFound("ERROR: file not found: " + roof.path)
    else
      match LoadAndClean(building, parse)
      case Failure(e) => Raised(e)
      case Success(bldg) =>
        match LoadAndClean(roof, parse)
        case Failure(e) => Raised(e)
        case Success(rf) => Report(bldg + rf, fullTable, sqrt, render)
  }
}
