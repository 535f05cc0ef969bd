/**
 * What the chart functions decide before anything is drawn: which rows of
 * the volcano plot are up, down or not significant, which columns PCA and
 * the heatmap use and when they fall back to a placeholder, which columns
 * of an enrichment table name the pathway, the p-value and the gene count,
 * how many bars and labels each panel gets, and how the machine-learning
 * plots label their axes.  Figures, colour maps, `-log10` and the PNG
 * encoding are rendering and stay out of the model.
 */
module PlotGenerator {
  import opened Wrappers
  import opened Numerics
  import opened Text
  import opened Frames
  import opened Sorting
  import opened DegAnalyzer
  import opened MlAnalyzer

  function Min(a: nat, b: nat): nat {
    if a <= b then a else b
  }

  // ---------------------------------------------------------------- volcano

  /** The p column the volcano plot reads: the one asked for, or `pvalue` when the frame lacks it. */
  function VolcanoPColumn(t: Table, requested: string): string {
    if requested in t.names then requested else "pvalue"
  }

  /** The rows of each colour: red (up), blue (down) and grey (not significant). */
  datatype VolcanoPoints = VolcanoPoints(pColumn: string, up: seq<nat>, down: seq<nat>, notSig: seq<nat>)

  /** `(df[p] < pvalue_threshold) & (df[fc].abs() > log2fc_threshold)` at row `i`. */
  predicate Significant(t: Table, p: string, fc: string, pth: real, fcth: real, i: nat)
    requires t.Valid() && t.Has(p) && t.Has(fc)
  {
    i < t.nrows && Lt(Cells(t, p)[i], pth) && AbsGt(Cells(t, fc)[i], fcth)
  }

  predicate UpPoint(t: Table, p: string, fc: string, pth: real, fcth: real, i: nat)
    requires t.Valid() && t.Has(p) && t.Has(fc)
  {
    Significant(t, p, fc, pth, fcth, i) && Gt(Cells(t, fc)[i], 0.0)
  }

  predicate DownPoint(t: Table, p: string, fc: string, pth: real, fcth: real, i: nat)
    requires t.Valid() && t.Has(p) && t.Has(fc)
  {
    Significant(t, p, fc, pth, fcth, i) && Lt(Cells(t, fc)[i], 0.0)
  }

  /**
   * `generate_volcano_plot`: the masks over the rows, or the error pandas
   * raises first (`df[log2fc_col]` is read before `df[pvalue_col]`, and the
   * p column's `min()` before the fold change's `abs()`).
   */
  function GenerateVolcano(t: Table, pRequested: string, fc: string, pth: real, fcth: real): (r: Result<VolcanoPoints, DegError>)
    requires t.Valid()
    ensures r.Ok? <==>
      (fc in t.names && VolcanoPColumn(t, pRequested) in t.names
       && IsNumeric(t, VolcanoPColumn(t, pRequested)) && IsNumeric(t, fc))
    ensures r.Ok? ==> r.value.pColumn == (if pRequested in t.names then pRequested else "pvalue")
    ensures fc !in t.names ==> r == Err(MissingColumn(fc))
    ensures fc in t.names && pRequested !in t.names && "pvalue" !in t.names ==> r == Err(MissingColumn("pvalue"))
  {
    var p := VolcanoPColumn(t, pRequested);
    if !t.Has(fc) then Err(MissingColumn(fc))
    else if !t.Has(p) then Err(MissingColumn(p))
    else if !IsNumeric(t, p) then Err(NotNumeric(p))
    else if !IsNumeric(t, fc) then Err(NotNumeric(fc))
    else
      var rows := Range(t.nrows);
      Ok(VolcanoPoints(p,
        Filter(rows, (i: nat) => UpPoint(t, p, fc, pth, fcth, i)),
        Filter(rows, (i: nat) => DownPoint(t, p, fc, pth, fcth, i)),
        Filter(rows, (i: nat) => i < t.nrows && !Significant(t, p, fc, pth, fcth, i))))
  }

  /**
   * Three filters of 0..n-1 by colour: up and down rows are significant and
   * never both, grey rows are the rest.  No row gets two colours.
   */
  lemma ColoursDisjoint(n: nat, sig: nat -> bool, up: nat -> bool, down: nat -> bool, notSig: nat -> bool)
    requires forall x: nat :: up(x) ==> sig(x) && !down(x)
    requires forall x: nat :: down(x) ==> sig(x)
    requires forall x: nat :: notSig(x) <==> x < n && !sig(x)
    ensures var rows := Range(n);
      (forall i: nat :: i in Filter(rows, up) ==> i !in Filter(rows, down) && i !in Filter(rows, notSig))
      && (forall i: nat :: i in Filter(rows, down) ==> i !in Filter(rows, notSig))
      && |Filter(rows, up)| + |Filter(rows, down)| + |Filter(rows, notSig)| <= n
  {
    ColourCounts(n, sig, up, down, notSig);
  }

  /** The three counts add up to at most n, and to n when each significant row is up or down. */
  lemma ColourCounts(n: nat, sig: nat -> bool, up: nat -> bool, down: nat -> bool, notSig: nat -> bool)
    requires forall x: nat :: up(x) ==> sig(x) && !down(x)
    requires forall x: nat :: down(x) ==> sig(x)
    requires forall x: nat :: notSig(x) <==> x < n && !sig(x)
    ensures var rows := Range(n);
      |Filter(rows, up)| + |Filter(rows, down)| + |Filter(rows, notSig)| <= n
      && ((forall x: nat :: x < n && sig(x) ==> up(x) || down(x)) ==>
            |Filter(rows, up)| + |Filter(rows, down)| + |Filter(rows, notSig)| == n)
  {
    var rows := Range(n);
    var inSig := (x: nat) => x < n && sig(x);
    FilterSplit(rows, inSig, notSig);
    FilterSplit(Filter(rows, inSig), up, down);
    FilterFilter(rows, inSig, up);
    FilterFilter(rows, inSig, down);
    FilterExt(rows, (x: nat) => inSig(x) && up(x), up);
    FilterExt(rows, (x: nat) => inSig(x) && down(x), down);
  }

  /** Every row gets a colour when each significant row is up or down. */
  lemma ColoursCover(n: nat, sig: nat -> bool, up: nat -> bool, down: nat -> bool, notSig: nat -> bool)
    requires forall x: nat :: up(x) ==> sig(x) && !down(x)
    requires forall x: nat :: down(x) ==> sig(x)
    requires forall x: nat :: notSig(x) <==> x < n && !sig(x)
    requires forall x: nat :: x < n && sig(x) ==> up(x) || down(x)
    ensures var rows := Range(n);
      |Filter(rows, up)| + |Filter(rows, down)| + |Filter(rows, notSig)| == n
      && forall i: nat :: i < n ==> i in Filter(rows, up) || i in Filter(rows, down) || i in Filter(rows, notSig)
  {
    ColourCounts(n, sig, up, down, notSig);
    var rows := Range(n);
    forall i: nat | i < n ensures i in Filter(rows, up) || i in Filter(rows, down) || i in Filter(rows, notSig) {
      assert rows[i] == i;
      if up(i) {
        FilterKeeps(rows, up, i);
      } else if down(i) {
        FilterKeeps(rows, down, i);
      } else {
        FilterKeeps(rows, notSig, i);
      }
    }
  }

  /** Every point gets at most one colour. */
  lemma VolcanoDisjoint(t: Table, pRequested: string, fc: string, pth: real, fcth: real)
    requires t.Valid() && GenerateVolcano(t, pRequested, fc, pth, fcth).Ok?
    ensures var v := GenerateVolcano(t, pRequested, fc, pth, fcth).value;
      (forall i :: i in v.up ==> i !in v.down && i !in v.notSig)
      && (forall i :: i in v.down ==> i !in v.notSig)
      && |v.up| + |v.down| + |v.notSig| <= t.nrows
  {
    var p := VolcanoPColumn(t, pRequested);
    ColoursDisjoint(t.nrows, (i: nat) => i < t.nrows && Significant(t, p, fc, pth, fcth, i),
      (i: nat) => UpPoint(t, p, fc, pth, fcth, i), (i: nat) => DownPoint(t, p, fc, pth, fcth, i),
      (i: nat) => i < t.nrows && !Significant(t, p, fc, pth, fcth, i));
  }

  /**
   * With a threshold of at least 0 every row gets a colour: a significant
   * row has a non-zero fold change, so it is up or down.
   */
  lemma VolcanoCovers(t: Table, pRequested: string, fc: string, pth: real, fcth: real)
    requires t.Valid() && GenerateVolcano(t, pRequested, fc, pth, fcth).Ok? && fcth >= 0.0
    ensures var v := GenerateVolcano(t, pRequested, fc, pth, fcth).value;
      |v.up| + |v.down| + |v.notSig| == t.nrows
      && forall i :: 0 <= i < t.nrows ==> i in v.up || i in v.down || i in v.notSig
  {
    var p := VolcanoPColumn(t, pRequested);
    var sig := (i: nat) => i < t.nrows && Significant(t, p, fc, pth, fcth, i);
    var up := (i: nat) => UpPoint(t, p, fc, pth, fcth, i);
    var down := (i: nat) => DownPoint(t, p, fc, pth, fcth, i);
    forall x: nat | x < t.nrows && sig(x) ensures up(x) || down(x) {
      assert Significant(t, p, fc, pth, fcth, x);
    }
    ColoursCover(t.nrows, sig, up, down, (i: nat) => i < t.nrows && !Significant(t, p, fc, pth, fcth, i));
  }

  /**
   * The research endpoint asks for `padj` when present, else `pvalue`, with
   * the default thresholds: on any table the DEG analysis accepts, the plot
   * succeeds and its red and blue points are exactly the reported up- and
   * down-regulated rows.
   */
  lemma {:induction false} VolcanoMatchesDeg(t: Table)
    requires t.Valid() && AnalyzeDegData(t, Defaults).Ok?
    ensures var v := GenerateVolcano(t, if "padj" in t.names then "padj" else "pvalue", "log2fc", 0.05, 1.0);
      v.Ok? && v.value.pColumn == PColumn(t)
      && v.value.up == UpRows(t, Defaults) && v.value.down == DownRows(t, Defaults)
  {
    var p := PColumn(t);
    assert VolcanoPColumn(t, if "padj" in t.names then "padj" else "pvalue") == p;
    var rows := Range(t.nrows);
    var deg := (i: nat) => IsDeg(t, Defaults, i);
    var pUp := (i: nat) => i < t.nrows && Gt(Cells(t, "log2fc")[i], 0.0);
    var pDown := (i: nat) => i < t.nrows && Lt(Cells(t, "log2fc")[i], 0.0);
    assert PThreshold(t, Defaults) == 0.05;
    FilterFilter(rows, deg, pUp);
    FilterFilter(rows, deg, pDown);
    FilterExt(rows, (x: nat) => deg(x) && pUp(x), (i: nat) => UpPoint(t, p, "log2fc", 0.05, 1.0, i));
    FilterExt(rows, (x: nat) => deg(x) && pDown(x), (i: nat) => DownPoint(t, p, "log2fc", 0.05, 1.0, i));
  }

  // -------------------------------------------------------------------- PCA

  /** The columns PCA never treats as samples (compared with the lowercased name). */
  const PcaExclude: seq<string> := ["log2fc", "pvalue", "padj", "p_value", "p_adj"]

  /** The first of `cols` that the frame lacks, if any. */
  function FirstAbsent(cols: seq<string>, names: seq<string>): (r: Option<string>)
    ensures r.None? <==> forall c :: c in cols ==> c in names
    ensures r.Some? ==> r.value in cols && r.value !in names
    decreases |cols|
  {
    if cols == [] then None
    else if cols[0] !in names then Some(cols[0])
    else FirstAbsent(cols[1..], names)
  }

  /** The first of `cols` whose column is not numeric, if any. */
  function FirstNonNumeric(t: Table, cols: seq<string>): (r: Option<string>)
    requires t.Valid() && forall c :: c in cols ==> c in t.names
    ensures r.None? <==> forall c :: c in cols ==> IsNumeric(t, c)
    ensures r.Some? ==> r.value in cols
    decreases |cols|
  {
    if cols == [] then None
    else if !IsNumeric(t, cols[0]) then Some(cols[0])
    else FirstNonNumeric(t, cols[1..])
  }

  datatype PcaPlan =
    | PcaPlaceholder
      /** The columns fitted, the component count and whether the PC1/PC2 scatter is drawn. */
    | PcaProjection(columns: seq<string>, components: nat, scatter: bool)

  /**
   * `generate_pca_plot`: without a column list, the numeric columns whose
   * lowercased name is not excluded; fewer than two give the placeholder.
   */
  function GeneratePca(t: Table, sampleColumns: Option<seq<string>>, nComponents: nat): Result<PcaPlan, DegError>
    requires t.Valid()
  {
    var cols := if sampleColumns.None? then NumericExcept(t.names, t.cols, PcaExclude) else sampleColumns.value;
    if |cols| < 2 then Ok(PcaPlaceholder)
    else if FirstAbsent(cols, t.names).Some? then Err(MissingColumn(FirstAbsent(cols, t.names).value))
    else if FirstNonNumeric(t, cols).Some? then Err(NotNumeric(FirstNonNumeric(t, cols).value))
    else
      var k := Min(Min(nComponents, |cols|), t.nrows);
      Ok(PcaProjection(cols, k, k >= 2))
  }

  /**
   * With no column list the plot is the placeholder exactly when fewer than
   * two columns qualify; otherwise it fits every qualifying column with
   * min(requested, columns, rows) components, and it cannot fail when the
   * column names are distinct.
   */
  lemma PcaSpec(t: Table, nComponents: nat)
    requires t.Valid()
    ensures var r := GeneratePca(t, None, nComponents);
      var cols := NumericExcept(t.names, t.cols, PcaExclude);
      (r == Ok(PcaPlaceholder) <==> |cols| < 2)
      && (Distinct(t.names) ==> r.Ok?)
      && (r.Ok? && r.value.PcaProjection? ==>
        r.value.columns == cols
        && r.value.components <= nComponents && r.value.components <= |cols| && r.value.components <= t.nrows
        && (r.value.components == nComponents || r.value.components == |cols| || r.value.components == t.nrows)
        && (r.value.scatter <==> r.value.components >= 2))
    ensures forall c :: c in NumericExcept(t.names, t.cols, PcaExclude) <==>
      exists i :: 0 <= i < |t.names| && t.names[i] == c && t.cols[i].numeric && Lower(c) !in PcaExclude
  {
    var cols := NumericExcept(t.names, t.cols, PcaExclude);
    NumericExceptSpec(t.names, t.cols, PcaExclude);
    if Distinct(t.names) {
      forall c | c in cols ensures c in t.names && IsNumeric(t, c) {
        var i :| 0 <= i < |t.names| && t.names[i] == c && Kept(t.names[i], t.cols[i], PcaExclude);
        IndexOfDistinct(t.names, i);
      }
    }
  }

  // ---------------------------------------------------------------- heatmap

  datatype HeatmapPlan =
    | HeatmapPlaceholder
      /** The sample columns drawn (given, or Sample_1..Sample_6 of random data), the rows kept and whether gene labels show. */
    | Heatmap(columns: seq<string>, synthetic: bool, rows: nat, geneLabels: bool)

  /** `sample_columns and all(col in df.columns for col in sample_columns)`. */
  predicate UsableSamples(t: Table, sampleColumns: Option<seq<string>>) {
    sampleColumns.Some? && |sampleColumns.value| > 0 && forall c :: c in sampleColumns.value ==> c in t.names
  }

  /**
   * `generate_heatmap`.  `topRows` is how many rows the `nlargest` call over
   * |log2fc| hands back; that selection stays abstract.  Both drawing
   * branches read `df['log2fc']` first.
   */
  function GenerateHeatmap(t: Table, sampleColumns: Option<seq<string>>, topRows: nat): (r: Result<HeatmapPlan, DegError>)
    ensures r == Ok(HeatmapPlaceholder) <==> !UsableSamples(t, sampleColumns) && "log2fc" !in t.names
    ensures r.Err? <==> UsableSamples(t, sampleColumns) && "log2fc" !in t.names
    ensures r.Ok? && r.value.Heatmap? ==>
      var h := r.value;
      h.rows <= 50 && h.rows <= topRows && (topRows <= 50 ==> h.rows == topRows)
      && (h.geneLabels <==> h.rows <= 30)
      && (UsableSamples(t, sampleColumns) ==> h.columns == sampleColumns.value && !h.synthetic)
      && (!UsableSamples(t, sampleColumns) ==> h.columns == Synthetic && h.synthetic)
      && |h.columns| >= 1
  {
    var usable := UsableSamples(t, sampleColumns);
    if !t.Has("log2fc") then
      if usable then Err(MissingColumn("log2fc")) else Ok(HeatmapPlaceholder)
    else
      // `heatmap_data.head(50)` when longer than 50
      var rows := if topRows > 50 then 50 else topRows;
      Ok(Heatmap(if usable then sampleColumns.value else Synthetic, !usable, rows, rows <= 30))
  }

  /** Why `generate_heatmap` as written raises: a missing column, or |log2fc| values passed as column labels. */
  datatype HeatmapRaise = Raised(cause: DegError) | ValuesAsLabels

  /**
   * `generate_heatmap` as written. Both branches call
   * `df.nlargest(top_n, df['log2fc'].abs())`: pandas takes a list-like second
   * argument as a list of column labels, so every |log2fc| value is looked up
   * as a column. Headers are strings, so on a frame with rows the lookup
   * fails; on an empty frame there is nothing to look up.
   */
  function HeatmapAsWritten(t: Table, sampleColumns: Option<seq<string>>, topRows: nat): (r: Result<HeatmapPlan, HeatmapRaise>)
    ensures "log2fc" in t.names && t.nrows > 0 ==> r == Err(ValuesAsLabels)
    ensures "log2fc" !in t.names || t.nrows == 0 ==>
      (r.Ok? <==> GenerateHeatmap(t, sampleColumns, topRows).Ok?)
      && (r.Ok? ==> r.value == GenerateHeatmap(t, sampleColumns, topRows).value)
  {
    if t.Has("log2fc") && t.nrows > 0 then Err(ValuesAsLabels)
    else
      match GenerateHeatmap(t, sampleColumns, topRows)
      case Ok(plan) => Ok(plan)
      case Err(e) => Err(Raised(e))
  }

  /**
   * The discrepancy: on every frame with a `log2fc` column and at least one
   * row, the code as written raises, where the intended lookup draws a heatmap.
   */
  lemma HeatmapNeverDrawn(t: Table, sampleColumns: Option<seq<string>>, topRows: nat)
    requires "log2fc" in t.names && t.nrows > 0
    ensures HeatmapAsWritten(t, sampleColumns, topRows).Err?
    ensures GenerateHeatmap(t, sampleColumns, topRows).Ok?
    ensures GenerateHeatmap(t, sampleColumns, topRows).value.Heatmap?
  {
  }

  // ------------------------------------------------------ pathway enrichment

  /** The header names tried for each role, in priority order. */
  const PathwayCandidates: seq<string> := ["pathway", "term", "description", "name"]
  const PValueCandidates: seq<string> := ["pvalue", "p_value", "pval", "padj", "p_adj", "fdr"]
  const CountCandidates: seq<string> := ["count", "gene_count", "size", "genes"]

  /** The first candidate that is a column name, if any. */
  function FirstPresent(cands: seq<string>, names: seq<string>): (r: Option<string>)
    ensures r.None? <==> forall c :: c in cands ==> c !in names
    ensures r.Some? ==>
      exists k :: 0 <= k < |cands| && cands[k] == r.value && r.value in names
        && forall j :: 0 <= j < k ==> cands[j] !in names
    decreases |cands|
  {
    if cands == [] then None
    else if cands[0] in names then Some(cands[0])
    else
      var r := FirstPresent(cands[1..], names);
      FirstPresentTail(cands, names, r);
      r
  }

  /** A candidate found after a first one that is absent is still the first present. */
  lemma FirstPresentTail(cands: seq<string>, names: seq<string>, r: Option<string>)
    requires cands != [] && cands[0] !in names
    requires r.Some? ==>
      exists k :: 0 <= k < |cands[1..]| && cands[1..][k] == r.value && r.value in names
        && forall j :: 0 <= j < k ==> cands[1..][j] !in names
    ensures r.Some? ==>
      exists k :: 0 <= k < |cands| && cands[k] == r.value && r.value in names
        && forall j :: 0 <= j < k ==> cands[j] !in names
  {
    if r.Some? {
      var k :| 0 <= k < |cands[1..]| && cands[1..][k] == r.value && r.value in names
        && forall j :: 0 <= j < k ==> cands[1..][j] !in names;
      assert forall j :: 1 <= j < k + 1 ==> cands[j] == cands[1..][j - 1];
      assert cands[k + 1] == r.value;
    }
  }

  /** One of the column-detection loops: assign the first candidate present and `break`. */
  method Detect(names: seq<string>, cands: seq<string>) returns (found: Option<string>)
    ensures found == FirstPresent(cands, names)
  {
    found := None;
    var i := 0;
    while i < |cands|
      invariant 0 <= i <= |cands|
      invariant FirstPresent(cands, names) == FirstPresent(cands[i..], names)
      decreases |cands| - i
    {
      assert cands[i..][0] == cands[i] && cands[i..][1..] == cands[i + 1..];
      if cands[i] in names {
        found := Some(cands[i]);
        break;
      }
      i := i + 1;
    }
  }

  datatype EnrichmentPlan =
    | EnrichmentPlaceholder
      /** The pathway, p-value and gene-count columns found, and how many bars are drawn. */
    | EnrichmentBars(pathway: string, pvalue: string, count: Option<string>, bars: nat)

  /** The frame with every header lowercased, as the plot sees it. */
  function Lowered(t: Table): (r: Table)
    ensures t.Valid() ==> r.Valid()
  {
    Table(LowerAll(t.names), t.cols, t.nrows)
  }

  /**
   * `generate_pathway_enrichment_plot`: the columns are looked up among the
   * lowercased headers; `nsmallest(top_n, pvalue_col)` keeps min(top_n, rows)
   * rows and needs a numeric p column.
   */
  function PathwayPlot(t: Table, topN: nat): (r: Result<EnrichmentPlan, DegError>)
    requires t.Valid()
    ensures var low := LowerAll(t.names);
      r == Ok(EnrichmentPlaceholder) <==>
        (forall c :: c in PathwayCandidates ==> c !in low) || (forall c :: c in PValueCandidates ==> c !in low)
    ensures r.Ok? && r.value.EnrichmentBars? ==>
      var e := r.value;
      e.bars <= topN && e.bars <= t.nrows && (e.bars == topN || e.bars == t.nrows)
      && e.pathway in PathwayCandidates && e.pathway in LowerAll(t.names)
      && e.pvalue in PValueCandidates && e.pvalue in LowerAll(t.names)
      && (e.count.Some? <==> exists c :: c in CountCandidates && c in LowerAll(t.names))
    ensures var low := LowerAll(t.names);
      r.Ok? && r.value.EnrichmentBars? ==>
        Some(r.value.pathway) == FirstPresent(PathwayCandidates, low)
        && Some(r.value.pvalue) == FirstPresent(PValueCandidates, low)
        && r.value.count == FirstPresent(CountCandidates, low)
    ensures var low := LowerAll(t.names);
      r.Err? <==>
        FirstPresent(PathwayCandidates, low).Some? && FirstPresent(PValueCandidates, low).Some?
        && !IsNumeric(Lowered(t), FirstPresent(PValueCandidates, low).value)
    ensures r.Err? ==> r.error == NotNumeric(FirstPresent(PValueCandidates, LowerAll(t.names)).value)
  {
    var low := Lowered(t);
    var pathway := FirstPresent(PathwayCandidates, low.names);
    var pvalue := FirstPresent(PValueCandidates, low.names);
    if pathway.None? || pvalue.None? then Ok(EnrichmentPlaceholder)
    else if !IsNumeric(low, pvalue.value) then Err(NotNumeric(pvalue.value))
    else Ok(EnrichmentBars(pathway.value, pvalue.value, FirstPresent(CountCandidates, low.names), Min(topN, t.nrows)))
  }

  /**
   * The plot's own steps: lowercase the headers of a copy (the caller's
   * frame keeps its names, which the missing `modifies` clause guarantees),
   * run the three detection loops, then choose placeholder or bars.
   */
  method GeneratePathwayEnrichmentPlot(df: DataFrame, topN: nat) returns (r: Result<EnrichmentPlan, DegError>)
    requires df.Valid()
    ensures r == PathwayPlot(df.Snapshot(), topN)
  {
    var c := df.Copy();
    c.SetNames(LowerAll(c.names));
    assert c.Snapshot() == Lowered(df.Snapshot());
    var pathway := Detect(c.names, PathwayCandidates);
    var pvalue := Detect(c.names, PValueCandidates);
    var count := Detect(c.names, CountCandidates);
    if pathway.None? || pvalue.None? {
      return Ok(EnrichmentPlaceholder);
    }
    if !IsNumeric(c.Snapshot(), pvalue.value) {
      return Err(NotNumeric(pvalue.value));
    }
    r := Ok(EnrichmentBars(pathway.value, pvalue.value, count, Min(topN, c.nrows)));
  }

  /** Header case does not matter: lowercasing the headers first gives the same plot. */
  lemma {:induction false} PathwayPlotIgnoresCase(t: Table, topN: nat)
    requires t.Valid()
    ensures PathwayPlot(Lowered(t), topN) == PathwayPlot(t, topN)
  {
    forall i | 0 <= i < |t.names| ensures LowerAll(LowerAll(t.names))[i] == LowerAll(t.names)[i] {
      LowerIsLower(t.names[i]);
      LowerOfLower(Lower(t.names[i]));
    }
    assert LowerAll(LowerAll(t.names)) == LowerAll(t.names);
    assert Lowered(Lowered(t)) == Lowered(t);
  }

  // --------------------------------------------------------- ML scatter axes

  /** Whether the scatter is projected onto two principal components, and its axis labels. */
  datatype Axes = Axes(projected: bool, xLabel: string, yLabel: string)

  /**
   * The scatter panel of the SVM, Random Forest, hierarchical and k-means
   * plots, from the number of features (genes) of `X_scaled`: the projection
   * test and the label test are written separately in each plot.
   */
  function ScatterAxes(features: nat): (r: Axes)
    ensures r.projected <==> features > 2
    ensures r.xLabel == "PC1" <==> r.projected
    ensures r.yLabel == "PC2" <==> r.projected
    ensures !r.projected ==> r.xLabel == "Feature 1" && r.yLabel == "Feature 2"
  {
    Axes(features > 2,
      if features > 2 then "PC1" else "Feature 1",
      if features > 2 then "PC2" else "Feature 2")
  }

  /**
   * The features of every machine-learning fit are the genes: whichever
   * samples are used, the scatter is projected exactly when the DEG table
   * has more than two rows.
   */
  lemma ScatterAxesFollowGenes(t: Table, noise: seq<seq<real>>, requested: Option<seq<string>>)
    requires t.Valid() && NoiseFits(noise, t.nrows)
    ensures ScatterAxes(Prepare(t, noise, requested).matrix.nrows).projected <==> t.nrows > 2
  {
    PrepareSpec(t, noise, requested);
  }

  // ------------------------------------------------------- k-means size panel

  predicate Ascending(s: seq<int>) {
    forall i, j :: 0 <= i < j < |s| ==> s[i] < s[j]
  }

  /** How often `x` occurs in `xs`. */
  function Count(xs: seq<int>, x: int): nat
    decreases |xs|
  {
    if xs == [] then 0 else (if xs[0] == x then 1 else 0) + Count(xs[1..], x)
  }

  /** Puts `x` into an ascending list without repeats, unless it is there already. */
  function InsertAscending(x: int, s: seq<int>): (r: seq<int>)
    requires Ascending(s)
    ensures Ascending(r) && forall y :: y in r <==> y == x || y in s
    decreases |s|
  {
    if s == [] then [x]
    else if x < s[0] then [x] + s
    else if x == s[0] then s
    else
      var rest := InsertAscending(x, s[1..]);
      assert forall k :: 0 <= k < |s| - 1 ==> s[0] < s[1..][k];
      assert forall y :: y in rest ==> s[0] < y;
      var r := [s[0]] + rest;
      forall i, j | 0 <= i < j < |r| ensures r[i] < r[j] {
        assert r[j] == rest[j - 1] && rest[j - 1] in rest;
        if i > 0 {
          assert r[i] == rest[i - 1];
        }
      }
      r
  }

  /** `np.unique(labels)`: the distinct labels, ascending. */
  function Unique(xs: seq<int>): (r: seq<int>)
    ensures Ascending(r) && forall y :: y in r <==> y in xs
    decreases |xs|
  {
    if xs == [] then []
    else
      var n := |xs| - 1;
      assert forall y :: y in xs <==> y in xs[..n] || y == xs[n] by {
        assert xs == xs[..n] + [xs[n]];
      }
      InsertAscending(xs[n], Unique(xs[..n]))
  }

  /** `return_counts=True`: how often each of `us` occurs in `xs`. */
  function Counts(xs: seq<int>, us: seq<int>): (r: seq<nat>)
    ensures |r| == |us| && forall i :: 0 <= i < |us| ==> r[i] == Count(xs, us[i])
  {
    seq(|us|, i requires 0 <= i < |us| => Count(xs, us[i]))
  }

  function SumNat(s: seq<nat>): nat
    decreases |s|
  {
    if s == [] then 0 else s[0] + SumNat(s[1..])
  }

  lemma {:induction false} CountAppend(xs: seq<int>, l: int, u: int)
    ensures Count(xs + [l], u) == Count(xs, u) + (if l == u then 1 else 0)
    decreases |xs|
  {
    if xs != [] {
      assert (xs + [l])[1..] == xs[1..] + [l];
      CountAppend(xs[1..], l, u);
    }
  }

  lemma {:induction false} CountPresent(xs: seq<int>, x: int)
    ensures x in xs <==> Count(xs, x) > 0
    decreases |xs|
  {
    if xs != [] {
      CountPresent(xs[1..], x);
      assert x in xs <==> xs[0] == x || x in xs[1..];
    }
  }

  /** In an ascending list every item occurs once. */
  lemma {:induction false} CountAscending(us: seq<int>, x: int)
    requires Ascending(us) && x in us
    ensures Count(us, x) == 1
    decreases |us|
  {
    if us[0] == x {
      CountPresent(us[1..], x);
    } else {
      CountAscending(us[1..], x);
    }
  }

  /** Adding one label adds one to the count of exactly the entry holding it. */
  lemma {:induction false} SumCountsAppend(xs: seq<int>, l: int, us: seq<int>)
    ensures SumNat(Counts(xs + [l], us)) == SumNat(Counts(xs, us)) + Count(us, l)
    decreases |us|
  {
    if us != [] {
      CountAppend(xs, l, us[0]);
      assert Counts(xs + [l], us)[1..] == Counts(xs + [l], us[1..]);
      assert Counts(xs, us)[1..] == Counts(xs, us[1..]);
      SumCountsAppend(xs, l, us[1..]);
    }
  }

  /** Counts over an ascending list that holds every label add up to the number of labels. */
  lemma {:induction false} SumCountsTotal(xs: seq<int>, us: seq<int>)
    requires Ascending(us) && forall x :: x in xs ==> x in us
    ensures SumNat(Counts(xs, us)) == |xs|
    decreases |xs|
  {
    if xs == [] {
      ZeroCounts(us);
    } else {
      var n := |xs| - 1;
      assert xs == xs[..n] + [xs[n]];
      SumCountsTotal(xs[..n], us);
      SumCountsAppend(xs[..n], xs[n], us);
      CountAscending(us, xs[n]);
    }
  }

  lemma {:induction false} ZeroCounts(us: seq<int>)
    ensures SumNat(Counts([], us)) == 0
    decreases |us|
  {
    if us != [] {
      assert Counts([], us)[1..] == Counts([], us[1..]);
      ZeroCounts(us[1..]);
    }
  }

  /**
   * The cluster-size panel of the k-means plot: one bar per distinct label,
   * ascending, each at least 1, and the bars add up to the sample count.
   */
  lemma KMeansSizes(labels: seq<int>)
    ensures var us := Unique(labels);
      var counts := Counts(labels, us);
      |counts| == |us| && SumNat(counts) == |labels|
      && (forall i :: 0 <= i < |us| ==> counts[i] >= 1)
      && (forall x :: x in us <==> x in labels)
  {
    var us := Unique(labels);
    SumCountsTotal(labels, us);
    forall i | 0 <= i < |us| ensures Count(labels, us[i]) >= 1 {
      CountPresent(labels, us[i]);
    }
  }

  // ------------------------------------------------ Lasso and Ridge panels

  /** The "Top selected features" panel and the statistics bars of the Lasso plot. */
  datatype LassoPanel = LassoPanel(total: nat, selected: nat, zero: int, shown: seq<nat>, shownCoef: seq<real>)

  function LassoPanelOf(r: LassoResult): LassoPanel {
    var k := Min(20, |r.selected|);
    LassoPanel(|r.coefficients|, r.nSelected, |r.coefficients| - r.nSelected,
      r.selected[..k], r.selectedCoef[..Min(k, |r.selectedCoef|)])
  }

  /**
   * "Zero Features" counts exactly the coefficients within the tolerance;
   * the panel shows the first min(20, n_selected) selected features in index
   * order with their coefficients, and "No features selected" exactly when
   * every coefficient is within the tolerance.
   */
  lemma LassoPanelSpec(coef: seq<real>)
    ensures var p := LassoPanelOf(LassoSelect(coef));
      p.zero == |Filter(Range(|coef|), (i: nat) => i < |coef| && Abs(coef[i]) <= Tolerance)|
      && p.total == p.selected + p.zero
    ensures var p := LassoPanelOf(LassoSelect(coef));
      |p.shown| == |p.shownCoef| == Min(20, p.selected) && Increasing(p.shown)
      && forall q :: 0 <= q < |p.shown| ==> p.shown[q] < |coef| && p.shownCoef[q] == coef[p.shown[q]] && Abs(coef[p.shown[q]]) > Tolerance
    ensures var p := LassoPanelOf(LassoSelect(coef));
      p.shown == [] <==> forall i :: 0 <= i < |coef| ==> Abs(coef[i]) <= Tolerance
  {
    var r := LassoSelect(coef);
    LassoSpec(coef);
    SelectedFeaturesSpec(coef);
    var sel := (i: nat) => i < |coef| && Abs(coef[i]) > Tolerance;
    var zero := (i: nat) => i < |coef| && Abs(coef[i]) <= Tolerance;
    FilterSplit(Range(|coef|), sel, zero);
    var p := LassoPanelOf(r);
    forall a, b | 0 <= a < b < |p.shown| ensures p.shown[a] < p.shown[b] {
      assert p.shown[a] == r.selected[a] && p.shown[b] == r.selected[b];
    }
    if p.shown != [] {
      assert p.shown[0] == r.selected[0] && Abs(coef[p.shown[0]]) > Tolerance;
    }
  }

  /** The Ridge plot's "Top features by |Coefficient|" panel: min(20, ranked) bars. */
  function RidgePanel(r: RidgeResult): seq<nat> {
    r.topFeatures[..Min(20, |r.topFeatures|)]
  }

  /** The panel shows the whole ranking: Ridge already keeps at most twenty. */
  lemma RidgePanelShowsRanking(coef: seq<real>)
    ensures RidgePanel(RidgeRank(coef)) == RidgeRank(coef).topFeatures
    ensures |RidgePanel(RidgeRank(coef))| == Min(20, |coef|)
  {
    RidgeSpec(coef);
    TopFeaturesSpec(AbsAll(coef));
  }
}
