/**
 * The research endpoint `POST /analyze/research`: metadata parsing, the DEG
 * analysis, then ten plot steps in a fixed order, of which only the volcano
 * plot may abort the request, and the mapping of exceptions to HTTP status.
 *
 * Everything a library decides (what pandas reads from the uploads, whether
 * matplotlib and scikit-learn finish, the random columns, the fitted values,
 * the number formatting) arrives in a `Library` record.
 */
module ResearchRouter {
  import opened Wrappers
  import opened Numerics
  import opened Schemas
  import opened Text
  import opened Frames
  import opened Sorting
  import opened DegAnalyzer
  import opened MlAnalyzer
  import opened PlotGenerator
  import ResearchService

  /** An exception: a `ValueError` (pandas parse errors and pydantic validation errors are ones) or any other. */
  datatype Raised = ValueError(message: string) | OtherError(message: string)

  /** A file part of the form: its name and how many bytes it holds. */
  datatype Upload = Upload(filename: string, size: nat)

  // ---------------------------------------------------------------- metadata

  /** A JSON value as the request model sees it: null, a string, or anything else. */
  datatype Json = JNull | JString(s: string) | JOther

  /** What `json.loads` makes of the `meta` form field. */
  datatype Meta = Malformed(message: string) | NotAnObject | Object(fields: map<string, Json>)

  datatype ResearchRequest = ResearchRequest(projectName: Option<string>, species: Option<string>, contrastLabel: Option<string>)

  /** An optional string field of the request model: absent or null is None, a string is kept, anything else is invalid. */
  function Field(fields: map<string, Json>, key: string): Result<Option<string>, ()> {
    if key !in fields || fields[key].JNull? then Ok(None)
    else if fields[key].JString? then Ok(Some(fields[key].s))
    else Err(())
  }

  /**
   * `parse_metadata`: undecodable JSON and a failed validation are both
   * answered with 400; a JSON value that is not an object makes `**` raise a
   * TypeError nobody catches, which the framework answers with 500.
   */
  function ParseMetadata(meta: Meta, validationMessage: string): (r: Result<ResearchRequest, HttpError>)
    ensures meta.Malformed? ==> r == Err(HttpError(400, "Invalid metadata JSON: " + meta.message))
    ensures r.Ok? <==>
      (meta.Object? && Field(meta.fields, "project_name").Ok? && Field(meta.fields, "species").Ok?
       && Field(meta.fields, "contrast_label").Ok?)
    ensures r.Ok? ==> r.value.projectName == Field(meta.fields, "project_name").value
    ensures r.Err? && !meta.NotAnObject? ==> r.error.status == 400
  {
    match meta
    case Malformed(m) => Err(HttpError(400, "Invalid metadata JSON: " + m))
    case NotAnObject => Err(HttpError(500, "Internal Server Error"))
    case Object(f) =>
      var p, s, c := Field(f, "project_name"), Field(f, "species"), Field(f, "contrast_label");
      if p.Err? || s.Err? || c.Err? then Err(HttpError(400, "Invalid metadata JSON: " + validationMessage))
      else Ok(ResearchRequest(p.value, s.value, c.value))
  }

  // ------------------------------------------------------------ error mapping

  /** The two `except` clauses around the analysis. */
  function ToHttp(e: Raised): (r: HttpError)
    ensures r.status == 400 <==> e.ValueError?
    ensures r.status == 500 <==> e.OtherError?
  {
    match e
    case ValueError(m) => HttpError(400, "Data parsing error: " + m)
    case OtherError(m) => HttpError(500, "Analysis error: " + m)
  }

  /**
   * How `analyze_deg_data` fails: a missing column is its own ValueError; a
   * non-numeric column makes a comparison or `abs()` raise a TypeError.
   */
  function DegRaised(e: DegError, typeError: string): (r: Raised)
    ensures r.ValueError? <==> e.MissingColumn?
  {
    match e
    case MissingColumn(n) => ValueError("Required column '" + n + "' not found in data")
    case NotNumeric(_) => OtherError(typeError)
  }

  /** The message of the `HTTPException(500, ...)` the volcano step raises, as `str()` renders it. */
  function VolcanoMessage(cause: string): string {
    "500: Failed to generate volcano plot: " + cause
  }

  // -------------------------------------------------------------- the steps

  /** The plot `type` and `name` of each step, in the order the endpoint runs them. */
  const Kinds: seq<string> := ["volcano", "pca", "heatmap", "pathway", "svm_classification", "random_forest",
    "hierarchical_clustering", "kmeans_clustering", "lasso", "ridge"]
  const Names: seq<string> := ["Volcano Plot", "PCA Analysis", "Heatmap", "Pathway Enrichment",
    "SVM Classification", "Random Forest Classification", "Hierarchical Clustering", "K-Means Clustering",
    "Lasso Feature Selection", "Ridge Regression"]
  const Steps := 10

  /** A plot of the response, by name and type; the image and its caption are rendering. */
  datatype PlotRef = PlotRef(name: string, kind: string)

  function Ref(k: nat): PlotRef
    requires k < Steps
  {
    PlotRef(Names[k], Kinds[k])
  }

  /** Proof helper for `StepOfRef`: no two steps share a plot type. */
  lemma KindsDistinct()
    ensures forall i, j :: 0 <= i < j < Steps ==> Kinds[i] != Kinds[j]
  {
  }

  /** The fitted values of the machine-learning steps. */
  datatype Fits = Fits(
    importance: seq<real>, hcLabels: seq<int>, hcScore: real, kmLabels: seq<int>, kmScore: real,
    lassoCoef: seq<real>, ridgeCoef: seq<real>)

  /** What the libraries do on this request. */
  datatype Library = Library(
    readDeg: Result<Table, Raised>,
    readEnrichment: Result<Table, Raised>,
    typeError: string,
    volcanoCause: string,
    validationMessage: string,
    heatmapRows: nat,
    completes: seq<bool>,
    draws: seq<seq<seq<real>>>,
    fits: Fits,
    fmt: ResearchService.Formats)

  /** One completion flag per step, one random draw per ML call, and frames of equal-length columns. */
  predicate Coherent(lib: Library) {
    |lib.completes| == Steps && |lib.draws| == 6
    && (lib.readDeg.Ok? ==>
      lib.readDeg.value.Valid() && forall d :: d in lib.draws ==> NoiseFits(d, lib.readDeg.value.nrows))
    && (lib.readEnrichment.Ok? ==> lib.readEnrichment.value.Valid())
  }

  /** `normalize_column_names` on the frame pandas read. */
  function Normalized(t: Table): Table {
    Table(Normalize(t.names), t.cols, t.nrows)
  }

  /** The enrichment frame the pathway step sees: only an uploaded, non-empty file that parsed. */
  function EnrichmentFrame(enrichment: Option<Upload>, lib: Library): Option<Table> {
    if enrichment.Some? && enrichment.value.size > 0 && lib.readEnrichment.Ok? then Some(lib.readEnrichment.value)
    else None
  }

  /** The p column the endpoint asks the volcano plot for. */
  function VolcanoAsk(t: Table): string {
    if "padj" in t.names then "padj" else "pvalue"
  }

  /** The SVM step's model succeeds on the samples of the frame the analysis read. */
  predicate SvmRuns(t: Table, lib: Library)
    requires t.Valid() && |lib.draws| == 6
  {
    NoiseFits(lib.draws[0], t.nrows) && Svm(Prepare(t, lib.draws[0], None), 2).Ok?
  }

  /** The forest step's model succeeds on the samples of the frame the SVM step left. */
  predicate ForestRuns(t: Table, lib: Library)
    requires t.Valid() && |lib.draws| == 6
  {
    NoiseFits(lib.draws[0], t.nrows) && NoiseFits(lib.draws[1], t.nrows)
    && Forest(Prepare(ExtractedFrame(t, lib.draws[0]), lib.draws[1], None), 2, lib.fits.importance).Ok?
  }

  /** Whether step `k` appends its plot: what the model decides, then whether the libraries finish. */
  predicate StepOk(t: Table, e: Option<Table>, lib: Library, k: nat)
    requires t.Valid() && Coherent(lib) && (e.Some? ==> e.value.Valid()) && k < Steps
  {
    match k
    case 0 => GenerateVolcano(t, VolcanoAsk(t), "log2fc", 0.05, 1.0).Ok? && lib.completes[0]
    case 1 => GeneratePca(t, None, 2).Ok? && lib.completes[1]
    case 2 => GenerateHeatmap(t, None, lib.heatmapRows).Ok? && lib.completes[2]
    case 3 => e.Some? && PathwayPlot(e.value, 20).Ok? && lib.completes[3]
    case 4 => SvmRuns(t, lib) && lib.completes[4]
    case 5 => ForestRuns(t, lib) && lib.completes[5]
    case _ => lib.completes[k]
  }

  /** The steps among the first `j` that append their plot, in order. */
  function Included(t: Table, e: Option<Table>, lib: Library, j: nat): (r: seq<nat>)
    requires t.Valid() && Coherent(lib) && (e.Some? ==> e.value.Valid()) && j <= Steps
    ensures forall q :: 0 <= q < |r| ==> r[q] < j
  {
    if j == 0 then []
    else Included(t, e, lib, j - 1) + (if StepOk(t, e, lib, j - 1) then [j - 1] else [])
  }

  function Refs(ks: seq<nat>): (r: seq<PlotRef>)
    requires forall q :: 0 <= q < |ks| ==> ks[q] < Steps
    ensures |r| == |ks| && forall q :: 0 <= q < |ks| ==> r[q] == Ref(ks[q])
  {
    seq(|ks|, q requires 0 <= q < |ks| => Ref(ks[q]))
  }

  /** The steps that append come in step order, each once, exactly when they succeed. */
  lemma {:induction false} IncludedSpec(t: Table, e: Option<Table>, lib: Library, j: nat)
    requires t.Valid() && Coherent(lib) && (e.Some? ==> e.value.Valid()) && j <= Steps
    ensures Increasing(Included(t, e, lib, j))
    ensures forall k :: 0 <= k < j ==> (k in Included(t, e, lib, j) <==> StepOk(t, e, lib, k))
    decreases j
  {
    if j > 0 {
      IncludedSpec(t, e, lib, j - 1);
    }
  }

  // -------------------------------------------------------------- the answer

  /** `summary_stats`: the counts as computed, percentages to two places, log2fc figures to three. */
  datatype SummaryStats = SummaryStats(
    numDeg: nat, up: nat, down: nat, totalGenes: nat,
    degPercentage: real, upPercentage: real, downPercentage: real,
    avgLog2fc: real, medianLog2fc: real,
    degFile: string, enrichmentFile: Option<string>)

  datatype ResearchResponse = ResearchResponse(
    projectName: Option<string>, plots: seq<PlotRef>,
    narrative: map<string, NarrativeSection>, summaryStats: SummaryStats)

  function Summary(s: DegStats, deg: Upload, enrichment: Option<Upload>): SummaryStats {
    SummaryStats(s.numDeg, s.up, s.down, s.totalGenes,
      Round2(s.degPercentage), Round2(s.upPercentage), Round2(s.downPercentage),
      Round3(s.avgLog2fc), Round3(s.medianLog2fc),
      deg.filename, if enrichment.Some? then Some(enrichment.value.filename) else None)
  }

  /** The counts the narrative reads from `summary_stats`. */
  function CountsOf(s: SummaryStats): ResearchService.Stats {
    map["num_deg" := s.numDeg as int, "up" := s.up as int, "down" := s.down as int, "total_genes" := s.totalGenes as int]
  }

  /** What the endpoint answers. */
  function Respond(meta: Meta, deg: Upload, enrichment: Option<Upload>, lib: Library): Result<ResearchResponse, HttpError>
    requires Coherent(lib)
  {
    var request := ParseMetadata(meta, lib.validationMessage);
    if request.Err? then Err(request.error)
    else if lib.readDeg.Err? then Err(ToHttp(lib.readDeg.error))
    else
      var t := Normalized(lib.readDeg.value);
      var analysis := AnalyzeDegData(t, Defaults);
      if analysis.Err? then Err(ToHttp(DegRaised(analysis.error, lib.typeError)))
      else
        var e := EnrichmentFrame(enrichment, lib);
        if !StepOk(t, e, lib, 0) then Err(ToHttp(OtherError(VolcanoMessage(lib.volcanoCause))))
        else Ok(Success(request.value, t, e, analysis.value, deg, enrichment, lib))
  }

  /** The response once the volcano plot is in: the plots that made it, the narrative and the summary. */
  function Success(request: ResearchRequest, t: Table, e: Option<Table>, s: DegStats, deg: Upload,
                   enrichment: Option<Upload>, lib: Library): ResearchResponse
    requires t.Valid() && Coherent(lib) && (e.Some? ==> e.value.Valid())
  {
    var summary := Summary(s, deg, enrichment);
    ResearchResponse(request.projectName, Refs(Included(t, e, lib, |lib.completes|)),
      ResearchService.GenerateScientificNarrative(CountsOf(summary), lib.fmt), summary)
  }

  /** `plots.append(...)` when the step's try-block ran to the end. */
  method AddPlot(plots: seq<PlotRef>, k: nat, ok: bool) returns (r: seq<PlotRef>)
    requires k < Steps
    ensures r == plots + (if ok then [Ref(k)] else [])
  {
    r := plots;
    if ok {
      r := r + [Ref(k)];
    }
  }

  lemma RefsAppend(ks: seq<nat>, k: nat, ok: bool)
    requires (forall q :: 0 <= q < |ks| ==> ks[q] < Steps) && k < Steps
    ensures Refs(ks + (if ok then [k] else [])) == Refs(ks) + (if ok then [Ref(k)] else [])
  {
  }

  /** The ten plot steps; the frame `df` is the one the analysis read, and the ML steps add columns to it. */
  method RunPlotSteps(df: DataFrame, e: Option<DataFrame>, lib: Library) returns (plots: seq<PlotRef>)
    requires Coherent(lib) && df.Valid() && lib.readDeg.Ok? && df.nrows == lib.readDeg.value.nrows
    requires e.Some? ==> e.value.Valid() && e.value != df
    requires StepOk(df.Snapshot(), if e.Some? then Some(e.value.Snapshot()) else None, lib, 0)
    modifies df
    ensures plots == Refs(Included(old(df.Snapshot()), if e.Some? then Some(e.value.Snapshot()) else None, lib, |lib.completes|))
  {
    ghost var t := df.Snapshot();
    ghost var et := if e.Some? then Some(e.value.Snapshot()) else None;
    plots := RunFigureSteps(df, e, lib);
    plots := RunModelSteps(df, et, lib, plots);
  }

  /** The volcano plot, which is in, then the PCA plot, the heatmap and the pathway plot. */
  method RunFigureSteps(df: DataFrame, e: Option<DataFrame>, lib: Library) returns (plots: seq<PlotRef>)
    requires Coherent(lib) && df.Valid()
    requires e.Some? ==> e.value.Valid()
    requires StepOk(df.Snapshot(), if e.Some? then Some(e.value.Snapshot()) else None, lib, 0)
    ensures plots == Refs(Included(df.Snapshot(), if e.Some? then Some(e.value.Snapshot()) else None, lib, 4))
  {
    ghost var t := df.Snapshot();
    ghost var et := if e.Some? then Some(e.value.Snapshot()) else None;
    plots := [Ref(0)];
    assert plots == Refs(Included(t, et, lib, 1));

    var pca := GeneratePca(df.Snapshot(), None, 2);
    plots := AddStep(plots, t, et, lib, 1, pca.Ok? && lib.completes[1]);
    var heatmap := GenerateHeatmap(df.Snapshot(), None, lib.heatmapRows);
    plots := AddStep(plots, t, et, lib, 2, heatmap.Ok? && lib.completes[2]);
    var pathwayOk := false;
    if e.Some? {
      var pathway := GeneratePathwayEnrichmentPlot(e.value, 20);
      pathwayOk := pathway.Ok? && lib.completes[3];
    }
    plots := AddStep(plots, t, et, lib, 3, pathwayOk);
  }

  /** The plots after step `k` are those before it and the step's own when it succeeds. */
  lemma NextRefs(t: Table, e: Option<Table>, lib: Library, k: nat, plots: seq<PlotRef>)
    requires t.Valid() && Coherent(lib) && (e.Some? ==> e.value.Valid()) && k < Steps
    requires plots == Refs(Included(t, e, lib, k))
    ensures plots + (if StepOk(t, e, lib, k) then [Ref(k)] else []) == Refs(Included(t, e, lib, k + 1))
  {
    RefsAppend(Included(t, e, lib, k), k, StepOk(t, e, lib, k));
  }

  /** The six machine-learning steps, each on the shared frame, which the first one may extend. */
  method RunModelSteps(df: DataFrame, ghost e: Option<Table>, lib: Library, before: seq<PlotRef>)
    returns (plots: seq<PlotRef>)
    requires Coherent(lib) && df.Valid() && lib.readDeg.Ok? && df.nrows == lib.readDeg.value.nrows
    requires e.Some? ==> e.value.Valid()
    requires before == Refs(Included(df.Snapshot(), e, lib, 4))
    modifies df
    ensures plots == Refs(Included(old(df.Snapshot()), e, lib, Steps))
    ensures df.Valid() && df.nrows == old(df.nrows)
  {
    ghost var t := df.Snapshot();
    plots := RunClassifierSteps(df, e, lib, before);
    plots := RunClusterSteps(df, lib, plots);
    IncludedTail(t, e, lib, Steps);
    RefsConcat(Included(t, e, lib, 6), Completed(lib, 6, Steps));
  }

  /**
   * The SVM step extracts its samples from `df`, adding synthetic columns to
   * it when too few are found; the forest step then extracts from what the
   * SVM step left. Each appends its plot only when its cross-validation can run.
   */
  method RunClassifierSteps(df: DataFrame, ghost e: Option<Table>, lib: Library, before: seq<PlotRef>)
    returns (plots: seq<PlotRef>)
    requires Coherent(lib) && df.Valid() && lib.readDeg.Ok? && df.nrows == lib.readDeg.value.nrows
    requires e.Some? ==> e.value.Valid()
    requires before == Refs(Included(df.Snapshot(), e, lib, 4))
    modifies df
    ensures plots == Refs(Included(old(df.Snapshot()), e, lib, 6))
    ensures df.Valid() && df.nrows == old(df.nrows)
  {
    ghost var t := df.Snapshot();
    assert lib.draws[0] in lib.draws && lib.draws[1] in lib.draws;
    var svm := PerformSvmClassification(df, lib.draws[0], 2, None);
    assert svm.Ok? == SvmRuns(t, lib);
    plots := AddStep(before, t, e, lib, 4, svm.Ok? && lib.completes[4]);
    var forest := PerformRandomForestClassification(df, lib.draws[1], 2, None, lib.fits.importance);
    assert forest.Ok? == ForestRuns(t, lib);
    plots := AddStep(plots, t, e, lib, 5, forest.Ok? && lib.completes[5]);
  }

  /** The two clusterings, Lasso and Ridge: each appends its plot when its libraries finish. */
  method RunClusterSteps(df: DataFrame, lib: Library, before: seq<PlotRef>) returns (plots: seq<PlotRef>)
    requires Coherent(lib) && df.Valid() && lib.readDeg.Ok? && df.nrows == lib.readDeg.value.nrows
    modifies df
    ensures plots == before + Refs(Completed(lib, 6, Steps))
    ensures df.Valid() && df.nrows == old(df.nrows)
  {
    assert forall q :: 2 <= q < 6 ==> lib.draws[q] in lib.draws;
    plots := before;
    ExtractSpec(df.Snapshot(), lib.draws[2]);
    var hc := PerformClustering(df, lib.draws[2], 3, None, lib.fits.hcLabels, lib.fits.hcScore);
    plots := AddLateStep(plots, before, lib, 6);
    ExtractSpec(df.Snapshot(), lib.draws[3]);
    var km := PerformClustering(df, lib.draws[3], 3, None, lib.fits.kmLabels, lib.fits.kmScore);
    plots := AddLateStep(plots, before, lib, 7);
    ExtractSpec(df.Snapshot(), lib.draws[4]);
    var lasso := PerformLassoFeatureSelection(df, lib.draws[4], None, lib.fits.lassoCoef);
    plots := AddLateStep(plots, before, lib, 8);
    ExtractSpec(df.Snapshot(), lib.draws[5]);
    var ridge := PerformRidgeRegression(df, lib.draws[5], None, lib.fits.ridgeCoef);
    plots := AddLateStep(plots, before, lib, 9);
  }

  /** The steps in [lo, hi) whose libraries finish. */
  function Completed(lib: Library, lo: nat, hi: nat): (r: seq<nat>)
    requires lo <= hi <= |lib.completes|
    ensures forall q :: 0 <= q < |r| ==> lo <= r[q] < hi
    decreases hi
  {
    if lo == hi then []
    else Completed(lib, lo, hi - 1) + (if lib.completes[hi - 1] then [hi - 1] else [])
  }

  /** From the first clustering step on, a step appends exactly when its libraries finish. */
  lemma {:induction false} IncludedTail(t: Table, e: Option<Table>, lib: Library, j: nat)
    requires t.Valid() && Coherent(lib) && (e.Some? ==> e.value.Valid()) && 6 <= j <= Steps
    ensures Included(t, e, lib, j) == Included(t, e, lib, 6) + Completed(lib, 6, j)
    decreases j
  {
    if j > 6 {
      IncludedTail(t, e, lib, j - 1);
      var last := if lib.completes[j - 1] then [j - 1] else [];
      assert StepOk(t, e, lib, j - 1) == lib.completes[j - 1];
      assert Included(t, e, lib, j) == Included(t, e, lib, j - 1) + last;
      assert Completed(lib, 6, j) == Completed(lib, 6, j - 1) + last;
      assert (Included(t, e, lib, 6) + Completed(lib, 6, j - 1)) + last
        == Included(t, e, lib, 6) + (Completed(lib, 6, j - 1) + last);
    }
  }

  lemma RefsConcat(a: seq<nat>, b: seq<nat>)
    requires forall q :: 0 <= q < |a| ==> a[q] < Steps
    requires forall q :: 0 <= q < |b| ==> b[q] < Steps
    ensures Refs(a + b) == Refs(a) + Refs(b)
  {
  }

  /** A clustering, Lasso or Ridge step's `plots.append(...)`, when its fit and figure finish. */
  method AddLateStep(plots: seq<PlotRef>, before: seq<PlotRef>, lib: Library, k: nat) returns (r: seq<PlotRef>)
    requires Coherent(lib) && 6 <= k < Steps && plots == before + Refs(Completed(lib, 6, k))
    ensures r == before + Refs(Completed(lib, 6, k + 1))
  {
    r := AddPlot(plots, k, lib.completes[k]);
    RefsAppend(Completed(lib, 6, k), k, lib.completes[k]);
  }

  /**
   * The classifiers' cross-validation needs four samples: the SVM step
   * appends only when the frame yields at least four sample columns, the
   * forest step only when the frame the SVM step left does. A frame with two
   * or three numeric columns outside the excluded names fails both; one with
   * fewer than two gets the six synthetic samples and the SVM step runs.
   */
  lemma ClassifierSteps(t: Table, e: Option<Table>, lib: Library)
    requires t.Valid() && Coherent(lib) && (e.Some? ==> e.value.Valid())
    requires NoiseFits(lib.draws[0], t.nrows) && NoiseFits(lib.draws[1], t.nrows)
    ensures StepOk(t, e, lib, 4) <==> |SampleColumns(t)| >= 4 && lib.completes[4]
    ensures StepOk(t, e, lib, 5) <==> |SampleColumns(ExtractedFrame(t, lib.draws[0]))| >= 4 && lib.completes[5]
    ensures 2 <= |Candidates(t)| < 4 ==> !StepOk(t, e, lib, 4) && !StepOk(t, e, lib, 5)
    ensures |Candidates(t)| < 2 ==> (StepOk(t, e, lib, 4) <==> lib.completes[4])
  {
    PrepareSpec(t, lib.draws[0], None);
    ExtractSpec(t, lib.draws[0]);
    PrepareSpec(ExtractedFrame(t, lib.draws[0]), lib.draws[1], None);
    SyntheticShape();
  }

  /** A step's `plots.append(...)`, when its model succeeds and its libraries finish. */
  method AddStep(plots: seq<PlotRef>, ghost t: Table, ghost e: Option<Table>, lib: Library, k: nat, ok: bool)
    returns (r: seq<PlotRef>)
    requires t.Valid() && Coherent(lib) && (e.Some? ==> e.value.Valid()) && k < Steps
    requires plots == Refs(Included(t, e, lib, k)) && ok == StepOk(t, e, lib, k)
    ensures r == Refs(Included(t, e, lib, k + 1))
  {
    r := AddPlot(plots, k, ok);
    NextRefs(t, e, lib, k, plots);
  }

  /** `analyze_research`. */
  method AnalyzeResearch(meta: Meta, deg: Upload, enrichment: Option<Upload>, lib: Library)
    returns (r: Result<ResearchResponse, HttpError>)
    requires Coherent(lib)
    ensures r == Respond(meta, deg, enrichment, lib)
  {
    var request := ParseMetadata(meta, lib.validationMessage);
    if request.Err? {
      return Err(request.error);
    }
    // try:
    if lib.readDeg.Err? {
      return Err(ToHttp(lib.readDeg.error));
    }
    var read := new DataFrame(lib.readDeg.value);
    var df := NormalizeColumnNames(read);
    ghost var t := Normalized(lib.readDeg.value);
    assert df.Snapshot() == t;
    var analysis := AnalyzeDegData(df.Snapshot(), Defaults);
    if analysis.Err? {
      return Err(ToHttp(DegRaised(analysis.error, lib.typeError)));
    }

    var enrichmentDf: Option<DataFrame> := None;
    if enrichment.Some? && enrichment.value.size > 0 {
      match lib.readEnrichment {
        case Ok(et) =>
          var edf := new DataFrame(et);
          enrichmentDf := Some(edf);
        case Err(_) =>
          // the warning is printed and the analysis goes on without enrichment
      }
    }
    ghost var e := EnrichmentFrame(enrichment, lib);
    assert (if enrichmentDf.Some? then Some(enrichmentDf.value.Snapshot()) else None) == e;
    r := FinishResearch(request.value, df, enrichmentDf, analysis.value, deg, enrichment, lib);
  }

  /** The rest of `analyze_research` once the DEG analysis is done: the plot steps and the response. */
  method FinishResearch(request: ResearchRequest, df: DataFrame, enrichmentDf: Option<DataFrame>, s: DegStats,
                        deg: Upload, enrichment: Option<Upload>, lib: Library)
    returns (r: Result<ResearchResponse, HttpError>)
    requires Coherent(lib) && df.Valid() && lib.readDeg.Ok? && df.nrows == lib.readDeg.value.nrows
    requires enrichmentDf.Some? ==> enrichmentDf.value.Valid() && enrichmentDf.value != df
    modifies df
    ensures var t := old(df.Snapshot());
      var e := if enrichmentDf.Some? then Some(enrichmentDf.value.Snapshot()) else None;
      r == if StepOk(t, e, lib, 0) then Ok(Success(request, t, e, s, deg, enrichment, lib))
        else Err(ToHttp(OtherError(VolcanoMessage(lib.volcanoCause))))
  {
    ghost var t := df.Snapshot();
    ghost var e := if enrichmentDf.Some? then Some(enrichmentDf.value.Snapshot()) else None;
    var volcano := GenerateVolcano(df.Snapshot(), VolcanoAsk(df.Snapshot()), "log2fc", 0.05, 1.0);
    if volcano.Err? || !lib.completes[0] {
      // the HTTPException raised here is itself caught by `except Exception`
      return Err(ToHttp(OtherError(VolcanoMessage(lib.volcanoCause))));
    }
    var plots := RunPlotSteps(df, enrichmentDf, lib);

    var summary := Summary(s, deg, enrichment);
    var narrative := ResearchService.GenerateScientificNarrative(CountsOf(summary), lib.fmt);
    r := Ok(ResearchResponse(request.projectName, plots, narrative, summary));
    assert r.value == Success(request, t, e, s, deg, enrichment, lib);
  }

  // ---------------------------------------------------------- what it promises

  /** Metadata valid, DEG file read, and the DEG analysis done: the point after which only the volcano step can fail. */
  predicate Analyzed(meta: Meta, lib: Library)
    requires Coherent(lib)
  {
    ParseMetadata(meta, lib.validationMessage).Ok? && lib.readDeg.Ok?
    && AnalyzeDegData(Normalized(lib.readDeg.value), Defaults).Ok?
  }

  /**
   * The request succeeds exactly when the metadata, the DEG file and its
   * analysis are sound and the volcano figure is drawn; the volcano model
   * itself never refuses a frame the analysis accepted.
   */
  lemma VolcanoGate(meta: Meta, deg: Upload, enrichment: Option<Upload>, lib: Library)
    requires Coherent(lib)
    ensures Respond(meta, deg, enrichment, lib).Ok? <==> Analyzed(meta, lib) && lib.completes[0]
    ensures Analyzed(meta, lib) && !lib.completes[0] ==>
      Respond(meta, deg, enrichment, lib)
      == Err(HttpError(500, "Analysis error: " + VolcanoMessage(lib.volcanoCause)))
  {
    if Analyzed(meta, lib) {
      VolcanoStepOk(Normalized(lib.readDeg.value), EnrichmentFrame(enrichment, lib), lib);
    }
  }

  /** On a frame the analysis accepted, the volcano step succeeds exactly when its figure is drawn. */
  lemma VolcanoStepOk(t: Table, e: Option<Table>, lib: Library)
    requires t.Valid() && Coherent(lib) && (e.Some? ==> e.value.Valid()) && AnalyzeDegData(t, Defaults).Ok?
    ensures StepOk(t, e, lib, 0) == lib.completes[0]
  {
    VolcanoMatchesDeg(t);
  }

  /**
   * Status codes: 400 for undecodable or invalid metadata and for every
   * ValueError of the analysis (a file pandas cannot parse, a missing
   * column); 500 for everything else that goes wrong.
   */
  lemma ErrorStatus(meta: Meta, deg: Upload, enrichment: Option<Upload>, lib: Library)
    requires Coherent(lib)
    ensures var r := Respond(meta, deg, enrichment, lib);
      r.Err? ==> r.error.status == 400 || r.error.status == 500
    ensures var r := Respond(meta, deg, enrichment, lib);
      r.Err? && r.error.status == 400 <==>
      (meta.Malformed? || (meta.Object? && ParseMetadata(meta, lib.validationMessage).Err?)
       || (ParseMetadata(meta, lib.validationMessage).Ok? && lib.readDeg.Err? && lib.readDeg.error.ValueError?)
       || (ParseMetadata(meta, lib.validationMessage).Ok? && lib.readDeg.Ok?
           && AnalyzeDegData(Normalized(lib.readDeg.value), Defaults).Err?
           && AnalyzeDegData(Normalized(lib.readDeg.value), Defaults).error.MissingColumn?))
  {
  }

  /** The step a plot belongs to, by its type; -1 for a type no step produces. */
  function StepOf(p: PlotRef): int {
    if p.kind in Kinds then IndexOf(Kinds, p.kind) else -1
  }

  lemma StepOfRef(k: nat)
    requires k < Steps
    ensures StepOf(Ref(k)) == k
  {
    KindsDistinct();
    IndexOfDistinct(Kinds, k);
  }

  /** Every plot belongs to a step, and the steps strictly increase: each plot once, in running order. */
  predicate InStepOrder(plots: seq<PlotRef>) {
    forall i, j :: 0 <= i < j < |plots| ==> 0 <= StepOf(plots[i]) < StepOf(plots[j]) < Steps
  }

  /** The plots of a list of steps name those steps, one to one, in the same order. */
  lemma {:induction false} RefsSteps(ks: seq<nat>)
    requires forall q :: 0 <= q < |ks| ==> ks[q] < Steps
    ensures forall q :: 0 <= q < |ks| ==> StepOf(Refs(ks)[q]) == ks[q]
    ensures forall k :: 0 <= k < Steps ==> (Ref(k) in Refs(ks) <==> k in ks)
    ensures Increasing(ks) ==> InStepOrder(Refs(ks))
    ensures Increasing(ks) && 0 in ks ==> Refs(ks)[0] == Ref(0)
  {
    forall q | 0 <= q < |ks|
      ensures StepOf(Refs(ks)[q]) == ks[q]
    {
      StepOfRef(ks[q]);
    }
    forall k | 0 <= k < Steps
      ensures Ref(k) in Refs(ks) <==> k in ks
    {
      if Ref(k) in Refs(ks) {
        var q :| 0 <= q < |ks| && Refs(ks)[q] == Ref(k);
        StepOfRef(k);
        assert ks[q] == k;
      }
    }
    if Increasing(ks) && 0 in ks {
      var q :| 0 <= q < |ks| && ks[q] == 0;
      assert q == 0;
    }
  }

  /** The plot list of `Success`: exactly the steps that succeed, by step order, the volcano plot first when it does. */
  lemma SuccessPlots(request: ResearchRequest, t: Table, e: Option<Table>, s: DegStats, deg: Upload,
                     enrichment: Option<Upload>, lib: Library)
    requires t.Valid() && Coherent(lib) && (e.Some? ==> e.value.Valid())
    ensures var plots := Success(request, t, e, s, deg, enrichment, lib).plots;
      forall k :: 0 <= k < Steps ==> (Ref(k) in plots <==> StepOk(t, e, lib, k))
    ensures var plots := Success(request, t, e, s, deg, enrichment, lib).plots;
      StepOk(t, e, lib, 0) ==> |plots| > 0 && plots[0] == Ref(0)
    ensures InStepOrder(Success(request, t, e, s, deg, enrichment, lib).plots)
  {
    var ks := Included(t, e, lib, |lib.completes|);
    IncludedSpec(t, e, lib, Steps);
    RefsSteps(ks);
  }

  /** A successful answer holds the plot of step `k` exactly when that step succeeded. */
  lemma PlotsMembership(meta: Meta, deg: Upload, enrichment: Option<Upload>, lib: Library, k: nat)
    requires Coherent(lib) && Respond(meta, deg, enrichment, lib).Ok? && k < Steps
    ensures lib.readDeg.Ok? && Normalized(lib.readDeg.value).Valid()
    ensures Ref(k) in Respond(meta, deg, enrichment, lib).value.plots
      <==> StepOk(Normalized(lib.readDeg.value), EnrichmentFrame(enrichment, lib), lib, k)
  {
    RespondSuccess(meta, deg, enrichment, lib);
    var t := Normalized(lib.readDeg.value);
    SuccessPlots(ParseMetadata(meta, lib.validationMessage).value, t, EnrichmentFrame(enrichment, lib),
      AnalyzeDegData(t, Defaults).value, deg, enrichment, lib);
  }

  /**
   * The heatmap step of a successful answer whose DEG table has rows. The
   * call as written raises there, so the endpoint as written never lists a
   * heatmap; the model, which runs the corrected call, lists one exactly
   * when the plotting library finishes.
   */
  lemma HeatmapStepAsWritten(meta: Meta, deg: Upload, enrichment: Option<Upload>, lib: Library)
    requires Coherent(lib) && Respond(meta, deg, enrichment, lib).Ok?
    ensures lib.readDeg.Ok? && Normalized(lib.readDeg.value).Valid()
    ensures var t := Normalized(lib.readDeg.value);
      t.nrows > 0 ==>
        HeatmapAsWritten(t, None, lib.heatmapRows).Err?
        && (Ref(2) in Respond(meta, deg, enrichment, lib).value.plots <==> lib.completes[2])
  {
    RespondSuccess(meta, deg, enrichment, lib);
    var t := Normalized(lib.readDeg.value);
    PlotsMembership(meta, deg, enrichment, lib, 2);
    if t.nrows > 0 {
      assert Ready(t);
      HeatmapNeverDrawn(t, None, lib.heatmapRows);
    }
  }

  /**
   * A successful answer lists the volcano plot first, and then the plots
   * each once, in the order the endpoint runs the steps.
   */
  lemma PlotsOrdered(meta: Meta, deg: Upload, enrichment: Option<Upload>, lib: Library)
    requires Coherent(lib) && Respond(meta, deg, enrichment, lib).Ok?
    ensures var plots := Respond(meta, deg, enrichment, lib).value.plots;
      |plots| > 0 && plots[0] == Ref(0)
    ensures InStepOrder(Respond(meta, deg, enrichment, lib).value.plots)
  {
    RespondSuccess(meta, deg, enrichment, lib);
    var t := Normalized(lib.readDeg.value);
    var e := EnrichmentFrame(enrichment, lib);
    var request, analysis := ParseMetadata(meta, lib.validationMessage).value, AnalyzeDegData(t, Defaults).value;
    VolcanoStepOk(t, e, lib);
    SuccessPlots(request, t, e, analysis, deg, enrichment, lib);
  }

  /** A successful answer is `Success` on the parsed request and the analysis. */
  lemma RespondSuccess(meta: Meta, deg: Upload, enrichment: Option<Upload>, lib: Library)
    requires Coherent(lib) && Respond(meta, deg, enrichment, lib).Ok?
    ensures Analyzed(meta, lib) && Normalized(lib.readDeg.value).Valid()
    ensures var t := Normalized(lib.readDeg.value);
      Respond(meta, deg, enrichment, lib).value
      == Success(ParseMetadata(meta, lib.validationMessage).value, t, EnrichmentFrame(enrichment, lib),
           AnalyzeDegData(t, Defaults).value, deg, enrichment, lib)
  {
  }

  /** Marking step `k` unfinished changes whether that step succeeds and no other. */
  lemma StepOkWithout(t: Table, e: Option<Table>, lib: Library, k: nat, j: nat)
    requires t.Valid() && Coherent(lib) && (e.Some? ==> e.value.Valid()) && k < Steps && j < Steps
    ensures Coherent(lib.(completes := lib.completes[k := false]))
    ensures StepOk(t, e, lib.(completes := lib.completes[k := false]), j) <==> j != k && StepOk(t, e, lib, j)
  {
  }

  /** A step after the volcano plot that fails does not decide whether the request succeeds. */
  lemma StepFailureKeepsOutcome(meta: Meta, deg: Upload, enrichment: Option<Upload>, lib: Library, k: nat)
    requires Coherent(lib) && 1 <= k < Steps
    ensures Coherent(lib.(completes := lib.completes[k := false]))
    ensures Respond(meta, deg, enrichment, lib.(completes := lib.completes[k := false])).Ok?
      <==> Respond(meta, deg, enrichment, lib).Ok?
  {
    VolcanoGate(meta, deg, enrichment, lib);
    VolcanoGate(meta, deg, enrichment, lib.(completes := lib.completes[k := false]));
  }

  /** Such a step is only left out: every other plot stays as it was. */
  lemma StepFailureOnlyOmits(meta: Meta, deg: Upload, enrichment: Option<Upload>, lib: Library, k: nat, j: nat)
    requires Coherent(lib) && 1 <= k < Steps && j < Steps && Respond(meta, deg, enrichment, lib).Ok?
    ensures Coherent(lib.(completes := lib.completes[k := false]))
    ensures var r, r' := Respond(meta, deg, enrichment, lib),
                         Respond(meta, deg, enrichment, lib.(completes := lib.completes[k := false]));
      r'.Ok? && (Ref(j) in r'.value.plots <==> j != k && Ref(j) in r.value.plots)
  {
    var lib' := lib.(completes := lib.completes[k := false]);
    StepFailureKeepsOutcome(meta, deg, enrichment, lib, k);
    PlotsMembership(meta, deg, enrichment, lib, j);
    PlotsMembership(meta, deg, enrichment, lib', j);
    StepOkWithout(Normalized(lib.readDeg.value), EnrichmentFrame(enrichment, lib), lib, k, j);
  }

  /** Nor does a failing step after the volcano plot change the summary, the narrative or the project name. */
  lemma StepFailureKeepsSummary(meta: Meta, deg: Upload, enrichment: Option<Upload>, lib: Library, k: nat)
    requires Coherent(lib) && 1 <= k < Steps && Respond(meta, deg, enrichment, lib).Ok?
    ensures Coherent(lib.(completes := lib.completes[k := false]))
    ensures var r, r' := Respond(meta, deg, enrichment, lib),
                         Respond(meta, deg, enrichment, lib.(completes := lib.completes[k := false]));
      r'.Ok? && r'.value.summaryStats == r.value.summaryStats && r'.value.narrative == r.value.narrative
      && r'.value.projectName == r.value.projectName
  {
    var lib' := lib.(completes := lib.completes[k := false]);
    StepFailureKeepsOutcome(meta, deg, enrichment, lib, k);
    RespondSuccess(meta, deg, enrichment, lib);
    RespondSuccess(meta, deg, enrichment, lib');
  }

  /** The pathway plot is in the answer exactly when a non-empty enrichment file parsed and its plot was drawn. */
  lemma PathwayNeedsEnrichment(meta: Meta, deg: Upload, enrichment: Option<Upload>, lib: Library)
    requires Coherent(lib) && Respond(meta, deg, enrichment, lib).Ok?
    ensures Ref(3) in Respond(meta, deg, enrichment, lib).value.plots <==>
      (enrichment.Some? && enrichment.value.size > 0 && lib.readEnrichment.Ok?
       && PathwayPlot(lib.readEnrichment.value, 20).Ok? && lib.completes[3])
  {
    PlotsMembership(meta, deg, enrichment, lib, 3);
  }

  /**
   * The enrichment file never decides whether the request succeeds: it may
   * be missing, empty or unparsable.
   */
  lemma EnrichmentIsolation(meta: Meta, deg: Upload, enrichment: Option<Upload>, lib: Library,
                            enrichment': Option<Upload>, read': Result<Table, Raised>)
    requires Coherent(lib) && Coherent(lib.(readEnrichment := read'))
    ensures Respond(meta, deg, enrichment', lib.(readEnrichment := read')).Ok?
      <==> Respond(meta, deg, enrichment, lib).Ok?
  {
    VolcanoGate(meta, deg, enrichment, lib);
    VolcanoGate(meta, deg, enrichment', lib.(readEnrichment := read'));
  }

  /** No plot but the pathway plot depends on the enrichment file. */
  lemma EnrichmentKeepsPlots(meta: Meta, deg: Upload, enrichment: Option<Upload>, lib: Library,
                             enrichment': Option<Upload>, read': Result<Table, Raised>, j: nat)
    requires Coherent(lib) && Coherent(lib.(readEnrichment := read')) && j < Steps && j != 3
    requires Respond(meta, deg, enrichment, lib).Ok?
    ensures Respond(meta, deg, enrichment', lib.(readEnrichment := read')).Ok?
    ensures Ref(j) in Respond(meta, deg, enrichment', lib.(readEnrichment := read')).value.plots
      <==> Ref(j) in Respond(meta, deg, enrichment, lib).value.plots
  {
    var lib' := lib.(readEnrichment := read');
    EnrichmentIsolation(meta, deg, enrichment, lib, enrichment', read');
    PlotsMembership(meta, deg, enrichment, lib, j);
    PlotsMembership(meta, deg, enrichment', lib', j);
    StepOkWithoutEnrichment(Normalized(lib.readDeg.value), EnrichmentFrame(enrichment, lib), lib,
      EnrichmentFrame(enrichment', lib'), read', j);
  }

  /** Every step but the pathway step ignores the enrichment frame and the enrichment read. */
  lemma StepOkWithoutEnrichment(t: Table, e: Option<Table>, lib: Library, e': Option<Table>, read': Result<Table, Raised>, j: nat)
    requires t.Valid() && Coherent(lib) && Coherent(lib.(readEnrichment := read')) && j < Steps && j != 3
    requires (e.Some? ==> e.value.Valid()) && (e'.Some? ==> e'.value.Valid())
    ensures StepOk(t, e', lib.(readEnrichment := read'), j) <==> StepOk(t, e, lib, j)
  {
  }

  /** Nor do the DEG count and the narrative depend on it. */
  lemma EnrichmentKeepsSummary(meta: Meta, deg: Upload, enrichment: Option<Upload>, lib: Library,
                               enrichment': Option<Upload>, read': Result<Table, Raised>)
    requires Coherent(lib) && Coherent(lib.(readEnrichment := read'))
    requires Respond(meta, deg, enrichment, lib).Ok?
    ensures Respond(meta, deg, enrichment', lib.(readEnrichment := read')).Ok?
    ensures var r, r' := Respond(meta, deg, enrichment, lib), Respond(meta, deg, enrichment', lib.(readEnrichment := read'));
      r'.value.summaryStats.numDeg == r.value.summaryStats.numDeg && r'.value.narrative == r.value.narrative
  {
    EnrichmentIsolation(meta, deg, enrichment, lib, enrichment', read');
    RespondSuccess(meta, deg, enrichment, lib);
    RespondSuccess(meta, deg, enrichment', lib.(readEnrichment := read'));
  }

  /**
   * `summary_stats`: the analysis' counts, which agree with the volcano
   * plot's up and down points and add up to the DEG count, never above the
   * number of genes; the file names of the request.
   */
  lemma SummarySpec(meta: Meta, deg: Upload, enrichment: Option<Upload>, lib: Library)
    requires Coherent(lib) && Respond(meta, deg, enrichment, lib).Ok?
    ensures lib.readDeg.Ok? && Normalized(lib.readDeg.value).Valid()
    ensures var s, t := Respond(meta, deg, enrichment, lib).value.summaryStats, Normalized(lib.readDeg.value);
      var v := GenerateVolcano(t, VolcanoAsk(t), "log2fc", 0.05, 1.0);
      v.Ok? && s.up == |v.value.up| && s.down == |v.value.down|
      && s.up + s.down == s.numDeg <= s.totalGenes == lib.readDeg.value.nrows
    ensures var s := Respond(meta, deg, enrichment, lib).value.summaryStats;
      s.degFile == deg.filename && (s.enrichmentFile.Some? <==> enrichment.Some?)
  {
    RespondSuccess(meta, deg, enrichment, lib);
    var t := Normalized(lib.readDeg.value);
    VolcanoMatchesDeg(t);
    DegCounts(t, Defaults);
  }
}
