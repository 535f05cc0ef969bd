/**
 * The selection logic of the machine-learning battery: which columns of the
 * DEG frame are taken as samples (adding synthetic ones to the caller's
 * frame when too few are found), the caller's optional restriction to named
 * samples, the synthetic class labels, the cross-validation fold count, the
 * silhouette fallback, Lasso's selection by coefficient threshold and the
 * top-20 rankings of Random Forest importances and Ridge coefficients.
 *
 * The fits themselves (SVC, RandomForestClassifier, AgglomerativeClustering,
 * KMeans, Lasso, Ridge, StandardScaler, silhouette_score) are library
 * numerics: their outputs enter as arbitrary parameters.
 */
module MlAnalyzer {
  import opened Wrappers
  import opened Numerics
  import opened Text
  import opened Frames
  import opened Sorting

  /** Column names that are never samples, compared lowercased. */
  const Exclude: seq<string> :=
    ["log2fc", "pvalue", "padj", "p_value", "p_adj", "fdr", "adj_pval", "fold_change", "fc", "logfc"]

  /** The candidate sample columns: numeric, lowercased name not excluded, in frame order. */
  function Candidates(t: Table): seq<string>
    requires t.Valid()
  {
    NumericExcept(t.names, t.cols, LowerAll(Exclude))
  }

  /** Sample_1 .. Sample_6, the names used when fewer than two candidates exist. */
  const Synthetic: seq<string> := ["Sample_1", "Sample_2", "Sample_3", "Sample_4", "Sample_5", "Sample_6"]

  lemma SyntheticShape()
    ensures |Synthetic| == 6
    ensures forall j, k :: 0 <= j < k < 6 ==> Synthetic[j] != Synthetic[k]
    ensures forall k :: 0 <= k < 6 ==> Lower(Synthetic[k]) !in LowerAll(Exclude)
  {
    forall k | 0 <= k < 6 ensures Lower(Synthetic[k]) !in LowerAll(Exclude) {
      var s := Lower(Synthetic[k]);
      assert s[0] == 's';
      forall i | 0 <= i < |Exclude| ensures LowerAll(Exclude)[i] != s {
        if i == 6 {
          assert LowerAll(Exclude)[i][0] == LowerChar('a');
        }
      }
    }
  }

  /** `np.random.randn(len(df))` for each of the six synthetic columns: arbitrary, one value per row. */
  predicate NoiseFits(noise: seq<seq<real>>, nrows: nat) {
    |noise| == 6 && forall k :: 0 <= k < 6 ==> |noise[k]| == nrows
  }

  function Nums(xs: seq<real>): (r: seq<Float>)
    ensures |r| == |xs|
  {
    seq(|xs|, i requires 0 <= i < |xs| => Num(xs[i]))
  }

  /** `df[col] = cells` when `col` is not a column yet; otherwise nothing. */
  function AddIfMissing(p: Table, col: string, cells: seq<real>): (r: Table)
    requires p.Valid() && |cells| == p.nrows
    ensures r.Valid() && r.nrows == p.nrows
  {
    if col in p.names then p else Table(p.names + [col], p.cols + [Column(true, Nums(cells))], p.nrows)
  }

  /** The caller's frame after the first `k` synthetic names were considered. */
  function Pad(t: Table, noise: seq<seq<real>>, k: nat): (r: Table)
    requires t.Valid() && NoiseFits(noise, t.nrows) && k <= 6
    ensures r.Valid() && r.nrows == t.nrows
    decreases k
  {
    if k == 0 then t else AddIfMissing(Pad(t, noise, k - 1), Synthetic[k - 1], noise[k - 1])
  }

  /**
   * `AddIfMissing` only appends: the old columns stay in place, `col` is a
   * column afterwards, and an appended column is `col`, numeric, and was
   * missing before.
   */
  lemma AddIfMissingSpec(p: Table, col: string, cells: seq<real>)
    requires p.Valid() && |cells| == p.nrows
    ensures var r := AddIfMissing(p, col, cells);
      |p.names| <= |r.names| && r.names[..|p.names|] == p.names && r.cols[..|p.cols|] == p.cols
      && col in r.names
      && forall i :: |p.names| <= i < |r.names| ==> r.names[i] == col && col !in p.names && r.cols[i].numeric
  {
    if col !in p.names {
      var r := AddIfMissing(p, col, cells);
      assert r.names[..|p.names|] == p.names && r.cols[..|p.cols|] == p.cols;
      assert r.names[|p.names|] == col;
    }
  }

  /** Padding keeps the old columns in place, in front. */
  lemma {:induction false} PadPrefix(t: Table, noise: seq<seq<real>>, k: nat)
    requires t.Valid() && NoiseFits(noise, t.nrows) && k <= 6
    ensures var r := Pad(t, noise, k);
      |t.names| <= |r.names| && r.names[..|t.names|] == t.names && r.cols[..|t.cols|] == t.cols
    decreases k
  {
    if k > 0 {
      PadPrefix(t, noise, k - 1);
      var p := Pad(t, noise, k - 1);
      var r := Pad(t, noise, k);
      AddIfMissingSpec(p, Synthetic[k - 1], noise[k - 1]);
      assert r.names[..|t.names|] == r.names[..|p.names|][..|t.names|];
      assert r.cols[..|t.cols|] == r.cols[..|p.cols|][..|t.cols|];
    }
  }

  /** Every synthetic name considered is a column afterwards. */
  lemma {:induction false} PadNames(t: Table, noise: seq<seq<real>>, k: nat)
    requires t.Valid() && NoiseFits(noise, t.nrows) && k <= 6
    ensures forall j :: 0 <= j < k ==> Synthetic[j] in Pad(t, noise, k).names
    decreases k
  {
    if k > 0 {
      PadNames(t, noise, k - 1);
      var p := Pad(t, noise, k - 1);
      AddIfMissingSpec(p, Synthetic[k - 1], noise[k - 1]);
      forall j | 0 <= j < k - 1 ensures Synthetic[j] in Pad(t, noise, k).names {
        var i :| 0 <= i < |p.names| && p.names[i] == Synthetic[j];
        assert Pad(t, noise, k).names[..|p.names|][i] == Synthetic[j];
      }
    }
  }

  /** Each appended column is a numeric synthetic column that was missing before. */
  lemma {:induction false} PadNew(t: Table, noise: seq<seq<real>>, k: nat)
    requires t.Valid() && NoiseFits(noise, t.nrows) && k <= 6
    ensures var r := Pad(t, noise, k);
      forall i :: |t.names| <= i < |r.names| ==>
        r.names[i] in Synthetic && r.names[i] !in t.names && r.cols[i].numeric
    decreases k
  {
    if k > 0 {
      PadNew(t, noise, k - 1);
      PadPrefix(t, noise, k - 1);
      var p := Pad(t, noise, k - 1);
      var r := Pad(t, noise, k);
      AddIfMissingSpec(p, Synthetic[k - 1], noise[k - 1]);
      forall i | |t.names| <= i < |r.names| ensures r.names[i] in Synthetic && r.names[i] !in t.names && r.cols[i].numeric {
        if i < |p.names| {
          assert r.names[i] == r.names[..|p.names|][i] && r.cols[i] == r.cols[..|p.cols|][i];
        } else {
          forall n | n in t.names ensures n in p.names {
            var m :| 0 <= m < |t.names| && t.names[m] == n;
            assert p.names[..|t.names|][m] == n;
          }
        }
      }
    }
  }

  /**
   * Padding only appends: the old columns stay in place, every synthetic
   * name considered is present afterwards, and each appended column is a
   * numeric synthetic column that was missing before.
   */
  lemma PadSpec(t: Table, noise: seq<seq<real>>, k: nat)
    requires t.Valid() && NoiseFits(noise, t.nrows) && k <= 6
    ensures var r := Pad(t, noise, k);
      |t.names| <= |r.names| && r.names[..|t.names|] == t.names && r.cols[..|t.cols|] == t.cols
    ensures var r := Pad(t, noise, k);
      forall j :: 0 <= j < k ==> Synthetic[j] in r.names
    ensures var r := Pad(t, noise, k);
      forall i :: |t.names| <= i < |r.names| ==>
        r.names[i] in Synthetic && r.names[i] !in t.names && r.cols[i].numeric
  {
    PadPrefix(t, noise, k);
    PadNames(t, noise, k);
    PadNew(t, noise, k);
  }

  /** When the synthetic names are already there, padding changes nothing. */
  lemma {:induction false} PadPresent(t: Table, noise: seq<seq<real>>, k: nat)
    requires t.Valid() && NoiseFits(noise, t.nrows) && k <= 6
    requires forall j :: 0 <= j < k ==> Synthetic[j] in t.names
    ensures Pad(t, noise, k) == t
    decreases k
  {
    if k > 0 {
      PadPresent(t, noise, k - 1);
    }
  }

  /** When none of the synthetic names is there, all six are appended in order. */
  lemma {:induction false} PadAbsent(t: Table, noise: seq<seq<real>>, k: nat)
    requires t.Valid() && NoiseFits(noise, t.nrows) && k <= 6
    requires forall j :: 0 <= j < 6 ==> Synthetic[j] !in t.names
    ensures Pad(t, noise, k).names == t.names + Synthetic[..k]
    ensures Pad(t, noise, k).cols[..|t.cols|] == t.cols
    ensures forall i :: |t.names| <= i < |Pad(t, noise, k).names| ==> Pad(t, noise, k).cols[i].numeric
    decreases k
  {
    if k > 0 {
      PadAbsent(t, noise, k - 1);
      var p := Pad(t, noise, k - 1);
      var name := Synthetic[k - 1];
      NextSyntheticAbsent(t.names, k - 1);
      var r := Pad(t, noise, k);
      assert r == Table(p.names + [name], p.cols + [Column(true, Nums(noise[k - 1]))], p.nrows);
      AppendAssoc(t.names, Synthetic[..k - 1], [name]);
      assert r.cols[..|t.cols|] == p.cols[..|t.cols|];
      forall i | |t.names| <= i < |r.names| ensures r.cols[i].numeric {
        if i < |p.names| { assert r.cols[i] == p.cols[i]; }
      }
    }
  }

  /** The next synthetic name is missing from a frame padded so far from one that had none. */
  lemma NextSyntheticAbsent(names: seq<string>, k: nat)
    requires k < 6 && forall j :: 0 <= j < 6 ==> Synthetic[j] !in names
    ensures Synthetic[k] !in names + Synthetic[..k]
    ensures Synthetic[..k + 1] == Synthetic[..k] + [Synthetic[k]]
  {
    SyntheticShape();
    forall i | 0 <= i < k ensures Synthetic[..k][i] != Synthetic[k] {
    }
  }

  /** Every candidate names a column of the frame. */
  lemma CandidatesPresent(t: Table)
    requires t.Valid()
    ensures forall n :: n in Candidates(t) ==> n in t.names
  {
    NumericExceptSpec(t.names, t.cols, LowerAll(Exclude));
    forall n | n in Candidates(t) ensures n in t.names {
      var i :| 0 <= i < |t.names| && t.names[i] == n && Kept(t.names[i], t.cols[i], LowerAll(Exclude));
    }
  }

  /** The caller's frame after `extract_expression_matrix`. */
  function ExtractedFrame(t: Table, noise: seq<seq<real>>): (r: Table)
    requires t.Valid() && NoiseFits(noise, t.nrows)
    ensures r.Valid() && r.nrows == t.nrows
  {
    if |Candidates(t)| >= 2 then t else Pad(t, noise, 6)
  }

  /** The sample column names `extract_expression_matrix` returns. */
  function SampleColumns(t: Table): seq<string>
    requires t.Valid()
  {
    if |Candidates(t)| >= 2 then Candidates(t) else Synthetic
  }

  /**
   * At least two sample columns, all present in the frame afterwards; the
   * frame keeps its columns and changes only when fewer than two candidates
   * were found, and then only by appending numeric Sample_k columns.
   */
  lemma ExtractSpec(t: Table, noise: seq<seq<real>>)
    requires t.Valid() && NoiseFits(noise, t.nrows)
    ensures |SampleColumns(t)| >= 2
    ensures forall n :: n in SampleColumns(t) ==> n in ExtractedFrame(t, noise).names
    ensures |Candidates(t)| >= 2 ==> ExtractedFrame(t, noise) == t
    ensures ExtractedFrame(t, noise).Valid() && ExtractedFrame(t, noise).nrows == t.nrows
    ensures ExtractedFrame(t, noise).names[..|t.names|] == t.names
    ensures ExtractedFrame(t, noise).cols[..|t.cols|] == t.cols
    ensures forall i :: |t.names| <= i < |ExtractedFrame(t, noise).names| ==>
      ExtractedFrame(t, noise).names[i] in Synthetic && ExtractedFrame(t, noise).names[i] !in t.names
  {
    if |Candidates(t)| >= 2 {
      CandidatesPresent(t);
    } else {
      PadSpec(t, noise, 6);
    }
  }

  /**
   * A second extraction on the same frame (the router hands one frame to
   * every analysis) adds nothing more.
   */
  lemma ExtractAgain(t: Table, noise: seq<seq<real>>, noise2: seq<seq<real>>)
    requires t.Valid() && NoiseFits(noise, t.nrows) && NoiseFits(noise2, t.nrows)
    ensures ExtractedFrame(ExtractedFrame(t, noise), noise2) == ExtractedFrame(t, noise)
  {
    var t1 := ExtractedFrame(t, noise);
    if |Candidates(t)| < 2 && |Candidates(t1)| < 2 {
      PadSpec(t, noise, 6);
      PadPresent(t1, noise2, 6);
    }
  }

  /**
   * With exactly one real candidate and no Sample_k column, the first
   * extraction returns the six synthetic names, but a second one on the same
   * frame returns seven: the real candidate followed by Sample_1..Sample_6.
   */
  lemma ExtractAgainSamples(t: Table, noise: seq<seq<real>>)
    requires t.Valid() && NoiseFits(noise, t.nrows)
    requires |Candidates(t)| == 1 && forall j :: 0 <= j < 6 ==> Synthetic[j] !in t.names
    ensures SampleColumns(t) == Synthetic
    ensures SampleColumns(ExtractedFrame(t, noise)) == Candidates(t) + Synthetic
  {
    var extra := PaddedAbsent(t, noise, 6);
    var t1 := ExtractedFrame(t, noise);
    assert t1 == Table(t.names + Synthetic, t.cols + extra, t.nrows);
    SyntheticShape();
    NumericExceptAll(Synthetic, extra, LowerAll(Exclude));
    NumericExceptAppend(t.names, t.cols, Synthetic, extra, LowerAll(Exclude));
    assert Candidates(t1) == Candidates(t) + Synthetic;
  }

  /** Padding a frame without any Sample_k column appends six candidate columns. */
  lemma PaddedAbsent(t: Table, noise: seq<seq<real>>, k: nat) returns (extra: seq<Column>)
    requires t.Valid() && NoiseFits(noise, t.nrows) && k == 6
    requires forall j :: 0 <= j < 6 ==> Synthetic[j] !in t.names
    ensures Pad(t, noise, k) == Table(t.names + Synthetic, t.cols + extra, t.nrows)
    ensures |extra| == 6 && forall i :: 0 <= i < 6 ==> extra[i].numeric
  {
    var t1 := Pad(t, noise, k);
    PadAbsent(t, noise, k);
    assert Synthetic[..k] == Synthetic;
    extra := t1.cols[|t.cols|..];
    assert t1.cols == t1.cols[..|t.cols|] + extra;
    forall i | 0 <= i < 6 ensures extra[i].numeric {
      assert extra[i] == t1.cols[|t.cols| + i];
    }
  }

  /** `extract_expression_matrix(df)`: adds missing synthetic columns to `df` in place and copies out the sample columns. */
  method ExtractExpressionMatrix(df: DataFrame, noise: seq<seq<real>>) returns (matrix: Table, sampleCols: seq<string>)
    requires df.Valid() && NoiseFits(noise, df.nrows)
    modifies df
    ensures df.Valid() && df.Snapshot() == ExtractedFrame(old(df.Snapshot()), noise)
    ensures sampleCols == SampleColumns(old(df.Snapshot()))
    ensures |sampleCols| >= 2 && forall n :: n in sampleCols ==> n in df.names
    ensures matrix == Pick(df.Snapshot(), sampleCols)
  {
    var t := df.Snapshot();
    ExtractSpec(t, noise);
    sampleCols := Candidates(t);
    if |sampleCols| < 2 {
      sampleCols := Synthetic;
      var k := 0;
      while k < 6
        invariant 0 <= k <= 6 && df.Valid() && df.Snapshot() == Pad(t, noise, k)
      {
        var col := Synthetic[k];
        if col !in df.names {
          df.AddColumn(col, Column(true, Nums(noise[k])));
        }
        k := k + 1;
      }
    }
    matrix := Pick(df.Snapshot(), sampleCols);
  }

  /** The names of `requested` that are columns, in the requested order. */
  function PresentIn(requested: seq<string>, names: seq<string>): (r: seq<string>)
    decreases |requested|
  {
    if requested == [] then []
    else (if requested[0] in names then [requested[0]] else []) + PresentIn(requested[1..], names)
  }

  lemma {:induction false} PresentInSpec(requested: seq<string>, names: seq<string>)
    ensures |PresentIn(requested, names)| <= |requested|
    ensures forall x :: x in PresentIn(requested, names) <==> x in requested && x in names
    decreases |requested|
  {
    if requested != [] {
      PresentInSpec(requested[1..], names);
      assert requested == [requested[0]] + requested[1..];
    }
  }

  /** The matrix and sample names an analysis goes on with. */
  datatype Prepared = Prepared(matrix: Table, sampleNames: seq<string>)

  /**
   * A non-empty `sample_columns` argument keeps the requested names that are
   * columns of the matrix; when none is, the names become empty but the
   * matrix is left whole.
   */
  function Restrict(matrix: Table, sampleCols: seq<string>, requested: Option<seq<string>>): Prepared
    requires matrix.Valid()
  {
    if requested.Some? && |requested.value| > 0 then
      var present := PresentIn(requested.value, matrix.names);
      PresentInSpec(requested.value, matrix.names);
      if |present| > 0 then Prepared(Pick(matrix, present), present)
      else Prepared(matrix, present)
    else Prepared(matrix, sampleCols)
  }

  /** Extraction followed by the restriction, the opening of every `perform_*` function. */
  function Prepare(t: Table, noise: seq<seq<real>>, requested: Option<seq<string>>): Prepared
    requires t.Valid() && NoiseFits(noise, t.nrows)
  {
    ExtractSpec(t, noise);
    var cols := SampleColumns(t);
    Restrict(Pick(ExtractedFrame(t, noise), cols), cols, requested)
  }

  /** Samples are the matrix's columns (it is transposed before fitting). */
  function NumSamples(p: Prepared): nat {
    |p.matrix.names|
  }

  /**
   * Without a usable request the matrix holds exactly the extracted sample
   * columns; with one, exactly the requested names that are present, in
   * requested order. Either way at least one sample remains.
   */
  lemma PrepareSpec(t: Table, noise: seq<seq<real>>, requested: Option<seq<string>>)
    requires t.Valid() && NoiseFits(noise, t.nrows)
    ensures var p := Prepare(t, noise, requested);
      p.matrix.Valid() && p.matrix.nrows == t.nrows && NumSamples(p) >= 1
    ensures var p := Prepare(t, noise, requested);
      (requested.None? || requested.value == []) ==>
        p.sampleNames == SampleColumns(t) && p.matrix.names == p.sampleNames && NumSamples(p) >= 2
    ensures var p := Prepare(t, noise, requested);
      requested.Some? && requested.value != [] ==>
        forall x :: x in p.sampleNames <==> x in requested.value && x in SampleColumns(t)
    ensures var p := Prepare(t, noise, requested);
      requested.Some? && requested.value != [] && p.sampleNames != [] ==> p.matrix.names == p.sampleNames
    ensures var p := Prepare(t, noise, requested);
      requested.Some? && requested.value != [] && p.sampleNames == [] ==> p.matrix.names == SampleColumns(t)
  {
    ExtractSpec(t, noise);
    if requested.Some? && requested.value != [] {
      PresentInSpec(requested.value, SampleColumns(t));
    }
  }

  /** `[i % n_classes for i in range(n_samples)]`. */
  function Labels(n: nat, nClasses: nat): (r: seq<int>)
    requires nClasses > 0
    ensures |r| == n
  {
    seq(n, i requires 0 <= i < n => i % nClasses)
  }

  lemma ModFacts(i: nat, k: nat)
    requires k > 0
    ensures 0 <= i % k < k && i % k <= i
    ensures (i + k) % k == i % k
  {
    var q, r := i / k, i % k;
    assert i == q * k + r;
    MulSign(q, k);
    var q1, r1 := (i + k) / k, (i + k) % k;
    assert i + k == q1 * k + r1;
    var d := q1 - q - 1;
    assert d * k == r - r1;
    MulSign(d, k);
  }

  /** Proof helper for `ModFacts`: the sign of a multiple of a positive `k`. */
  lemma MulSign(d: int, k: int)
    requires k > 0
    ensures d >= 1 ==> d * k >= k
    ensures d <= -1 ==> d * k <= -k
    ensures d >= 0 ==> d * k >= 0
  {
  }

  /** Every label is a class, and labels repeat with period `nClasses`. */
  lemma LabelsCycle(n: nat, nClasses: nat)
    requires nClasses > 0
    ensures forall i :: 0 <= i < n ==> 0 <= Labels(n, nClasses)[i] < nClasses
    ensures forall i :: 0 <= i < n && i + nClasses < n ==> Labels(n, nClasses)[i + nClasses] == Labels(n, nClasses)[i]
  {
    var l := Labels(n, nClasses);
    forall i | 0 <= i < n ensures 0 <= l[i] < nClasses && (i + nClasses < n ==> l[i + nClasses] == l[i]) {
      ModFacts(i, nClasses);
    }
  }

  /** Class `c` occurs among the labels exactly when there are more than `c` samples. */
  lemma LabelsClasses(n: nat, nClasses: nat)
    requires nClasses > 0
    ensures forall c :: 0 <= c < nClasses ==> (c in Labels(n, nClasses) <==> c < n)
  {
    var l := Labels(n, nClasses);
    forall c | 0 <= c < nClasses ensures c in l <==> c < n {
      if c < n {
        assert c % nClasses == c;
        assert l[c] == c;
      }
      if c in l {
        var i :| 0 <= i < n && l[i] == c;
        ModFacts(i, nClasses);
      }
    }
  }

  /** `cv=min(5, n_samples // 2)`. */
  function Folds(n: nat): nat {
    if 5 < n / 2 then 5 else n / 2
  }

  /** At most five folds, five from ten samples on, and at least two exactly from four samples on. */
  lemma FoldsSpec(n: nat)
    ensures Folds(n) <= 5 && 2 * Folds(n) <= n
    ensures n >= 10 ==> Folds(n) == 5
    ensures Folds(n) >= 2 <==> n >= 4
  {
  }

  /** The silhouette score is only computed when the labels take more than one value. */
  function Silhouette(labels: seq<int>, score: real): real {
    if |set l | l in labels| > 1 then score else 0.0
  }

  lemma SilhouetteSpec(labels: seq<int>, score: real)
    ensures (forall i, j :: 0 <= i < j < |labels| ==> labels[i] == labels[j]) ==> Silhouette(labels, score) == 0.0
    ensures (exists i, j :: 0 <= i < j < |labels| && labels[i] != labels[j]) ==> Silhouette(labels, score) == score
  {
    var s := set l | l in labels;
    if forall i, j :: 0 <= i < j < |labels| ==> labels[i] == labels[j] {
      if labels == [] {
        assert s == {};
      } else {
        forall l | l in s ensures l == labels[0] {
          var i :| 0 <= i < |labels| && labels[i] == l;
          if i > 0 { assert labels[0] == labels[i]; }
        }
        assert s == {labels[0]};
      }
    } else {
      var i, j :| 0 <= i < j < |labels| && labels[i] != labels[j];
      assert {labels[i], labels[j]} <= s;
      assert |{labels[i], labels[j]}| == 2;
      CardMonotone({labels[i], labels[j]}, s);
    }
  }

  lemma CardMonotone(a: set<int>, b: set<int>)
    requires a <= b
    ensures |a| <= |b|
  {
    assert b == a + (b - a);
  }

  /** Lasso keeps a feature whose coefficient exceeds this in magnitude. */
  const Tolerance: real := 0.000001

  /** `np.where(np.abs(coefficients) > 1e-6)[0]`. */
  function SelectedFeatures(coef: seq<real>): (r: seq<nat>)
    ensures forall q :: 0 <= q < |r| ==> r[q] < |coef|
  {
    var r := Filter(Range(|coef|), (i: nat) => i < |coef| && Abs(coef[i]) > Tolerance);
    assert forall q :: 0 <= q < |r| ==> r[q] in r;
    r
  }

  /** The selection holds exactly the indices above the tolerance, in ascending order. */
  lemma SelectedFeaturesSpec(coef: seq<real>)
    ensures forall i :: 0 <= i < |coef| ==> (i in SelectedFeatures(coef) <==> Abs(coef[i]) > Tolerance)
    ensures Increasing(SelectedFeatures(coef)) && |SelectedFeatures(coef)| <= |coef|
  {
    var p := (i: nat) => i < |coef| && Abs(coef[i]) > Tolerance;
    FilterIncreasing(Range(|coef|), p);
    forall i: nat | i < |coef| && Abs(coef[i]) > Tolerance ensures i in SelectedFeatures(coef) {
      assert Range(|coef|)[i] == i;
      FilterKeeps(Range(|coef|), p, i);
    }
  }

  /** `np.argsort(key)[-20:][::-1]`: the indices of the twenty largest keys, largest first. */
  function TopFeatures(key: seq<real>): (r: seq<nat>)
    ensures ValidIdx(r, key)
  {
    TopK(Range(|key|), key, 20)
  }

  /**
   * Twenty indices (fewer when there are fewer features), distinct, in
   * descending key order, and no index left out has a larger key than one
   * kept.
   */
  lemma TopFeaturesSpec(key: seq<real>)
    ensures var r := TopFeatures(key);
      |r| == (if |key| < 20 then |key| else 20)
    ensures var r := TopFeatures(key);
      ValidIdx(r, key) && SortedDesc(r, key) && forall i, j :: 0 <= i < j < |r| ==> r[i] != r[j]
    ensures var r := TopFeatures(key);
      forall i, j :: 0 <= i < |key| && i !in r && 0 <= j < |r| ==> key[i] <= key[r[j]]
  {
    var r := TopFeatures(key);
    TopKOrdered(Range(|key|), key, 20);
    StableDistinct(r, key);
    forall i, j | 0 <= i < |key| && i !in r && 0 <= j < |r| ensures key[i] <= key[r[j]] {
      assert Range(|key|)[i] == i;
      TopKComplete(Range(|key|), key, 20, i, j);
    }
  }

  function AbsAll(xs: seq<real>): (r: seq<real>)
    ensures |r| == |xs| && forall i :: 0 <= i < |xs| ==> r[i] == Abs(xs[i])
  {
    seq(|xs|, i requires 0 <= i < |xs| => Abs(xs[i]))
  }

  /** `values[idx]` for an index array. */
  function At(values: seq<real>, idx: seq<nat>): (r: seq<real>)
    requires forall q :: 0 <= q < |idx| ==> idx[q] < |values|
    ensures |r| == |idx| && forall q :: 0 <= q < |idx| ==> r[q] == values[idx[q]]
  {
    seq(|idx|, q requires 0 <= q < |idx| => values[idx[q]])
  }

  datatype SvmResult = SvmResult(sampleNames: seq<string>, labels: seq<int>, folds: nat)

  datatype ForestResult = ForestResult(
    sampleNames: seq<string>, labels: seq<int>, folds: nat, importance: seq<real>, topFeatures: seq<nat>)

  datatype ClusterResult = ClusterResult(sampleNames: seq<string>, labels: seq<int>, nClusters: nat, silhouette: real)

  datatype LassoResult = LassoResult(coefficients: seq<real>, selected: seq<nat>, selectedCoef: seq<real>, nSelected: nat)

  datatype RidgeResult = RidgeResult(coefficients: seq<real>, topFeatures: seq<nat>, topCoef: seq<real>)

  /**
   * The `ValueError`s the classifiers raise on their synthetic labels: an
   * SVC fitted on a single class, `cross_val_score` asked for fewer than two
   * folds, and a stratified split asked for more folds than any class has
   * members.
   */
  datatype FitError = SingleClass | TooFewFolds(splits: nat) | FoldsExceedClasses(splits: nat)

  /** How many of the labels are `c`. */
  function CountOf(labels: seq<int>, c: int): (r: nat)
    ensures r <= |labels|
    ensures r > 0 <==> c in labels
  {
    if labels == [] then 0
    else (if labels[0] == c then 1 else 0) + CountOf(labels[1..], c)
  }

  /** One more label adds one to its own class only. */
  lemma {:induction false} CountAppend(labels: seq<int>, x: int, c: int)
    ensures CountOf(labels + [x], c) == CountOf(labels, c) + (if x == c then 1 else 0)
    decreases |labels|
  {
    if labels != [] {
      assert (labels + [x])[1..] == labels[1..] + [x];
      CountAppend(labels[1..], x, c);
    }
  }

  /** Every class present has fewer members than there are folds. */
  predicate ExceedsClasses(labels: seq<int>, folds: nat) {
    forall c :: c in labels ==> CountOf(labels, c) < folds
  }

  /** What `cross_val_score(model, X, labels, cv=folds)` raises, if anything, before any fold is fitted. */
  function CrossValidate(labels: seq<int>, folds: nat): (r: Option<FitError>)
    ensures r.None? <==> 2 <= folds && exists c :: c in labels && CountOf(labels, c) >= folds
    ensures r.Some? ==> r.value == (if folds < 2 then TooFewFolds(folds) else FoldsExceedClasses(folds))
  {
    if folds < 2 then Some(TooFewFolds(folds))
    else if ExceedsClasses(labels, folds) then Some(FoldsExceedClasses(folds))
    else None
  }

  /** All labels agree, so a fit sees a single class. */
  predicate OneClass(labels: seq<int>) {
    forall i, j :: 0 <= i < |labels| && 0 <= j < |labels| ==> labels[i] == labels[j]
  }

  /** The labels hold a single class exactly when there is one sample or one class. */
  lemma OneClassLabels(n: nat, nClasses: nat)
    requires nClasses > 0
    ensures OneClass(Labels(n, nClasses)) <==> n < 2 || nClasses < 2
  {
    var l := Labels(n, nClasses);
    if n >= 2 && nClasses >= 2 {
      LabelsClasses(n, nClasses);
      assert 0 in l && 1 in l;
    } else if nClasses == 1 {
      forall i | 0 <= i < n ensures l[i] == 0 {
        ModFacts(i, 1);
      }
    }
  }

  /** Class 0 has all samples of a single class, and the larger half of two. */
  lemma {:induction false} ClassZeroCount(n: nat, nClasses: nat)
    requires 0 < nClasses <= 2
    ensures nClasses == 1 ==> CountOf(Labels(n, nClasses), 0) == n
    ensures nClasses == 2 ==> CountOf(Labels(n, nClasses), 0) == (n + 1) / 2
    decreases n
  {
    if n > 0 {
      var l := Labels(n, nClasses);
      assert l == Labels(n - 1, nClasses) + [(n - 1) % nClasses];
      ClassZeroCount(n - 1, nClasses);
      CountAppend(Labels(n - 1, nClasses), (n - 1) % nClasses, 0);
      ModFacts(n - 1, nClasses);
      if nClasses == 2 {
        assert ((n - 1) % 2 == 0) == (n % 2 == 1);
      }
    }
  }

  /** With one or two classes, cross-validation runs exactly from four samples on. */
  lemma FewClassesValidate(n: nat, nClasses: nat)
    requires 0 < nClasses
    ensures nClasses <= 2 ==> (CrossValidate(Labels(n, nClasses), Folds(n)).None? <==> n >= 4)
  {
    FoldsSpec(n);
    if n >= 4 && nClasses <= 2 {
      ClassZeroCount(n, nClasses);
      assert 0 in Labels(n, nClasses);
      assert CountOf(Labels(n, nClasses), 0) >= Folds(n);
    }
  }

  /** Three classes over six samples: three folds, but each class has only two members. */
  lemma ThreeClassesSixSamples()
    ensures Folds(6) == 3
    ensures CrossValidate(Labels(6, 3), Folds(6)) == Some(FoldsExceedClasses(3))
  {
    var l := Labels(6, 3);
    SixLabels();
    forall c | c in l ensures CountOf(l, c) < 3 {
      PairCount(c);
    }
  }

  lemma SixLabels()
    ensures Labels(6, 3) == [0, 1, 2, 0, 1, 2]
  {
  }

  lemma PairCount(c: int)
    requires c in [0, 1, 2, 0, 1, 2]
    ensures CountOf([0, 1, 2, 0, 1, 2], c) == 2
  {
    var l: seq<int> := [0, 1, 2, 0, 1, 2];
    assert l[1..] == [1, 2, 0, 1, 2] && l[1..][1..] == [2, 0, 1, 2] && l[1..][1..][1..] == [0, 1, 2];
    assert l[1..][1..][1..][1..] == [1, 2] && l[1..][1..][1..][1..][1..] == [2];
  }

  /**
   * What `perform_svm_classification` decides around the fit: `svm.fit`
   * raises on a single class, then `cross_val_score` on its folds.
   */
  function Svm(p: Prepared, nClasses: nat): (r: Result<SvmResult, FitError>)
    requires nClasses > 0
    ensures r == Err(SingleClass) <==> NumSamples(p) < 2 || nClasses < 2
    ensures r.Err? && r.error != SingleClass ==>
      Some(r.error) == CrossValidate(Labels(NumSamples(p), nClasses), Folds(NumSamples(p)))
    ensures r.Ok? ==>
      r.value.sampleNames == p.sampleNames && r.value.labels == Labels(NumSamples(p), nClasses)
      && r.value.folds == Folds(NumSamples(p)) && 2 <= r.value.folds <= 5 && 2 * r.value.folds <= NumSamples(p)
    ensures NumSamples(p) >= 2 && nClasses >= 2 ==>
      (r.Ok? <==> CrossValidate(Labels(NumSamples(p), nClasses), Folds(NumSamples(p))).None?)
    ensures nClasses == 2 ==> (r.Ok? <==> NumSamples(p) >= 4)
  {
    var n := NumSamples(p);
    var labels := Labels(n, nClasses);
    OneClassLabels(n, nClasses);
    FoldsSpec(n);
    FewClassesValidate(n, nClasses);
    if OneClass(labels) then Err(SingleClass)
    else match CrossValidate(labels, Folds(n))
      case Some(e) => Err(e)
      case None => Ok(SvmResult(p.sampleNames, labels, Folds(n)))
  }

  /**
   * What `perform_random_forest_classification` decides around the fit;
   * `importance` is the forest's. A forest fits a single class, so only
   * `cross_val_score` can raise.
   */
  function Forest(p: Prepared, nClasses: nat, importance: seq<real>): (r: Result<ForestResult, FitError>)
    requires nClasses > 0
    ensures r.Err? <==> CrossValidate(Labels(NumSamples(p), nClasses), Folds(NumSamples(p))).Some?
    ensures r.Err? ==> Some(r.error) == CrossValidate(Labels(NumSamples(p), nClasses), Folds(NumSamples(p)))
    ensures r.Ok? ==>
      r.value.sampleNames == p.sampleNames && r.value.labels == Labels(NumSamples(p), nClasses)
      && r.value.folds == Folds(NumSamples(p)) && 2 <= r.value.folds <= 5 && 2 * r.value.folds <= NumSamples(p)
      && r.value.importance == importance && r.value.topFeatures == TopFeatures(importance)
    ensures nClasses <= 2 ==> (r.Ok? <==> NumSamples(p) >= 4)
  {
    var n := NumSamples(p);
    var labels := Labels(n, nClasses);
    FoldsSpec(n);
    FewClassesValidate(n, nClasses);
    match CrossValidate(labels, Folds(n))
    case Some(e) => Err(e)
    case None => Ok(ForestResult(p.sampleNames, labels, Folds(n), importance, TopFeatures(importance)))
  }

  /** What the two clustering functions decide around the fit; `labels` and `score` are the library's. */
  function Cluster(p: Prepared, nClusters: nat, labels: seq<int>, score: real): ClusterResult {
    ClusterResult(p.sampleNames, labels, nClusters, Silhouette(labels, score))
  }

  function LassoSelect(coef: seq<real>): LassoResult {
    var idx := SelectedFeatures(coef);
    LassoResult(coef, idx, At(coef, idx), |idx|)
  }

  function RidgeRank(coef: seq<real>): RidgeResult {
    var idx := TopFeatures(AbsAll(coef));
    RidgeResult(coef, idx, At(coef, idx))
  }

  /** The Lasso result lists the selected coefficients beside their indices, and counts them. */
  lemma LassoSpec(coef: seq<real>)
    ensures var r := LassoSelect(coef);
      r.nSelected == |r.selected| == |r.selectedCoef| && r.nSelected <= |coef|
    ensures var r := LassoSelect(coef);
      forall q :: 0 <= q < r.nSelected ==> Abs(r.selectedCoef[q]) > Tolerance && r.selectedCoef[q] == coef[r.selected[q]]
    ensures var r := LassoSelect(coef);
      forall i :: 0 <= i < |coef| && Abs(coef[i]) > Tolerance ==> i in r.selected
  {
    SelectedFeaturesSpec(coef);
  }

  /** Ridge ranks by magnitude: at most twenty coefficients, largest |coef| first, none left out larger. */
  lemma RidgeSpec(coef: seq<real>)
    ensures var r := RidgeRank(coef);
      |r.topFeatures| == |r.topCoef| <= 20 && (|coef| >= 20 ==> |r.topFeatures| == 20)
    ensures var r := RidgeRank(coef);
      forall a, b :: 0 <= a < b < |r.topCoef| ==> Abs(r.topCoef[a]) >= Abs(r.topCoef[b])
    ensures var r := RidgeRank(coef);
      forall i, j :: 0 <= i < |coef| && i !in r.topFeatures && 0 <= j < |r.topCoef| ==> Abs(coef[i]) <= Abs(r.topCoef[j])
  {
    TopFeaturesSpec(AbsAll(coef));
  }

  /** The shared opening of every `perform_*` function, on the caller's frame. */
  method PrepareSamples(df: DataFrame, noise: seq<seq<real>>, requested: Option<seq<string>>) returns (p: Prepared)
    requires df.Valid() && NoiseFits(noise, df.nrows)
    modifies df
    ensures df.Valid() && df.Snapshot() == ExtractedFrame(old(df.Snapshot()), noise)
    ensures p == Prepare(old(df.Snapshot()), noise, requested)
  {
    var matrix, cols := ExtractExpressionMatrix(df, noise);
    p := Restrict(matrix, cols, requested);
  }

  method PerformSvmClassification(df: DataFrame, noise: seq<seq<real>>, nClasses: nat, requested: Option<seq<string>>)
    returns (r: Result<SvmResult, FitError>)
    requires df.Valid() && NoiseFits(noise, df.nrows) && nClasses > 0
    modifies df
    ensures df.Valid() && df.Snapshot() == ExtractedFrame(old(df.Snapshot()), noise)
    ensures r == Svm(Prepare(old(df.Snapshot()), noise, requested), nClasses)
  {
    var p := PrepareSamples(df, noise, requested);
    r := Svm(p, nClasses);
  }

  method PerformRandomForestClassification(
    df: DataFrame, noise: seq<seq<real>>, nClasses: nat, requested: Option<seq<string>>, importance: seq<real>)
    returns (r: Result<ForestResult, FitError>)
    requires df.Valid() && NoiseFits(noise, df.nrows) && nClasses > 0
    modifies df
    ensures df.Valid() && df.Snapshot() == ExtractedFrame(old(df.Snapshot()), noise)
    ensures r == Forest(Prepare(old(df.Snapshot()), noise, requested), nClasses, importance)
  {
    var p := PrepareSamples(df, noise, requested);
    r := Forest(p, nClasses, importance);
  }

  /** `perform_hierarchical_clustering` and `perform_kmeans_clustering` share this shape. */
  method PerformClustering(
    df: DataFrame, noise: seq<seq<real>>, nClusters: nat, requested: Option<seq<string>>, labels: seq<int>, score: real)
    returns (r: ClusterResult)
    requires df.Valid() && NoiseFits(noise, df.nrows)
    modifies df
    ensures df.Valid() && df.Snapshot() == ExtractedFrame(old(df.Snapshot()), noise)
    ensures r == Cluster(Prepare(old(df.Snapshot()), noise, requested), nClusters, labels, score)
  {
    var p := PrepareSamples(df, noise, requested);
    r := Cluster(p, nClusters, labels, score);
  }

  method PerformLassoFeatureSelection(df: DataFrame, noise: seq<seq<real>>, requested: Option<seq<string>>, coef: seq<real>)
    returns (r: LassoResult)
    requires df.Valid() && NoiseFits(noise, df.nrows)
    modifies df
    ensures df.Valid() && df.Snapshot() == ExtractedFrame(old(df.Snapshot()), noise)
    ensures r == LassoSelect(coef)
  {
    var p := PrepareSamples(df, noise, requested);
    r := LassoSelect(coef);
  }

  method PerformRidgeRegression(df: DataFrame, noise: seq<seq<real>>, requested: Option<seq<string>>, coef: seq<real>)
    returns (r: RidgeResult)
    requires df.Valid() && NoiseFits(noise, df.nrows)
    modifies df
    ensures df.Valid() && df.Snapshot() == ExtractedFrame(old(df.Snapshot()), noise)
    ensures r == RidgeRank(coef)
  {
    var p := PrepareSamples(df, noise, requested);
    r := RidgeRank(coef);
  }
}
