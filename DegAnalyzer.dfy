/**
 * Reading and summarising a table of differentially expressed genes
 * (backend/services/deg_analyzer.py): the file format chosen from the file
 * name, header normalisation through a fixed alias table, and the
 * significance, DEG, up/down and top-10 classification with its counts.
 */
module DegAnalyzer {
  import opened Wrappers
  import opened Text
  import opened Numerics
  import opened Sorting
  import opened Frames

  // ---------------------------------------------------------------------
  // File format from the file name
  // ---------------------------------------------------------------------

  datatype FileFormat = Excel | Tsv | Csv

  predicate EndsWith(s: string, suffix: string) {
    |suffix| <= |s| && s[|s| - |suffix|..] == suffix
  }

  /** The reader `parse_deg_file` and `parse_enrichment_file` pick for a file name. */
  function FormatOf(filename: string): FileFormat {
    if EndsWith(filename, ".xlsx") then Excel
    else if EndsWith(filename, ".tsv") then Tsv
    else Csv
  }

  /** The format follows the suffix alone; every other name is read as CSV. */
  lemma FormatBySuffix(stem: string, filename: string)
    ensures FormatOf(stem + ".xlsx") == Excel
    ensures FormatOf(stem + ".tsv") == Tsv
    ensures !EndsWith(filename, ".xlsx") && !EndsWith(filename, ".tsv") ==> FormatOf(filename) == Csv
  {
    assert (stem + ".xlsx")[|stem + ".xlsx"| - 5..] == ".xlsx";
    assert (stem + ".tsv")[|stem + ".tsv"| - 4..] == ".tsv";
    var x := stem + ".tsv";
    assert x[|x| - 1] == 'v';
  }

  // ---------------------------------------------------------------------
  // Header normalisation
  // ---------------------------------------------------------------------

  /** `name.lower().strip()`, applied to every header. */
  function Clean(name: string): string {
    Strip(Lower(name))
  }

  function CleanAll(names: seq<string>): (r: seq<string>)
    ensures |r| == |names| && forall i :: 0 <= i < |names| ==> r[i] == Clean(names[i])
  {
    seq(|names|, i requires 0 <= i < |names| => Clean(names[i]))
  }

  /** The alias table, in the dictionary's insertion order: (alias, canonical name). */
  const Aliases: seq<(string, string)> := [
    ("log2fc", "log2fc"), ("log2_fc", "log2fc"), ("logfc", "log2fc"),
    ("log_fold_change", "log2fc"), ("fold_change", "log2fc"), ("fc", "log2fc"),
    ("pvalue", "pvalue"), ("p_value", "pvalue"), ("pval", "pvalue"), ("p", "pvalue"),
    ("padj", "padj"), ("p_adj", "padj"), ("adjusted_pvalue", "padj"), ("fdr", "padj"),
    ("adj_pval", "padj"),
    ("gene_id", "gene_id"), ("gene", "gene_id"), ("gene_name", "gene_id"), ("geneid", "gene_id")
  ]

  const N := 19

  predicate Canonical(x: string) {
    x == "log2fc" || x == "pvalue" || x == "padj" || x == "gene_id"
  }

  /** Every entry maps to a canonical name, and an entry whose alias is canonical maps it to itself. */
  lemma AliasTargets()
    ensures |Aliases| == N
    ensures forall k :: 0 <= k < N ==> Canonical(Aliases[k].1)
    ensures forall k :: 0 <= k < N && Canonical(Aliases[k].0) ==> Aliases[k].0 == Aliases[k].1
  {
    forall k | 0 <= k < N ensures Canonical(Aliases[k].1) {
      assert k < 6 || 6 <= k < 10 || 10 <= k < 15 || 15 <= k < N;
    }
    forall k | 0 <= k < N && Canonical(Aliases[k].0) ensures Aliases[k].0 == Aliases[k].1 {
      assert k == 0 || k == 1 || k == 2 || k == 3 || k == 4 || k == 5 || k == 6 || k == 7
        || k == 8 || k == 9 || k == 10 || k == 11 || k == 12 || k == 13 || k == 14
        || k == 15 || k == 16 || k == 17 || k == 18;
    }
  }

  /** No alias is listed twice. */
  lemma AliasesDistinct()
    ensures forall j, k :: 0 <= j < k < N ==> Aliases[j].0 != Aliases[k].0
  {
    forall j, k | 0 <= j < k < N ensures Aliases[j].0 != Aliases[k].0 {
      assert k == 1 || k == 2 || k == 3 || k == 4 || k == 5 || k == 6 || k == 7
        || k == 8 || k == 9 || k == 10 || k == 11 || k == 12 || k == 13 || k == 14
        || k == 15 || k == 16 || k == 17 || k == 18;
      assert j == 0 || j == 1 || j == 2 || j == 3 || j == 4 || j == 5 || j == 6 || j == 7
        || j == 8 || j == 9 || j == 10 || j == 11 || j == 12 || j == 13 || j == 14
        || j == 15 || j == 16 || j == 17;
    }
  }

  /** One pass of the loop body: rename `e.0` to `e.1` when `e.0` is a header and `e.1` is not. */
  function Step(names: seq<string>, e: (string, string)): seq<string> {
    if e.0 in names && e.1 !in names then ReplaceAll(names, e.0, e.1) else names
  }

  /** The headers after the first `k` passes of the rename loop. */
  function ApplyPrefix(c: seq<string>, k: nat): (r: seq<string>)
    requires k <= N
    ensures |r| == |c|
  {
    if k == 0 then c else Step(ApplyPrefix(c, k - 1), Aliases[k - 1])
  }

  /** The headers `normalize_column_names` gives a frame with headers `names`. */
  function Normalize(names: seq<string>): seq<string> {
    ApplyPrefix(CleanAll(names), N)
  }

  /** Position of `x` among the aliases, or N when it is none of them. */
  function KeyIndex(x: string, from: nat := 0): (r: nat)
    requires from <= N
    ensures from <= r <= N
    ensures r < N ==> Aliases[r].0 == x
    ensures forall j :: from <= j < r ==> Aliases[j].0 != x
    decreases N - from
  {
    if from == N then N
    else if Aliases[from].0 == x then from
    else KeyIndex(x, from + 1)
  }

  lemma KeyIndexOf(x: string, k: nat)
    requires k < N && Aliases[k].0 == x
    ensures KeyIndex(x) == k
  {
    AliasesDistinct();
  }

  /**
   * Reference definition of which alias wins, on cleaned headers `c`: entry
   * `k` renames when its alias is a header, its canonical name is not, and
   * no earlier alias of the same canonical name is a header.
   */
  predicate Fires(c: seq<string>, k: nat)
    requires k < N
  {
    Aliases[k].0 in c && Aliases[k].1 !in c
    && forall j :: 0 <= j < k && Aliases[j].1 == Aliases[k].1 ==> Aliases[j].0 !in c
  }

  /** The header at position `i` once the aliases before entry `k` have had their turn. */
  function FinalName(c: seq<string>, i: nat, k: nat): string
    requires i < |c| && k <= N
  {
    var j := KeyIndex(c[i]);
    if j < k && Fires(c, j) then Aliases[j].1 else c[i]
  }

  /** A header that is a canonical name is never renamed. */
  lemma CanonicalStays(c: seq<string>, i: nat, k: nat)
    requires i < |c| && k <= N && Canonical(c[i])
    ensures FinalName(c, i, k) == c[i]
  {
    AliasTargets();
  }

  /** An alias that is not itself canonical is in the headers after k passes iff it was in `c` and its own pass has not come. */
  lemma AliasMember(c: seq<string>, k: nat, y: string)
    requires k <= N && !Canonical(y)
    requires forall i :: 0 <= i < |c| ==> ApplyPrefix(c, k)[i] == FinalName(c, i, k)
    requires KeyIndex(y) >= k
    ensures y in ApplyPrefix(c, k) <==> y in c
  {
    AliasTargets();
    var s := ApplyPrefix(c, k);
    if y in s {
      var i :| 0 <= i < |s| && s[i] == y;
      assert FinalName(c, i, k) == y;
    }
    if y in c {
      var i :| 0 <= i < |c| && c[i] == y;
      assert s[i] == FinalName(c, i, k);
    }
  }

  /** A canonical name is in the headers after k passes iff it was in `c` or an earlier entry renamed to it. */
  lemma CanonicalMember(c: seq<string>, k: nat, z: string)
    requires k <= N && Canonical(z)
    requires forall i :: 0 <= i < |c| ==> ApplyPrefix(c, k)[i] == FinalName(c, i, k)
    ensures z in ApplyPrefix(c, k) <==>
      z in c || exists j :: 0 <= j < k && Aliases[j].1 == z && Fires(c, j)
  {
    AliasTargets();
    var s := ApplyPrefix(c, k);
    if z in s {
      var i :| 0 <= i < |s| && s[i] == z;
      assert FinalName(c, i, k) == z;
    }
    if z in c {
      var i :| 0 <= i < |c| && c[i] == z;
      CanonicalStays(c, i, k);
      assert s[i] == z;
    }
    if j :| 0 <= j < k && Aliases[j].1 == z && Fires(c, j) {
      var i :| 0 <= i < |c| && c[i] == Aliases[j].0;
      KeyIndexOf(c[i], j);
      assert s[i] == FinalName(c, i, k);
    }
  }

  /** When an alias of `z` before entry `k` is a header and `z` is not, the first such alias fires. */
  lemma {:induction false} FirstAliasFires(c: seq<string>, k: nat, z: string)
    requires k <= N && z !in c
    requires exists j :: 0 <= j < k && Aliases[j].1 == z && Aliases[j].0 in c
    ensures exists j :: 0 <= j < k && Aliases[j].1 == z && Fires(c, j)
    decreases k
  {
    AliasTargets();
    if exists j :: 0 <= j < k - 1 && Aliases[j].1 == z && Aliases[j].0 in c {
      FirstAliasFires(c, k - 1, z);
    } else {
      assert Fires(c, k - 1);
    }
  }

  /** Pass `k` renames exactly when the reference definition says entry `k` fires. */
  lemma StepFires(c: seq<string>, k: nat)
    requires k < N
    requires forall i :: 0 <= i < |c| ==> ApplyPrefix(c, k)[i] == FinalName(c, i, k)
    ensures (Aliases[k].0 in ApplyPrefix(c, k) && Aliases[k].1 !in ApplyPrefix(c, k)) <==> Fires(c, k)
  {
    AliasTargets();
    var e := Aliases[k];
    if !Canonical(e.0) {
      KeyIndexOf(e.0, k);
      AliasMember(c, k, e.0);
      CanonicalMember(c, k, e.1);
      if e.0 in c && e.1 !in c && exists j :: 0 <= j < k && Aliases[j].1 == e.1 && Aliases[j].0 in c {
        FirstAliasFires(c, k, e.1);
      }
    }
  }

  /** One pass keeps `FinalName` at position `i`. */
  lemma StepAt(c: seq<string>, m: nat, i: nat)
    requires m < N && i < |c|
    requires forall i :: 0 <= i < |c| ==> ApplyPrefix(c, m)[i] == FinalName(c, i, m)
    ensures ApplyPrefix(c, m + 1)[i] == FinalName(c, i, m + 1)
  {
    StepFires(c, m);
    var s := ApplyPrefix(c, m);
    var e := Aliases[m];
    assert ApplyPrefix(c, m + 1) == Step(s, e);
    assert s[i] == FinalName(c, i, m);
    FinalNameNext(c, i, m);
    if Fires(c, m) {
      RenamedHeader(c, i, m);
      assert Step(s, e)[i] == if s[i] == e.0 then e.1 else s[i];
    } else {
      assert Step(s, e) == s;
    }
  }

  /** Entry `m` changes `FinalName` only at a header that is its alias, and only when it fires. */
  lemma FinalNameNext(c: seq<string>, i: nat, m: nat)
    requires m < N && i < |c|
    ensures FinalName(c, i, m + 1)
      == if c[i] == Aliases[m].0 && Fires(c, m) then Aliases[m].1 else FinalName(c, i, m)
  {
    KeyIndexIs(c[i], m);
  }

  /** The alias of entry `m` is found at `m` and nowhere else. */
  lemma KeyIndexIs(x: string, m: nat)
    requires m < N
    ensures KeyIndex(x) == m <==> x == Aliases[m].0
  {
    if x == Aliases[m].0 {
      KeyIndexOf(x, m);
    }
  }

  /** When entry `m` fires, the header at `i` is still its alias exactly when it was that alias in `c`. */
  lemma RenamedHeader(c: seq<string>, i: nat, m: nat)
    requires m < N && i < |c| && Fires(c, m)
    ensures FinalName(c, i, m) == Aliases[m].0 <==> c[i] == Aliases[m].0
  {
    AliasTargets();
    var e := Aliases[m];
    assert !Canonical(e.0);
    if c[i] == e.0 {
      KeyIndexOf(c[i], m);
    }
  }

  /** After `k` passes every header is its `FinalName`. */
  lemma {:induction false} ApplyPrefixAt(c: seq<string>, k: nat)
    requires k <= N
    ensures forall i :: 0 <= i < |c| ==> ApplyPrefix(c, k)[i] == FinalName(c, i, k)
    decreases k
  {
    if k > 0 {
      ApplyPrefixAt(c, k - 1);
      forall i | 0 <= i < |c| ensures ApplyPrefix(c, k)[i] == FinalName(c, i, k) {
        StepAt(c, k - 1, i);
      }
    }
  }

  /**
   * Which alias wins: each normalised header is its cleaned header, renamed
   * to the canonical name exactly when the reference definition `Fires`
   * says its alias entry fires.
   */
  lemma NormalizeAt(names: seq<string>, i: nat)
    requires i < |names|
    ensures |Normalize(names)| == |names|
    ensures var c := CleanAll(names); var j := KeyIndex(c[i]);
      Normalize(names)[i] == if j < N && Fires(c, j) then Aliases[j].1 else c[i]
  {
    ApplyPrefixAt(CleanAll(names), N);
  }

  /** A header whose cleaned form is no alias is kept as cleaned; every other header is cleaned or canonical. */
  lemma NormalizeKeepsUnknown(names: seq<string>, i: nat)
    requires i < |names|
    ensures |Normalize(names)| == |names|
    ensures (forall k :: 0 <= k < N ==> Aliases[k].0 != Clean(names[i])) ==> Normalize(names)[i] == Clean(names[i])
    ensures Normalize(names)[i] == Clean(names[i]) || Canonical(Normalize(names)[i])
  {
    NormalizeAt(names, i);
    AliasTargets();
  }

  /**
   * Of several aliases of one canonical name, only the first in table order
   * can be renamed: a header whose alias has an earlier alias of the same
   * canonical name among the headers keeps its own (cleaned) name.
   */
  lemma LaterAliasKeepsName(names: seq<string>, i: nat, j: nat, k: nat)
    requires i < |names| && j < k < N
    requires Aliases[k].0 == Clean(names[i]) && Aliases[j].1 == Aliases[k].1
    requires Aliases[j].0 in CleanAll(names)
    ensures Normalize(names)[i] == Clean(names[i])
  {
    NormalizeAt(names, i);
    KeyIndexOf(Clean(names[i]), k);
  }

  /** Lowering and stripping a cleaned header changes nothing. */
  lemma CleanClean(x: string)
    ensures Clean(Clean(x)) == Clean(x)
  {
    var l := Lower(x);
    var t := Strip(l);
    LowerIsLower(x);
    StripChars(l);
    assert IsLower(t) by {
      forall q | 0 <= q < |t| ensures LowerChar(t[q]) == t[q] {
        var z :| 0 <= z < |l| && l[z] == t[q];
      }
    }
    LowerOfLower(t);
    StripIdempotent(l);
  }

  lemma CanonicalClean(z: string)
    requires Canonical(z)
    ensures Clean(z) == z
  {
    assert IsLower(z);
    LowerOfLower(z);
    TrimLeftNoLeadingSpace(z);
    TrimRightNoTrailingSpace(z);
  }

  /** After the whole loop no entry of the table can rename any more. */
  lemma Settled(c: seq<string>, k: nat)
    requires k < N
    requires forall i :: 0 <= i < |c| ==> ApplyPrefix(c, N)[i] == FinalName(c, i, N)
    ensures Aliases[k].0 in ApplyPrefix(c, N) ==> Aliases[k].1 in ApplyPrefix(c, N)
  {
    AliasTargets();
    var S := ApplyPrefix(c, N);
    var y, z := Aliases[k].0, Aliases[k].1;
    if y in S && !Canonical(y) {
      var i :| 0 <= i < |S| && S[i] == y;
      assert c[i] == y;
      KeyIndexOf(y, k);
      CanonicalMember(c, N, z);
      if z !in c {
        assert exists j :: 0 <= j < k && Aliases[j].1 == z && Aliases[j].0 in c;
        FirstAliasFires(c, k, z);
      }
    }
  }

  /** On headers where no entry can rename, the loop changes nothing. */
  lemma {:induction false} SettledFixed(s: seq<string>, k: nat)
    requires k <= N
    requires forall j :: 0 <= j < N ==> Aliases[j].0 in s ==> Aliases[j].1 in s
    ensures ApplyPrefix(s, k) == s
    decreases k
  {
    if k > 0 {
      SettledFixed(s, k - 1);
    }
  }

  /** Normalising twice gives the headers normalising once gives. */
  lemma NormalizeIdempotent(names: seq<string>)
    ensures Normalize(Normalize(names)) == Normalize(names)
  {
    var c := CleanAll(names);
    var S := Normalize(names);
    ApplyPrefixAt(c, N);
    forall i | 0 <= i < |S| ensures Clean(S[i]) == S[i] {
      NormalizeKeepsUnknown(names, i);
      CleanClean(names[i]);
      if Canonical(S[i]) { CanonicalClean(S[i]); }
    }
    assert CleanAll(S) == S;
    forall j | 0 <= j < N ensures Aliases[j].0 in S ==> Aliases[j].1 in S {
      Settled(c, j);
    }
    SettledFixed(S, N);
  }

  /**
   * `normalize_column_names`: a fresh copy whose headers are lowered and
   * stripped, then renamed by one pass over the alias table; the column
   * data and the caller's frame are untouched.
   */
  method NormalizeColumnNames(df: DataFrame) returns (r: DataFrame)
    requires df.Valid()
    ensures fresh(r) && r.Valid()
    ensures r.names == Normalize(df.names)
    ensures r.cols == df.cols && r.nrows == df.nrows
  {
    r := df.Copy();
    r.SetNames(CleanAll(r.names));
    ghost var c := r.names;
    for k := 0 to N
      invariant fresh(r) && r.Valid() && r.names == ApplyPrefix(c, k)
      invariant r.cols == df.cols && r.nrows == df.nrows
    {
      var e := Aliases[k];
      assert ApplyPrefix(c, k + 1) == Step(r.names, e);
      if e.0 in r.names && e.1 !in r.names {
        r.Rename(e.0, e.1);
      }
    }
  }

  // ---------------------------------------------------------------------
  // Significance, DEGs and their summary
  // ---------------------------------------------------------------------

  /** `pvalue_threshold`, `log2fc_threshold` and the optional `padj_threshold`. */
  datatype Thresholds = Thresholds(pvalue: real, log2fc: real, padj: Option<real>)

  const Defaults := Thresholds(0.05, 1.0, None)

  /** ValueError for a missing column; TypeError when pandas cannot compare a non-numeric column. */
  datatype DegError = MissingColumn(name: string) | NotNumeric(name: string)

  datatype DegStats = DegStats(
    totalGenes: nat, numDeg: nat, up: nat, down: nat,
    degPercentage: real, upPercentage: real, downPercentage: real,
    avgLog2fc: real, medianLog2fc: real,
    topUp: seq<nat>, topDown: seq<nat>, degs: seq<nat>)

  /** `padj` when the frame has it, else `pvalue`. */
  function PColumn(t: Table): string {
    if t.Has("padj") then "padj" else "pvalue"
  }

  /** The threshold the chosen p column is compared with; `padj_threshold` defaults to `pvalue_threshold`. */
  function PThreshold(t: Table, th: Thresholds): real {
    if t.Has("padj") then th.padj.GetOr(th.pvalue) else th.pvalue
  }

  /** The frame has the columns the analysis reads. */
  predicate Ready(t: Table) {
    t.Valid() && t.Has(PColumn(t)) && t.Has("log2fc")
  }

  /** log2fc of every row as a sort key (a NaN row never reaches a sort). */
  function FcKey(t: Table): (r: seq<real>)
    requires Ready(t)
    ensures |r| == t.nrows
  {
    var fc := Cells(t, "log2fc");
    seq(t.nrows, i requires 0 <= i < t.nrows => if fc[i].Num? then fc[i].v else 0.0)
  }

  function Negated(key: seq<real>): (r: seq<real>)
    ensures |r| == |key| && forall i :: 0 <= i < |key| ==> r[i] == -key[i]
  {
    seq(|key|, i requires 0 <= i < |key| => -key[i])
  }

  /** The boolean mask `significant & (df['log2fc'].abs() > log2fc_threshold)`. */
  predicate IsDeg(t: Table, th: Thresholds, i: nat)
    requires Ready(t)
  {
    i < t.nrows && Lt(Cells(t, PColumn(t))[i], PThreshold(t, th))
    && AbsGt(Cells(t, "log2fc")[i], th.log2fc)
  }

  function DegRows(t: Table, th: Thresholds): (r: seq<nat>)
    requires Ready(t)
    ensures ValidIdx(r, FcKey(t)) && Increasing(r)
  {
    FilterIncreasing(Range(t.nrows), (i: nat) => IsDeg(t, th, i));
    FilterValid(Range(t.nrows), FcKey(t), (i: nat) => IsDeg(t, th, i));
    Filter(Range(t.nrows), (i: nat) => IsDeg(t, th, i))
  }

  function UpRows(t: Table, th: Thresholds): (r: seq<nat>)
    requires Ready(t)
    ensures ValidIdx(r, FcKey(t)) && Increasing(r)
  {
    FilterIncreasing(DegRows(t, th), (i: nat) => i < t.nrows && Gt(Cells(t, "log2fc")[i], 0.0));
    FilterValid(DegRows(t, th), FcKey(t), (i: nat) => i < t.nrows && Gt(Cells(t, "log2fc")[i], 0.0));
    Filter(DegRows(t, th), (i: nat) => i < t.nrows && Gt(Cells(t, "log2fc")[i], 0.0))
  }

  function DownRows(t: Table, th: Thresholds): (r: seq<nat>)
    requires Ready(t)
    ensures ValidIdx(r, FcKey(t)) && Increasing(r)
  {
    FilterIncreasing(DegRows(t, th), (i: nat) => i < t.nrows && Lt(Cells(t, "log2fc")[i], 0.0));
    FilterValid(DegRows(t, th), FcKey(t), (i: nat) => i < t.nrows && Lt(Cells(t, "log2fc")[i], 0.0));
    Filter(DegRows(t, th), (i: nat) => i < t.nrows && Lt(Cells(t, "log2fc")[i], 0.0))
  }

  /** `part / whole * 100`, or 0 when `whole` is 0. */
  function Percent(part: nat, whole: nat): real {
    if whole > 0 then part as real / whole as real * 100.0 else 0.0
  }

  /** The keys of the rows `s`, in order. */
  function Values(s: seq<nat>, key: seq<real>): (r: seq<real>)
    requires ValidIdx(s, key)
    ensures |r| == |s| && forall q :: 0 <= q < |s| ==> r[q] == key[s[q]]
  {
    seq(|s|, q requires 0 <= q < |s| => key[s[q]])
  }

  /** `Series.median()`: the middle key, or the mean of the two middle keys. */
  function Median(s: seq<nat>, key: seq<real>): real
    requires |s| > 0 && ValidIdx(s, key)
  {
    var srt := SortDesc(s, key);
    var n := |s|;
    if n % 2 == 1 then key[srt[n / 2]] else (key[srt[n / 2 - 1]] + key[srt[n / 2]]) / 2.0
  }

  /** The summary `analyze_deg_data` returns for a frame that has its columns. */
  function Stats(t: Table, th: Thresholds): DegStats
    requires Ready(t)
  {
    var key := FcKey(t);
    var degs, up, down := DegRows(t, th), UpRows(t, th), DownRows(t, th);
    DegStats(
      t.nrows, |degs|, |up|, |down|,
      Percent(|degs|, t.nrows), Percent(|up|, |degs|), Percent(|down|, |degs|),
      if |degs| > 0 then Mean(Values(degs, key)) else 0.0,
      if |degs| > 0 then Median(degs, key) else 0.0,
      TopK(up, key, 10), TopK(down, Negated(key), 10), degs)
  }

  /**
   * `analyze_deg_data`: ValueError when the p column (`padj`, else
   * `pvalue`) or `log2fc` is missing, TypeError when either cannot be
   * compared as numbers, and the summary otherwise.
   */
  function AnalyzeDegData(t: Table, th: Thresholds): (r: Result<DegStats, DegError>)
    requires t.Valid()
    ensures !t.Has("padj") && !t.Has("pvalue") ==> r == Err(MissingColumn("pvalue"))
    ensures t.Has(PColumn(t)) && !t.Has("log2fc") ==> r == Err(MissingColumn("log2fc"))
    ensures r.Ok? <==> Ready(t) && IsNumeric(t, PColumn(t)) && IsNumeric(t, "log2fc")
    ensures r.Ok? ==> r.value.totalGenes == t.nrows
  {
    var p := PColumn(t);
    if !t.Has(p) then Err(MissingColumn(p))
    else if !t.Has("log2fc") then Err(MissingColumn("log2fc"))
    else if !IsNumeric(t, p) then Err(NotNumeric(p))
    else if !IsNumeric(t, "log2fc") then Err(NotNumeric("log2fc"))
    else Ok(Stats(t, th))
  }

  /**
   * A row is a DEG exactly when its p value (`padj` when present, else
   * `pvalue`) is below its threshold and its |log2fc| exceeds
   * `log2fc_threshold`; up rows are the DEGs with log2fc > 0 and down rows
   * those with log2fc < 0.  NaN cells satisfy no comparison.
   */
  lemma DegMembership(t: Table, th: Thresholds, i: nat)
    requires Ready(t)
    ensures i in DegRows(t, th) <==>
      i < t.nrows
      && (var p := Cells(t, PColumn(t))[i];
          p.Num? && p.v < (if t.Has("padj") then th.padj.GetOr(th.pvalue) else th.pvalue))
      && (var f := Cells(t, "log2fc")[i]; f.Num? && (f.v > th.log2fc || -f.v > th.log2fc))
    ensures i in UpRows(t, th) <==> i in DegRows(t, th) && Cells(t, "log2fc")[i].v > 0.0
    ensures i in DownRows(t, th) <==> i in DegRows(t, th) && Cells(t, "log2fc")[i].v < 0.0
  {
    var n := t.nrows;
    var fc := Cells(t, "log2fc");
    if i < n && IsDeg(t, th, i) {
      assert Range(n)[i] == i;
      FilterKeeps(Range(n), (i: nat) => IsDeg(t, th, i), i);
      if fc[i].v > 0.0 {
        FilterKeeps(DegRows(t, th), (i: nat) => i < t.nrows && Gt(Cells(t, "log2fc")[i], 0.0), i);
      }
      if fc[i].v < 0.0 {
        FilterKeeps(DegRows(t, th), (i: nat) => i < t.nrows && Lt(Cells(t, "log2fc")[i], 0.0), i);
      }
    }
  }

  /**
   * up + down <= num_deg <= total_genes, with up + down == num_deg when
   * `log2fc_threshold` >= 0 (every DEG then has a non-zero log2fc).
   */
  lemma DegCounts(t: Table, th: Thresholds)
    requires t.Valid() && AnalyzeDegData(t, th).Ok?
    ensures var s := AnalyzeDegData(t, th).value;
      s.up + s.down <= s.numDeg <= s.totalGenes
      && (th.log2fc >= 0.0 ==> s.up + s.down == s.numDeg)
      && s.numDeg == |s.degs|
  {
    var s := AnalyzeDegData(t, th).value;
    assert s == Stats(t, th);
    RowCounts(t, th);
  }

  /** The up and down rows split the DEG rows, and cover them when the threshold is non-negative. */
  lemma RowCounts(t: Table, th: Thresholds)
    requires Ready(t)
    ensures |UpRows(t, th)| + |DownRows(t, th)| <= |DegRows(t, th)| <= t.nrows
    ensures th.log2fc >= 0.0 ==> |UpRows(t, th)| + |DownRows(t, th)| == |DegRows(t, th)|
  {
    var degs := DegRows(t, th);
    var fc := Cells(t, "log2fc");
    var pUp := (i: nat) => i < t.nrows && Gt(Cells(t, "log2fc")[i], 0.0);
    var pDown := (i: nat) => i < t.nrows && Lt(Cells(t, "log2fc")[i], 0.0);
    FilterSplit(degs, pUp, pDown);
    if th.log2fc >= 0.0 {
      forall x | x in degs ensures pUp(x) || pDown(x) {
        assert IsDeg(t, th, x);
      }
    }
  }

  lemma PercentBounds(part: nat, whole: nat)
    requires part <= whole
    ensures 0.0 <= Percent(part, whole) <= 100.0
    ensures whole == 0 ==> Percent(part, whole) == 0.0
    ensures whole > 0 ==> Percent(part, whole) * (whole as real) == 100.0 * (part as real)
  {
    if whole > 0 {
      var q := part as real / whole as real;
      DivUnit(part as real, whole as real);
      assert q * whole as real == part as real;
      assert (q * 100.0) * whole as real == 100.0 * (q * whole as real);
    }
  }

  lemma PercentOf(part: nat, whole: nat, x: real)
    requires part <= whole && x == Percent(part, whole)
    ensures 0.0 <= x <= 100.0 && (whole == 0 ==> x == 0.0)
    ensures whole > 0 ==> x * (whole as real) == 100.0 * (part as real)
  {
    PercentBounds(part, whole);
  }

  lemma PercentFields(s: DegStats)
    requires s.up + s.down <= s.numDeg <= s.totalGenes
    requires s.degPercentage == Percent(s.numDeg, s.totalGenes)
    requires s.upPercentage == Percent(s.up, s.numDeg) && s.downPercentage == Percent(s.down, s.numDeg)
    ensures 0.0 <= s.degPercentage <= 100.0 && 0.0 <= s.upPercentage <= 100.0
    ensures 0.0 <= s.downPercentage <= 100.0
    ensures s.totalGenes == 0 ==> s.degPercentage == 0.0
    ensures s.numDeg == 0 ==> s.upPercentage == 0.0 && s.downPercentage == 0.0
    ensures s.totalGenes > 0 ==> s.degPercentage * (s.totalGenes as real) == 100.0 * (s.numDeg as real)
    ensures s.numDeg > 0 ==> s.upPercentage * (s.numDeg as real) == 100.0 * (s.up as real)
    ensures s.numDeg > 0 ==> s.downPercentage * (s.numDeg as real) == 100.0 * (s.down as real)
  {
    PercentOf(s.numDeg, s.totalGenes, s.degPercentage);
    PercentOf(s.up, s.numDeg, s.upPercentage);
    PercentOf(s.down, s.numDeg, s.downPercentage);
  }

  /**
   * `deg_percentage` is relative to the total and the up/down percentages
   * to num_deg; each lies in [0, 100] and is 0 when its denominator is 0.
   */
  lemma DegPercentages(t: Table, th: Thresholds, s: DegStats)
    requires t.Valid() && AnalyzeDegData(t, th) == Ok(s)
    ensures 0.0 <= s.degPercentage <= 100.0 && 0.0 <= s.upPercentage <= 100.0
    ensures 0.0 <= s.downPercentage <= 100.0
    ensures s.totalGenes == 0 ==> s.degPercentage == 0.0
    ensures s.numDeg == 0 ==> s.upPercentage == 0.0 && s.downPercentage == 0.0
    ensures s.totalGenes > 0 ==> s.degPercentage * (s.totalGenes as real) == 100.0 * (s.numDeg as real)
    ensures s.numDeg > 0 ==> s.upPercentage * (s.numDeg as real) == 100.0 * (s.up as real)
    ensures s.numDeg > 0 ==> s.downPercentage * (s.numDeg as real) == 100.0 * (s.down as real)
  {
    DegCounts(t, th);
    assert s.degPercentage == Percent(s.numDeg, s.totalGenes)
      && s.upPercentage == Percent(s.up, s.numDeg) && s.downPercentage == Percent(s.down, s.numDeg);
    PercentFields(s);
  }

  /** The first ten of `rows` by descending key: their order, and that none left out ranks higher. */
  lemma TopRows(rows: seq<nat>, key: seq<real>, r: seq<nat>)
    requires ValidIdx(rows, key) && Increasing(rows) && r == TopK(rows, key, 10)
    ensures |r| == (if |rows| < 10 then |rows| else 10)
    ensures forall q :: 0 <= q < |r| ==> r[q] in rows
    ensures forall p, q :: 0 <= p < q < |r| ==> key[r[p]] > key[r[q]] || (key[r[p]] == key[r[q]] && r[p] < r[q])
    ensures forall x, q :: x in rows && x !in r && 0 <= q < |r| ==> key[x] <= key[r[q]]
  {
    TopKOrdered(rows, key, 10);
    forall q | 0 <= q < |r| ensures r[q] in rows {
      assert r[q] in multiset(r);
    }
    forall x, q | x in rows && x !in r && 0 <= q < |r| ensures key[x] <= key[r[q]] {
      var i :| 0 <= i < |rows| && rows[i] == x;
      TopKComplete(rows, key, 10, i, q);
    }
  }

  /** The first ten of `rows` by ascending key, as sorting the negated keys gives them. */
  lemma BottomRows(rows: seq<nat>, key: seq<real>, r: seq<nat>)
    requires ValidIdx(rows, key) && Increasing(rows) && r == TopK(rows, Negated(key), 10)
    ensures |r| == (if |rows| < 10 then |rows| else 10)
    ensures forall q :: 0 <= q < |r| ==> r[q] in rows
    ensures forall p, q :: 0 <= p < q < |r| ==> key[r[p]] < key[r[q]] || (key[r[p]] == key[r[q]] && r[p] < r[q])
    ensures forall x, q :: x in rows && x !in r && 0 <= q < |r| ==> key[x] >= key[r[q]]
  {
    var neg := Negated(key);
    TopRows(rows, neg, r);
    forall p, q | 0 <= p < q < |r| ensures key[r[p]] < key[r[q]] || (key[r[p]] == key[r[q]] && r[p] < r[q]) {
      assert neg[r[p]] > neg[r[q]] || (neg[r[p]] == neg[r[q]] && r[p] < r[q]);
    }
    forall x, q | x in rows && x !in r && 0 <= q < |r| ensures key[x] >= key[r[q]] {
      assert neg[x] <= neg[r[q]];
    }
  }

  /**
   * `top_up_genes`: min(10, up) up-regulated rows, largest log2fc first,
   * ties in row order, and no up row left out has a larger log2fc than a
   * row kept.
   */
  lemma TopUp(t: Table, th: Thresholds)
    requires t.Valid() && AnalyzeDegData(t, th).Ok?
    ensures var s := AnalyzeDegData(t, th).value; var fc := FcKey(t); var up := UpRows(t, th);
      |s.topUp| == (if s.up < 10 then s.up else 10)
      && (forall q :: 0 <= q < |s.topUp| ==> s.topUp[q] in up)
      && (forall p, q :: 0 <= p < q < |s.topUp| ==>
            fc[s.topUp[p]] > fc[s.topUp[q]] || (fc[s.topUp[p]] == fc[s.topUp[q]] && s.topUp[p] < s.topUp[q]))
      && (forall x, q :: x in up && x !in s.topUp && 0 <= q < |s.topUp| ==> fc[x] <= fc[s.topUp[q]])
  {
    var s := AnalyzeDegData(t, th).value;
    assert s == Stats(t, th);
    TopRows(UpRows(t, th), FcKey(t), s.topUp);
  }

  /**
   * `top_down_genes`: min(10, down) down-regulated rows, smallest log2fc
   * first, ties in row order, and no down row left out has a smaller
   * log2fc than a row kept.
   */
  lemma TopDown(t: Table, th: Thresholds)
    requires t.Valid() && AnalyzeDegData(t, th).Ok?
    ensures var s := AnalyzeDegData(t, th).value; var fc := FcKey(t); var down := DownRows(t, th);
      |s.topDown| == (if s.down < 10 then s.down else 10)
      && (forall q :: 0 <= q < |s.topDown| ==> s.topDown[q] in down)
      && (forall p, q :: 0 <= p < q < |s.topDown| ==>
            fc[s.topDown[p]] < fc[s.topDown[q]] || (fc[s.topDown[p]] == fc[s.topDown[q]] && s.topDown[p] < s.topDown[q]))
      && (forall x, q :: x in down && x !in s.topDown && 0 <= q < |s.topDown| ==> fc[x] >= fc[s.topDown[q]])
  {
    var s := AnalyzeDegData(t, th).value;
    assert s == Stats(t, th);
    BottomRows(DownRows(t, th), FcKey(t), s.topDown);
  }

  /** A median lies within any bounds of the keys it is taken over. */
  lemma MedianBounds(s: seq<nat>, key: seq<real>, lo: real, hi: real)
    requires |s| > 0 && ValidIdx(s, key)
    requires forall i :: i in s ==> lo <= key[i] <= hi
    ensures lo <= Median(s, key) <= hi
  {
    var srt := SortDesc(s, key);
    forall q | 0 <= q < |srt| ensures lo <= key[srt[q]] <= hi {
      assert srt[q] in multiset(s);
    }
  }

  /**
   * The average and median log2fc are 0 when there is no DEG, and
   * otherwise lie within any bounds of the DEGs' log2fc values.
   */
  lemma DegAverages(t: Table, th: Thresholds, lo: real, hi: real)
    requires t.Valid() && AnalyzeDegData(t, th).Ok?
    ensures var s := AnalyzeDegData(t, th).value;
      (s.numDeg == 0 ==> s.avgLog2fc == 0.0 && s.medianLog2fc == 0.0)
      && ((forall i :: i in s.degs ==> lo <= FcKey(t)[i] <= hi) && s.numDeg > 0 ==>
            lo <= s.avgLog2fc <= hi && lo <= s.medianLog2fc <= hi)
  {
    var s := AnalyzeDegData(t, th).value;
    var key := FcKey(t);
    var degs := s.degs;
    assert s == Stats(t, th);
    assert degs == DegRows(t, th);
    if (forall i :: i in degs ==> lo <= key[i] <= hi) && |degs| > 0 {
      var v := Values(degs, key);
      assert s.avgLog2fc == Mean(v);
      assert s.medianLog2fc == Median(degs, key);
      forall q | 0 <= q < |v| ensures lo <= v[q] <= hi {
        assert degs[q] in degs;
      }
      MeanBounds(v, lo, hi);
      MedianBounds(degs, key, lo, hi);
    }
  }
}
