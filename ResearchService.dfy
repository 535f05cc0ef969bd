/**
 * The placeholder narrative (backend/services/research_service.py): fixed
 * "Results" and "Discussion" templates filled from the four DEG counts of
 * the summary statistics.  Decimal formatting with a fixed number of places
 * is a parameter.
 */
module ResearchService {
  import opened Text
  import opened Schemas

  /** The integer entries of `summary_stats` the narrative may read. */
  type Stats = map<string, int>

  const CountKeys: set<string> := {"num_deg", "up", "down", "total_genes"}

  /** `summary_stats.get(key, 0)`. */
  function Get(stats: Stats, key: string): int {
    if key in stats then stats[key] else 0
  }

  /** `part / whole * 100 if whole > 0 else 0`. */
  function GuardedPercent(part: int, whole: int): real {
    if whole > 0 then part as real / whole as real * 100.0 else 0.0
  }

  /** `f"{x:.2f}"` and `f"{x:.1f}"`. */
  datatype Formats = Formats(twoPlaces: real -> string, onePlace: real -> string)

  function DegPercent(stats: Stats): real {
    GuardedPercent(Get(stats, "num_deg"), Get(stats, "total_genes"))
  }

  function UpPercent(stats: Stats): real {
    GuardedPercent(Get(stats, "up"), Get(stats, "num_deg"))
  }

  function DownPercent(stats: Stats): real {
    GuardedPercent(Get(stats, "down"), Get(stats, "num_deg"))
  }

  /**
   * The fixed text of the two templates: the fragments around the values
   * filled in, in order.
   */
  datatype Template = Template(results: seq<string>, discussion: seq<string>) {
    predicate Valid() { |results| == 8 && |discussion| == 5 }
  }

  const Texts := Template(
    ["Differential expression analysis identified ",
     " significantly differentially expressed genes (DEGs) out of ",
     " total genes analyzed (",
     "% of the transcriptome). \n\nAmong the DEGs, ",
     " genes (",
     "%) were up-regulated, while ",
     " genes (",
     "%) were down-regulated. This indicates a substantial transcriptional response to the experimental conditions."
     + "\n\nThe analysis employed standard statistical thresholds for significance, and the distribution of "
     + "up- and down-regulated genes suggests a balanced regulatory response."],
    ["The identification of ",
     " differentially expressed genes represents a significant transcriptional response. "
     + "The relatively balanced distribution between up-regulated (",
     ") and down-regulated (",
     ") genes suggests coordinated regulatory mechanisms.\n\nThe magnitude of the response (",
     "% of genes) indicates substantial biological changes under the experimental conditions. "
     + "Further investigation into the functional categories and pathways enriched among these DEGs "
     + "would provide additional insights into the underlying biological processes.\n\n"
     + "Future studies should focus on validating key DEGs through independent methods and exploring "
     + "the functional consequences of these transcriptional changes. Integration with pathway analysis "
     + "and network-based approaches could reveal regulatory relationships and potential therapeutic targets."])

  /** `fixed[0] + values[0] + fixed[1] + ... + values[n-1] + fixed[n]`: an f-string. */
  function Fill(fixed: seq<string>, values: seq<string>): string
    requires |fixed| == |values| + 1
    decreases |values|
  {
    if values == [] then fixed[0] else fixed[0] + values[0] + Fill(fixed[1..], values[1..])
  }

  /** A filled template contains every value it was filled with. */
  lemma {:induction false} FillContains(fixed: seq<string>, values: seq<string>, k: nat)
    requires |fixed| == |values| + 1 && k < |values|
    ensures Contains(Fill(fixed, values), values[k])
    decreases |values|
  {
    var f := Fill(fixed, values);
    if k == 0 {
      ContainsPiece(fixed[0], values[0], Fill(fixed[1..], values[1..]));
    } else {
      var rest := Fill(fixed[1..], values[1..]);
      FillContains(fixed[1..], values[1..], k - 1);
      var i := ContainsWitness(rest, values[k]);
      var head := fixed[0] + values[0];
      assert f == head + rest;
      assert f[|head| + i..|head| + i + |values[k]|] == rest[i..i + |values[k]|];
      ContainsAt(f, values[k], |head| + i);
    }
  }

  /** The values of the results section, in template order. */
  function ResultsValues(stats: Stats, fmt: Formats): seq<string> {
    [IntToString(Get(stats, "num_deg")), GroupedInt(Get(stats, "total_genes")), fmt.twoPlaces(DegPercent(stats)),
     IntToString(Get(stats, "up")), fmt.onePlace(UpPercent(stats)),
     IntToString(Get(stats, "down")), fmt.onePlace(DownPercent(stats))]
  }

  /** The values of the discussion section, in template order. */
  function DiscussionValues(stats: Stats, fmt: Formats): seq<string> {
    [IntToString(Get(stats, "num_deg")), IntToString(Get(stats, "up")), IntToString(Get(stats, "down")),
     fmt.twoPlaces(DegPercent(stats))]
  }

  function Narrate(stats: Stats, fmt: Formats, tpl: Template): map<string, NarrativeSection>
    requires tpl.Valid()
  {
    map["results" := NarrativeSection("Results", Fill(tpl.results, ResultsValues(stats, fmt))),
        "discussion" := NarrativeSection("Discussion", Fill(tpl.discussion, DiscussionValues(stats, fmt)))]
  }

  /** `generate_scientific_narrative`. */
  function GenerateScientificNarrative(stats: Stats, fmt: Formats): map<string, NarrativeSection> {
    Narrate(stats, fmt, Texts)
  }

  /** Exactly the keys "results" and "discussion", titled "Results" and "Discussion". */
  lemma NarrativeShape(stats: Stats, fmt: Formats, tpl: Template)
    requires tpl.Valid()
    ensures var n := Narrate(stats, fmt, tpl);
      n.Keys == {"results", "discussion"}
      && n["results"].title == "Results" && n["discussion"].title == "Discussion"
  {
  }

  /**
   * The results quote the DEG count, the total (grouped by thousands), the
   * up and down counts and the three percentages; the discussion quotes
   * the DEG, up and down counts and the DEG percentage.
   */
  lemma NarrativeQuotes(stats: Stats, fmt: Formats, tpl: Template)
    requires tpl.Valid()
    ensures var results := Narrate(stats, fmt, tpl)["results"].content;
      Contains(results, IntToString(Get(stats, "num_deg")))
      && Contains(results, GroupedInt(Get(stats, "total_genes")))
      && Contains(results, IntToString(Get(stats, "up")))
      && Contains(results, IntToString(Get(stats, "down")))
      && Contains(results, fmt.twoPlaces(DegPercent(stats)))
      && Contains(results, fmt.onePlace(UpPercent(stats)))
      && Contains(results, fmt.onePlace(DownPercent(stats)))
    ensures var discussion := Narrate(stats, fmt, tpl)["discussion"].content;
      Contains(discussion, IntToString(Get(stats, "num_deg")))
      && Contains(discussion, IntToString(Get(stats, "up")))
      && Contains(discussion, IntToString(Get(stats, "down")))
      && Contains(discussion, fmt.twoPlaces(DegPercent(stats)))
  {
    var r := ResultsValues(stats, fmt);
    FillContains(tpl.results, r, 0);
    FillContains(tpl.results, r, 1);
    FillContains(tpl.results, r, 2);
    FillContains(tpl.results, r, 3);
    FillContains(tpl.results, r, 4);
    FillContains(tpl.results, r, 5);
    FillContains(tpl.results, r, 6);
    var d := DiscussionValues(stats, fmt);
    FillContains(tpl.discussion, d, 0);
    FillContains(tpl.discussion, d, 1);
    FillContains(tpl.discussion, d, 2);
    FillContains(tpl.discussion, d, 3);
  }

  /**
   * Each percentage is 0 when its denominator is not positive, lies in
   * [0, 100] when the part lies between 0 and the denominator, and up and
   * down together make at most 100 when they make at most the DEG count.
   */
  lemma PercentagesGuarded(stats: Stats)
    ensures Get(stats, "total_genes") <= 0 ==> DegPercent(stats) == 0.0
    ensures Get(stats, "num_deg") <= 0 ==> UpPercent(stats) == 0.0 && DownPercent(stats) == 0.0
    ensures 0 <= Get(stats, "num_deg") <= Get(stats, "total_genes") ==> 0.0 <= DegPercent(stats) <= 100.0
    ensures 0 <= Get(stats, "up") && 0 <= Get(stats, "down") && Get(stats, "up") + Get(stats, "down") <= Get(stats, "num_deg") ==>
      0.0 <= UpPercent(stats) && 0.0 <= DownPercent(stats) && UpPercent(stats) + DownPercent(stats) <= 100.0
  {
    var n, t := Get(stats, "num_deg"), Get(stats, "total_genes");
    var u, d := Get(stats, "up"), Get(stats, "down");
    if 0 <= n <= t {
      PercentRange(n, t);
    }
    if 0 <= u && 0 <= d && u + d <= n {
      PercentRange(u + d, n);
      PercentRange(u, n);
      PercentRange(d, n);
      PercentSum(u, d, n);
    }
  }

  lemma PercentRange(part: int, whole: int)
    requires 0 <= part <= whole
    ensures 0.0 <= GuardedPercent(part, whole) <= 100.0
  {
    if whole > 0 {
      var q := part as real / whole as real;
      assert q * whole as real == part as real;
      assert q <= 1.0;
    }
  }

  lemma PercentSum(a: int, b: int, whole: int)
    ensures GuardedPercent(a, whole) + GuardedPercent(b, whole) == GuardedPercent(a + b, whole)
  {
    if whole > 0 {
      var w := whole as real;
      assert a as real / w + b as real / w == (a + b) as real / w;
    }
  }

  /** Only the four counts are read: any other entry, such as a precomputed percentage, is ignored. */
  lemma OnlyCountsMatter(stats: Stats, key: string, value: int, fmt: Formats, tpl: Template)
    requires key !in CountKeys && tpl.Valid()
    ensures Narrate(stats[key := value], fmt, tpl) == Narrate(stats, fmt, tpl)
  {
    var s2 := stats[key := value];
    assert forall k :: k in CountKeys ==> Get(s2, k) == Get(stats, k);
    assert Get(s2, "num_deg") == Get(stats, "num_deg");
    assert Get(s2, "up") == Get(stats, "up");
    assert Get(s2, "down") == Get(stats, "down");
    assert Get(s2, "total_genes") == Get(stats, "total_genes");
  }

  /** A missing count reads as 0. */
  lemma MissingCountIsZero(stats: Stats, key: string, fmt: Formats, tpl: Template)
    requires key in CountKeys && key !in stats && tpl.Valid()
    ensures Narrate(stats[key := 0], fmt, tpl) == Narrate(stats, fmt, tpl)
  {
    var s2 := stats[key := 0];
    assert Get(s2, "num_deg") == Get(stats, "num_deg");
    assert Get(s2, "up") == Get(stats, "up");
    assert Get(s2, "down") == Get(stats, "down");
    assert Get(s2, "total_genes") == Get(stats, "total_genes");
  }
}
