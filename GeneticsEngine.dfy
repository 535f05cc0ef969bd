/**
 * The rule-table SNP interpreter (backend/services/genetics_engine.py): a
 * fixed table of five SNPs with per-genotype interpretations, a generic
 * card for SNPs outside the table, peer comparisons grouped by domain and
 * the genetic bio card.
 */
module GeneticsEngine {
  import opened Wrappers
  import opened Text
  import opened Numerics
  import opened Sorting
  import opened Schemas
  import opened PersonalService

  datatype GenotypeRule = GenotypeRule(
    genotype: string, interpretation: string, score: real, recommendations: seq<string>)

  datatype SnpRule = SnpRule(
    rsid: string, domain: string, gene: string, description: string, genotypes: seq<GenotypeRule>)

  /** `SNP_RULES`, each genotype table in its dictionary order. */
  const SnpRules: seq<SnpRule> := [
    SnpRule("rs762551", "Caffeine Metabolism", "CYP1A2",
      "CYP1A2 enzyme activity affects caffeine metabolism speed", [
        GenotypeRule("AA", "Fast caffeine metabolizer", 0.8, [
            "You metabolize caffeine quickly",
            "May tolerate higher caffeine intake",
            "Caffeine effects may be shorter-lived"]),
        GenotypeRule("AC", "Intermediate caffeine metabolizer", 0.5, [
            "Moderate caffeine metabolism",
            "Standard caffeine recommendations apply",
            "Monitor your response to caffeine"]),
        GenotypeRule("CC", "Slow caffeine metabolizer", 0.2, [
            "You metabolize caffeine slowly",
            "Consider limiting caffeine intake, especially in afternoon",
            "May experience longer-lasting effects from caffeine",
            "Higher risk of sleep disruption from caffeine"])]),
    SnpRule("rs4988235", "Lactose Tolerance", "LCT",
      "Lactase persistence affects ability to digest lactose", [
        GenotypeRule("CC", "Lactose tolerant", 0.9, [
            "You can digest lactose well",
            "No need to avoid dairy products",
            "Lactose intolerance is unlikely"]),
        GenotypeRule("CT", "Partial lactose tolerance", 0.6, [
            "Moderate lactose tolerance",
            "May tolerate small amounts of dairy",
            "Monitor symptoms after dairy consumption"]),
        GenotypeRule("TT", "Lactose intolerant", 0.1, [
            "Likely lactose intolerant",
            "Consider limiting dairy intake",
            "Try lactose-free alternatives",
            "Monitor for digestive symptoms"])]),
    SnpRule("rs7412", "Cardiovascular Health", "APOE",
      "APOE \U{03B5}2 variant associated with cardiovascular health", [
        GenotypeRule("CC", "APOE \U{03B5}2/\U{03B5}2 - Lower cardiovascular risk", 0.85, [
            "Favorable APOE profile for cardiovascular health",
            "Continue heart-healthy lifestyle",
            "Regular cardiovascular monitoring recommended"]),
        GenotypeRule("CT", "APOE \U{03B5}2/\U{03B5}3 - Moderate cardiovascular risk", 0.6, [
            "Standard cardiovascular risk profile",
            "Maintain heart-healthy diet and exercise",
            "Regular health checkups recommended"]),
        GenotypeRule("TT", "APOE \U{03B5}3/\U{03B5}3 - Standard cardiovascular risk", 0.5, [
            "Standard cardiovascular risk profile",
            "Follow general heart health guidelines",
            "Regular monitoring recommended"])]),
    SnpRule("rs1800566", "Drug Metabolism", "CYP2D6",
      "CYP2D6 enzyme affects metabolism of many medications", [
        GenotypeRule("GG", "Normal CYP2D6 metabolizer", 0.7, [
            "Normal drug metabolism",
            "Standard medication dosages typically appropriate",
            "Discuss with healthcare provider for medication adjustments"]),
        GenotypeRule("GA", "Intermediate CYP2D6 metabolizer", 0.5, [
            "Moderate drug metabolism",
            "May require adjusted dosages for some medications",
            "Consult healthcare provider about pharmacogenetics"]),
        GenotypeRule("AA", "Poor CYP2D6 metabolizer", 0.3, [
            "Reduced drug metabolism",
            "May require lower dosages for some medications",
            "Important to discuss with healthcare provider",
            "Consider pharmacogenetic testing for medications"])]),
    SnpRule("rs1042713", "Exercise Response", "ADRB2",
      "Beta-2 adrenergic receptor affects exercise performance", [
        GenotypeRule("GG", "Enhanced exercise response", 0.75, [
            "Favorable genetics for endurance exercise",
            "May respond well to aerobic training",
            "Consider endurance-focused training programs"]),
        GenotypeRule("AG", "Moderate exercise response", 0.5, [
            "Standard exercise response",
            "Balanced training approach recommended",
            "Both strength and cardio training beneficial"]),
        GenotypeRule("AA", "Standard exercise response", 0.45, [
            "Standard exercise genetics",
            "Consistent training is key",
            "Focus on progressive overload"])])

  ]

  /**
   * A dict lookup on a table kept as a list: the first entry whose key is
   * `k`, or none. `SNP_RULES` and each rule's `genotypes` are both such tables.
   */
  function FindBy<T>(xs: seq<T>, key: T -> string, k: string): (r: Option<T>)
    ensures r.Some? ==> r.value in xs && key(r.value) == k
    ensures r.None? ==> forall q :: 0 <= q < |xs| ==> key(xs[q]) != k
  {
    if xs == [] then None
    else if key(xs[0]) == k then Some(xs[0])
    else FindBy(xs[1..], key, k)
  }

  /** `rsid in SNP_RULES` and the rule it finds. */
  function FindRule(rules: seq<SnpRule>, rsid: string): (r: Option<SnpRule>)
    ensures r.Some? ==> r.value in rules && r.value.rsid == rsid
    ensures r.None? ==> forall q :: 0 <= q < |rules| ==> rules[q].rsid != rsid
  {
    FindBy(rules, (x: SnpRule) => x.rsid, rsid)
  }

  /** `genotype in rule["genotypes"]` and the entry it finds. */
  function FindGenotype(gs: seq<GenotypeRule>, genotype: string): (r: Option<GenotypeRule>)
    ensures r.Some? ==> r.value in gs && r.value.genotype == genotype
    ensures r.None? ==> forall q :: 0 <= q < |gs| ==> gs[q].genotype != genotype
  {
    FindBy(gs, (x: GenotypeRule) => x.genotype, genotype)
  }

  /** Every rule lists at least one genotype and is keyed by a lower-case `rs` identifier. */
  lemma RulesTable()
    ensures forall q :: 0 <= q < |SnpRules| ==> |SnpRules[q].genotypes| > 0
    ensures forall q :: 0 <= q < |SnpRules| ==> |SnpRules[q].rsid| > 2 && SnpRules[q].rsid[..2] == "rs"
  {
  }

  /** The card for an SNP outside the table. */
  function GenericCard(rsid: string, genotype: string): Card {
    Card(
      "Genetic Variant",
      "SNP " + rsid + " with genotype " + genotype
        + " detected. This variant may have functional significance, but specific interpretation requires additional research.",
      0.5, None,
      ["Consult with a genetic counselor or healthcare provider",
       "Review scientific literature for this variant",
       "Consider additional genetic testing if clinically relevant"])
  }

  /** `domain.lower().replace(" ", "_")`. */
  function TraitName(domain: string): string {
    ReplaceAll(Lower(domain), ' ', '_')
  }

  function GenotypeNote(genotype: string): string {
    "Note: Genotype " + genotype + " interpretation may vary. Showing reference interpretation."
  }

  /**
   * The card for a table SNP: the listed genotype, or the first listed one
   * with a note; the percentile from `traitPercentile`, which stands for
   * `compute_trait_specific_percentile`.
   */
  function RuleCard(rule: SnpRule, genotype: string, traitPercentile: (real, string) -> real): Card
    requires |rule.genotypes| > 0
  {
    var found := FindGenotype(rule.genotypes, genotype);
    var gd := if found.Some? then found.value else rule.genotypes[0];
    var parts := [rule.domain + ": " + gd.interpretation, "Gene: " + rule.gene, rule.description]
      + (if found.Some? then [] else [GenotypeNote(genotype)]);
    Card(rule.domain, Join(parts, ". ") + ".", gd.score,
      Some(traitPercentile(gd.score, TraitName(rule.domain))), gd.recommendations)
  }

  /** Card for a rule found by `lookup` (shared by the written and the corrected lookup). */
  function CardFor(found: Option<SnpRule>, rsid: string, genotype: string, traitPercentile: (real, string) -> real): Card
    requires found.Some? ==> found.value in SnpRules
  {
    match found
    case None => GenericCard(rsid, genotype)
    case Some(rule) => RulesTable(); RuleCard(rule, genotype, traitPercentile)
  }

  /** `interpret_snp` as written: the rsID is upper-cased before the lookup. */
  function InterpretSnp(snp: SnpInput, traitPercentile: (real, string) -> real): Card {
    var rsid := Upper(snp.rsid);
    CardFor(FindRule(SnpRules, rsid), rsid, Upper(snp.genotype), traitPercentile)
  }

  /** `interpret_snp` with the lookup the table's lower-case keys call for. */
  function InterpretSnpCorrected(snp: SnpInput, traitPercentile: (real, string) -> real): Card {
    CardFor(FindRule(SnpRules, Lower(snp.rsid)), Upper(snp.rsid), Upper(snp.genotype), traitPercentile)
  }

  /** An upper-cased string never equals a table key: every key starts with a lower-case 'r'. */
  lemma UpperMissesRules(x: string)
    ensures FindRule(SnpRules, Upper(x)) == None
  {
    RulesTable();
    forall q | 0 <= q < |SnpRules| ensures SnpRules[q].rsid != Upper(x) {
      assert SnpRules[q].rsid[0] == SnpRules[q].rsid[..2][0] == 'r';
      if |Upper(x)| > 0 {
        assert Upper(x)[0] == UpperChar(x[0]) != 'r';
      }
    }
  }

  /**
   * As written, every SNP gets the generic card, even one listed in the
   * table: "Genetic Variant", score 0.5, no percentile, three fixed
   * recommendations and a summary quoting the upper-cased rsID and genotype.
   */
  lemma InterpretSnpIsGeneric(snp: SnpInput, traitPercentile: (real, string) -> real)
    ensures var card := InterpretSnp(snp, traitPercentile);
      card == GenericCard(Upper(snp.rsid), Upper(snp.genotype))
      && card.domain == "Genetic Variant" && card.score == 0.5 && card.percentile == None
      && |card.recommendations| == 3
      && Contains(card.summary, Upper(snp.rsid)) && Contains(card.summary, Upper(snp.genotype))
  {
    UpperMissesRules(snp.rsid);
    GenericCardShape(Upper(snp.rsid), Upper(snp.genotype));
  }

  /** The generic card quotes the rsID and the genotype it was made for. */
  lemma GenericCardShape(rsid: string, g: string)
    ensures var card := GenericCard(rsid, g);
      card.domain == "Genetic Variant" && card.score == 0.5 && card.percentile == None
      && |card.recommendations| == 3 && Contains(card.summary, rsid) && Contains(card.summary, g)
  {
    var card := GenericCard(rsid, g);
    ContainsBoth("SNP ", rsid, " with genotype ", g, card.summary[|"SNP " + rsid + " with genotype " + g|..], card.summary);
  }

  /**
   * A table SNP's card: the listed genotype's entry, or else the first
   * listed genotype's entry with a note naming the genotype; the summary is
   * the parts joined by ". " with a final ".", starting with the domain.
   */
  lemma RuleCardChoice(rule: SnpRule, genotype: string, traitPercentile: (real, string) -> real)
    requires |rule.genotypes| > 0
    ensures var card := RuleCard(rule, genotype, traitPercentile);
      var found := FindGenotype(rule.genotypes, genotype);
      card.domain == rule.domain
      && (found.Some? ==>
            found.value.genotype == genotype && card.score == found.value.score
            && card.recommendations == found.value.recommendations)
      && (found.None? ==>
            card.score == rule.genotypes[0].score
            && card.recommendations == rule.genotypes[0].recommendations
            && Contains(card.summary, GenotypeNote(genotype)))
      && card.percentile == Some(traitPercentile(card.score, TraitName(rule.domain)))
      && card.summary[|card.summary| - 1] == '.'
      && Contains(card.summary, rule.domain + ": ")
  {
    var card := RuleCard(rule, genotype, traitPercentile);
    var found := FindGenotype(rule.genotypes, genotype);
    var gd := if found.Some? then found.value else rule.genotypes[0];
    var a, b, c := rule.domain + ": " + gd.interpretation, "Gene: " + rule.gene, rule.description;
    var tail: string;
    var parts := [a, b, c] + (if found.Some? then [] else [GenotypeNote(genotype)]);
    assert card.summary == Join(parts, ". ") + ".";
    if found.Some? {
      assert parts == [a, b, c];
      JoinThree(a, b, c, ". ");
      tail := ". " + b + ". " + c + ".";
    } else {
      var n := GenotypeNote(genotype);
      assert parts == [a, b, c, n];
      JoinFour(a, b, c, n, ". ");
      tail := ". " + b + ". " + c + ". " + n + ".";
      ContainsPiece(a + ". " + b + ". " + c + ". ", n, ".");
    }
    assert card.summary == a + tail;
    ContainsHead(rule.domain + ": ", gd.interpretation, tail);
  }

  /** The trait name keeps the domain's length, is lower case and has `_` where the domain has a space. */
  lemma TraitNameShape(domain: string)
    ensures |TraitName(domain)| == |domain|
    ensures IsLower(TraitName(domain))
    ensures forall i :: 0 <= i < |domain| ==> TraitName(domain)[i] != ' '
    ensures forall i :: 0 <= i < |domain| && domain[i] == ' ' ==> TraitName(domain)[i] == '_'
  {
    var t := TraitName(domain);
    LowerIsLower(domain);
    forall i | 0 <= i < |domain| ensures LowerChar(t[i]) == t[i] {
    }
  }

  /**
   * The lookup the table calls for reaches the table: "rs762551" with
   * genotype "CC" is a slow caffeine metaboliser there, while the code as
   * written answers with the generic card.
   */
  lemma CaseBugWitness(traitPercentile: (real, string) -> real)
    ensures InterpretSnp(SnpInput("rs762551", "CC"), traitPercentile).domain == "Genetic Variant"
    ensures InterpretSnpCorrected(SnpInput("rs762551", "CC"), traitPercentile).domain == "Caffeine Metabolism"
    ensures InterpretSnpCorrected(SnpInput("rs762551", "CC"), traitPercentile).score == 0.2
  {
    InterpretSnpIsGeneric(SnpInput("rs762551", "CC"), traitPercentile);
    CorrectedCaffeineCard(traitPercentile);
    RuleCardChoice(SnpRules[0], "CC", traitPercentile);
  }

  /** The corrected lookup of rs762551/CC reaches the first rule and its "CC" entry. */
  lemma CorrectedCaffeineCard(traitPercentile: (real, string) -> real)
    ensures InterpretSnpCorrected(SnpInput("rs762551", "CC"), traitPercentile) == RuleCard(SnpRules[0], "CC", traitPercentile)
    ensures FindGenotype(SnpRules[0].genotypes, "CC") == Some(SnpRules[0].genotypes[2])
    ensures SnpRules[0].domain == "Caffeine Metabolism" && SnpRules[0].genotypes[2].score == 0.2
  {
    assert IsLower("rs762551");
    LowerOfLower("rs762551");
    assert IsUpper("CC");
    UpperOfUpper("CC");
    assert FindRule(SnpRules, "rs762551") == Some(SnpRules[0]);
    assert FindGenotype(SnpRules[0].genotypes, "CC") == Some(SnpRules[0].genotypes[2]);
  }

  /** With the corrected lookup, every table SNP gets its rule's card whatever the case of its rsID. */
  lemma CorrectedUsesRule(snp: SnpInput, q: nat, traitPercentile: (real, string) -> real)
    requires q < |SnpRules| && Lower(snp.rsid) == SnpRules[q].rsid
    ensures var card := InterpretSnpCorrected(snp, traitPercentile);
      card.domain == SnpRules[q].domain && card.percentile.Some?
      && exists k :: 0 <= k < |SnpRules[q].genotypes| && card.score == SnpRules[q].genotypes[k].score
  {
    RulesTable();
    RulesKeysDistinct();
    FindRuleUnique(SnpRules, q);
    var rule := SnpRules[q];
    var g := Upper(snp.genotype);
    assert InterpretSnpCorrected(snp, traitPercentile) == RuleCard(rule, g, traitPercentile);
    RuleCardChoice(rule, g, traitPercentile);
    var found := FindGenotype(rule.genotypes, g);
    if found.Some? {
      var k :| 0 <= k < |rule.genotypes| && rule.genotypes[k] == found.value;
    } else {
      assert 0 < |rule.genotypes|;
    }
  }

  /** No two rules of the table share an rsID. */
  lemma RulesKeysDistinct()
    ensures forall p, q :: 0 <= p < q < |SnpRules| ==> SnpRules[p].rsid != SnpRules[q].rsid
  {
  }

  /** In a list whose keys are distinct, `lookup` of a rule's key finds that rule. */
  lemma FindRuleUnique(rules: seq<SnpRule>, q: nat)
    requires q < |rules|
    requires forall p, p' :: 0 <= p < p' < |rules| ==> rules[p].rsid != rules[p'].rsid
    ensures FindRule(rules, rules[q].rsid) == Some(rules[q])
  {
    var f := FindRule(rules, rules[q].rsid);
    assert f.Some?;
    var p :| 0 <= p < |rules| && rules[p] == f.value;
    assert !(p < q) && !(q < p);
  }

  // ---------------------------------------------------------------------
  // Grouping cards by domain
  // ---------------------------------------------------------------------

  function DomainList(cards: seq<Card>): (r: seq<string>)
    ensures |r| == |cards| && forall i :: 0 <= i < |cards| ==> r[i] == cards[i].domain
  {
    seq(|cards|, i requires 0 <= i < |cards| => cards[i].domain)
  }

  /**
   * The keys of a dict filled in the order of `xs`: each item once, at its
   * first appearance.
   */
  function Dedup(xs: seq<string>): (r: seq<string>)
    ensures forall x :: x in r <==> x in xs
    decreases |xs|
  {
    if xs == [] then []
    else
      var pre := xs[..|xs| - 1];
      assert xs == pre + [xs[|xs| - 1]];
      var d := Dedup(pre);
      if xs[|xs| - 1] in d then d else d + [xs[|xs| - 1]]
  }

  /** The first occurrence of `x` in `xs` is its first occurrence in any prefix that holds it. */
  lemma IndexOfPrefix(xs: seq<string>, x: string, n: nat)
    requires n <= |xs| && x in xs[..n]
    ensures IndexOf(xs, x) == IndexOf(xs[..n], x)
  {
    var i, j := IndexOf(xs, x), IndexOf(xs[..n], x);
    assert forall m :: 0 <= m < n ==> xs[..n][m] == xs[m];
    assert forall m :: 0 <= m < j ==> xs[..n][..j][m] == xs[m];
    assert forall m :: 0 <= m < i ==> xs[..i][m] == xs[m];
  }

  /**
   * `Dedup(xs)` holds each item once, ordered by first appearance in `xs`.
   */
  lemma {:induction false} DedupSpec(xs: seq<string>)
    ensures Distinct(Dedup(xs))
    ensures forall p, q :: 0 <= p < q < |Dedup(xs)| ==> IndexOf(xs, Dedup(xs)[p]) < IndexOf(xs, Dedup(xs)[q])
    decreases |xs|
  {
    if xs != [] {
      var n := |xs|;
      var pre := xs[..n - 1];
      var last := xs[n - 1];
      assert xs == pre + [last];
      DedupSpec(pre);
      var d := Dedup(pre);
      var D := Dedup(xs);
      forall p, q | 0 <= p < q < |D| ensures IndexOf(xs, D[p]) < IndexOf(xs, D[q]) {
        assert D[p] == d[p];
        IndexOfPrefix(xs, D[p], n - 1);
        if q < |d| {
          IndexOfPrefix(xs, D[q], n - 1);
        } else {
          assert D[q] == last && last !in pre;
          assert forall m :: 0 <= m < n - 1 ==> xs[m] == pre[m];
        }
      }
    }
  }

  /** The scores of the cards in `domain`, in card order (one value list of the dict). */
  function ScoresIn(cards: seq<Card>, domain: string): seq<real>
    decreases |cards|
  {
    if cards == [] then []
    else
      var last := cards[|cards| - 1];
      ScoresIn(cards[..|cards| - 1], domain) + (if last.domain == domain then [last.score] else [])
  }

  /**
   * A domain has scores exactly when some card is in it, and its scores lie
   * within any bounds of all the scores.
   */
  lemma ScoresInSpec(cards: seq<Card>, domain: string, lo: real, hi: real)
    ensures |ScoresIn(cards, domain)| > 0 <==> domain in DomainList(cards)
    ensures (forall i :: 0 <= i < |cards| ==> lo <= cards[i].score <= hi) ==>
      forall k :: 0 <= k < |ScoresIn(cards, domain)| ==> lo <= ScoresIn(cards, domain)[k] <= hi
  {
    ScoresInPresent(cards, domain);
    if forall i :: 0 <= i < |cards| ==> lo <= cards[i].score <= hi {
      ScoresInBounded(cards, domain, lo, hi);
    }
  }

  lemma {:induction false} ScoresInPresent(cards: seq<Card>, domain: string)
    ensures |ScoresIn(cards, domain)| > 0 <==> domain in DomainList(cards)
    decreases |cards|
  {
    if cards != [] {
      var n := |cards|;
      var pre := cards[..n - 1];
      ScoresInPresent(pre, domain);
      assert DomainList(cards) == DomainList(pre) + [cards[n - 1].domain];
    }
  }

  lemma {:induction false} ScoresInBounded(cards: seq<Card>, domain: string, lo: real, hi: real)
    requires forall i :: 0 <= i < |cards| ==> lo <= cards[i].score <= hi
    ensures forall k :: 0 <= k < |ScoresIn(cards, domain)| ==> lo <= ScoresIn(cards, domain)[k] <= hi
    decreases |cards|
  {
    if cards != [] {
      var n := |cards|;
      var pre := cards[..n - 1];
      assert forall i :: 0 <= i < n - 1 ==> pre[i] == cards[i];
      ScoresInBounded(pre, domain, lo, hi);
      var all, before := ScoresIn(cards, domain), ScoresIn(pre, domain);
      assert all == before + (if cards[n - 1].domain == domain then [cards[n - 1].score] else []);
      forall k | 0 <= k < |all| ensures lo <= all[k] <= hi {
        if k < |before| {
          assert all[k] == before[k];
        }
      }
    }
  }

  /**
   * One more card: the keys gain its domain if new, only that domain's list
   * grows, and a new key starts from an empty list.
   */
  lemma GroupStep(cards: seq<Card>, i: nat)
    requires i < |cards|
    ensures var xs := DomainList(cards); var d := cards[i].domain;
      Dedup(xs[..i + 1]) == (if d in Dedup(xs[..i]) then Dedup(xs[..i]) else Dedup(xs[..i]) + [d])
      && Distinct(Dedup(xs[..i + 1]))
      && (d !in Dedup(xs[..i]) ==> ScoresIn(cards[..i], d) == [])
      && forall k :: ScoresIn(cards[..i + 1], k)
           == ScoresIn(cards[..i], k) + (if d == k then [cards[i].score] else [])
  {
    var xs := DomainList(cards);
    assert xs[..i + 1][..i] == xs[..i];
    assert cards[..i + 1][..i] == cards[..i];
    assert xs[..i] == DomainList(cards[..i]);
    DedupSpec(xs[..i + 1]);
    ScoresInSpec(cards[..i], cards[i].domain, 0.0, 0.0);
  }

  /** The mean score of a domain's cards. */
  function DomainMean(cards: seq<Card>, domain: string): real
    requires domain in DomainList(cards)
  {
    ScoresInSpec(cards, domain, 0.0, 0.0);
    Mean(ScoresIn(cards, domain))
  }

  // ---------------------------------------------------------------------
  // Peer comparisons
  // ---------------------------------------------------------------------

  /** A comparison: the value and its clamped percentile, both rounded to two places. */
  function Compare(metric: string, avg: real, caption: string): PeerComparison {
    PeerComparison(metric, Round2(avg), Round2(ComputePeerPercentile(avg)), caption)
  }

  function Overall(cards: seq<Card>): PeerComparison
    requires |cards| > 0
  {
    Compare("Overall Genetic Score", Mean(Scores(cards)), "Average across all analyzed traits")
  }

  function DomainComparison(cards: seq<Card>, domain: string): PeerComparison
    requires domain in DomainList(cards)
  {
    Compare(domain, DomainMean(cards, domain), "Average score in " + domain)
  }

  /** What `generate_peer_comparisons` returns. */
  function PeerComparisons(cards: seq<Card>): seq<PeerComparison> {
    if cards == [] then []
    else
      var ds := Dedup(DomainList(cards));
      [Overall(cards)] + seq(|ds|, q requires 0 <= q < |ds| => DomainComparison(cards, ds[q]))
  }

  /**
   * The `domain_scores` dict of `generate_peer_comparisons`, filled card by
   * card: its keys in insertion order and the value list of each key.
   */
  method GroupScores(cards: seq<Card>) returns (keys: seq<string>, scores: seq<seq<real>>)
    ensures keys == Dedup(DomainList(cards)) && |scores| == |keys|
    ensures forall q :: 0 <= q < |keys| ==> scores[q] == ScoresIn(cards, keys[q])
  {
    ghost var xs := DomainList(cards);
    keys, scores := [], [];
    for i := 0 to |cards|
      invariant keys == Dedup(xs[..i]) && |scores| == |keys|
      invariant forall q :: 0 <= q < |keys| ==> scores[q] == ScoresIn(cards[..i], keys[q])
    {
      var d := cards[i].domain;
      KeysStep(cards, i);
      if d !in keys {
        keys := keys + [d];
        scores := scores + [[]];
      }
      GroupScoresStep(cards, i, keys, scores);
      var q := IndexOf(keys, d);
      scores := scores[q := scores[q] + [cards[i].score]];
    }
    assert cards[..|cards|] == cards && xs[..|cards|] == xs;
  }

  /** Appending a card's score to its key's list extends every list to one more card. */
  lemma GroupScoresStep(cards: seq<Card>, i: nat, keys: seq<string>, scores: seq<seq<real>>)
    requires i < |cards| && |scores| == |keys|
    requires keys == Dedup(DomainList(cards)[..i + 1])
    requires forall p :: 0 <= p < |keys| ==> scores[p] == ScoresIn(cards[..i], keys[p])
    ensures cards[i].domain in keys
    ensures var q := IndexOf(keys, cards[i].domain);
      forall p :: 0 <= p < |keys| ==> scores[q := scores[q] + [cards[i].score]][p] == ScoresIn(cards[..i + 1], keys[p])
  {
    KeysStep(cards, i);
    var d := cards[i].domain;
    var q := IndexOf(keys, d);
    forall p | 0 <= p < |keys| ensures scores[q := scores[q] + [cards[i].score]][p] == ScoresIn(cards[..i + 1], keys[p]) {
      ScoresInStep(cards, i, keys[p]);
      if p != q { assert keys[p] != d; }
    }
  }

  /** One more card appends its score to the list of its own domain and to no other. */
  lemma ScoresInStep(cards: seq<Card>, i: nat, k: string)
    requires i < |cards|
    ensures ScoresIn(cards[..i + 1], k) == ScoresIn(cards[..i], k) + (if cards[i].domain == k then [cards[i].score] else [])
  {
    assert cards[..i + 1][..i] == cards[..i];
  }

  /**
   * `generate_peer_comparisons`: the overall entry, then one entry per key
   * of the `domain_scores` dict.
   */
  method GeneratePeerComparisons(cards: seq<Card>) returns (comparisons: seq<PeerComparison>)
    ensures comparisons == PeerComparisons(cards)
  {
    if cards == [] {
      return [];
    }
    comparisons := [Overall(cards)];
    var keys, scores := GroupScores(cards);
    for q := 0 to |keys|
      invariant |comparisons| == q + 1 && comparisons[0] == Overall(cards)
      invariant forall p :: 0 <= p < q ==> keys[p] in DomainList(cards) && comparisons[p + 1] == DomainComparison(cards, keys[p])
    {
      DomainComparisonOf(cards, keys[q], scores[q]);
      var entry := Compare(keys[q], Mean(scores[q]), "Average score in " + keys[q]);
      PeerStep(cards, keys, comparisons, q, entry);
      comparisons := comparisons + [entry];
    }
    PeerComparisonsFrom(cards, comparisons);
  }

  /** The loop invariant of `generate_peer_comparisons` survives one more key. */
  lemma PeerStep(cards: seq<Card>, keys: seq<string>, comparisons: seq<PeerComparison>, q: nat, entry: PeerComparison)
    requires q < |keys| && keys[q] in DomainList(cards) && entry == DomainComparison(cards, keys[q])
    requires |comparisons| == q + 1
    requires forall p :: 0 <= p < q ==> keys[p] in DomainList(cards) && comparisons[p + 1] == DomainComparison(cards, keys[p])
    ensures forall p :: 0 <= p < q + 1 ==> keys[p] in DomainList(cards) && (comparisons + [entry])[p + 1] == DomainComparison(cards, keys[p])
  {
  }

  /** One iteration of `generate_peer_comparisons`: a key's entry from its value list. */
  lemma DomainComparisonOf(cards: seq<Card>, key: string, s: seq<real>)
    requires key in Dedup(DomainList(cards)) && s == ScoresIn(cards, key)
    ensures key in DomainList(cards)
    ensures |s| > 0 && Compare(key, Mean(s), "Average score in " + key) == DomainComparison(cards, key)
  {
    DedupSpec(DomainList(cards));
    ScoresInSpec(cards, key, 0.0, 0.0);
  }

  /** The entries the loop of `generate_peer_comparisons` collects are `PeerComparisons`. */
  lemma PeerComparisonsFrom(cards: seq<Card>, comparisons: seq<PeerComparison>)
    requires cards != []
    requires var ds := Dedup(DomainList(cards));
      |comparisons| == |ds| + 1 && comparisons[0] == Overall(cards)
      && forall p :: 0 <= p < |ds| ==> ds[p] in DomainList(cards) && comparisons[p + 1] == DomainComparison(cards, ds[p])
    ensures comparisons == PeerComparisons(cards)
  {
    var spec := PeerComparisons(cards);
    PeerComparisonsAt(cards, 0);
    forall p | 0 <= p < |spec| ensures comparisons[p] == spec[p] {
      PeerComparisonsAt(cards, p);
    }
  }

  /** Entry `p` of `PeerComparisons`: the overall one first, then the domains in key order. */
  lemma PeerComparisonsAt(cards: seq<Card>, p: nat)
    requires cards != []
    ensures var ds := Dedup(DomainList(cards));
      |PeerComparisons(cards)| == |ds| + 1 && PeerComparisons(cards)[0] == Overall(cards)
      && (0 < p <= |ds| ==>
            ds[p - 1] in DomainList(cards) && PeerComparisons(cards)[p] == DomainComparison(cards, ds[p - 1]))
  {
    DedupSpec(DomainList(cards));
  }

  /**
   * An empty input gives no comparison; otherwise "Overall Genetic Score"
   * comes first, then one entry per distinct domain, each once, in order of
   * first appearance.
   */
  lemma PeerComparisonsShape(cards: seq<Card>)
    ensures |PeerComparisons(cards)| == (if cards == [] then 0 else 1 + |Dedup(DomainList(cards))|)
    ensures cards != [] ==>
      PeerComparisons(cards)[0].metric == "Overall Genetic Score"
      && PeerComparisons(cards)[0].caption == "Average across all analyzed traits"
    ensures var ds := Dedup(DomainList(cards));
      cards != [] ==> forall p :: 0 <= p < |ds| ==>
        PeerComparisons(cards)[p + 1].metric == ds[p]
        && PeerComparisons(cards)[p + 1].caption == "Average score in " + ds[p]
    ensures forall d :: d in Dedup(DomainList(cards)) <==> exists i :: 0 <= i < |cards| && cards[i].domain == d
    ensures Distinct(Dedup(DomainList(cards)))
  {
    DedupSpec(DomainList(cards));
    forall d | d in Dedup(DomainList(cards)) ensures exists i :: 0 <= i < |cards| && cards[i].domain == d {
      var i :| 0 <= i < |cards| && DomainList(cards)[i] == d;
    }
  }

  /** Every percentile lies in [0, 1]. */
  lemma PeerPercentiles(cards: seq<Card>)
    ensures forall q :: 0 <= q < |PeerComparisons(cards)| ==> 0.0 <= PeerComparisons(cards)[q].percentile <= 1.0
  {
    var pc := PeerComparisons(cards);
    forall q | 0 <= q < |pc| ensures 0.0 <= pc[q].percentile <= 1.0 {
      PeerComparisonsAt(cards, q);
      var ds := Dedup(DomainList(cards));
      if q == 0 {
        CompareUnit("Overall Genetic Score", Mean(Scores(cards)), "Average across all analyzed traits");
      } else {
        CompareUnit(ds[q - 1], DomainMean(cards, ds[q - 1]), "Average score in " + ds[q - 1]);
      }
    }
  }

  lemma CompareUnit(metric: string, avg: real, caption: string)
    ensures 0.0 <= Compare(metric, avg, caption).percentile <= 1.0
  {
    RoundUnit(ComputePeerPercentile(avg));
  }

  /**
   * Each value is the rounded mean of the scores it averages (all cards, or
   * the cards of one domain), and that mean lies within any bounds of the
   * scores.
   */
  lemma PeerValues(cards: seq<Card>, lo: real, hi: real)
    requires cards != []
    requires forall i :: 0 <= i < |cards| ==> lo <= cards[i].score <= hi
    ensures lo <= Mean(Scores(cards)) <= hi && PeerComparisons(cards)[0].value == Round2(Mean(Scores(cards)))
    ensures var ds := Dedup(DomainList(cards));
      forall p :: 0 <= p < |ds| ==>
        lo <= DomainMean(cards, ds[p]) <= hi
        && PeerComparisons(cards)[p + 1].value == Round2(DomainMean(cards, ds[p]))
  {
    MeanBounds(Scores(cards), lo, hi);
    var ds := Dedup(DomainList(cards));
    forall p | 0 <= p < |ds| ensures lo <= DomainMean(cards, ds[p]) <= hi {
      ScoresInSpec(cards, ds[p], lo, hi);
      MeanBounds(ScoresIn(cards, ds[p]), lo, hi);
    }
  }

  // ---------------------------------------------------------------------
  // Genetic bio card
  // ---------------------------------------------------------------------

  /** The number of cards in `domain` (its `domain_counts` entry). */
  function CountIn(cards: seq<Card>, domain: string): nat {
    |ScoresIn(cards, domain)|
  }

  /** `len(set(card.domain for card in cards))`. */
  function NumDomains(cards: seq<Card>): nat {
    |set d | d in DomainList(cards)|
  }

  /** The count of each dict key, in key order, as sort keys. */
  function DomainCounts(cards: seq<Card>): (r: seq<real>)
    ensures |r| == |Dedup(DomainList(cards))|
  {
    var ds := Dedup(DomainList(cards));
    seq(|ds|, q requires 0 <= q < |ds| => CountIn(cards, ds[q]) as real)
  }

  /** The five domains with most cards, ties in dict order. */
  function Badges(cards: seq<Card>): seq<string> {
    var ds := Dedup(DomainList(cards));
    var top := TopK(Range(|ds|), DomainCounts(cards), 5);
    seq(|top|, k requires 0 <= k < |top| => ds[top[k]])
  }

  /** How far each score lies from the neutral 0.5. */
  function Deviations(cards: seq<Card>): (r: seq<real>)
    ensures |r| == |cards| && forall i :: 0 <= i < |cards| ==> r[i] == Abs(cards[i].score - 0.5)
  {
    seq(|cards|, i requires 0 <= i < |cards| => Abs(cards[i].score - 0.5))
  }

  /** The indices of the three cards furthest from 0.5, ties in card order. */
  function TopCards(cards: seq<Card>): seq<nat> {
    TopK(Range(|cards|), Deviations(cards), 3)
  }

  /** The highlight one top card contributes, if any. */
  function SignalLine(card: Card): seq<string> {
    if card.score > 0.7 then ["Strong positive signal in " + card.domain]
    else if card.score < 0.3 then ["Notable variant in " + card.domain]
    else []
  }

  function SignalLines(cards: seq<Card>, idx: seq<nat>): seq<string>
    requires forall k :: 0 <= k < |idx| ==> idx[k] < |cards|
    decreases |idx|
  {
    if idx == [] then []
    else SignalLines(cards, idx[..|idx| - 1]) + SignalLine(cards[idx[|idx| - 1]])
  }

  /** The lifestyle highlights: exercise first, then caffeine, each only when set and non-empty. */
  function LifestyleLines(lifestyle: Option<LifestyleInput>): seq<string> {
    if lifestyle.None? then []
    else
      var l := lifestyle.value;
      (if Truthy(l.exerciseFrequency) then ["Exercise frequency: " + l.exerciseFrequency.value] else [])
      + (if Truthy(l.caffeineIntake) then ["Caffeine intake: " + l.caffeineIntake.value] else [])
  }

  function OverallLine(avg: real): string {
    if avg > 0.6 then "Overall favorable genetic profile"
    else if avg < 0.4 then "Some genetic variants may require attention"
    else "Balanced genetic profile"
  }

  function Plural(n: nat): string {
    if n != 1 then "s" else ""
  }

  function Subtitle(variants: nat, domains: nat): string {
    "Analysis of " + NatToString(variants) + " genetic variant" + Plural(variants)
    + " across " + NatToString(domains) + " domain" + Plural(domains)
  }

  const EmptyBioCard := GeneticBioCard("Genetic Profile", "No genetic variants analyzed", [],
    ["Upload SNP data to generate your genetic profile"])

  /** What `generate_genetic_bio_card` returns. */
  function BioCard(cards: seq<Card>, lifestyle: Option<LifestyleInput>): GeneticBioCard {
    if cards == [] then EmptyBioCard
    else
      GeneticBioCard("Personal Genetic Profile", Subtitle(|cards|, NumDomains(cards)), Badges(cards),
        [OverallLine(Mean(Scores(cards)))] + SignalLines(cards, TopCards(cards)) + LifestyleLines(lifestyle))
  }

  /** The `domain_counts` dict, filled card by card with `get(domain, 0) + 1`. */
  method CountDomains(cards: seq<Card>) returns (keys: seq<string>, counts: seq<nat>)
    ensures keys == Dedup(DomainList(cards)) && |counts| == |keys|
    ensures forall q :: 0 <= q < |keys| ==> counts[q] == CountIn(cards, keys[q])
  {
    ghost var xs := DomainList(cards);
    keys, counts := [], [];
    for i := 0 to |cards|
      invariant keys == Dedup(xs[..i]) && |counts| == |keys|
      invariant forall q :: 0 <= q < |keys| ==> counts[q] == CountIn(cards[..i], keys[q])
    {
      var d := cards[i].domain;
      KeysStep(cards, i);
      if d !in keys {
        keys := keys + [d];
        counts := counts + [0];
      }
      CountDomainsStep(cards, i, keys, counts);
      var q := IndexOf(keys, d);
      counts := counts[q := counts[q] + 1];
    }
    assert cards[..|cards|] == cards && xs[..|cards|] == xs;
  }

  /** The keys after one more card, and the count of a key not seen before. */
  lemma KeysStep(cards: seq<Card>, i: nat)
    requires i < |cards|
    ensures var xs := DomainList(cards); var d := cards[i].domain;
      Dedup(xs[..i + 1]) == (if d in Dedup(xs[..i]) then Dedup(xs[..i]) else Dedup(xs[..i]) + [d])
      && (d !in Dedup(xs[..i]) ==> CountIn(cards[..i], d) == 0)
      && d in Dedup(xs[..i + 1]) && Distinct(Dedup(xs[..i + 1]))
  {
    GroupStep(cards, i);
  }

  /** One more card adds one to the count of its own domain and nothing to the others. */
  lemma CountInStep(cards: seq<Card>, i: nat, k: string)
    requires i < |cards|
    ensures CountIn(cards[..i + 1], k) == CountIn(cards[..i], k) + (if cards[i].domain == k then 1 else 0)
  {
    ScoresInStep(cards, i, k);
  }

  /** Incrementing a card's key extends every count to one more card. */
  lemma CountDomainsStep(cards: seq<Card>, i: nat, keys: seq<string>, counts: seq<nat>)
    requires i < |cards| && |counts| == |keys|
    requires keys == Dedup(DomainList(cards)[..i + 1])
    requires forall p :: 0 <= p < |keys| ==> counts[p] == CountIn(cards[..i], keys[p])
    ensures cards[i].domain in keys
    ensures var q := IndexOf(keys, cards[i].domain);
      forall p :: 0 <= p < |keys| ==> counts[q := counts[q] + 1][p] == CountIn(cards[..i + 1], keys[p])
  {
    KeysStep(cards, i);
    var d := cards[i].domain;
    var q := IndexOf(keys, d);
    forall p | 0 <= p < |keys| ensures counts[q := counts[q] + 1][p] == CountIn(cards[..i + 1], keys[p]) {
      CountInStep(cards, i, keys[p]);
      if p != q { assert keys[p] != d; }
    }
  }

  /** `generate_genetic_bio_card`. */
  method GenerateGeneticBioCard(cards: seq<Card>, lifestyle: Option<LifestyleInput>) returns (card: GeneticBioCard)
    ensures card == BioCard(cards, lifestyle)
  {
    if cards == [] {
      return EmptyBioCard;
    }
    var avg := Mean(Scores(cards));
    var numDomains := |set d | d in DomainList(cards)|;
    var subtitle := Subtitle(|cards|, numDomains);

    var badges := TopDomains(cards);
    var highlights := TopHighlights(cards, TopK(Range(|cards|), Deviations(cards), 3));
    ghost var signal := highlights;
    highlights := AppendLifestyle(highlights, lifestyle);
    ghost var rest := highlights;

    // `highlights.insert(0, ...)` with the line the average selects
    var overall := SelectOverall(avg);
    highlights := [overall] + highlights;
    card := GeneticBioCard("Personal Genetic Profile", subtitle, badges, highlights);
    BioCardFrom(cards, lifestyle, card, signal);
  }

  /** The card `generate_genetic_bio_card` assembles from its parts is `BioCard`. */
  lemma BioCardFrom(cards: seq<Card>, lifestyle: Option<LifestyleInput>, card: GeneticBioCard, signal: seq<string>)
    requires cards != [] && signal == SignalLines(cards, TopCards(cards))
    requires card.title == "Personal Genetic Profile" && card.subtitle == Subtitle(|cards|, NumDomains(cards))
    requires card.badges == Badges(cards)
    requires card.highlights == [OverallLine(Mean(Scores(cards)))] + (signal + LifestyleLines(lifestyle))
    ensures card == BioCard(cards, lifestyle)
  {
    AppendAssoc([OverallLine(Mean(Scores(cards)))], signal, LifestyleLines(lifestyle));
  }

  /** The overall line `generate_genetic_bio_card` puts first. */
  method SelectOverall(avg: real) returns (overall: string)
    ensures overall == OverallLine(avg)
    ensures avg > 0.6 <==> overall == "Overall favorable genetic profile"
  {
    if avg > 0.6 {
      overall := "Overall favorable genetic profile";
    } else if avg < 0.4 {
      overall := "Some genetic variants may require attention";
    } else {
      overall := "Balanced genetic profile";
    }
  }

  /** The badges: `domain_counts` sorted by count, descending, first five keys. */
  method TopDomains(cards: seq<Card>) returns (badges: seq<string>)
    ensures badges == Badges(cards)
  {
    var keys, counts := CountDomains(cards);
    var countKey := seq(|counts|, q requires 0 <= q < |counts| => counts[q] as real);
    assert countKey == DomainCounts(cards);
    var top := TopK(Range(|keys|), countKey, 5);
    badges := seq(|top|, k requires 0 <= k < |top| => keys[top[k]]);
  }

  /** The lifestyle step of `generate_genetic_bio_card`. */
  method AppendLifestyle(highlights: seq<string>, lifestyle: Option<LifestyleInput>) returns (r: seq<string>)
    ensures r == highlights + LifestyleLines(lifestyle)
  {
    r := highlights;
    if lifestyle.Some? {
      if Truthy(lifestyle.value.exerciseFrequency) {
        r := r + ["Exercise frequency: " + lifestyle.value.exerciseFrequency.value];
      }
      if Truthy(lifestyle.value.caffeineIntake) {
        r := r + ["Caffeine intake: " + lifestyle.value.caffeineIntake.value];
      }
    }
  }

  /** The loop of `generate_genetic_bio_card` over `top_cards`. */
  method TopHighlights(cards: seq<Card>, topCards: seq<nat>) returns (highlights: seq<string>)
    requires forall k :: 0 <= k < |topCards| ==> topCards[k] < |cards|
    ensures highlights == SignalLines(cards, topCards)
  {
    highlights := [];
    for j := 0 to |topCards|
      invariant highlights == SignalLines(cards, topCards[..j])
    {
      assert topCards[..j + 1][..j] == topCards[..j];
      var c := cards[topCards[j]];
      if c.score > 0.7 {
        highlights := highlights + ["Strong positive signal in " + c.domain];
      } else if c.score < 0.3 {
        highlights := highlights + ["Notable variant in " + c.domain];
      }
    }
    assert topCards[..|topCards|] == topCards;
  }

  /** A sequence of distinct items has as many items as its set. */
  lemma {:induction false} DistinctCard(xs: seq<string>)
    requires Distinct(xs)
    ensures |set x | x in xs| == |xs|
    decreases |xs|
  {
    if xs != [] {
      var pre := xs[..|xs| - 1];
      var last := xs[|xs| - 1];
      assert xs == pre + [last];
      DistinctCard(pre);
      assert (set x | x in xs) == (set x | x in pre) + {last};
      assert last !in (set x | x in pre);
    }
  }

  /** `num_domains` is the number of dict keys. */
  lemma NumDomainsIsKeys(cards: seq<Card>)
    ensures NumDomains(cards) == |Dedup(DomainList(cards))|
  {
    var xs := DomainList(cards);
    DedupSpec(xs);
    DistinctCard(Dedup(xs));
    assert (set d | d in xs) == (set d | d in Dedup(xs));
  }

  /** There are min(5, number of domains) badges, at least one when there is a card. */
  lemma BadgesCount(cards: seq<Card>)
    ensures var n := NumDomains(cards);
      |Badges(cards)| == (if n < 5 then n else 5) && (cards != [] ==> |Badges(cards)| >= 1)
  {
    NumDomainsIsKeys(cards);
    if cards != [] {
      var xs := DomainList(cards);
      assert xs[0] in xs;
    }
  }

  /** The badges are distinct domains of the cards. */
  lemma BadgesDistinct(cards: seq<Card>)
    ensures Distinct(Badges(cards)) && forall k :: 0 <= k < |Badges(cards)| ==> Badges(cards)[k] in DomainList(cards)
  {
    var xs := DomainList(cards);
    var ds := Dedup(xs);
    var key := DomainCounts(cards);
    var top := TopK(Range(|ds|), key, 5);
    var b := Badges(cards);
    TopKOrdered(Range(|ds|), key, 5);
    StableDistinct(top, key);
    DedupSpec(xs);
    PickDistinct(ds, top, b);
  }

  /** Distinct positions of a list without repeats pick distinct items. */
  lemma PickDistinct(ds: seq<string>, top: seq<nat>, b: seq<string>)
    requires Distinct(ds) && |b| == |top|
    requires forall k :: 0 <= k < |top| ==> top[k] < |ds| && b[k] == ds[top[k]]
    requires forall i, j :: 0 <= i < j < |top| ==> top[i] != top[j]
    ensures Distinct(b) && forall k :: 0 <= k < |b| ==> b[k] in ds
  {
    forall i, j | 0 <= i < j < |b| ensures b[i] != b[j] {
      assert top[i] != top[j];
      if top[i] < top[j] { assert ds[top[i]] != ds[top[j]]; } else { assert ds[top[j]] != ds[top[i]]; }
    }
  }

  /**
   * The badges are ordered by card count, descending, equal counts in order
   * of first appearance.
   */
  lemma BadgesRanked(cards: seq<Card>)
    ensures var b := Badges(cards);
      (forall k, l :: 0 <= k < l < |b| ==> CountIn(cards, b[k]) >= CountIn(cards, b[l]))
      && forall k, l :: 0 <= k < l < |b| && CountIn(cards, b[k]) == CountIn(cards, b[l]) ==>
           IndexOf(DomainList(cards), b[k]) < IndexOf(DomainList(cards), b[l])
  {
    var xs := DomainList(cards);
    var ds := Dedup(xs);
    var key := DomainCounts(cards);
    var top := TopK(Range(|ds|), key, 5);
    var b := Badges(cards);
    TopKOrdered(Range(|ds|), key, 5);
    DedupSpec(xs);
    assert forall k :: 0 <= k < |b| ==> b[k] == ds[top[k]] && key[top[k]] == CountIn(cards, b[k]) as real;
  }

  /** A domain that is not a badge has no more cards than any badge. */
  lemma BadgesComplete(cards: seq<Card>, d: string)
    requires d in DomainList(cards) && d !in Badges(cards)
    ensures forall k :: 0 <= k < |Badges(cards)| ==> CountIn(cards, d) <= CountIn(cards, Badges(cards)[k])
  {
    var ds := Dedup(DomainList(cards));
    var key := DomainCounts(cards);
    var top := TopK(Range(|ds|), key, 5);
    var b := Badges(cards);
    var q := IndexOf(ds, d);
    assert Range(|ds|)[q] == q;
    assert q !in top by {
      assert forall k :: 0 <= k < |top| ==> b[k] == ds[top[k]];
    }
    forall k | 0 <= k < |b| ensures CountIn(cards, d) <= CountIn(cards, b[k]) {
      TopKComplete(Range(|ds|), key, 5, q, k);
    }
  }

  /**
   * The top cards are min(3, |cards|) distinct cards, by distance of the
   * score from 0.5, descending, equal distances in card order; a card left
   * out is no further from 0.5 than any chosen one.
   */
  lemma TopCardsSpec(cards: seq<Card>)
    ensures var t := TopCards(cards);
      |t| == (if |cards| < 3 then |cards| else 3)
      && (forall k :: 0 <= k < |t| ==> t[k] < |cards|)
      && (forall k, l :: 0 <= k < l < |t| ==> t[k] != t[l])
      && (forall k, l :: 0 <= k < l < |t| ==> Abs(cards[t[k]].score - 0.5) >= Abs(cards[t[l]].score - 0.5))
      && (forall k, l :: 0 <= k < l < |t| && Abs(cards[t[k]].score - 0.5) == Abs(cards[t[l]].score - 0.5) ==> t[k] < t[l])
      && forall i, k :: 0 <= i < |cards| && i !in t && 0 <= k < |t| ==>
           Abs(cards[i].score - 0.5) <= Abs(cards[t[k]].score - 0.5)
  {
    var dev := Deviations(cards);
    var t := TopCards(cards);
    TopKOrdered(Range(|cards|), dev, 3);
    StableDistinct(t, dev);
    forall i, k | 0 <= i < |cards| && i !in t && 0 <= k < |t|
      ensures Abs(cards[i].score - 0.5) <= Abs(cards[t[k]].score - 0.5)
    {
      assert Range(|cards|)[i] == i;
      TopKComplete(Range(|cards|), dev, 3, i, k);
    }
  }

  /** Every signal line comes from one chosen card: at most one line per card. */
  lemma {:induction false} SignalLinesSound(cards: seq<Card>, idx: seq<nat>)
    requires forall k :: 0 <= k < |idx| ==> idx[k] < |cards|
    ensures |SignalLines(cards, idx)| <= |idx|
    ensures forall h :: h in SignalLines(cards, idx) ==>
      exists k :: 0 <= k < |idx| && SignalLine(cards[idx[k]]) == [h]
    decreases |idx|
  {
    if idx != [] {
      var n := |idx|;
      var pre := idx[..n - 1];
      SignalLinesSound(cards, pre);
      var r := SignalLines(cards, idx);
      forall h | h in r ensures exists k :: 0 <= k < n && SignalLine(cards[idx[k]]) == [h] {
        if h in SignalLines(cards, pre) {
          var k :| 0 <= k < n - 1 && SignalLine(cards[pre[k]]) == [h];
          assert idx[k] == pre[k];
        } else {
          assert SignalLine(cards[idx[n - 1]]) == [h];
        }
      }
    }
  }

  /**
   * Each chosen card above 0.7 gives a "Strong positive signal" line, each
   * below 0.3 a "Notable variant" line.
   */
  lemma {:induction false} SignalLinesComplete(cards: seq<Card>, idx: seq<nat>, k: nat)
    requires forall j :: 0 <= j < |idx| ==> idx[j] < |cards|
    requires k < |idx|
    ensures cards[idx[k]].score > 0.7 ==> "Strong positive signal in " + cards[idx[k]].domain in SignalLines(cards, idx)
    ensures cards[idx[k]].score < 0.3 ==> "Notable variant in " + cards[idx[k]].domain in SignalLines(cards, idx)
    decreases |idx|
  {
    var n := |idx|;
    var pre := idx[..n - 1];
    if k < n - 1 {
      assert pre[k] == idx[k];
      SignalLinesComplete(cards, pre, k);
    }
  }

  /** 1 for a truthy optional string, else 0. */
  function Count01(s: Option<string>): nat {
    if Truthy(s) then 1 else 0
  }

  /**
   * The first highlight is the overall line, chosen by the average score;
   * after it come at most three signal lines, then the lifestyle lines
   * (exercise before caffeine).
   */
  lemma HighlightsSpec(cards: seq<Card>, lifestyle: Option<LifestyleInput>)
    requires cards != []
    ensures var h := BioCard(cards, lifestyle).highlights; var avg := Mean(Scores(cards));
      var life := LifestyleLines(lifestyle);
      (h[0] == "Overall favorable genetic profile" <==> avg > 0.6)
      && (h[0] == "Some genetic variants may require attention" <==> avg < 0.4)
      && (h[0] == "Balanced genetic profile" <==> 0.4 <= avg <= 0.6)
      && 1 + |life| <= |h| <= 4 + |life| && h[|h| - |life|..] == life
      && |life| == (if lifestyle.None? then 0 else Count01(lifestyle.value.exerciseFrequency) + Count01(lifestyle.value.caffeineIntake))
  {
    var idx := TopCards(cards);
    TopCardsIn(cards);
    SignalLinesSound(cards, idx);
    var h := BioCard(cards, lifestyle).highlights;
    var life := LifestyleLines(lifestyle);
    var signal := SignalLines(cards, idx);
    assert h == [OverallLine(Mean(Scores(cards)))] + signal + life;
    assert h[|h| - |life|..] == life;
  }

  /** At most three top cards, each an index of a card. */
  lemma TopCardsIn(cards: seq<Card>)
    ensures |TopCards(cards)| <= 3 && forall k :: 0 <= k < |TopCards(cards)| ==> TopCards(cards)[k] < |cards|
  {
    TopCardsSpec(cards);
  }
}
