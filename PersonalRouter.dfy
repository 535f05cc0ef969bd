/**
 * The personal-genomics endpoint (backend/routers/personal.py): the stub
 * SNP interpreter that is actually served, its peer comparisons, its bio
 * card and the request handler.
 */
module PersonalRouter {
  import opened Wrappers
  import opened Text
  import opened Numerics
  import opened Schemas

  // ---------------------------------------------------------------------
  // Stub interpreter
  // ---------------------------------------------------------------------

  predicate IsCaffeineRsid(rsid: string) { rsid == "rs762551" || rsid == "rs123" }

  predicate IsLactoseRsid(rsid: string) { rsid == "rs4988235" }

  const SlowCaffeine := Card("Caffeine Metabolism",
    "You have a variant associated with slower caffeine metabolism. This means caffeine may stay in your system longer, potentially affecting sleep quality if consumed later in the day.",
    0.65, Some(0.35), [
      "Consider limiting caffeine intake after 2 PM",
      "Monitor how caffeine affects your sleep patterns",
      "You may be more sensitive to caffeine's effects"])

  const FastCaffeine := Card("Caffeine Metabolism",
    "You have a variant associated with faster caffeine metabolism. You may process caffeine more quickly than average.",
    0.85, Some(0.75), [
      "You may tolerate caffeine better than average",
      "Still monitor your individual response to caffeine"])

  const LactoseTolerant := Card("Lactose Tolerance",
    "You carry a variant associated with lactose tolerance into adulthood. You likely digest lactose well.",
    0.90, Some(0.80), [
      "You can likely consume dairy products without issues",
      "Maintain a balanced diet including dairy if desired"])

  const LactoseReduced := Card("Lactose Tolerance",
    "You may have reduced lactose tolerance. Consider monitoring your response to dairy products.",
    0.40, Some(0.30), [
      "Monitor your response to dairy products",
      "Consider lactose-free alternatives if you experience discomfort",
      "Fermented dairy (yogurt, kefir) may be better tolerated"])

  /** The placeholder card, quoting the rsID and genotype as given. */
  function ExampleCard(snp: SnpInput): Card {
    Card("Example Trait",
      "SNP " + snp.rsid + " with genotype " + snp.genotype
      + " detected. This is a placeholder interpretation for demonstration purposes.",
      0.50, Some(0.50), [
        "This is a stub recommendation",
        "Full interpretation will be available in production"])
  }

  /** `interpret_snp`: rsID lowercased, genotype uppercased, then a fixed decision. */
  function InterpretSnp(snp: SnpInput): Card {
    var rsid := Lower(snp.rsid);
    var genotype := Upper(snp.genotype);
    if IsCaffeineRsid(rsid) then
      if Contains(genotype, "A") then SlowCaffeine else FastCaffeine
    else if IsLactoseRsid(rsid) then
      if Contains(genotype, "T") || genotype == "TT" then LactoseTolerant else LactoseReduced
    else ExampleCard(snp)
  }

  /**
   * The domain tells which rsID was given, whatever its case; within a
   * domain the genotype decides score and percentile, and every card
   * carries a percentile and a score strictly inside (0, 1).
   */
  lemma InterpretSnpCases(snp: SnpInput)
    ensures var c := InterpretSnp(snp); var rsid := Lower(snp.rsid); var g := Upper(snp.genotype);
      (c.domain == "Caffeine Metabolism" <==> IsCaffeineRsid(rsid))
      && (c.domain == "Lactose Tolerance" <==> IsLactoseRsid(rsid))
      && (c.domain == "Example Trait" <==> !IsCaffeineRsid(rsid) && !IsLactoseRsid(rsid))
      && (IsCaffeineRsid(rsid) ==>
            (c.score, c.percentile) == if Contains(g, "A") then (0.65, Some(0.35)) else (0.85, Some(0.75)))
      && (IsLactoseRsid(rsid) ==>
            (c.score, c.percentile) == if Contains(g, "T") then (0.90, Some(0.80)) else (0.40, Some(0.30)))
      && (!IsCaffeineRsid(rsid) && !IsLactoseRsid(rsid) ==>
            c.score == 0.5 && c.percentile == Some(0.5)
            && Contains(c.summary, snp.rsid) && Contains(c.summary, snp.genotype))
      && c.percentile.Some? && 0.0 < c.score < 1.0
  {
    TtSubsumed(Upper(snp.genotype));
    ExampleCardQuotes(snp);
  }

  /** The placeholder card quotes the rsID and the genotype as given. */
  lemma ExampleCardQuotes(snp: SnpInput)
    ensures Contains(ExampleCard(snp).summary, snp.rsid) && Contains(ExampleCard(snp).summary, snp.genotype)
  {
    var s := ExampleCard(snp).summary;
    ContainsBoth("SNP ", snp.rsid, " with genotype ", snp.genotype, s[|"SNP " + snp.rsid + " with genotype " + snp.genotype|..], s);
  }

  /** The `genotype == "TT"` disjunct adds nothing: "TT" contains "T". */
  lemma TtSubsumed(g: string)
    ensures (Contains(g, "T") || g == "TT") <==> Contains(g, "T")
  {
    if g == "TT" {
      ContainsPiece("", "T", "T");
    }
  }

  /** The rsID's case never matters for a known SNP, nor the genotype's. */
  lemma InterpretSnpIgnoresCase(a: SnpInput, b: SnpInput)
    requires Lower(a.rsid) == Lower(b.rsid) && Upper(a.genotype) == Upper(b.genotype)
    requires IsCaffeineRsid(Lower(a.rsid)) || IsLactoseRsid(Lower(a.rsid))
    ensures InterpretSnp(a) == InterpretSnp(b)
  {
  }

  // ---------------------------------------------------------------------
  // Peer comparisons
  // ---------------------------------------------------------------------

  /** `next((c for c in cards if key in c.domain), None)`. */
  function FirstWith(cards: seq<Card>, key: string): (r: Option<Card>)
    ensures r.None? <==> forall i :: 0 <= i < |cards| ==> !Contains(cards[i].domain, key)
    ensures r.Some? ==>
      exists i :: 0 <= i < |cards| && cards[i] == r.value && Contains(r.value.domain, key)
        && forall j :: 0 <= j < i ==> !Contains(cards[j].domain, key)
    decreases |cards|
  {
    if cards == [] then None
    else if Contains(cards[0].domain, key) then Some(cards[0])
    else
      var r := FirstWith(cards[1..], key);
      assert forall i :: 0 < i < |cards| ==> cards[i] == cards[1..][i - 1];
      if r.Some? then
        assert exists i :: 0 <= i < |cards| && cards[i] == r.value && Contains(r.value.domain, key)
                            && forall j :: 0 <= j < i ==> !Contains(cards[j].domain, key) by {
          var i :| 0 <= i < |cards[1..]| && cards[1..][i] == r.value && Contains(r.value.domain, key)
            && forall j :: 0 <= j < i ==> !Contains(cards[1..][j].domain, key);
          assert cards[i + 1] == r.value;
          forall j | 0 <= j < i + 1 ensures !Contains(cards[j].domain, key) {
            if j > 0 { assert cards[j] == cards[1..][j - 1]; }
          }
        }
        r
      else r
  }

  /** `percentile or 0.5`: a missing or zero percentile becomes 0.5. */
  function OrHalf(p: Option<real>): (r: real)
    ensures r == 0.5 || (p.Some? && r == p.value && r != 0.0)
  {
    if p.Some? && p.value != 0.0 then p.value else 0.5
  }

  const Fallback := PeerComparison("genetic_analysis", 0.5, 0.5, "Genetic Analysis Complete")

  function CaffeineEntry(c: Card): PeerComparison {
    PeerComparison("caffeine_metabolism", c.score, OrHalf(c.percentile), "Caffeine Metabolism Speed")
  }

  function LactoseEntry(c: Card): PeerComparison {
    PeerComparison("lactose_tolerance", c.score, OrHalf(c.percentile), "Lactose Tolerance")
  }

  function OverallEntry(cards: seq<Card>): PeerComparison
    requires cards != []
  {
    PeerComparison("overall_genetic_profile", Mean(Scores(cards)), 0.55, "Overall Genetic Profile")
  }

  /** What `generate_peer_comparisons` returns. */
  function PeerComparisons(cards: seq<Card>): seq<PeerComparison> {
    var caffeine := FirstWith(cards, "Caffeine");
    var lactose := FirstWith(cards, "Lactose");
    var list := (if caffeine.Some? then [CaffeineEntry(caffeine.value)] else [])
      + (if lactose.Some? then [LactoseEntry(lactose.value)] else [])
      + (if cards != [] then [OverallEntry(cards)] else []);
    if list == [] then [Fallback] else list
  }

  /** `generate_peer_comparisons`: up to three appends, then the fallback. */
  method GeneratePeerComparisons(cards: seq<Card>) returns (comparisons: seq<PeerComparison>)
    ensures comparisons == PeerComparisons(cards)
  {
    comparisons := [];
    var caffeine := FirstWith(cards, "Caffeine");
    if caffeine.Some? {
      comparisons := comparisons + [CaffeineEntry(caffeine.value)];
    }
    var lactose := FirstWith(cards, "Lactose");
    if lactose.Some? {
      comparisons := comparisons + [LactoseEntry(lactose.value)];
    }
    if cards != [] {
      comparisons := comparisons + [OverallEntry(cards)];
    }
    if comparisons == [] {
      comparisons := comparisons + [Fallback];
    }
  }

  /** 1 when an optional value is present, else 0. */
  function Present<T>(o: Option<T>): nat {
    if o.Some? then 1 else 0
  }

  /**
   * The fallback alone exactly when there is no card; otherwise the
   * caffeine entry (from the first card whose domain mentions "Caffeine")
   * first, the lactose entry (likewise) next, the overall entry last.
   */
  lemma PeerComparisonsSpec(cards: seq<Card>)
    ensures var pc := PeerComparisons(cards);
      var caffeine := FirstWith(cards, "Caffeine"); var lactose := FirstWith(cards, "Lactose");
      (cards == [] ==> pc == [Fallback])
      && (cards != [] ==>
            |pc| == Present(caffeine) + Present(lactose) + 1
            && pc[|pc| - 1] == OverallEntry(cards)
            && (caffeine.Some? ==> pc[0] == CaffeineEntry(caffeine.value))
            && (lactose.Some? ==> pc[|pc| - 2] == LactoseEntry(lactose.value)))
  {
    if cards != [] {
      var caffeine, lactose := FirstWith(cards, "Caffeine"), FirstWith(cards, "Lactose");
      var a := if caffeine.Some? then [CaffeineEntry(caffeine.value)] else [];
      var b := if lactose.Some? then [LactoseEntry(lactose.value)] else [];
      assert PeerComparisons(cards) == a + b + [OverallEntry(cards)];
    }
  }

  /** Never empty and at most three entries; a caffeine or lactose entry never reports percentile 0. */
  lemma PeerComparisonsBounds(cards: seq<Card>)
    ensures 1 <= |PeerComparisons(cards)| <= 3
    ensures forall k :: 0 <= k < |PeerComparisons(cards)| ==>
      PeerComparisons(cards)[k].percentile != 0.0
  {
  }

  // ---------------------------------------------------------------------
  // Bio card
  // ---------------------------------------------------------------------

  predicate AnyWith(cards: seq<Card>, key: string) {
    exists i :: 0 <= i < |cards| && Contains(cards[i].domain, key)
  }

  function Badges(cards: seq<Card>): seq<string> {
    (if AnyWith(cards, "Caffeine") then ["Caffeine Analyzed"] else [])
    + (if AnyWith(cards, "Lactose") then ["Lactose Analyzed"] else [])
    + (if |cards| > 0 then [NatToString(|cards|) + " Traits Analyzed"] else [])
  }

  /** The highlight for one of the first three cards. */
  function CardLine(c: Card): string {
    c.domain + ": " + Take(c.summary, 80) + "..."
  }

  function CardLines(cards: seq<Card>): (r: seq<string>)
    ensures |r| == |cards| && forall i :: 0 <= i < |cards| ==> r[i] == CardLine(cards[i])
  {
    seq(|cards|, i requires 0 <= i < |cards| => CardLine(cards[i]))
  }

  /** The parts of the lifestyle line: caffeine before exercise, each only when set and non-empty. */
  function LifestyleParts(l: LifestyleInput): seq<string> {
    (if Truthy(l.caffeineIntake) then ["Caffeine: " + l.caffeineIntake.value] else [])
    + (if Truthy(l.exerciseFrequency) then ["Exercise: " + l.exerciseFrequency.value] else [])
  }

  function LifestyleLine(lifestyle: Option<LifestyleInput>): seq<string> {
    if lifestyle.Some? && LifestyleParts(lifestyle.value) != [] then
      ["Lifestyle: " + Join(LifestyleParts(lifestyle.value), ", ")]
    else []
  }

  function Highlights(cards: seq<Card>, lifestyle: Option<LifestyleInput>): seq<string> {
    CardLines(Prefix3(cards)) + LifestyleLine(lifestyle)
  }

  /** `cards[:3]`. */
  function Prefix3(cards: seq<Card>): (r: seq<Card>)
    ensures |r| == (if |cards| < 3 then |cards| else 3) && r == cards[..|r|]
  {
    if |cards| < 3 then cards else cards[..3]
  }

  /** What `generate_genetic_bio_card` returns. */
  function BioCard(cards: seq<Card>, request: PersonalRequest): GeneticBioCard {
    var badges := Badges(cards);
    var highlights := Highlights(cards, request.lifestyle);
    GeneticBioCard("Personal Genetic Profile",
      "Analysis of " + NatToString(|request.snps|) + " genetic variant(s)",
      if badges != [] then badges else ["Genetic Analysis"],
      if highlights != [] then highlights else ["Genetic analysis completed successfully"])
  }

  /** `generate_genetic_bio_card`: badges and highlights grown by append. */
  method GenerateGeneticBioCard(cards: seq<Card>, request: PersonalRequest) returns (card: GeneticBioCard)
    ensures card == BioCard(cards, request)
  {
    var badges: seq<string> := [];
    if exists i :: 0 <= i < |cards| && Contains(cards[i].domain, "Caffeine") {
      badges := badges + ["Caffeine Analyzed"];
    }
    if exists i :: 0 <= i < |cards| && Contains(cards[i].domain, "Lactose") {
      badges := badges + ["Lactose Analyzed"];
    }
    if |cards| > 0 {
      badges := badges + [NatToString(|cards|) + " Traits Analyzed"];
    }

    assert badges == Badges(cards);
    var highlights := CardHighlights(Prefix3(cards));
    var line := LifestyleHighlight(request.lifestyle);
    highlights := highlights + line;
    assert highlights == Highlights(cards, request.lifestyle);

    card := GeneticBioCard("Personal Genetic Profile",
      "Analysis of " + NatToString(|request.snps|) + " genetic variant(s)",
      if badges != [] then badges else ["Genetic Analysis"],
      if highlights != [] then highlights else ["Genetic analysis completed successfully"]);
  }

  /** The loop of `generate_genetic_bio_card` over `cards[:3]`. */
  method CardHighlights(top: seq<Card>) returns (highlights: seq<string>)
    ensures highlights == CardLines(top)
  {
    highlights := [];
    for i := 0 to |top|
      invariant highlights == CardLines(top[..i])
    {
      highlights := highlights + [top[i].domain + ": " + Take(top[i].summary, 80) + "..."];
    }
    assert top[..|top|] == top;
  }

  /** The trait-count badge starts with a digit, so it is none of the fixed badges. */
  lemma TraitsBadgeDiffers(n: nat)
    ensures var t := NatToString(n) + " Traits Analyzed";
      '0' <= t[0] <= '9' && t != "Caffeine Analyzed" && t != "Lactose Analyzed" && t != "Genetic Analysis"
  {
    var t := NatToString(n) + " Traits Analyzed";
    assert t[0] == NatToString(n)[0];
    assert "Caffeine Analyzed"[0] == 'C' && "Lactose Analyzed"[0] == 'L' && "Genetic Analysis"[0] == 'G';
  }

  /** The lifestyle step of `generate_genetic_bio_card`: the line to append, if any. */
  method LifestyleHighlight(lifestyle: Option<LifestyleInput>) returns (line: seq<string>)
    ensures line == LifestyleLine(lifestyle)
  {
    line := [];
    if lifestyle.Some? {
      var l := lifestyle.value;
      var parts: seq<string> := [];
      if Truthy(l.caffeineIntake) {
        parts := parts + ["Caffeine: " + l.caffeineIntake.value];
      }
      if Truthy(l.exerciseFrequency) {
        parts := parts + ["Exercise: " + l.exerciseFrequency.value];
      }
      if parts != [] {
        line := ["Lifestyle: " + Join(parts, ", ")];
      }
    }
  }

  /**
   * Badges: never empty, at most three, in the order caffeine, lactose,
   * trait count, with "Genetic Analysis" only when there is no card.
   */
  lemma BadgesSpec(cards: seq<Card>, request: PersonalRequest)
    ensures var b := BioCard(cards, request).badges;
      1 <= |b| <= 3
      && (cards == [] ==> b == ["Genetic Analysis"])
      && (cards != [] ==> b[|b| - 1] == NatToString(|cards|) + " Traits Analyzed")
      && (AnyWith(cards, "Caffeine") <==> b[0] == "Caffeine Analyzed")
      && (AnyWith(cards, "Lactose") <==> "Lactose Analyzed" in b)
  {
    TraitsBadgeDiffers(|cards|);
  }

  /**
   * Highlights: never empty; one line per card among the first three, each
   * the domain, a colon and at most 80 summary characters followed by
   * "..."; then at most one lifestyle line listing caffeine before exercise.
   */
  lemma HighlightsSpec(cards: seq<Card>, request: PersonalRequest)
    ensures var h := BioCard(cards, request).highlights; var m := |Prefix3(cards)|;
      var life := LifestyleLine(request.lifestyle);
      1 <= |h| <= 4 && |life| <= 1
      && (m == 0 && life == [] ==> h == ["Genetic analysis completed successfully"])
      && (m > 0 || life != [] ==> |h| == m + |life| && h[m..] == life)
      && forall i :: 0 <= i < m ==>
           h[i] == cards[i].domain + ": " + Take(cards[i].summary, 80) + "..."
           && |Take(cards[i].summary, 80)| <= 80
  {
    var hs := Highlights(cards, request.lifestyle);
    assert |hs| == |Prefix3(cards)| + |LifestyleLine(request.lifestyle)|;
  }

  /** The lifestyle parts: at most two, caffeine before exercise. */
  lemma LifestylePartsOrder(l: LifestyleInput)
    ensures var parts := LifestyleParts(l);
      |parts| == (if Truthy(l.caffeineIntake) then 1 else 0) + (if Truthy(l.exerciseFrequency) then 1 else 0)
      && (Truthy(l.caffeineIntake) ==> parts[0] == "Caffeine: " + l.caffeineIntake.value)
      && (Truthy(l.exerciseFrequency) ==> parts[|parts| - 1] == "Exercise: " + l.exerciseFrequency.value)
  {
  }

  /** The subtitle counts the submitted SNPs. */
  lemma SubtitleCountsSnps(cards: seq<Card>, request: PersonalRequest)
    ensures BioCard(cards, request).subtitle == "Analysis of " + NatToString(|request.snps|) + " genetic variant(s)"
    ensures BioCard(cards, request).title == "Personal Genetic Profile"
  {
  }

  // ---------------------------------------------------------------------
  // Handler
  // ---------------------------------------------------------------------

  /** The card loop of `analyze_personal`: one card per SNP, in input order. */
  method InterpretAll(snps: seq<SnpInput>) returns (cards: seq<Card>)
    ensures |cards| == |snps| && forall i :: 0 <= i < |snps| ==> cards[i] == InterpretSnp(snps[i])
  {
    cards := [];
    for i := 0 to |snps|
      invariant |cards| == i
      invariant forall k :: 0 <= k < i ==> cards[k] == InterpretSnp(snps[k])
    {
      var card := InterpretSnp(snps[i]);
      AppendCard(cards, snps, card);
      cards := cards + [card];
    }
  }

  /** One more card keeps the cards lined up with the SNPs. */
  lemma AppendCard(cards: seq<Card>, snps: seq<SnpInput>, card: Card)
    requires |cards| < |snps| && card == InterpretSnp(snps[|cards|])
    requires forall k :: 0 <= k < |cards| ==> cards[k] == InterpretSnp(snps[k])
    ensures forall k :: 0 <= k <= |cards| ==> (cards + [card])[k] == InterpretSnp(snps[k])
  {
  }

  /** `analyze_personal`: 400 without SNPs, otherwise one card per SNP in order. */
  method AnalyzePersonal(request: PersonalRequest) returns (r: Result<PersonalResponse, HttpError>)
    ensures request.snps == [] <==> r == Err(HttpError(400, "At least one SNP must be provided"))
    ensures r.Ok? ==>
      |r.value.cards| == |request.snps|
      && (forall i :: 0 <= i < |request.snps| ==> r.value.cards[i] == InterpretSnp(request.snps[i]))
      && r.value.peerComparison == PeerComparisons(r.value.cards)
      && r.value.geneticCard == BioCard(r.value.cards, request)
  {
    if request.snps == [] {
      return Err(HttpError(400, "At least one SNP must be provided"));
    }
    var cards := InterpretAll(request.snps);
    var peer := GeneratePeerComparisons(cards);
    var genetic := GenerateGeneticBioCard(cards, request);
    return Ok(PersonalResponse(cards, peer, genetic));
  }
}
