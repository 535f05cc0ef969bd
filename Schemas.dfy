/**
 * The records the API exchanges (backend/models/schemas.py), as values.
 */
module Schemas {
  import opened Wrappers

  /** `Plot`: a rendered chart; the PNG itself is opaque here. */
  datatype Plot = Plot(name: string, kind: string, imageBase64: string, description: Option<string>)

  datatype NarrativeSection = NarrativeSection(title: string, content: string)

  datatype SnpInput = SnpInput(rsid: string, genotype: string)

  datatype LifestyleInput = LifestyleInput(
    caffeineIntake: Option<string>, exerciseFrequency: Option<string>,
    sleepDurationHours: Option<real>, dietPattern: Option<string>)

  /** `PersonalInsightCard`: `score` in 0..1 by convention, `percentile` optional. */
  datatype Card = Card(
    domain: string, summary: string, score: real, percentile: Option<real>,
    recommendations: seq<string>)

  /** `PeerComparison`; its `label` field is `caption` here (`label` is a Dafny keyword). */
  datatype PeerComparison = PeerComparison(metric: string, value: real, percentile: real, caption: string)

  datatype GeneticBioCard = GeneticBioCard(
    title: string, subtitle: string, badges: seq<string>, highlights: seq<string>)

  datatype PersonalRequest = PersonalRequest(snps: seq<SnpInput>, lifestyle: Option<LifestyleInput>)

  datatype PersonalResponse = PersonalResponse(
    cards: seq<Card>, peerComparison: seq<PeerComparison>, geneticCard: GeneticBioCard)

  /** A Python truthiness test on an optional string: present and non-empty. */
  predicate Truthy(s: Option<string>) {
    s.Some? && s.value != ""
  }

  /** The scores of the cards, in card order. */
  function Scores(cards: seq<Card>): (r: seq<real>)
    ensures |r| == |cards| && forall i :: 0 <= i < |cards| ==> r[i] == cards[i].score
  {
    seq(|cards|, i requires 0 <= i < |cards| => cards[i].score)
  }

  /** An `HTTPException`: status code and detail message. */
  datatype HttpError = HttpError(status: nat, detail: string)
}
