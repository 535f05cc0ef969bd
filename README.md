# Genomics analysis backend — a verified Dafny model

This project models the decision logic of a FastAPI backend with two analysis
endpoints:

- `POST /analyze/research` reads a differential-expression (DEG) table and an
  optional pathway-enrichment table. It normalises the column headers and
  counts the significant, up- and down-regulated genes. It then runs ten
  plot steps in a fixed order (volcano, PCA, heatmap, pathway enrichment,
  SVM, random forest, hierarchical clustering, k-means, Lasso, Ridge) and
  writes a templated Results/Discussion narrative.
- `POST /analyze/personal` turns a list of SNPs (rsID and genotype) into
  insight cards, peer comparisons and a "genetic bio card".

A third module, `genetics_engine`, holds a richer rule table for SNPs. It
builds peer comparisons by domain and a bio card with badges and
highlights. No endpoint calls it, but it is modelled too.

Each Python file of the core is one Dafny module:

- `DegAnalyzer`, `PersonalService`, `GeneticsEngine`, `PersonalRouter`,
  `ResearchService`, `MlAnalyzer`, `PlotGenerator` and `ResearchRouter`
  model the core files.
- `Frames` models a pandas data frame. It has a `Table` value and a
  `DataFrame` class for the frames the code changes in place.
- `Schemas` holds the request and response records.
- `Text`, `Numerics`, `Sorting` and `Wrappers` are shared helpers: ASCII
  case mapping and stripping, sums and rounding, a stable descending sort
  and boolean masks, `Option`/`Result`.

The modelling choices:

- Floating-point numbers are reals. A pandas cell is `Num(v)` or `NaN`, and
  `NaN` satisfies no comparison.
- Everything a library decides arrives as a parameter: the frame pandas
  reads from an upload, whether matplotlib or scikit-learn finishes, fitted
  coefficients, random draws and number formatting.
- Code that changes state step by step is written as methods with loops and
  invariants, each proved equal to a specification function:
  - the alias-rename loop of `normalize_column_names`;
  - the in-place column additions of `extract_expression_matrix`;
  - the dict-building loops of the peer comparisons and bio cards;
  - the plot list of the research endpoint.

## Model

| member | source | states |
|---|---|---|
| DegAnalyzer.FormatBySuffix | backend/services/deg_analyzer.py:23-30 | a name ending in `.xlsx` is read as Excel and one ending in `.tsv` as TSV; every other name is read as CSV |
| DegAnalyzer.AliasTargets | backend/services/deg_analyzer.py:49-72 | the alias table has 19 entries; each maps to one of the canonical names `log2fc`, `pvalue`, `padj`, `gene_id`; a canonical alias maps to itself |
| DegAnalyzer.AliasesDistinct | backend/services/deg_analyzer.py:49-72 | no alias is listed twice |
| DegAnalyzer.NormalizeColumnNames | backend/services/deg_analyzer.py:35-78 | the result is a fresh frame with the same column data whose headers are `Normalize` of the input's; the caller's frame is untouched |
| DegAnalyzer.NormalizeAt | backend/services/deg_analyzer.py:74-76 | which alias wins: a header becomes its canonical name exactly when its alias entry fires under the reference definition `Fires`; `Fires` holds when the alias is a header, the canonical name is not, and no earlier alias of the same name is a header |
| DegAnalyzer.NormalizeKeepsUnknown | backend/services/deg_analyzer.py:46-76 | a header that is no alias keeps its lowercased, stripped form; every header ends up cleaned or canonical |
| DegAnalyzer.LaterAliasKeepsName | backend/services/deg_analyzer.py:74-76 | when an earlier alias of the same canonical name is present, a later alias is not renamed |
| DegAnalyzer.CanonicalStays | backend/services/deg_analyzer.py:75 | a header that is already canonical is never renamed |
| DegAnalyzer.NormalizeIdempotent | backend/services/deg_analyzer.py:45-78 | normalising twice gives the same headers as normalising once |
| DegAnalyzer.CleanClean | backend/services/deg_analyzer.py:46 | lowercasing and stripping a cleaned header changes nothing |
| DegAnalyzer.AnalyzeDegData | backend/services/deg_analyzer.py:81-156 | ValueError for a missing p column (`padj`, else `pvalue`) and for a missing `log2fc`; success exactly when both columns exist and are numeric; `total_genes` is the row count |
| DegAnalyzer.DegMembership | backend/services/deg_analyzer.py:97-127 | a row is a DEG iff its p value is below the threshold (`padj_threshold` defaults to `pvalue_threshold`) and its abs(log2fc) is above `log2fc_threshold`; NaN rows are never DEGs; up rows are DEGs with log2fc > 0, down rows those with log2fc < 0 |
| DegAnalyzer.DegCounts | backend/services/deg_analyzer.py:119-127 | up + down <= num_deg <= total_genes; equality up + down == num_deg when the fold threshold is >= 0 |
| DegAnalyzer.DegPercentages | backend/services/deg_analyzer.py:129-132 | each percentage lies in [0, 100], is 0 when its denominator is 0, and otherwise times its denominator equals 100 times its count |
| DegAnalyzer.PercentBounds | backend/services/deg_analyzer.py:130-132 | a guarded percentage of a part of a whole lies in [0, 100] and is exact |
| DegAnalyzer.TopUp | backend/services/deg_analyzer.py:135 | `top_up_genes` holds min(10, up) up rows, largest log2fc first with ties in row order; no up row left out has a larger log2fc than one kept |
| DegAnalyzer.TopDown | backend/services/deg_analyzer.py:136 | `top_down_genes` holds min(10, down) down rows, smallest log2fc first with ties in row order; no down row left out has a smaller log2fc than one kept |
| DegAnalyzer.DegAverages | backend/services/deg_analyzer.py:139-140 | the average and median log2fc are 0 without DEGs; otherwise they lie within any bounds of the DEGs' log2fc |
| DegAnalyzer.MedianBounds | backend/services/deg_analyzer.py:140 | a median lies within any bounds of its values |
| PersonalService.ComputePeerPercentile | backend/services/personal_service.py:1-30 | the result lies in [0, 1]: the score itself inside that range, 0 below it, 1 above it |
| PersonalService.PercentileMonotone | backend/services/personal_service.py:23-30 | a larger score never gets a smaller percentile |
| PersonalService.PercentileIdempotent | backend/services/personal_service.py:23-30 | clamping twice equals clamping once |
| GeneticsEngine.FindRule | backend/services/genetics_engine.py:204 | the lookup finds a table rule with that rsID, or reports that no rule has it |
| GeneticsEngine.FindGenotype | backend/services/genetics_engine.py:221-229 | the lookup finds the listed genotype entry, or reports that none is listed |
| GeneticsEngine.RulesTable | backend/services/genetics_engine.py:13-188 | every rule lists a genotype, and every key starts with a lower-case `rs` |
| GeneticsEngine.UpperMissesRules | backend/services/genetics_engine.py:200-204 | an upper-cased rsID never matches a table key |
| GeneticsEngine.InterpretSnpIsGeneric | backend/services/genetics_engine.py:190-216 | as written, every SNP gets the generic card: domain "Genetic Variant", score 0.5, no percentile, three recommendations, and a summary quoting the upper-cased rsID and genotype |
| GeneticsEngine.RuleCardChoice | backend/services/genetics_engine.py:218-254 | a table SNP's card uses the listed genotype's entry, or else the first entry plus a note naming the genotype; the percentile comes from the trait name; the summary starts with the domain and ends with "." |
| GeneticsEngine.TraitNameShape | backend/services/genetics_engine.py:234 | the trait name is the domain lowercased with `_` for each space, of the same length |
| GeneticsEngine.CaseBugWitness | backend/services/genetics_engine.py:200-204 | for rs762551/CC the code as written gives "Genetic Variant", while the corrected lookup gives "Caffeine Metabolism" with score 0.2 |
| GeneticsEngine.CorrectedUsesRule | backend/services/genetics_engine.py:200-229 | with the corrected lookup, an SNP whose lowercased rsID is a table key gets that rule's domain, a percentile, and one of its genotype scores |
| GeneticsEngine.DedupSpec | backend/services/genetics_engine.py:273-281 | the `domain_scores` keys hold each domain once, in order of first appearance |
| GeneticsEngine.ScoresInSpec | backend/services/genetics_engine.py:273-281 | a domain has a score list exactly when some card is in it; its scores lie within any bounds of all scores |
| GeneticsEngine.GroupStep | backend/services/genetics_engine.py:276-281 | one more card adds its domain as a key if new and grows only that domain's list |
| GeneticsEngine.GroupScores | backend/services/genetics_engine.py:273-281 | the dict loop returns the deduplicated domains with the scores of each, in card order |
| GeneticsEngine.GeneratePeerComparisons | backend/services/genetics_engine.py:257-300 | the method returns `PeerComparisons(cards)` |
| GeneticsEngine.PeerComparisonsShape | backend/services/genetics_engine.py:267-298 | no entry without cards; otherwise "Overall Genetic Score" first, then one "Average score in <domain>" entry per distinct domain, in first-appearance order |
| GeneticsEngine.PeerPercentiles | backend/services/genetics_engine.py:284-298 | every percentile lies in [0, 1] |
| GeneticsEngine.PeerValues | backend/services/genetics_engine.py:284-298 | each value is the mean of the scores it averages, rounded to two places; that mean lies within any bounds of the scores |
| GeneticsEngine.CountDomains | backend/services/genetics_engine.py:332-334 | the `domain_counts` loop returns each domain once with its number of cards |
| GeneticsEngine.NumDomainsIsKeys | backend/services/genetics_engine.py:324-329 | the subtitle's domain count is the number of distinct domains |
| GeneticsEngine.TopDomains | backend/services/genetics_engine.py:336 | the method returns `Badges(cards)` |
| GeneticsEngine.BadgesCount | backend/services/genetics_engine.py:336 | there are min(5, domains) badges, at least one when there is a card |
| GeneticsEngine.BadgesDistinct | backend/services/genetics_engine.py:336 | the badges are distinct domains of the cards |
| GeneticsEngine.BadgesRanked | backend/services/genetics_engine.py:336 | badges are ordered by card count, descending; equal counts keep first-appearance order |
| GeneticsEngine.BadgesComplete | backend/services/genetics_engine.py:336 | a domain that is not a badge has no more cards than any badge |
| GeneticsEngine.TopCardsSpec | backend/services/genetics_engine.py:342-343 | the top cards are min(3, cards) distinct cards, furthest from 0.5 first, ties in card order; no card left out is further from 0.5 |
| GeneticsEngine.TopHighlights | backend/services/genetics_engine.py:344-347 | the loop over the top cards returns `SignalLines` of them |
| GeneticsEngine.SignalLinesSound | backend/services/genetics_engine.py:344-347 | each signal line comes from one chosen card, at most one line per card |
| GeneticsEngine.SignalLinesComplete | backend/services/genetics_engine.py:344-347 | a chosen card above 0.7 gives a "Strong positive signal" line; one below 0.3 gives a "Notable variant" line |
| GeneticsEngine.SelectOverall | backend/services/genetics_engine.py:356-362 | the overall line is "Overall favorable genetic profile" exactly when the average is above 0.6 |
| GeneticsEngine.AppendLifestyle | backend/services/genetics_engine.py:350-354 | the lifestyle step appends exactly the lifestyle lines |
| GeneticsEngine.HighlightsSpec | backend/services/genetics_engine.py:338-362 | the first highlight is chosen by the average (> 0.6, < 0.4, else balanced); at most three signal lines follow, then the lifestyle lines, exercise before caffeine, one per non-empty field |
| GeneticsEngine.GenerateGeneticBioCard | backend/services/genetics_engine.py:303-369 | the method returns `BioCard(cards, lifestyle)` |
| PersonalRouter.InterpretSnpCases | backend/routers/personal.py:15-89 | the domain identifies the rsID, whatever its case; within caffeine, an "A" in the genotype means slow (0.65/0.35), otherwise fast (0.85/0.75); within lactose, a "T" means tolerant (0.90/0.80), otherwise reduced (0.40/0.30); any other SNP gets the example card at 0.5 quoting the rsID and genotype |
| PersonalRouter.TtSubsumed | backend/routers/personal.py:54 | the `genotype == "TT"` test adds nothing to `"T" in genotype` |
| PersonalRouter.InterpretSnpIgnoresCase | backend/routers/personal.py:23-24 | for a known SNP, neither the rsID's case nor the genotype's matters |
| PersonalRouter.FirstWith | backend/routers/personal.py:102-112 | finds the first card whose domain contains the key, or reports that none does |
| PersonalRouter.OrHalf | backend/routers/personal.py:107-117 | `percentile or 0.5`: a missing or zero percentile becomes 0.5 |
| PersonalRouter.GeneratePeerComparisons | backend/routers/personal.py:92-140 | the method returns `PeerComparisons(cards)` |
| PersonalRouter.PeerComparisonsSpec | backend/routers/personal.py:92-140 | without cards, only the fallback; otherwise the caffeine entry (if any card mentions it) first, then the lactose entry, then the overall entry |
| PersonalRouter.PeerComparisonsBounds | backend/routers/personal.py:92-140 | one to three entries, none with percentile 0 |
| PersonalRouter.GenerateGeneticBioCard | backend/routers/personal.py:143-179 | the method returns `BioCard(cards, request)` |
| PersonalRouter.LifestyleHighlight | backend/routers/personal.py:165-172 | the lifestyle step yields exactly `LifestyleLine` |
| PersonalRouter.BadgesSpec | backend/routers/personal.py:151-157 | one to three badges: "Caffeine Analyzed" first iff a domain mentions caffeine; "Lactose Analyzed" iff one mentions lactose; "<n> Traits Analyzed" last when there are cards; only "Genetic Analysis" without cards |
| PersonalRouter.TraitsBadgeDiffers | backend/routers/personal.py:151-157 | the trait-count badge is none of the fixed badges |
| PersonalRouter.HighlightsSpec | backend/routers/personal.py:160-178 | one highlight per card among the first three, each the domain, a colon, at most 80 summary characters and "..."; then at most one lifestyle line; the fallback line only when both are missing |
| PersonalRouter.LifestylePartsOrder | backend/routers/personal.py:165-172 | the lifestyle line lists caffeine before exercise, each only when set and non-empty |
| PersonalRouter.SubtitleCountsSnps | backend/routers/personal.py:174-178 | the title is fixed and the subtitle counts the submitted SNPs |
| PersonalRouter.InterpretAll | backend/routers/personal.py:197-201 | one card per SNP, in input order |
| PersonalRouter.AnalyzePersonal | backend/routers/personal.py:183-213 | an empty SNP list gives exactly the 400 error; otherwise the response holds one card per SNP, in order, with their peer comparisons and bio card |
| ResearchService.FillContains | backend/services/research_service.py:39-50 | a filled template contains every value it was filled with |
| ResearchService.NarrativeShape | backend/services/research_service.py:52-61 | the narrative has exactly the keys "results" and "discussion", titled "Results" and "Discussion" |
| ResearchService.NarrativeQuotes | backend/services/research_service.py:28-50 | the results quote the DEG count, the total with thousands separators, the up and down counts and all three percentages; the discussion quotes the DEG, up and down counts and the DEG percentage |
| ResearchService.PercentagesGuarded | backend/services/research_service.py:34-36 | a percentage is 0 when its denominator is not positive; each lies in [0, 100] for consistent counts; up + down never exceeds 100 |
| ResearchService.PercentSum | backend/services/research_service.py:35-36 | percentages of the same whole add up |
| ResearchService.OnlyCountsMatter | backend/services/research_service.py:28-31 | entries other than the four counts do not affect the narrative |
| ResearchService.MissingCountIsZero | backend/services/research_service.py:28-31 | a missing count reads as 0 |
| Frames.NumericExceptSpec | backend/services/ml_analyzer.py:31-38 | a name is a candidate exactly when a column of that name is numeric and its lowercased name is not excluded |
| Frames.DataFrame.Copy | backend/services/deg_analyzer.py:45 | `df.copy()` is a fresh frame with the same contents |
| Frames.DataFrame.Rename | backend/services/deg_analyzer.py:76 | every column with the old name is renamed; the data stays |
| Frames.DataFrame.AddColumn | backend/services/ml_analyzer.py:47 | assigning a new column appends it and keeps the rest |
| MlAnalyzer.SyntheticShape | backend/services/ml_analyzer.py:42-43 | six distinct synthetic names, none excluded |
| MlAnalyzer.PadSpec | backend/services/ml_analyzer.py:45-47 | padding only appends: old columns stay in place, every synthetic name considered is present, and each appended column is a numeric synthetic column that was missing |
| MlAnalyzer.PadPresent | backend/services/ml_analyzer.py:46 | when the synthetic names are already columns, padding changes nothing |
| MlAnalyzer.PadAbsent | backend/services/ml_analyzer.py:45-47 | when none is present, all six are appended in order |
| MlAnalyzer.ExtractSpec | backend/services/ml_analyzer.py:20-51 | at least two sample columns, all present afterwards; the frame changes only when fewer than two candidates exist, and then only by appending synthetic columns |
| MlAnalyzer.ExtractAgain | backend/services/ml_analyzer.py:40-47 | a second extraction on the same frame adds no column |
| MlAnalyzer.ExtractAgainSamples | backend/services/ml_analyzer.py:37-47 | with one real candidate, the first extraction returns the six synthetic names but a second returns seven (the candidate plus the six) |
| MlAnalyzer.ExtractExpressionMatrix | backend/services/ml_analyzer.py:20-51 | the caller's frame becomes `ExtractedFrame` of its old contents; the sample columns and the copied matrix are returned |
| MlAnalyzer.PresentInSpec | backend/services/ml_analyzer.py:71 | the kept names are exactly the requested names that are columns |
| MlAnalyzer.PrepareSpec | backend/services/ml_analyzer.py:68-76 | without a usable request the matrix holds the extracted columns (at least two); with one, the requested names that are present, or the whole matrix when none is; at least one sample remains |
| MlAnalyzer.LabelsCycle | backend/services/ml_analyzer.py:84-85 | every label is a class, and labels repeat with period n_classes |
| MlAnalyzer.LabelsClasses | backend/services/ml_analyzer.py:148-149 | class c occurs exactly when there are more than c samples |
| MlAnalyzer.FoldsSpec | backend/services/ml_analyzer.py:96-164 | at most five folds, five from ten samples on, at least two exactly from four samples on |
| MlAnalyzer.SilhouetteSpec | backend/services/ml_analyzer.py:222-225 | the score is 0 when all labels agree and the library's score otherwise |
| MlAnalyzer.SelectedFeaturesSpec | backend/services/ml_analyzer.py:330 | the selection holds exactly the indices whose abs(coefficient) exceeds 1e-6, in ascending order |
| MlAnalyzer.TopFeaturesSpec | backend/services/ml_analyzer.py:161 | min(20, features) distinct indices in descending order of importance; no index left out has a larger key |
| MlAnalyzer.LassoSpec | backend/services/ml_analyzer.py:327-343 | the selected coefficients sit beside their indices and are counted; every coefficient above the tolerance is selected |
| MlAnalyzer.RidgeSpec | backend/services/ml_analyzer.py:383-387 | at most 20 coefficients, exactly 20 from 20 features on, largest magnitude first; none left out is larger |
| MlAnalyzer.PrepareSamples | backend/services/ml_analyzer.py:68-73 | the shared opening changes the frame as extraction does and returns `Prepare` of the old frame |
| MlAnalyzer.CountOf | backend/services/ml_analyzer.py:96-97 | the members of a class never exceed the labels, and a class has members exactly when it occurs |
| MlAnalyzer.CrossValidate | backend/services/ml_analyzer.py:96-97 | `cross_val_score` runs exactly when there are at least two folds and some class has at least that many members; otherwise it raises for too few folds, else for more folds than any class has |
| MlAnalyzer.OneClassLabels | backend/services/ml_analyzer.py:84-89 | the synthetic labels are a single class exactly when there is one sample or one class |
| MlAnalyzer.ClassZeroCount | backend/services/ml_analyzer.py:84-85 | with one class, class 0 has every sample; with two, it has (n + 1) / 2 of them |
| MlAnalyzer.FewClassesValidate | backend/services/ml_analyzer.py:96-164 | with one or two classes, cross-validation runs exactly from four samples on |
| MlAnalyzer.ThreeClassesSixSamples | backend/services/ml_analyzer.py:96-97 | three classes over six samples ask for three folds of classes of two, and cross-validation raises |
| MlAnalyzer.Svm | backend/services/ml_analyzer.py:83-114 | `svm.fit` raises exactly when there is one sample or one class; otherwise any error is what `CrossValidate` raises; a result carries the prepared sample names, the synthetic labels and `min(5, n // 2)` folds, two to five and at most half the samples; from two samples and two classes on, a result exactly when `CrossValidate` does not raise; with two classes, a result exactly from four samples on |
| MlAnalyzer.Forest | backend/services/ml_analyzer.py:148-184 | an error exactly when `CrossValidate` raises (the forest fits a single class); a result carries the sample names, the labels, `min(5, n // 2)` folds (two to five), the forest's importances and the top features ranked from them; with one or two classes, a result exactly from four samples on |
| MlAnalyzer.PerformSvmClassification | backend/services/ml_analyzer.py:54-114 | the frame is extended as extraction does; the result is `Svm` of the prepared samples |
| MlAnalyzer.PerformRandomForestClassification | backend/services/ml_analyzer.py:117-184 | the frame is extended as extraction does; the result is `Forest` of the prepared samples |
| MlAnalyzer.PerformClustering | backend/services/ml_analyzer.py:187-287 | the frame is extended as extraction does; the result is `Cluster` of the prepared samples |
| MlAnalyzer.PerformLassoFeatureSelection | backend/services/ml_analyzer.py:290-343 | the frame is extended as extraction does; the result is `LassoSelect` of the coefficients |
| MlAnalyzer.PerformRidgeRegression | backend/services/ml_analyzer.py:346-398 | the frame is extended as extraction does; the result is `RidgeRank` of the coefficients |
| PlotGenerator.GenerateVolcano | backend/services/plot_generator.py:36-67 | success exactly when the fold column and the chosen p column (the requested one, else `pvalue`) exist and are numeric; a missing column is reported by name |
| PlotGenerator.VolcanoDisjoint | backend/services/plot_generator.py:64-67 | each point gets at most one colour |
| PlotGenerator.VolcanoCovers | backend/services/plot_generator.py:64-67 | with a fold threshold >= 0 every point gets exactly one colour |
| PlotGenerator.VolcanoMatchesDeg | backend/routers/research.py:107-111 | on any table the DEG analysis accepts, the endpoint's volcano call succeeds, and its red and blue points are exactly the reported up and down rows |
| PlotGenerator.PcaSpec | backend/services/plot_generator.py:115-149 | without a column list, the placeholder exactly when fewer than two columns qualify; otherwise every qualifying column is fitted with min(requested, columns, rows) components; no failure from the model's decisions when column names are distinct; the scatter exactly when there are two or more components |
| PlotGenerator.GenerateHeatmap | backend/services/plot_generator.py:176-215 | the placeholder exactly without usable samples and without `log2fc`; an error when samples are usable but `log2fc` is missing, and no other error (the intended `nlargest` by abs(log2fc)); at most 50 rows; gene labels iff at most 30 rows; the given columns or six synthetic ones |
| PlotGenerator.HeatmapAsWritten | backend/services/plot_generator.py:176-190 | as written, a frame with `log2fc` and at least one row raises, because the abs(log2fc) values are taken as column labels; otherwise the same outcome as `GenerateHeatmap` |
| PlotGenerator.HeatmapNeverDrawn | backend/services/plot_generator.py:179-184 | on every frame with `log2fc` and rows, the code as written raises where the intended lookup draws a heatmap |
| PlotGenerator.FirstPresent | backend/services/plot_generator.py:250-263 | the first candidate that is a column, or none |
| PlotGenerator.Detect | backend/services/plot_generator.py:250-253 | the detection loop with `break` finds `FirstPresent` |
| PlotGenerator.PathwayPlot | backend/services/plot_generator.py:241-284 | the placeholder exactly when no pathway or no p column is among the lowercased headers; an error exactly when both are found and the chosen p column is not numeric; otherwise min(top_n, rows) bars, each column the first candidate present in priority order, and a count column iff one is present |
| PlotGenerator.GeneratePathwayEnrichmentPlot | backend/services/plot_generator.py:229-299 | the method returns `PathwayPlot` of the caller's frame and changes nothing |
| PlotGenerator.PathwayPlotIgnoresCase | backend/services/plot_generator.py:242-243 | lowercasing the headers first gives the same plot |
| PlotGenerator.ScatterAxes | backend/services/plot_generator.py:322-333 | the scatter is projected to PC1/PC2 exactly when there are more than two features, and uses Feature 1/Feature 2 otherwise |
| PlotGenerator.ScatterAxesFollowGenes | backend/services/ml_analyzer.py:75-80 | the machine-learning scatter is projected exactly when the DEG table has more than two rows |
| PlotGenerator.KMeansSizes | backend/services/plot_generator.py:519-526 | one bar per distinct label, ascending, each at least 1; the bars add up to the sample count |
| PlotGenerator.LassoPanelSpec | backend/services/plot_generator.py:559-593 | "Zero Features" counts the coefficients within the tolerance; the panel shows the first min(20, selected) features in index order; "No features selected" exactly when all coefficients are within the tolerance |
| PlotGenerator.RidgePanelShowsRanking | backend/services/plot_generator.py:629-637 | the panel shows the whole Ridge ranking, min(20, features) bars |
| ResearchRouter.ParseMetadata | backend/routers/research.py:48-54 | undecodable JSON gives 400 with the decoder's message; success exactly for an object whose fields validate, with the project name taken over; every other failure of an object is 400 |
| ResearchRouter.ToHttp | backend/routers/research.py:261-264 | a ValueError is answered with 400, any other exception with 500 |
| ResearchRouter.ErrorStatus | backend/routers/research.py:48-264 | every error is a 400 or a 500; a 400 exactly for undecodable or invalid metadata, a ValueError while reading the DEG file, or a column the analysis misses |
| ResearchRouter.DegRaised | backend/services/deg_analyzer.py:104-107 | the analysis raises a ValueError exactly for a missing column |
| ResearchRouter.IncludedSpec | backend/routers/research.py:103-241 | the plot steps that append come in step order, and a step's plot is in the list exactly when the step succeeds |
| ResearchRouter.IncludedTail | backend/routers/research.py:189-241 | from the first clustering step on, a step appends exactly when its libraries finish |
| ResearchRouter.ClassifierSteps | backend/routers/research.py:162-187 | the SVM step appends exactly when the frame yields at least four sample columns and its libraries finish, the forest step likewise on the frame the SVM step left; two or three candidate columns fail both; fewer than two give six synthetic samples |
| ResearchRouter.RunPlotSteps | backend/routers/research.py:103-241 | the plot list built step by step is `Refs(Included(...))` of the frame the analysis read |
| ResearchRouter.RunFigureSteps | backend/routers/research.py:103-160 | the volcano plot, then PCA, heatmap and pathway plots each appended exactly when its step succeeds: `Refs(Included(..., 4))` |
| ResearchRouter.RunModelSteps | backend/routers/research.py:162-241 | the six machine-learning steps append exactly the steps that succeed, in order: `Refs(Included(..., 10))` |
| ResearchRouter.RunClassifierSteps | backend/routers/research.py:162-187 | the SVM and forest steps each append exactly when its cross-validation can run on the shared frame and its libraries finish |
| ResearchRouter.RunClusterSteps | backend/routers/research.py:189-241 | the clustering, Lasso and Ridge steps each append exactly when its libraries finish, in order |
| ResearchRouter.AnalyzeResearch | backend/routers/research.py:57-271 | the endpoint answers `Respond(...)` |
| ResearchRouter.FinishResearch | backend/routers/research.py:102-271 | after the DEG analysis: the volcano error when its step fails, and otherwise the response with the plots that made it, the narrative and the summary |
| ResearchRouter.VolcanoGate | backend/routers/research.py:105-119 | a request succeeds exactly when the metadata, the DEG file and its analysis are sound and the volcano figure is drawn; otherwise the volcano failure is a 500 "Analysis error" |
| ResearchRouter.VolcanoStepOk | backend/routers/research.py:105-119 | on a frame the analysis accepted, the volcano step fails only when its figure is not drawn |
| ResearchRouter.PlotsMembership | backend/routers/research.py:103-241 | a successful answer holds the plot of step k exactly when that step succeeded |
| ResearchRouter.HeatmapStepAsWritten | backend/routers/research.py:136-139 | on a successful answer whose DEG table has rows, the heatmap call as written raises (so the endpoint as written lists no heatmap), while the model lists the heatmap exactly when the plotting library finishes |
| ResearchRouter.PlotsOrdered | backend/routers/research.py:103-241 | a successful answer lists the volcano plot first, then each plot once, in running order |
| ResearchRouter.SuccessPlots | backend/routers/research.py:103-241 | the plot list holds exactly the steps that succeed, in step order |
| ResearchRouter.RefsSteps | backend/routers/research.py:112-238 | plot references name their steps one to one and keep their order |
| ResearchRouter.StepFailureKeepsOutcome | backend/routers/research.py:120-241 | a failing step after the volcano plot never changes whether the request succeeds |
| ResearchRouter.StepFailureOnlyOmits | backend/routers/research.py:130-241 | a step after the volcano plot that fails is only left out: the request still succeeds and every other plot stays |
| ResearchRouter.StepFailureKeepsSummary | backend/routers/research.py:244-259 | such a failure changes neither the summary, nor the narrative, nor the project name |
| ResearchRouter.PathwayNeedsEnrichment | backend/routers/research.py:81-160 | the pathway plot is present exactly when a non-empty enrichment file was uploaded and parsed and its plot was drawn |
| ResearchRouter.EnrichmentIsolation | backend/routers/research.py:94-100 | the enrichment file, uploaded or not, parsed or not, never decides whether the request succeeds |
| ResearchRouter.EnrichmentKeepsPlots | backend/routers/research.py:94-160 | when the request succeeds, changing the enrichment file changes no plot except the pathway plot |
| ResearchRouter.EnrichmentKeepsSummary | backend/routers/research.py:94-259 | changing the enrichment file changes neither the DEG count nor the narrative |
| ResearchRouter.SummarySpec | backend/routers/research.py:244-256 | the summary's up and down counts are the volcano plot's red and blue points; up + down = num_deg <= total_genes = rows read; the file names are those of the request |

## Left out

- Floating point: values are reals. `round(x, 2)` and `round(x, 3)` (`Numerics.Round2`, `Numerics.Round3`) round half up, while Python rounds binary floats half-to-even. f-string number formats (`:.1f`, `:.2f`, `:,`) are parameters, except the thousands grouping of integers.
- Case mapping and `strip()` cover ASCII only. There is no Unicode case folding.
- Reading files: pandas' CSV, TSV and Excel readers are not modelled. The model keeps only the choice of reader by suffix; the frame read, or the error raised, is a parameter of the research endpoint. Upload I/O and `await` are left out.
- Plot images: matplotlib and seaborn rendering, base64 encoding, `-log10` axis values, colours, titles and figure sizes are left out. Each plot is modelled by the decisions it takes before drawing. Whether the drawing finishes is a flag per step.
- scikit-learn fits (scaling, SVM, random forest, clustering, Lasso, Ridge, PCA): the fitted values (importances, coefficients, cluster labels, silhouette score) are parameters. The model covers the sample selection, the synthetic labels, the fold count and the selections made from the fitted values. Of the library's own errors, the classifiers' are modelled: an SVC fit on a single class, and `cross_val_score` refusing fewer than two folds or more folds than any class has members.
- Random numbers (`np.random.randn`) are parameters, one draw per call.
- PlotGenerator.GenerateHeatmap: it models the intended `nlargest` by abs(log2fc) (see Findings); `HeatmapAsWritten` models the call as written. The row count it returns is a parameter, and which rows are picked is not modelled.
- MlAnalyzer.Svm, MlAnalyzer.Forest: the errors are named by cause, not by sklearn's message text. A fit that fails inside one fold of `cross_val_score` is not modelled: sklearn then only warns, unless every fold fails. SVC's internal probability calibration (`probability=True`) is assumed to succeed. The research endpoint only calls them with two classes.
- MlAnalyzer.TopFeaturesSpec, MlAnalyzer.RidgeSpec: `np.argsort` is not stable. The model breaks ties by index, so the order of equal keys may differ from numpy's.
- Duplicate column names: a lookup takes the first column of that name. pandas would return a frame.
- ResearchRouter.ParseMetadata: pydantic's coercion is reduced to "a string or null is accepted, anything else is a validation error". The validation error text is a parameter.
- ResearchRouter.VolcanoGate: the error detail is modelled as `str()` of the inner `HTTPException`, "500: Failed to generate volcano plot: …". The exception text of library failures is a parameter.
- ResearchRouter: library failures other than those modelled (a missing column, a non-numeric column, a read error, and the cross-validation errors of `CrossValidate`: fewer than two folds, or more folds than any class has) are the `completes` flags. A failure of the narrative or the summary after the plots is not modelled.
- ResearchRouter.RunFigureSteps: the heatmap step runs the corrected `GenerateHeatmap`, not the call as written, which raises on every table with rows (see Findings and `HeatmapStepAsWritten`); the endpoint as written therefore never lists a heatmap for such a table, and the model does when the library finishes.
- ResearchRouter.SummarySpec: `summary_stats` holds the counts as integers and the rounded figures as reals. Plot descriptions that quote fitted numbers are left out.
- ResearchService: the fixed narrative text is a template constant. The lemmas are proved for every template of the same shape. The `.get(key, 0)` defaults are modelled.
- genetics_engine.py imports `compute_trait_specific_percentile`, which personal_service.py does not define, so the module would fail to import. That function is a parameter here. No router calls this module.
- backend/main.py (app setup and CORS), backend/routers/report.py and the pydantic schemas' own validation are not part of this model.

## Findings

| source | as written | input that shows it | evidently intended | confidence | as-written member | corrected member |
|---|---|---|---|---|---|---|
| backend/services/genetics_engine.py:200-204 | the rsID is upper-cased (`RS762551`) before it is looked up in `SNP_RULES`, whose keys are lower case (`rs762551`, lines 14, 49, 84, 118, 153), so no table SNP is ever found and every SNP gets the generic card | `{"rsid": "rs762551", "genotype": "CC"}` gets domain "Genetic Variant" and score 0.5 | look the rsID up in lower case, so that rs762551/CC gets the "Caffeine Metabolism" card with score 0.2 | high; not executed | GeneticsEngine.InterpretSnpIsGeneric, GeneticsEngine.CaseBugWitness | GeneticsEngine.CorrectedUsesRule |
| backend/services/plot_generator.py:179-184 | both calls are `df.nlargest(top_n, df['log2fc'].abs())`: the second argument should name columns, and pandas takes the Series' values as column labels, none of which is a header | any DEG table with a `log2fc` column and one row or more: the heatmap raises, and the research endpoint never shows a heatmap | `df.nlargest(top_n, 'abs_log2fc')` on an added abs(log2fc) column, or `df.loc[df['log2fc'].abs().nlargest(top_n).index]` | medium (depends on pandas' `nlargest`, which is not part of this repository); not executed | PlotGenerator.HeatmapAsWritten, PlotGenerator.HeatmapNeverDrawn, ResearchRouter.HeatmapStepAsWritten | PlotGenerator.GenerateHeatmap |
