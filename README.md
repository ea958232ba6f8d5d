# Military register page scripts, modelled in Dafny

This project models the text-processing core of a set of scripts that work on
PAGE-XML transcriptions of scanned military registers ("stamboeken"). A page is
modelled as the sequence of `TextLine` records that the scripts' XPath queries
select, in document order. Each record holds:

- the parent region id and the line id;
- the optional `PlainText` text;
- the optional `Coords` points string;
- the `custom` attribute.

The five scripts are modelled one module each:

| script | module(s) | what it does |
|---|---|---|
| `src/evaluation.py` | `Evaluation`, `EvaluationFacts` | The polygon scorer. It parses `points` strings, reads the `type:X;` label, matches predicted lines against ground-truth polygons per page, and aggregates the counts of a run. It then derives per-label mean IoU, precision, recall and F1 under their "no value" (NaN) guards, plus macro averages. |
| `src/label_regions.py` | `LabelRegions`, `LabelRegionsFacts` | The four-label line labeller. A cascade of nine regular-expression cases appends ` structure {type:X;}` markers to each line's `custom` attribute in place. It also builds the name of the labelled output file. |
| `src/fix_transcript.py` | `FixTranscript` | The transcript un-shifter. It moves every character of every `PlainText` and `Unicode` text one code point down, in place. It also builds the output path. |
| `src/extract_information_regex.py` | `ExtractInformation`, `ExtractInformationFacts`, `Literals` | The genealogy extractor. It captures father, mother, birth date, birth place and last residence with last-wins and first-wins rules. It also builds the per-region text, the campaign list and the military-posting events, and produces the eight cells it hands to the CSV writer for a page. |
| `src/extract_folio.py` | `ExtractFolio`, `ExtractFolioFacts` | The folio finder. It keeps the texts that mention `folio <number>`, collects one record per page that has `PlainText`, logs the pages without any, and produces the CSV rows. |

Three modules are shared:

- `Wrappers` holds `Option` and `Result`.
- `Page` holds the line record, the uncaught exception kinds (`Fault`), the parsed-or-not `Document` type and `IsXmlName` (`endswith(".xml")`).
- `Text` holds the Python string operations the scripts use:
  - `str.split` and `str.join`;
  - `str.strip`, with and without a character set;
  - `str.isspace`;
  - ASCII `int()`, which ignores surrounding white space, and `str()`.

`Literals` holds Python's `repr` of a string and `str` of a two-key dict, as the genealogy extractor writes them into its cells, with a reader that undoes them.

The regular expressions are written out as predicates that follow Python `re`:

- greedy and lazy runs;
- `.` never crosses a newline;
- `$` also matches before a final newline;
- `^` without MULTILINE matches only at position 0;
- `\b`;
- IGNORECASE folding.

Uncaught Python exceptions become `Err(Fault)` results. The `XMLSyntaxError` that every script catches becomes the `Malformed` document case.

Where the code does state in place, the model is imperative:

- `Evaluation.MatchLine` keeps the `already_found` flag.
- `LabelRegions.LabelXml` updates an array of lines and keeps `new_region` from line to line.
- `FixTranscript.Fix` updates an array of `TextEquiv` elements.
- `ExtractInformation.ScanLines` and `ExtractFolio.CollectDir` run the loops of their scripts.

Each such method is proved equal to a function, and the lemmas in the `*Facts` modules state the scripts' promises about that function.

Polygon geometry (shapely) is a parameter: a `Geometry<G>` value supplies the polygon constructor and the intersection and union areas. The only facts assumed about it are the predicate `Laws`:

- 0 ≤ intersection ≤ union;
- a polygon's intersection with itself equals its union with itself.

## Model

| member | source | states |
|---|---|---|
| `Evaluation.ParsePointsFrom` | src/evaluation.py:31-35 | A failure is always the ValueError of `int()` or the IndexError of a token without a comma. |
| `Evaluation.ParseCoords` | src/evaluation.py:20-37 | `coords_to_int` fails only with `int()`'s ValueError or a missing y part. |
| `Evaluation.CoordsToInt` | src/evaluation.py:30-37 | The append loop returns exactly `ParseCoords`. |
| `EvaluationFacts.ParseEachShape` | src/evaluation.py:31-35 | Parsing every token with any parser succeeds iff each token parses; the result keeps the accumulator and adds one value per token, in order. |
| `EvaluationFacts.ParsePointsFromShape` | src/evaluation.py:31-35 | Parsing succeeds iff every token parses. The result is the accumulator followed by one point per token, in token order. |
| `EvaluationFacts.CoordsOnePointPerToken` | src/evaluation.py:30-37 | `coords_to_int` succeeds iff every space-separated token parses, and then returns one pair per token, in input order. |
| `EvaluationFacts.EmptyCoordsFault` | src/evaluation.py:31-33 | An empty points string raises: `int('')` fails. |
| `EvaluationFacts.ParseShowPoint` | src/evaluation.py:32-35 | A printed point parses back to itself and holds no space. |
| `EvaluationFacts.ParseShownPoints` | src/evaluation.py:31-35 | Parsing the printed tokens of a list of points returns the accumulator followed by those points. |
| `EvaluationFacts.CoordsRoundTrip` | src/evaluation.py:20-37 | `coords_to_int` of a printed non-empty point list gives the list back. |
| `Evaluation.LabelIndexFrom` | src/evaluation.py:67-70 | The index found holds the tag. `None` means no key from `k` on equals it. |
| `Evaluation.LabelIndex` | src/evaluation.py:67-70 | A found index is one of the 18 dict positions. |
| `Evaluation.FirstTypeAt` | src/evaluation.py:100 | Returns the leftmost position at or after `s` where `type:(.*?);` matches. `None` means no match anywhere. |
| `EvaluationFacts.TypeGroupAtSpec` | src/evaluation.py:100 | `type:(.*?);` at `s` captures `g` iff `type:` and `g` follow, then `;`. `g` holds neither `;` nor a newline. |
| `EvaluationFacts.LabelOfIsLeftmost` | src/evaluation.py:100-102 | The label is the group of the leftmost `type:...;` match. |
| `EvaluationFacts.LabelOfWithoutType` | src/evaluation.py:100-104 | Without any match the label is "no label". |
| `EvaluationFacts.NoLabelIsNoKey` | src/evaluation.py:104-107 | "no label" is not a key of the counter dicts. |
| `EvaluationFacts.NameTagGroup` | src/evaluation.py:100 | In `structure {type:Name;}` the pattern captures `Name` at offset 11. |
| `EvaluationFacts.NoTypeBeforeName` | src/evaluation.py:100 | No earlier offset of that attribute matches. |
| `EvaluationFacts.LabelOfNameTag` | src/evaluation.py:99-102 | The label of `structure {type:Name;}` is `Name`. |
| `Evaluation.Increment` | src/evaluation.py:107 | A successful `d[tag] += 1` keeps the 18 entries. |
| `Evaluation.Bump` | src/evaluation.py:107 | Adding one keeps the dict's size. |
| `EvaluationFacts.BumpSpec` | src/evaluation.py:107 | Adding one at `k` raises that count by one, leaves the others and raises the total by one. |
| `EvaluationFacts.IncrementSpec` | src/evaluation.py:107 | `d[tag] += 1` raises KeyError iff the tag is not one of the 18 keys. Otherwise only the tag's count grows, by one. |
| `EvaluationFacts.IncrementAt` | src/evaluation.py:107 | For a known tag, the update is the increment at the tag's index. |
| `Evaluation.GtStart` | src/evaluation.py:75-83 | The ground-truth phase starts with 18 counters and an empty polygon dict. |
| `Evaluation.GtStep` | src/evaluation.py:96-114 | One ground-truth line keeps the 18 counters and never divides. |
| `Evaluation.GtScan` | src/evaluation.py:94-114 | The ground-truth loop keeps the 18 counters and never divides. |
| `Evaluation.ScanGt` | src/evaluation.py:94-114 | The imperative ground-truth loop returns what `GtScan` does. |
| `Evaluation.GtPhase` | src/evaluation.py:86-117 | The ground-truth phase, including a malformed file, keeps 18 counters. It never raises a division fault. |
| `EvaluationFacts.KeyIndex` | src/evaluation.py:114 | Finds the first entry whose key is `g`, or reports that none has it. |
| `EvaluationFacts.PutShape` | src/evaluation.py:114 | `d[g] = label` appends a new key and replaces the value of an existing key in place. |
| `EvaluationFacts.PutSpec` | src/evaluation.py:114 | After `d[g] = label`, `g` maps to the label and every other key is unchanged. The dict grows only for a new key, and keys stay distinct. |
| `EvaluationFacts.PutOther` | src/evaluation.py:114 | Storing under `g` does not change any other key's value. |
| `EvaluationFacts.PutDistinct` | src/evaluation.py:114 | Storing keeps the keys distinct. |
| `EvaluationFacts.GtScanCounts` | src/evaluation.py:94-114 | Every line adds one to the ground-truth total. The dict gains at most one key per line, and its keys stay distinct. |
| `EvaluationFacts.GtPhaseCountsLines` | src/evaluation.py:86-114 | The ground-truth total equals the number of lines. The dict never has more entries than there are lines. |
| `EvaluationFacts.StartTotal` | src/evaluation.py:75-83 | At the start the total is zero and the dict empty. |
| `EvaluationFacts.ZeroTotal` | src/evaluation.py:75-78 | A dict of zeros totals zero. |
| `EvaluationFacts.RepeatedPolygonKeepsLastLabel` | src/evaluation.py:107-114 | Two lines with the same polygon leave one dict entry, carrying the later label. Both lines are still counted. |
| `EvaluationFacts.UnlabelledGtLineFaults` | src/evaluation.py:99-107 | A ground-truth line without `type:...;` raises KeyError on "no label". |
| `Evaluation.Record` | src/evaluation.py:162-175 | Recording one overlapping pair changes neither the predicted nor the ground-truth counts. |
| `Evaluation.RecordPair` | src/evaluation.py:162-175 | The in-place steps for one pair give `Record`. `already_found` becomes true once an intersection is at least 0.9. |
| `Evaluation.MatchGt` | src/evaluation.py:154-175 | The inner loop keeps the shape of the tally and leaves the predicted and ground-truth counts alone. |
| `Evaluation.MatchLine` | src/evaluation.py:154-175 | The imperative inner loop, starting with `already_found = False`, returns `MatchGt`. |
| `Evaluation.ExpStep` | src/evaluation.py:139-175 | One predicted line leaves the ground-truth counts alone. |
| `Evaluation.ExpScan` | src/evaluation.py:128-175 | The predicted-line loop leaves the ground-truth counts alone. |
| `Evaluation.ScanExp` | src/evaluation.py:128-175 | The imperative predicted-line loop, including its `break`, returns `ExpScan`. |
| `Evaluation.PageScore` | src/evaluation.py:40-180 | A page result has all 18 entries in every dict. |
| `Evaluation.CalcMiou` | src/evaluation.py:40-180 | The two phases of `calc_miou` return `PageScore`. |
| `EvaluationFacts.Hits` | src/evaluation.py:156-160 | The entries that yield an observation have the predicted label and a positive intersection. |
| `EvaluationFacts.Ious` | src/evaluation.py:162-164 | Gives one IoU per hit. |
| `EvaluationFacts.CountAtLeast` | src/evaluation.py:168-169 | Counts how many IoUs reach a bound; never more than the list holds. |
| `EvaluationFacts.HitsHavePositiveUnions` | src/evaluation.py:162-163 | Under `Laws`, every hit has a positive union, so the division cannot fail. |
| `EvaluationFacts.Absorb` | src/evaluation.py:164-175 | Adding a list of IoUs and an Evaluation-2 count to one label keeps the tally's shape. |
| `EvaluationFacts.AbsorbNothing` | src/evaluation.py:155-175 | Absorbing nothing leaves the tally unchanged. |
| `EvaluationFacts.AbsorbRecord` | src/evaluation.py:162-175 | One recorded pair followed by the rest is the same as absorbing the whole list at once. |
| `EvaluationFacts.HitsHead` | src/evaluation.py:156-165 | A same-label overlapping first entry is the first hit, and its IoU comes first. |
| `EvaluationFacts.HitsSkip` | src/evaluation.py:156-160 | A first entry with a different label or no overlap is skipped. |
| `EvaluationFacts.MatchGtSpec` | src/evaluation.py:154-175 | The inner loop appends the IoUs of exactly the same-label overlapping polygons, in dict order. It adds one Evaluation-1 TP per IoU ≥ 0.5. It adds one Evaluation-2 TP iff not yet found and some intersection is ≥ 0.9. |
| `EvaluationFacts.MatchGtHit` | src/evaluation.py:156-175 | The same as `MatchGtSpec`, when the first entry is a hit. |
| `EvaluationFacts.IousInUnitInterval` | src/evaluation.py:162-163 | Under `Laws`, every IoU lies in (0, 1]. |
| `EvaluationFacts.CountAtLeastMember` | src/evaluation.py:168 | An IoU at or above the bound counts at least once. |
| `EvaluationFacts.SelfHit` | src/evaluation.py:156-164 | A ground-truth entry equal to the predicted polygon and label yields IoU 1.0. |
| `EvaluationFacts.HitsContain` | src/evaluation.py:156-160 | Every same-label overlapping entry is a hit. |
| `EvaluationFacts.IousContain` | src/evaluation.py:163-164 | Every hit contributes its intersection over union. |
| `EvaluationFacts.SelfIou` | src/evaluation.py:162-163 | A polygon's IoU with itself is 1. |
| `EvaluationFacts.SelfMatchScoresOne` | src/evaluation.py:156-169 | A prediction identical to a ground-truth polygon scores IoU 1.0 and at least one Evaluation-1 TP. |
| `EvaluationFacts.OtherLabelsIgnored` | src/evaluation.py:158-160 | Overlaps with polygons of other labels contribute nothing. |
| `EvaluationFacts.MatchGtBounds` | src/evaluation.py:154-175 | Evaluation 2 adds at most one per predicted line, and none once found. Evaluation-1 TPs never outnumber the IoUs added. |
| `EvaluationFacts.ExpStepSound` | src/evaluation.py:139-175 | One predicted line keeps Evaluation-2 TP ≤ predicted count and Evaluation-1 TP ≤ number of IoUs, per label. |
| `EvaluationFacts.ExpScanSound` | src/evaluation.py:128-175 | The predicted-line loop keeps those two bounds. |
| `EvaluationFacts.AbsorbUnit` | src/evaluation.py:163-165 | Adding IoUs from (0, 1] keeps every recorded IoU in (0, 1]. |
| `EvaluationFacts.ExpStepUnderLaws` | src/evaluation.py:139-175 | Under `Laws`, a predicted line keeps every IoU in (0, 1] and never divides by zero. |
| `EvaluationFacts.ExpScanUnderLaws` | src/evaluation.py:128-175 | The same for the whole predicted-line loop. |
| `EvaluationFacts.ExpScanStopsAtMissingCoords` | src/evaluation.py:132-136 | The first line without Coords ends the scan. Later lines change nothing. |
| `EvaluationFacts.MatchGtKeepsPred` | src/evaluation.py:151-175 | Matching does not change the predicted counts. |
| `EvaluationFacts.ExpScanCountsLines` | src/evaluation.py:128-151 | The predicted total grows by the number of leading lines that have Coords. |
| `EvaluationFacts.ExpScanWithoutEntries` | src/evaluation.py:155-175 | With no ground-truth polygon, nothing but the predicted counts changes. |
| `EvaluationFacts.PageScoreSound` | src/evaluation.py:40-180 | A page result satisfies Evaluation-2 TP ≤ predicted and Evaluation-1 TP ≤ number of IoUs. |
| `EvaluationFacts.PageScoreUnderLaws` | src/evaluation.py:40-180 | Under `Laws`, a page's IoUs lie in (0, 1] and it never divides by zero. |
| `EvaluationFacts.MalformedGtMatchesNothing` | src/evaluation.py:116-117 | A malformed ground truth yields no IoU, no TP and no ground-truth count. |
| `Evaluation.Merge` | src/evaluation.py:246-251 | Merging two page results keeps the 18-entry shape. |
| `Evaluation.Fold` | src/evaluation.py:236-251 | The running totals keep the 18-entry shape. |
| `Evaluation.PageScoresFrom` | src/evaluation.py:236-243 | Every collected page result has the 18-entry shape. |
| `Evaluation.PageScores` | src/evaluation.py:236-243 | Every page result of the walk has the 18-entry shape. |
| `Evaluation.Totals` | src/evaluation.py:236-251 | The walk's in-place merges give the fold of the page results. |
| `EvaluationFacts.MergeAssociative` | src/evaluation.py:246-251 | Merging is associative. |
| `EvaluationFacts.MergeEmpty` | src/evaluation.py:184-209 | The initial dicts of `main` are a unit of the merge. |
| `EvaluationFacts.FoldAppend` | src/evaluation.py:236-251 | The totals of two runs of pages are the merge of their totals: corpus totals are per-label sums and concatenations in file order. |
| `EvaluationFacts.FoldSingle` | src/evaluation.py:246-251 | The total of one page is that page's result. |
| `EvaluationFacts.MergeSound` | src/evaluation.py:246-251 | Merging keeps both TP bounds. |
| `EvaluationFacts.MergeUnit` | src/evaluation.py:246-251 | Merging keeps every IoU in (0, 1]. |
| `EvaluationFacts.FoldKeeps` | src/evaluation.py:236-251 | The totals keep the TP bounds and the (0, 1] IoUs of the pages. |
| `EvaluationFacts.PageScoresFromShape` | src/evaluation.py:236-243 | The results already collected stay. The new ones are those of the `.xml` pages, one each, in order. |
| `EvaluationFacts.PageScoresAreXmlPages` | src/evaluation.py:236-243 | The run scores exactly the `.xml` files, in walk order. |
| `EvaluationFacts.PageScoresFromKeep` | src/evaluation.py:236-243 | Every page result keeps the TP bounds. Under `Laws` every IoU is in (0, 1] and no division fails. |
| `Evaluation.Present` | src/evaluation.py:303 | `np.nanmean` sees at most as many values as there are entries. |
| `EvaluationFacts.PresentSpec` | src/evaluation.py:303-309 | The non-NaN values are exactly the defined entries. |
| `EvaluationFacts.RatioSpec` | src/evaluation.py:266-275 | A guarded ratio is defined iff the denominator is not 0. It is then the exact quotient, and at most 1 when the numerator is at most the denominator. |
| `EvaluationFacts.QuotientBounds` | src/evaluation.py:280 | A quotient of bounded sums lies within the bounds. |
| `EvaluationFacts.F1Spec` | src/evaluation.py:278-281 | F1 is defined iff precision and recall both are and their sum is not 0. It then lies between them. |
| `EvaluationFacts.SumBounds` | src/evaluation.py:302 | A sum of bounded values lies between count·low and count·high. |
| `EvaluationFacts.SumPositive` | src/evaluation.py:302 | A non-empty sum of positive values is positive. |
| `EvaluationFacts.MeanBounds` | src/evaluation.py:302 | The mean of bounded values lies within the bounds. It is positive for positive values. |
| `EvaluationFacts.NanMeanBounds` | src/evaluation.py:255-303 | `nanmean` is defined iff some entry is. It then lies within the entries' bounds. |
| `EvaluationFacts.FlattenHoldsAll` | src/evaluation.py:260-263 | `all_ious` has every per-label IoU and no other. |
| `EvaluationFacts.FlattenWithin` | src/evaluation.py:260-263 | Bounds on every per-label IoU carry over to `all_ious`. |
| `EvaluationFacts.FlattenEmptyTail` | src/evaluation.py:260-263 | Empty trailing lists add nothing to `all_ious`. |
| `EvaluationFacts.ExampleFlatten` | src/evaluation.py:260-263 | IoU lists [0.5, 0.5] and [1.0] flatten to [0.5, 0.5, 1.0]. |
| `EvaluationFacts.PresentNoneTail` | src/evaluation.py:303 | Trailing NaNs contribute nothing. |
| `EvaluationFacts.ExamplePresent` | src/evaluation.py:303 | Means 0.5, 1.0 and NaN elsewhere leave [0.5, 1.0]. |
| `EvaluationFacts.ExampleSums` | src/evaluation.py:302-303 | The sums used by the example below. |
| `EvaluationFacts.MeanOfAllVersusMacro` | src/evaluation.py:302-303 | mIoU (2/3) and macro mIoU (0.75) differ on the same IoUs. |
| `Evaluation.LabelTable` | src/evaluation.py:254-299 | The per-label loops give, for every label, `MetricsOf`. |
| `Evaluation.AllIous` | src/evaluation.py:260-263 | The nested loops build `Flatten` of the per-label lists. |
| `Evaluation.Metrics` | src/evaluation.py:253-309 | The metric loops and the printed figures give `MakeReport`. |
| `Evaluation.Evaluate` | src/evaluation.py:182-309 | `main` gives `Outcome`: the totals of the walk, then the report. |
| `EvaluationFacts.ReportBounds` | src/evaluation.py:253-309 | `mean(all_ious)` raises iff no IoU was recorded. Otherwise mIoU, every mean IoU and the macro mIoU lie in (0, 1], and Evaluation-2 precisions lie in [0, 1]. |
| `EvaluationFacts.ReportRows` | src/evaluation.py:254-299 | One row per label. Its mean IoU is in (0, 1] and its Evaluation-2 precision in [0, 1] when defined. |
| `EvaluationFacts.ReportMacroMiou` | src/evaluation.py:303 | The macro mIoU, when defined, lies in (0, 1]. |
| `EvaluationFacts.ReportMacroPrecision2` | src/evaluation.py:307 | The macro Evaluation-2 precision, when defined, lies in [0, 1]. |
| `EvaluationFacts.MetricsBounds` | src/evaluation.py:254-287 | The per-label bounds, for one label. |
| `EvaluationFacts.OutcomeBounds` | src/evaluation.py:182-309 | Under `Laws`, a run never divides by zero, and its mIoU, macro mIoU and Evaluation-2 macro precision are in range. |
| `EvaluationFacts.PrecisionOneCanExceedOne` | src/evaluation.py:266-269 | Because lines 168-169 count a TP for every overlapping polygon, one predicted line over two same-label polygons gives two Evaluation-1 TPs, so Evaluation-1 precision 2. |
| `EvaluationFacts.AreaCriterionIgnoresIou` | src/evaluation.py:168-175 | An intersection of 0.95 area units counts for Evaluation 2 even though its IoU is tiny. |
| `LabelRegions.LabelLines` | src/label_regions.py:74-149 | Labelling keeps the number of lines. |
| `LabelRegions.GeborenNeverMatches` | src/label_regions.py:100 | Case 3 never matches any text, so it never adds Date. |
| `LabelRegions.WithCustom` | src/label_regions.py:90 | `line.set("custom", v)` on the line list sets that line's attribute and keeps the length. |
| `LabelRegions.WithCustomTwice` | src/label_regions.py:88-149 | Setting the attribute twice leaves the later value. |
| `LabelRegions.AppendMarker` | src/label_regions.py:88-90 | The line's `custom` becomes its old value plus ` structure {type:X;}`. That value is returned as `new_region`. |
| `LabelRegions.SetCustom` | src/label_regions.py:118 | Only the one line's `custom` changes. |
| `LabelRegions.EarlyCasesOn` | src/label_regions.py:85-111 | Cases 1-4 in place equal `EarlyCases`. |
| `LabelRegions.Case5On` | src/label_regions.py:113-118 | Case 5 in place equals `Case5`, including UnboundLocalError when `new_region` was never set. |
| `LabelRegions.LateCasesOn` | src/label_regions.py:120-140 | Cases 6-8 in place equal `LateCases`. |
| `LabelRegions.Case9On` | src/label_regions.py:142-149 | Case 9 in place equals `Case9`, including the faults of `float()` and `int(width)`. |
| `LabelRegions.LabelText` | src/label_regions.py:85-149 | The whole cascade in place equals `Cascade`. |
| `LabelRegions.LabelLinesStep` | src/label_regions.py:74-149 | Labelling one more line moves it from the lines to do to the lines done. |
| `LabelRegions.AfterNothing` | src/label_regions.py:74 | Before the first line nothing is done. |
| `LabelRegions.LabelXml` | src/label_regions.py:58-149 | The loop over the page's lines leaves the array equal to `LabelPage`, or raises its fault. |
| `LabelRegionsFacts.MarkersAppend` | src/label_regions.py:89 | The markers of two label runs are the two marker texts concatenated. |
| `LabelRegionsFacts.IsMarkersConcat` | src/label_regions.py:89 | Two runs of markers make a run of markers. |
| `LabelRegionsFacts.MarkerIsMarkers` | src/label_regions.py:89 | One label's text is a run of markers. |
| `LabelRegionsFacts.ExtendsRefl` | src/label_regions.py:88-149 | A value extends itself. |
| `LabelRegionsFacts.ExtendsTrans` | src/label_regions.py:88-149 | Appending markers after appending markers is appending markers. |
| `LabelRegionsFacts.ExtendsMark` | src/label_regions.py:89 | Appending one marker keeps the old value as a prefix. |
| `LabelRegionsFacts.ExtendsHoldsTag` | src/label_regions.py:89-131 | A value that extends one ending in a marker contains `{type:X;}`. |
| `LabelRegionsFacts.EarlyCasesAppend` | src/label_regions.py:85-111 | Cases 1-4 only append markers. When any of them fires, `new_region` is the line's new value; otherwise nothing changes. |
| `LabelRegionsFacts.LateCasesAppend` | src/label_regions.py:120-140 | Cases 6-8 only append markers and keep `new_region` in step. |
| `LabelRegionsFacts.Case9Guard` | src/label_regions.py:143-149 | Case 9 appends Name only when the whole text is capitalised words, x < width/4 and `{type:Name;}` is absent. Otherwise it leaves the line as it is. |
| `LabelRegionsFacts.Case9Append` | src/label_regions.py:143-149 | Case 9 only appends. |
| `LabelRegionsFacts.CascadeAfterEarly` | src/label_regions.py:85-149 | After a Case 1-4 match, the rest of the cascade only appends. |
| `LabelRegionsFacts.CascadeAppendOnly` | src/label_regions.py:85-149 | Unless Case 5 reads another line's stale value, labelling keeps the old `custom` as a prefix and only adds markers. |
| `LabelRegionsFacts.Case5ReadsStaleRegion` | src/label_regions.py:114-118 | With the `nnew_region` typo, a Case 5 line without an earlier match on it is set to the stale `new_region` plus Place. If `new_region` was never set, it raises. |
| `LabelRegionsFacts.CascadeWritten` | src/label_regions.py:85-149 | After the cascade, `new_region` holds the line's value if any case wrote. The only faults are the unbound `new_region` of Case 5 and the `float()`/`int()` faults of Case 9. |
| `LabelRegionsFacts.FatherAndMotherGiveTwoNames` | src/label_regions.py:86-97 | A text matching both Vader and Moeder gets Name twice. |
| `LabelRegionsFacts.DateSuppressesYear` | src/label_regions.py:121-140 | After a Case 6 date, Case 7's guard adds no second Date. Cases 6-8 add Date, then Orde if it matches. |
| `LabelRegionsFacts.PlaceSurvives` | src/label_regions.py:107-149 | A Case 4 match leaves `{type:Place;}` in the final value. |
| `LabelRegionsFacts.DateAndOrdeSurvive` | src/label_regions.py:121-149 | A date and `orde` leave both markers after Case 9. |
| `LabelRegionsFacts.PlaceDateAndOrdeTogether` | src/label_regions.py:107-149 | One line can carry Place, Date and Orde together. |
| `LabelRegionsFacts.PlaceExample` | src/label_regions.py:107 | Example: `te Amsterdam 12 Mei 1889 Orde` matches Case 4. |
| `LabelRegionsFacts.PlaceParts` | src/label_regions.py:107 | Example: The pieces of that match. |
| `LabelRegionsFacts.DateExample` | src/label_regions.py:121 | Example: The same text matches Case 6. |
| `LabelRegionsFacts.OrdeExample` | src/label_regions.py:136 | Example: The same text matches Case 8. |
| `LabelRegionsFacts.PlaceDateAndOrdeExample` | src/label_regions.py:107-136 | Example: All three patterns match that one text. |
| `LabelRegionsFacts.NamePatternExamples` | src/label_regions.py:143 | Examples: `Jan Jansen` matches Case 9. `Piet de Vries` (lower-case word) and `Kapitein` (one word) do not. |
| `LabelRegionsFacts.LabelLineShape` | src/label_regions.py:74-149 | A labelled line had text and coords and changes only in `custom`. It is untouched when its text is None, and it only gains markers unless Case 5 fires alone. |
| `LabelRegionsFacts.LabelLinesShape` | src/label_regions.py:74-149 | The same for every line of the page. The loop never raises the empty-page fault. |
| `LabelRegionsFacts.NoLinesFault` | src/label_regions.py:70 | `result[0]` raises iff the page has no selected line. |
| `LabelRegionsFacts.OutputPathStem` | src/label_regions.py:152-155 | The output name is the file name with characters of `_fixed.xml` stripped from both ends, not the suffix, plus `_labeled.xml` under `labeled`. |
| `FixTranscript.Shift` | src/fix_transcript.py:37 | Every character moves one code point down and the length is kept. `chr(-1)` raises iff the text holds U+0000. Otherwise it fails iff lxml refuses a shifted character. |
| `FixTranscript.ShiftRaise` | src/fix_transcript.py:37-44 | Shifting gives `u` iff moving every code point of `u` up gives the text back and lxml accepts `u`. |
| `FixTranscript.ShiftInjective` | src/fix_transcript.py:37 | Two texts with the same shift are equal. |
| `FixTranscript.SpaceIsRefused` | src/fix_transcript.py:37-38 | A text with a space fails: U+001F cannot be stored. |
| `FixTranscript.FixChild` | src/fix_transcript.py:33-38 | A missing child raises. A child with None text is kept. Otherwise the text is shifted or the shift's fault is raised. |
| `FixTranscript.FixEquivChildren` | src/fix_transcript.py:33-45 | `PlainText` and `Unicode` are fixed independently. A `PlainText` fault comes first. |
| `FixTranscript.FixEquivMissing` | src/fix_transcript.py:33-45 | A missing `PlainText` or `Unicode` child raises. A child with None text stays None. |
| `FixTranscript.FixAll` | src/fix_transcript.py:32-45 | Fixing keeps the number of elements. |
| `FixTranscript.FixAllPointwise` | src/fix_transcript.py:32-45 | Success iff every element fixes. Each result is that element's own fix, and the fault is the first element's fault. |
| `FixTranscript.OutputPathTwoUp` | src/fix_transcript.py:48-52 | The output goes to `fixed` two levels up, named after the `.xml`-character-stripped name plus `_fixed.xml`. |
| `FixTranscript.OutputPathShallow` | src/fix_transcript.py:48-52 | With fewer than two separators the output goes to `/fixed`. |
| `FixTranscript.OutputPathStem` | src/fix_transcript.py:49 | `strip('.xml')` removes characters of that set, and a stem not bounded by them survives. |
| `FixTranscript.FixDocument` | src/fix_transcript.py:15-55 | A missing file raises OSError. A malformed file hits the handler's undefined `file_path`. Otherwise `fix` succeeds iff every element fixes, and writes them to `OutputPath`. |
| `FixTranscript.Fix` | src/fix_transcript.py:32-45 | The in-place loop leaves the array equal to `FixAll`, or raises its fault. |
| `ExtractInformation.DateTail` | src/extract_information_regex.py:162 | A date tail match ends after its start. |
| `ExtractInformation.DateEnd` | src/extract_information_regex.py:162 | A date match ends after its start. |
| `ExtractInformation.LineStartBefore` | src/extract_information_regex.py:163-164 | The lazy `.*?` start lies between the search position and the date. |
| `ExtractInformation.SplitEvents` | src/extract_information_regex.py:166-172 | Gives one event per `findall` match. |
| `ExtractInformation.AddText` | src/extract_information_regex.py:119-124 | The region's text gets a space and the new text, or the region is added at the end. Other regions are unchanged. |
| `ExtractInformation.Cells` | src/extract_information_regex.py:176-184 | Eight cells, the first being the row name. The campaign cell is empty iff there are no campaigns, and the event cell iff there are no events. |
| `ExtractInformation.CampaignPairs` | src/extract_information_regex.py:155 | One `Year`/`Place` pair per campaign, in order. |
| `ExtractInformation.EventPairs` | src/extract_information_regex.py:167-170 | One `Context`/`Date` pair per event, in order. |
| `ExtractInformationFacts.CellsReadBack` | src/extract_information_regex.py:176-184 | The campaign and event cells read back into exactly the row's campaigns and events, in order. |
| `ExtractInformation.ExtractRow` | src/extract_information_regex.py:61-187 | A missing file raises. A malformed file hits the handler's undefined `file_path`. A parsed page succeeds iff every line has PlainText, and the row is named after the file. |
| `ExtractInformation.ReadLine` | src/extract_information_regex.py:126-150 | The in-place field updates of cases 1-5 equal `ReadFields`. |
| `ExtractInformation.ScanLines` | src/extract_information_regex.py:109-157 | The line loop equals `Scan`. |
| `ExtractInformation.EventsOfRegion` | src/extract_information_regex.py:162-172 | One region's loop equals `RegionEvents`. |
| `ExtractInformation.AllEvents` | src/extract_information_regex.py:160-172 | The region loop equals `EventsOf`. |
| `ExtractInformation.ExtractInformation` | src/extract_information_regex.py:96-172 | Lines 96-172 equal `Extract`. |
| `ExtractInformationFacts.GreedyKeywordNone` | src/extract_information_regex.py:127-134 | `.*Vader\s+(.+)` fails iff no position holds the keyword followed by white space and a character. |
| `ExtractInformationFacts.GreedyKeywordTakesLast` | src/extract_information_regex.py:127-129 | The greedy `.*` makes the capture the stripped rest after the LAST keyword occurrence. |
| `ExtractInformationFacts.KeyFirstExists` | src/extract_information_regex.py:127 | If the keyword matches somewhere, there is a first match. |
| `ExtractInformationFacts.KeyLast` | src/extract_information_regex.py:127 | The last match is found by a backward search. |
| `ExtractInformationFacts.FirstKeywordTakesFirst` | src/extract_information_regex.py:137-139 | `Geboren\s+(.+)` captures after its FIRST occurrence. |
| `ExtractInformationFacts.KeyFirst` | src/extract_information_regex.py:137 | The first match is found by a forward search. |
| `ExtractInformationFacts.FirstKeywordNone` | src/extract_information_regex.py:137-138 | No capture iff no position matches. |
| `ExtractInformationFacts.ResidenceTakesFirst` | src/extract_information_regex.py:148-150 | Case 5 captures after the first `laatst … gewoond te`. |
| `ExtractInformationFacts.ResidenceFirst` | src/extract_information_regex.py:148 | The first residence match is found by a forward search. |
| `ExtractInformationFacts.ResidenceNone` | src/extract_information_regex.py:148-149 | No residence iff no position matches. |
| `ExtractInformationFacts.StripKeepsFirst` | src/extract_information_regex.py:156 | Stripping a text that starts with a non-space keeps that first character. |
| `ExtractInformationFacts.CampaignTakesFirst` | src/extract_information_regex.py:154-156 | The campaign is the first word-bounded four-digit year followed by white space and a letter. The place starts with that letter. |
| `ExtractInformationFacts.CampaignNone` | src/extract_information_regex.py:154-155 | No campaign iff no position matches. |
| `ExtractInformationFacts.LastOfIsLast` | src/extract_information_regex.py:127-139 | Last-wins: the value is the capture of the last matching text, or none. |
| `ExtractInformationFacts.FirstOfIsFirst` | src/extract_information_regex.py:142-145 | First-wins: the value is the capture of the first matching text, or none. |
| `ExtractInformationFacts.Campaigns` | src/extract_information_regex.py:154-157 | At most one campaign per line. |
| `ExtractInformationFacts.ScanFaults` | src/extract_information_regex.py:112-113 | The loop succeeds iff every line has a PlainText child; otherwise it raises. |
| `ExtractInformationFacts.ReadFieldsStep` | src/extract_information_regex.py:126-150 | One line's fields compose with the rest as last-wins and first-wins. |
| `ExtractInformationFacts.ScanFields` | src/extract_information_regex.py:96-150 | Vader, Moeder, birth date and residence come from the last matching line. Birth place comes from the first, and a field never matched stays None. |
| `ExtractInformationFacts.StepCampaigns` | src/extract_information_regex.py:154-157 | One line appends its own campaigns. |
| `ExtractInformationFacts.CampaignsConcat` | src/extract_information_regex.py:154-157 | The campaigns of one line then the rest are the concatenation. |
| `ExtractInformationFacts.ScanCampaigns` | src/extract_information_regex.py:103-157 | The campaign list is the campaigns of the texts, in line order. |
| `ExtractInformationFacts.JoinFront` | src/extract_information_regex.py:121 | Appending ` text` to the first piece is joining one more piece. |
| `ExtractInformationFacts.ScanRegions` | src/extract_information_regex.py:115-124 | A region's text is its lines' texts joined by single spaces, in document order. Lines without text are skipped. |
| `ExtractInformationFacts.LookupKeys` | src/extract_information_regex.py:119 | A region is found iff its id is a key. |
| `ExtractInformationFacts.ScanKeysDistinct` | src/extract_information_regex.py:119-124 | Region ids stay distinct. |
| `ExtractInformationFacts.DateTailIgnoresCase` | src/extract_information_regex.py:164-167 | A date tail found case-sensitively is found identically under IGNORECASE. |
| `ExtractInformationFacts.LetterRun` | src/extract_information_regex.py:162-167 | The upper and lower runs make one letter run under IGNORECASE. |
| `ExtractInformationFacts.DateEndIgnoresCase` | src/extract_information_regex.py:164-167 | The same for the whole date pattern. |
| `ExtractInformationFacts.DateTailElim` | src/extract_information_regex.py:162 | A date tail consists of a space, letters, a space, four digits 1-9 and dots. |
| `ExtractInformationFacts.DateRunsOnSlice` | src/extract_information_regex.py:162-167 | The runs of a date are the same on a slice that holds them. |
| `ExtractInformationFacts.DateTailOnSlice` | src/extract_information_regex.py:164-167 | A date tail matches the same way inside the `findall` match. |
| `ExtractInformationFacts.DateTailSlice` | src/extract_information_regex.py:164-167 | The same, from a match. |
| `ExtractInformationFacts.DateEndElim` | src/extract_information_regex.py:162 | A date starts with one or two digits before its tail. |
| `ExtractInformationFacts.DateEndIntroTwo` | src/extract_information_regex.py:162 | Two digits and a tail make a date. |
| `ExtractInformationFacts.DateEndIntroOne` | src/extract_information_regex.py:162 | One digit and a tail make a date. |
| `ExtractInformationFacts.DateEndSlice` | src/extract_information_regex.py:164-167 | A date matches the same way inside the match. |
| `ExtractInformationFacts.DayOnSlice` | src/extract_information_regex.py:164-167 | The day digits carry over to the slice. |
| `ExtractInformationFacts.SearchEventFinds` | src/extract_information_regex.py:167 | A date on the first line of a text is found by the search. |
| `ExtractInformationFacts.NoNewlineOnSlice` | src/extract_information_regex.py:163-167 | A newline-free stretch stays newline-free in the slice. |
| `ExtractInformationFacts.MatchSearchable` | src/extract_information_regex.py:163-167 | Every `findall` match contains a date the second search finds. |
| `ExtractInformationFacts.FindEventsSearchable` | src/extract_information_regex.py:164-167 | The re-search of line 167 never returns None on a match of line 164, so `match.group` never raises. |
| `ExtractInformationFacts.SplitEventsSucceed` | src/extract_information_regex.py:166-172 | Splitting searchable matches succeeds. |
| `ExtractInformationFacts.RegionEventsCount` | src/extract_information_regex.py:162-172 | A region yields one event per date match if it has at least two, and none otherwise. |
| `ExtractInformationFacts.EventsNeverFail` | src/extract_information_regex.py:160-172 | The event loop never raises. |
| `ExtractInformationFacts.ExtractFaults` | src/extract_information_regex.py:109-172 | Extraction succeeds iff every line has a PlainText child. |
| `ExtractInformationFacts.DayShift` | src/extract_information_regex.py:167 | A date starting at a second day digit ends where the first did. |
| `ExtractInformationFacts.LastDateNotTwoDigits` | src/extract_information_regex.py:167 | The last date found by the greedy `(.*)?` never starts at a two-digit day. |
| `ExtractInformationFacts.StrippedDate` | src/extract_information_regex.py:170 | Stripping a date keeps its first digits. |
| `ExtractInformationFacts.LastDateSplitsDay` | src/extract_information_regex.py:167-170 | The `Date` group of the last date never starts with two digits. |
| `ExtractInformationFacts.EventDateSplitsDay` | src/extract_information_regex.py:167-170 | The greedy context takes the first digit of a two-digit day, so an event's `Date` never starts with two digits. |
| `ExtractInformationFacts.SplitWithout` | src/extract_information_regex.py:177 | Splitting a text without the separator gives the text. |
| `ExtractInformationFacts.RowNameOfStem` | src/extract_information_regex.py:177 | `dir/stem.xml` names the row `stem`. |
| `ExtractInformationFacts.SplitThree` | src/extract_information_regex.py:177 | Splitting `a.b.c` on dots gives three pieces. |
| `ExtractInformationFacts.RowNameDropsDots` | src/extract_information_regex.py:177 | `dir/a.b.xml` names the row `ab`: inner dots are dropped, not kept. |
| `ExtractInformationFacts.RowNameIn` | src/extract_information_regex.py:177 | The row name is the dot pieces of the file name but the last, joined. |
| `ExtractInformationFacts.JoinTwo` | src/extract_information_regex.py:177 | Joining `a` and `b` without a separator gives `a + b`. |
| `ExtractFolio.SearchFromSpec` | src/extract_folio.py:7 | The search from `i` succeeds iff `folio <digit>` matches, in any case, at some position from `i` on. |
| `ExtractFolio.HasFolioSpec` | src/extract_folio.py:7-33 | `pattern.search` succeeds iff the pattern matches at some position. |
| `ExtractFolio.KeptSpec` | src/extract_folio.py:33 | A text is kept iff it exists and contains `folio`, a space and a digit, in any case. |
| `ExtractFolio.FoliosAppend` | src/extract_folio.py:31-35 | The folio list of two runs of elements is the concatenation: document order is kept. |
| `ExtractFolio.FoliosOne` | src/extract_folio.py:33-35 | One element adds its text iff kept. A None or empty text adds nothing. |
| `ExtractFolio.FoliosAreKept` | src/extract_folio.py:33-35 | Every listed text is non-empty and mentions a folio. |
| `ExtractFolio.FoliosBound` | src/extract_folio.py:31-35 | No more texts are listed than elements. |
| `ExtractFolio.FolioExamples` | src/extract_folio.py:7 | Examples: `FOLIO 7` matches; `folio x` does not. |
| `ExtractFolio.ProcessFile` | src/extract_folio.py:11-39 | The element loop, reassigning `image` and appending to `folio`, equals `ProcessXml`. |
| `ExtractFolio.ImageIsFileName` | src/extract_folio.py:32-48 | `image` of a walked file is its file name, whatever the directory. |
| `ExtractFolio.NameLeTotal` | src/extract_folio.py:46 | Python's string order is total. |
| `ExtractFolio.InsertNameSpec` | src/extract_folio.py:46 | Inserting into a sorted list keeps it sorted and adds exactly that name. |
| `ExtractFolio.SortNamesSpec` | src/extract_folio.py:46 | `sorted(files)` is sorted and a permutation of the names. |
| `ExtractFolio.CollectDir` | src/extract_folio.py:46-51 | The file loop of one directory, appending to `folio_list` and the log, equals `CollectFiles`. |
| `ExtractFolio.WriteRows` | src/extract_folio.py:55-58 | The writer loop gives `CsvRows`. |
| `ExtractFolio.ProcessAllXmlFiles` | src/extract_folio.py:43-59 | The walk and the CSV rows equal `ProcessAll`. |
| `ExtractFolioFacts.FoliosEmpty` | src/extract_folio.py:31-36 | The folio list is empty iff no text is kept. |
| `ExtractFolioFacts.UnreadableFails` | src/extract_folio.py:14-38 | A missing file raises OSError, which the handler does not catch. |
| `ExtractFolioFacts.ProcessXmlOutcome` | src/extract_folio.py:11-39 | A readable file gives a record or a log entry, never both. It gives one of them iff it parses, and a log entry iff it has no PlainText. |
| `ExtractFolioFacts.NoPlainTextIsLogged` | src/extract_folio.py:22-26 | No PlainText: logged, and `None` returned. |
| `ExtractFolioFacts.MalformedIsSkipped` | src/extract_folio.py:38-39 | A malformed file gives `None` and no log entry. |
| `ExtractFolioFacts.RecordOfParsed` | src/extract_folio.py:28-36 | A file with PlainText gives a record named after the file. Its list is empty iff no text is kept, and the record is still collected. |
| `ExtractFolioFacts.XmlNames` | src/extract_folio.py:47 | Keeps only `.xml` names. |
| `ExtractFolioFacts.SomeUnreadableStep` | src/extract_folio.py:46-49 | An unreadable `.xml` file is the first name or one of the rest. |
| `ExtractFolioFacts.CollectFilesFails` | src/extract_folio.py:46-51 | A directory fails iff one of its `.xml` files cannot be opened. |
| `ExtractFolioFacts.CollectFilesCounts` | src/extract_folio.py:46-51 | Records and log entries already collected stay. Each `.xml` file that parses adds exactly one record or log entry. |
| `ExtractFolioFacts.AbsorbPrefix` | src/extract_folio.py:50-51 | Appending one result keeps what was collected and adds at most one item. |
| `ExtractFolioFacts.CollectFilesSound` | src/extract_folio.py:46-51 | Every collected image is a `.xml` name of the directory. Every logged path has no PlainText. |
| `ExtractFolioFacts.AbsorbSound` | src/extract_folio.py:32-51 | One more file keeps that property. |
| `ExtractFolioFacts.CollectFilesOnlyXml` | src/extract_folio.py:47 | Names not ending in `.xml` are never opened: the loop over the `.xml` names alone gives the same result. |
| `ExtractFolioFacts.SortedUnreadable` | src/extract_folio.py:46 | Sorting the names does not change whether one is unreadable. |
| `ExtractFolioFacts.WalkUnreadableStep` | src/extract_folio.py:45 | An unreadable file lies in the first directory or in a later one. |
| `ExtractFolioFacts.CollectWalkFails` | src/extract_folio.py:45-51 | The walk fails iff some `.xml` file of it cannot be opened. |
| `ExtractFolioFacts.CollectWalkCounts` | src/extract_folio.py:45-51 | Records plus log entries grow by the number of `.xml` files that parse. |
| `ExtractFolioFacts.CollectWalkSound` | src/extract_folio.py:45-51 | Every image of the walk is a `.xml` file name of it, and every logged path has no PlainText. |
| `ExtractFolioFacts.SortedFilesIn` | src/extract_folio.py:46 | The sorted names are names of the directory. |
| `ExtractFolioFacts.CsvRowsShape` | src/extract_folio.py:56-58 | The header, then one row per record: the image and the folio texts joined by `", "`. |
| `ExtractFolioFacts.ProcessAllFails` | src/extract_folio.py:43-51 | The run fails iff a `.xml` file of the walk cannot be opened. |
| `ExtractFolioFacts.ProcessAllCounts` | src/extract_folio.py:43-58 | Each `.xml` file that parses is a CSV row or a log entry. |
| `ExtractFolioFacts.ProcessAllSound` | src/extract_folio.py:43-58 | Every CSV row names a `.xml` file of the walk. Every logged path is a file without PlainText. |
| `Text.SkipWhile` | src/extract_information_regex.py:154 | A greedy run stops at the first character outside the class. |
| `Text.FindFirst` | src/extract_information_regex.py:137 | Finds the leftmost position that matches. |
| `Text.FindLast` | src/extract_information_regex.py:127 | Finds the rightmost position that matches. |
| `Text.StripWhereShape` | src/extract_information_regex.py:129 | `strip` removes a prefix and a suffix of white space and nothing else. |
| `Text.StripWhereIdempotent` | src/extract_information_regex.py:129 | Stripping twice is stripping once. |
| `Text.StripSetSuffix` | src/fix_transcript.py:49 | `strip(chars)` removes the characters of the set from both ends, not a suffix. |
| `Text.Split` | src/evaluation.py:31 | `str.split(c)` gives at least one piece, none holding `c`. |
| `Text.JoinSplit` | src/evaluation.py:31 | Joining the pieces of a split gives the text back. |
| `Text.SplitJoin` | src/evaluation.py:31 | Splitting a join of separator-free pieces gives the pieces back. |
| `Text.LastPiece` | src/extract_folio.py:32 | `split(c)[-1]` holds no `c`. |
| `Text.LastPieceIsSuffix` | src/extract_folio.py:32 | The last piece is the suffix after the last separator. |
| `Text.LastPieceAfter` | src/extract_folio.py:32 | The last piece of `dir/name` is `name`. |
| `Text.ParseShowInt` | src/evaluation.py:33-34 | `int(str(n))` is `n`. |
| `Text.ParsePaddedInt` | src/label_regions.py:145 | `int()` of `str(n)` with any white space before and after it is `n`, as in `int(" 2000")`. |
| `Literals.ReprRoundTrip` | src/extract_information_regex.py:183 | Reading `repr(s)` back gives `s` and stops right after its closing quote, whatever quotes, backslashes or control characters `s` holds. |
| `Literals.ShowPairsRoundTrip` | src/extract_information_regex.py:183-184 | `';'.join` of `str()` of two-key dicts reads back into exactly those dicts, in order. |
| `Literals.ShowPairsEmpty` | src/extract_information_regex.py:183 | The joined cell is empty exactly when there are no dicts. |

## Left out

- Shapely is not modelled. `Polygon`, `make_valid`, `intersection`, `union` and `.area` are the abstract `Geometry` parameter. Only `Laws` is assumed about them: 0 ≤ intersection ≤ union, and a polygon's self-intersection equals its self-union.
- Floating point is not modelled. Areas, IoUs, means and ratios are exact reals. NaN is `None`, and `np.nanmean` is the mean of the defined values.
- XML parsing is not modelled. `etree.parse`, XPath and `.find` become the parsed line records or the `Document` case (`Unreadable`, `Malformed`).
- File output is not modelled: `tree.write`, `os.makedirs`, the CSV writer's quoting of a cell, the error-log appends and all `print` output. The cells the CSV writer receives are modelled, including `str()` of the campaign and event dicts.
- `os.walk` is not modelled. The directory listing is an input in walk order: `PageInput` sequences, and the `Dir` records of the folio finder.
- The directory walks of `src/label_regions.py:163-170`, `src/fix_transcript.py:58-65` and `src/extract_information_regex.py:191-205` are left out. They only call the per-file function on each `.xml` name, and they repeat the walk modelled for `src/extract_folio.py`.
- `extract_textequiv` (`src/extract_information_regex.py:10-43`) is dead code, because its call at line 203 is commented out.
- The `result is None` branches (`src/label_regions.py:63-68`, `src/extract_information_regex.py:88-93`) are not modelled. XPath never returns None, so they never run.
- `\w` for non-ASCII text is approximated. It covers ASCII letters and digits, `_`, Latin-1 letters and digits, and U+0100-U+024F; Python's full Unicode tables are not modelled.
- `\d` is modelled as ASCII digits only.
- The IGNORECASE folding of non-ASCII letters is not modelled. Only the ASCII folding is, plus the four special cases Python documents.
- `LabelRegions.FirstX`: `float()` of the first coordinate is modelled as integer parsing, since PAGE coordinates are integers. Fractional and exponent forms are not modelled.
- `int()` is modelled for an ASCII optional-sign digit string with `str.isspace` white space around it. Underscores and non-ASCII digits are not modelled.
- Python's `repr` of a string writes a non-printable character above U+00FF (such as U+2028) as a `\u` or `\U` escape; `Literals.Repr` writes it as itself. Every character up to U+00FF is escaped as Python does.
- The `custom` attribute is assumed present: `custom` of `Page.TextLine` is a string, not an optional one. When `line.get("custom")` is None, `re.findall` on it (`src/evaluation.py:99-100` and `src/evaluation.py:144-145`) and the `+=` of every case of the cascade (`src/label_regions.py:88-149`) raise TypeError; those paths are not modelled.
- Command-line parsing (`get_arguments`), the network download scripts, the LLM scripts, the plotting and viewer scripts, the HTR subprocess drivers and the detectron2 wrapper are not part of this model.
