# Groundwater risk screening of contaminated sites — a Dafny model

This project models the rule engine of a Danish groundwater risk-screening pipeline. The pipeline screens V1/V2 contaminated sites (lokaliteter) against the groundwater bodies (GVFK) and rivers they may affect:

- **Step 3** keeps the sites that carry substance or branch data. It aggregates one row per (site, GVFK) and merges sites that occur in both V1 and V2 into "V1 og V2" rows.
- **Steps 3b and 5c** sample the infiltration (GVD) rasters of each pair's model layers. A strict majority vote over the pixel signs keeps the downward and no-data pairs and removes the upward ones.
- **Step 4** finds, per site and GVFK, the distance to the nearest river segment in contact with that GVFK. It breaks ties deterministically and flags the per-site minimum.
- **Step 5** categorises each substance with four keyword categorisers. It applies the compound-specific distance thresholds and the landfill overrides, and counts tokens within their thresholds. It also detects landfill sites from branch/activity text, keeping running keyword statistics.
- **Step 6** (tilstandsvurdering) cleans and combines the infiltration per site. A filter cascade keeps an audit record of every row it drops. It then:
  - looks up a standard concentration through five levels of precedence;
  - expands each site into modelstof scenarios with the flux J = A·I·C;
  - aggregates the flux per river segment;
  - dilutes it by the segment's discharge (Cmix);
  - compares the result with the MKK environmental quality thresholds and builds a per-segment summary.
- **Around Step 6**: the GVFK set algebra of the risk analysis, the helpers of the combined map, and the older range-expanding Step 6.

## Modelling conventions

- Quantities are `real`. A NaN or None value is an `Option`.
- A DataFrame is a sequence of records, and a lookup dict is a `map`.
- A raised exception is the error case of a `Result`.
- The configuration tables are concrete constants. The keyword tables of the categorisers are transcribed entry by entry, in dictionary order.
- Raster reads, geometry distances and areas are inputs of the model, as are the SHA-1 digest and the presence of files on disk.
- Grouping and pandas idioms live in the modules `Grouping` and `Text`: groupby keys in first-seen order, members, sums, minimum/maximum by key, and Python's `strip`, `split`, `lower` and `join`.
- Code that changes state step by step is modelled as methods:
  - the loops over rows, layers and pairs;
  - the encoding retries;
  - the keyword-statistics object, the class `LandfillScreen.KeywordStats`.

  Each method is proved equal to a specification function, and the properties are lemmas about that function.

## Model

| member | source | states |
|---|---|---|
| Text.StripEmptyIffBlank | Kode/risikovurdering/step5_utils.py:168 | `s.strip() == ""` holds exactly for text made only of the characters Python counts as whitespace, the Unicode space separators, next line and no-break space included |
| Text.UnicodeSpacesStripped | Kode/risikovurdering/step5_utils.py:168 | a cell holding only a no-break space, an em space, an ideographic space or a unit separator is blank to `strip()` |
| Text.StripIdempotent | Kode/tilstandsvurdering/step6_combined_map.py:744-748 | stripping twice is stripping once, over the full whitespace set of `str.strip()` |
| Text.IndexOfContains | Kode/risikovurdering/step5_utils.py:77 | the substring search succeeds exactly when `sub in s` |
| Text.JoinSplit | Kode/step6_tilstandsvurdering_clean.py:123 | joining the pieces of a split with its separator gives the text back |
| Text.TokensFree | Kode/risikovurdering/step5_risk_assessment.py:240 | no token of `[s.strip() for s in text.split(c) if s.strip()]` holds the separator |
| Text.TokensJoin | Kode/risikovurdering/step3_v1v2_sites.py:317 | `'; '.join` of trimmed, non-empty, ';'-free items re-splits on ';' into the same items |
| Text.DedupSpec | Kode/risikovurdering/step3_v1v2_sites.py:316 | `list(dict.fromkeys(xs))` keeps every element exactly once and nothing else |
| Text.SortedUniqueSpec | Kode/step4_distances.py:262 | `sorted(x.unique())` is sorted, without repeats, and holds exactly the elements of its input |
| Text.NatToString | Kode/step6_tilstandsvurdering_clean.py:130 | `str(n)` of a natural number is a non-empty string of decimal digits |
| Grouping.GroupKeysSpec | Kode/tilstandsvurdering/step6_tilstandsvurdering.py:1187 | the group keys are distinct and exactly the keys some row carries |
| Grouping.MembersSpec | Kode/tilstandsvurdering/step6_tilstandsvurdering.py:1187 | a group holds exactly the rows with its key, and no more rows than the table |
| Grouping.GroupSumsTotal | Kode/tilstandsvurdering/step6_tilstandsvurdering.py:1196-1199 | adding the per-group sums gives the table's sum: a group-by sum neither loses nor double-counts a row |
| Grouping.MinBy | Kode/step4_distances.py:169 | the minimum is attained by some row and no row is below it |
| Grouping.MaxBy | Kode/tilstandsvurdering/step6_tilstandsvurdering.py:1293 | the maximum is attained by some row and no row is above it |
| Grouping.LastWinsSpec | Kode/step4_distances.py:316 | `dict(zip(keys, values))` holds exactly the rows' keys, each with the value of the last row carrying it |
| Grouping.CollectSpec | Kode/step6_tilstandsvurdering_clean.py:74 | a row-wise apply succeeds exactly when every row does, and then holds each row's result in order |
| Layers.LayerCode | Kode/tilstandsvurdering/step6_tilstandsvurdering.py:726-730 | the code of a part is lower case and has no surrounding whitespace; it is the text after the first ':' when there is one |
| Layers.LabelledPartCode | Kode/tilstandsvurdering/step6_tilstandsvurdering.py:727-728 | a part "Label: code" yields the trimmed, lower-cased code |
| Layers.RawCodes | Kode/tilstandsvurdering/step6_tilstandsvurdering.py:726-730 | one code per part, in part order |
| Layers.Codes | Kode/tilstandsvurdering/step6_tilstandsvurdering.py:732 | a code is kept exactly when it is non-empty; every kept code is lower case and trimmed |
| Layers.ParseDkModellag | Kode/tilstandsvurdering/step6_tilstandsvurdering.py:703-735 | the loop that appends new non-empty codes yields the layer list: empty for a missing or empty cell, without repeats, holding exactly the non-empty codes of the parts |
| Layers.LayerListSpec | Kode/tilstandsvurdering/step6_tilstandsvurdering.py:732-735 | every layer occurs once and is a non-empty, trimmed, lower-case code |
| Layers.SemicolonOnlyIgnoresSlash | Kode/risikovurdering/step3b_infiltration_filter.py:67 | Steps 3b and 5c cut only at ';': a cell without ';' is one part, slashes included |
| Layers.SlashSplitInStep6 | Kode/tilstandsvurdering/step6_tilstandsvurdering.py:719-724 | Step 6 cuts at '/' when the trimmed cell has no ';', giving at least two parts |
| Layers.RasterFilename | Kode/tilstandsvurdering/step6_tilstandsvurdering.py:884-895 | there is no file name exactly for an empty layer |
| Layers.RasterFilenameLowered | Kode/risikovurdering/step3b_infiltration_filter.py:46-58 | the Step 3b name lower-cases the layer; no name exactly for an empty layer |
| Layers.RasterFilenamePrefix | Kode/tilstandsvurdering/step6_tilstandsvurdering.py:889-895 | the name starts with "dk7_" iff the lower-cased region starts with "dk7", with "dk16_" otherwise, and ends with the layer and ".tif" |
| Layers.ResolveRaster | Kode/tilstandsvurdering/step6_tilstandsvurdering.py:763-779 | the file read exists and is the regional file or the dk16 fallback; a present regional file wins; nothing is read exactly when the layer is empty or neither file exists |
| Layers.ExpandRange | Kode/step6_tilstandsvurdering_clean.py:130 | `range(a, b + 1)` gives b - a + 1 names prefix + str(a + k), and none when a > b |
| Layers.ParseLayerRange | Kode/step6_tilstandsvurdering_clean.py:114-132 | a missing cell gives no layers; a cell without " - " is its trimmed self; a cell with " - " fails exactly when it does not cut into two pieces |
| Layers.RangeOfEnds | Kode/step6_tilstandsvurdering_clean.py:122-132 | "x - y" expands from the number after x's two-character prefix to the one after y's when the prefixes agree, and is kept whole otherwise |
| Layers.RangeExpansion | Kode/step6_tilstandsvurdering_clean.py:126-130 | "p<a> - p<b>" gives p<a>, ..., p<b> inclusive, and nothing when a > b |
| Layers.DigitsValueOfNat | Kode/step6_tilstandsvurdering_clean.py:128-129 | `int` of the decimal digits of n is n |
| Layers.SplitOnceSep | Kode/step6_tilstandsvurdering_clean.py:123 | "x - y" with plain ends splits at " - " into [x, y] |
| Infiltration.Clean | Kode/tilstandsvurdering/step6_tilstandsvurdering.py:798-806 | a cleaned value lies in [0, cap]: negatives become 0, values above the cap become the cap, the rest are unchanged |
| Infiltration.CleanIsClamp | Kode/tilstandsvurdering/step6_tilstandsvurdering.py:833-836 | cleaning is min(max(v, 0), cap) and cleaning twice equals cleaning once |
| Infiltration.CleanAll | Kode/tilstandsvurdering/step6_tilstandsvurdering.py:833-836 | every pixel is cleaned on its own, the count unchanged |
| Infiltration.SeqMin | Kode/tilstandsvurdering/step6_tilstandsvurdering.py:839 | `np.min` is a member no greater than any value |
| Infiltration.SeqMax | Kode/tilstandsvurdering/step6_tilstandsvurdering.py:840 | `np.max` is a member no smaller than any value |
| Infiltration.MeanWithin | Kode/tilstandsvurdering/step6_tilstandsvurdering.py:838 | the mean of values in [lo, hi] lies in [lo, hi] |
| Infiltration.CountBelow | Kode/tilstandsvurdering/step6_tilstandsvurdering.py:830 | the zeroed-pixel count is at most the number of pixels |
| Infiltration.CountAbove | Kode/tilstandsvurdering/step6_tilstandsvurdering.py:831 | the capped-pixel count is at most the number of pixels |
| Infiltration.SampleLayerSpec | Kode/tilstandsvurdering/step6_tilstandsvurdering.py:738-865 | a missing raster reports nothing; with valid polygon pixels Combined is their cleaned mean; without them Combined is the cleaned centroid value (or None) and the pixel count is 0 |
| Infiltration.SampleLayerClean | Kode/tilstandsvurdering/step6_tilstandsvurdering.py:798-842 | every value a layer reports (Combined, centroid, polygon mean/min/max, pixels) lies in [0, cap] |
| Infiltration.ValuesSpec | Kode/tilstandsvurdering/step6_tilstandsvurdering.py:587-598 | a column's collected values are empty exactly when no layer reported one, and lie in [0, cap] when every layer is clean |
| Infiltration.RowCombinedBounds | Kode/tilstandsvurdering/step6_tilstandsvurdering.py:632-636 | a row's infiltration is NaN exactly when no layer reported a Combined value, and otherwise lies in [0, cap] |
| Infiltration.LayerResultsAt | Kode/tilstandsvurdering/step6_tilstandsvurdering.py:584-585 | the i-th layer result is the sample of the i-th parsed layer |
| Infiltration.SampleRow | Kode/tilstandsvurdering/step6_tilstandsvurdering.py:567-654 | one row: its parsed layers sampled in order, the record of per-column means, its pixel records, and the tallies updated layer by layer and then by sampling method |
| Infiltration.SampleLayers | Kode/tilstandsvurdering/step6_tilstandsvurdering.py:584-619 | the layer loop collects exactly the layer results, the non-empty pixel records and the capping / zeroing tallies |
| Infiltration.RowResultsBounds | Kode/tilstandsvurdering/step6_tilstandsvurdering.py:632-636 | every row's Combined infiltration is NaN or lies in [0, cap], so never negative |
| Infiltration.RowsRecordsSpec | Kode/tilstandsvurdering/step6_tilstandsvurdering.py:567-654 | one record per input row, in order, that row's own, with infiltration NaN or in [0, cap] |
| Infiltration.CalculateInfiltration | Kode/tilstandsvurdering/step6_tilstandsvurdering.py:534-700 | the outer loop yields one record per row (that row's, infiltration never negative), all pixel records in row then layer order, and the tallies over all rows; it raises ZeroDivisionError exactly when there are no rows, since the summary divides by the number of distinct sites (line 668) |
| FluxInputs.MappingKeysSpec | Kode/tilstandsvurdering/step6_tilstandsvurdering.py:246-249 | a GVFK is a group of the layer table exactly when some row with a non-null GVForekom names it |
| FluxInputs.DkmlagValuesSpec | Kode/tilstandsvurdering/step6_tilstandsvurdering.py:252-254 | a GVFK's layer values are empty exactly when none of its rows has a non-blank `dkmlag`; every value kept is non-blank |
| FluxInputs.FirstRegionSpec | Kode/tilstandsvurdering/step6_tilstandsvurdering.py:255 | the region is the first non-null `dknr` of the GVFK's rows, and None only when all are null |
| FluxInputs.LayerInfoSpec | Kode/tilstandsvurdering/step6_tilstandsvurdering.py:246-266 | a GVFK has layer information iff the table has a row for it; the "/"-joined sorted distinct layer text is empty exactly when no such row has a non-blank value; the region is missing only when no row has one |
| FluxInputs.AttachAll | Kode/tilstandsvurdering/step6_tilstandsvurdering.py:231-266 | each row gets its site area, its GVFK's modellag and its region (dk16 when none), one output per input row |
| FluxInputs.ModellagSplit | Kode/tilstandsvurdering/step6_tilstandsvurdering.py:267-311 | Filter 1 keeps exactly the rows with a modellag and audits every other row once, tagged Filter_1_Missing_Modellag |
| FluxInputs.InfiltrationInputs | Kode/tilstandsvurdering/step6_tilstandsvurdering.py:567-570 | each kept row is sampled with its site, its modellag and its region |
| FluxInputs.Measure | Kode/tilstandsvurdering/step6_tilstandsvurdering.py:326-343 | row i gets infiltration record i |
| FluxInputs.Audits | Kode/tilstandsvurdering/step6_tilstandsvurdering.py:361-374 | one audit record per removed row, in order, naming that row and the filter |
| FluxInputs.NegativeSplit | Kode/tilstandsvurdering/step6_tilstandsvurdering.py:345-376 | Filter 2 splits the rows into those with negative infiltration (removed) and the rest (kept) |
| FluxInputs.MissingSplit | Kode/tilstandsvurdering/step6_tilstandsvurdering.py:411-451 | Filter 3 splits the rows into those without infiltration (removed) and the rest (kept) |
| FluxInputs.NegativeKeepsAll | Kode/tilstandsvurdering/step6_tilstandsvurdering.py:345-348 | when no row has negative infiltration, Filter 2 keeps every row and removes none |
| FluxInputs.EnrichAll | Kode/tilstandsvurdering/step6_tilstandsvurdering.py:474-501 | each row gets its segment's name, length and GVFK, one output per input row |
| FluxInputs.AttachRivers | Kode/tilstandsvurdering/step6_tilstandsvurdering.py:474-501 | the merge succeeds exactly when every row's FID has named metadata whose ov_id equals the row's, and then keeps every row in order; otherwise it raises ValueError, its only error |
| FluxInputs.ModellagKeptHasModellag | Kode/tilstandsvurdering/step6_tilstandsvurdering.py:311 | every row after Filter 1 has a modellag |
| FluxInputs.Survivors | Kode/tilstandsvurdering/step6_tilstandsvurdering.py:376-451 | every row that passes Filters 2 and 3 has a modellag and an infiltration value |
| FluxInputs.AuditTrailStages | Kode/tilstandsvurdering/step6_tilstandsvurdering.py:293-449 | when Filter 2 removes nothing, no audit record is tagged Filter_2_Negative_Infiltration |
| FluxInputs.PrepareMissingArea | Kode/tilstandsvurdering/step6_tilstandsvurdering.py:233-240 | a site without an area raises ValueError before anything else |
| FluxInputs.MeasuredNotNegative | Kode/tilstandsvurdering/step6_tilstandsvurdering.py:345-376 | with cleaned infiltration records, Filter 2 keeps every row |
| FluxInputs.FinishCounts | Kode/tilstandsvurdering/step6_tilstandsvurdering.py:267-501 | every row after the layer merge is output or audited exactly once, and no row is negative |
| FluxInputs.FinishStages | Kode/tilstandsvurdering/step6_tilstandsvurdering.py:345-376 | with cleaned records, no audit record comes from Filter 2 |
| FluxInputs.SurvivorsClean | Kode/tilstandsvurdering/step6_tilstandsvurdering.py:345-451 | every surviving row has infiltration in [0, cap] |
| FluxInputs.AttachRiversBounds | Kode/tilstandsvurdering/step6_tilstandsvurdering.py:474-501 | the river merge keeps the infiltration of every row in [0, cap] |
| FluxInputs.FinishBounds | Kode/tilstandsvurdering/step6_tilstandsvurdering.py:345-501 | every output row has infiltration in [0, cap] |
| FluxInputs.PrepareAccounts | Kode/tilstandsvurdering/step6_tilstandsvurdering.py:189-526 | every input row either reaches the output or leaves exactly one audit record; Filter 2 never removes a row; every output row's infiltration lies in [0, cap]; the run fails with ZeroDivisionError exactly when the areas are known and Filter 1 removes every row |
| FluxInputs.FilterMissingModellag | Kode/tilstandsvurdering/step6_tilstandsvurdering.py:293-311 | the Filter 1 loop keeps the rows with a modellag and audits the others, in order |
| FluxInputs.FilterNegative | Kode/tilstandsvurdering/step6_tilstandsvurdering.py:345-376 | the Filter 2 loop keeps the non-negative rows, removes the negative ones and audits each removed row once |
| FluxInputs.FilterMissing | Kode/tilstandsvurdering/step6_tilstandsvurdering.py:411-451 | the Filter 3 loop keeps the rows with infiltration and audits each row without it once |
| FluxInputs.FinishValueError | Kode/tilstandsvurdering/step6_tilstandsvurdering.py:474-501 | after the layer merge only the river merge fails, and only with ValueError |
| FluxInputs.AttachRiverMetadata | Kode/tilstandsvurdering/step6_tilstandsvurdering.py:474-501 | the merge loop returns what the merge specification gives, including its ValueError cases |
| FluxInputs.PrepareFluxInputs | Kode/tilstandsvurdering/step6_tilstandsvurdering.py:189-526 | the whole cascade returns what the specification `Prepare` gives: the area check, the layer merge, the three filters with their audit records, the division by zero when Filter 1 leaves no rows, and the river merge |
| Concentration.Industries | Kode/tilstandsvurdering/step6_tilstandsvurdering.py:930-934 | every industry token is non-empty and trimmed |
| Concentration.NoContextNoIndustries | Kode/tilstandsvurdering/step6_tilstandsvurdering.py:930-934 | a row without branch or activity columns yields no industry tokens |
| Concentration.EmptyCellParts | Kode/tilstandsvurdering/step6_tilstandsvurdering.py:932-933 | an empty cell (or the `or ""` default) splits into the single empty piece |
| Concentration.SingleToken | Kode/tilstandsvurdering/step6_tilstandsvurdering.py:930-934 | a branch cell holding one trimmed name without ';', and no activity, yields exactly that token |
| Concentration.SingleTokenWith | Kode/tilstandsvurdering/step6_tilstandsvurdering.py:930-934 | the same for one given (absent or empty) activity cell |
| Concentration.ActivityHit | Kode/tilstandsvurdering/step6_tilstandsvurdering.py:943-947 | level 1 finds nothing exactly when no token's '{token}_{substance}' key is in the activity table |
| Concentration.ActivityHitFirst | Kode/tilstandsvurdering/step6_tilstandsvurdering.py:944-947 | level 1 returns the value of the first token whose key is present |
| Concentration.LookupFails | Kode/tilstandsvurdering/step6_tilstandsvurdering.py:941-981 | the lookup raises ValueError exactly when none of the five levels has an entry |
| Concentration.ActivityFirst | Kode/tilstandsvurdering/step6_tilstandsvurdering.py:943-947 | a level-1 hit wins over every other table, with the first matching token's value |
| Concentration.SingleIndustryHit | Kode/tilstandsvurdering/step6_tilstandsvurdering.py:943-947 | a single industry token with an activity entry for the modelstof gets that entry |
| Concentration.CompoundWithoutIndustry | Kode/tilstandsvurdering/step6_tilstandsvurdering.py:961-963 | without industry tokens and outside the landfill context, a modelstof with a compound entry gets that entry |
| Concentration.NonLandfillIgnoresLosseplads | Kode/tilstandsvurdering/step6_tilstandsvurdering.py:936-959 | outside the landfill context the landfill table has no effect on the result |
| Concentration.ScenarioUsesCompound | Kode/tilstandsvurdering/step6_tilstandsvurdering.py:961-969 | with the configured tables and no activity hit, every configured scenario resolves to its modelstof's compound value, so level 4 is never reached for it |
| Concentration.CategoryFallback | Kode/tilstandsvurdering/step6_tilstandsvurdering.py:971-973 | with no hit on the first four levels, the category entry decides |
| Concentration.SentinelFallback | Kode/tilstandsvurdering/step6_tilstandsvurdering.py:971-973 | ANDRE, PFAS and LOSSEPLADS without other hits get the -1 "unavailable" sentinel |
| Concentration.ComputeFlux | Kode/tilstandsvurdering/step6_tilstandsvurdering.py:1002-1005 | the mg, g and kg fluxes are the µg flux divided by 10^3, 10^6 and 10^9 |
| Concentration.FluxIsProduct | Kode/tilstandsvurdering/step6_tilstandsvurdering.py:996-1000 | the unit factors cancel: µg/yr flux = area × infiltration × concentration, non-negative for non-negative inputs |
| Concentration.FluxMonotone | Kode/tilstandsvurdering/step6_tilstandsvurdering.py:996-1000 | for a fixed non-negative area and infiltration, flux grows with the concentration |
| Flux.GroupOf | Kode/tilstandsvurdering/step6_tilstandsvurdering.py:1042-1058 | the grouped row of a key carries that key, and its first member is a table row with that key |
| Flux.GroupOfSpec | Kode/tilstandsvurdering/step6_tilstandsvurdering.py:1034-1058 | the group's "first" values come from the table's first row with its key; its distance is the least member distance (attained by a member) and its segment count the greatest; its GVFK list has one entry per member, in table order, duplicates kept |
| Flux.FirstSubstanceFound | Kode/tilstandsvurdering/step6_tilstandsvurdering.py:1073-1078 | the first-substance lookup of a group's own site, GVFK and category always finds a row, so `iloc[0]` never fails |
| Flux.ScenarioRowsSpec | Kode/tilstandsvurdering/step6_tilstandsvurdering.py:1094-1110 | the scenario rows fail exactly when some scenario lookup fails; otherwise there is one row per modelstof, in order, labelled '{category}__via_{modelstof}' and carrying that lookup's concentration |
| Flux.GroupRowsSingle | Kode/tilstandsvurdering/step6_tilstandsvurdering.py:1070-1093 | a category without scenarios emits one row, labelled with the first substance of the site, its first GVFK and the category, or raises when that lookup raises |
| Flux.GroupRowsShare | Kode/tilstandsvurdering/step6_tilstandsvurdering.py:1064-1110 | a group emits one row per scenario (one when there are none), each carrying the group's keys, first GVFK, area, infiltration and minimum distance, with its flux computed from its concentration |
| Flux.SiteContextReachesActivity | Kode/tilstandsvurdering/step6_tilstandsvurdering.py:943-947 | with the site's own branch and activity cells, a scenario whose modelstof has an activity entry for a site token gets that entry's concentration |
| Flux.GroupedRowLosesActivity | Kode/tilstandsvurdering/step6_tilstandsvurdering.py:1081-1103 | as written, the grouped row passed to the lookup has no branch or activity columns, so a service station's benzene scenario gets 400 µg/L instead of the 8000 µg/L activity value |
| Flux.ActivityLost | Kode/tilstandsvurdering/step6_tilstandsvurdering.py:1042-1058 | for any single-branch site with both an activity and a compound entry, the empty grouped context gives the compound value and the site's own context the activity value |
| Flux.Tag | Kode/tilstandsvurdering/step6_tilstandsvurdering.py:1116-1120 | every flux row of a group is paired with that group's GVFK list |
| Flux.CopiesSpec | Kode/tilstandsvurdering/step6_tilstandsvurdering.py:1124-1130 | a row is copied once per GVFK of its list, in order, each copy differing only in its GVFK |
| Flux.ValidOnlySpec | Kode/tilstandsvurdering/step6_tilstandsvurdering.py:1141-1144 | the sentinel filter keeps exactly the rows whose concentration is not -1 |
| Flux.ConsistentProduct | Kode/tilstandsvurdering/step6_tilstandsvurdering.py:996-1000 | a row whose flux was computed from its own values has flux = area × infiltration × concentration |
| Flux.CopiesConsistent | Kode/tilstandsvurdering/step6_tilstandsvurdering.py:1124-1130 | copying a row per GVFK keeps every copy's flux consistent |
| Flux.ExpandedConsistent | Kode/tilstandsvurdering/step6_tilstandsvurdering.py:1122-1135 | the GVFK expansion keeps every row's flux consistent, the fallback row included |
| Flux.PendingConsistent | Kode/tilstandsvurdering/step6_tilstandsvurdering.py:1064-1112 | every flux row emitted for the groups has a consistent flux (the lookup sees the site's own branch and activity: the corrected form of the first finding, not the grouped row the code passes) |
| Flux.FluxDetailsValid | Kode/tilstandsvurdering/step6_tilstandsvurdering.py:1015-1165 | an empty input raises; otherwise no output row holds the -1 sentinel and every row's flux is area × infiltration × concentration (the lookup sees the site's own branch and activity: the corrected form of the first finding, not the grouped row the code passes) |
| Flux.ScenarioRowsOk | Kode/tilstandsvurdering/step6_tilstandsvurdering.py:961-963 | scenario rows never raise when every modelstof has a compound entry |
| Flux.LookupOkWithCompound | Kode/tilstandsvurdering/step6_tilstandsvurdering.py:961-963 | a modelstof with a compound entry never makes the lookup raise |
| Flux.ScenarioRowsCompound | Kode/tilstandsvurdering/step6_tilstandsvurdering.py:1096-1110 | with the configured tables a category's scenarios never raise, and a scenario without an activity hit carries its modelstof's compound concentration and its '__via_' label |
| Flux.PendingForErr | Kode/tilstandsvurdering/step6_tilstandsvurdering.py:1064-1110 | once a group's lookup raises, the later groups do not change the outcome (the lookup sees the site's own branch and activity: the corrected form of the first finding, not the grouped row the code passes) |
| Flux.ScenarioRowsErr | Kode/tilstandsvurdering/step6_tilstandsvurdering.py:1096-1110 | once a scenario lookup raises, the later scenarios do not change the outcome |
| Flux.EmitGroup | Kode/tilstandsvurdering/step6_tilstandsvurdering.py:1065-1110 | the loop body for one group returns exactly that group's rows, or the lookup's error |
| Flux.ScenarioRowsSnoc | Kode/tilstandsvurdering/step6_tilstandsvurdering.py:1096-1110 | one more scenario appends its row, or raises its lookup's error |
| Flux.EmitScenarios | Kode/tilstandsvurdering/step6_tilstandsvurdering.py:1096-1110 | the loop over a category's scenarios returns the specified scenario rows |
| Flux.ExpandGvfk | Kode/tilstandsvurdering/step6_tilstandsvurdering.py:1122-1135 | the nested expansion loop returns one copy per GVFK of each row's list, or the row itself when the list is empty |
| Flux.DropUnavailable | Kode/tilstandsvurdering/step6_tilstandsvurdering.py:1141-1144 | the filter loop keeps exactly the rows without the sentinel, in order |
| Flux.CalculateFlux | Kode/tilstandsvurdering/step6_tilstandsvurdering.py:1015-1165 | `_calculate_flux` returns the specified flux table: per group the scenario rows, expanded per GVFK, without sentinel rows (the lookup sees the site's own branch and activity: the corrected form of the first finding, not the grouped row the code passes) |
| Flux.PendingForSnoc | Kode/tilstandsvurdering/step6_tilstandsvurdering.py:1064-1110 | one more group appends its rows tagged with its GVFK list, or raises its error (the lookup sees the site's own branch and activity: the corrected form of the first finding, not the grouped row the code passes) |
| Flux.EmitGroups | Kode/tilstandsvurdering/step6_tilstandsvurdering.py:1064-1110 | the loop over the groups returns the specified tagged flux rows (the lookup sees the site's own branch and activity: the corrected form of the first finding, not the grouped row the code passes) |
| Segments.RecordOf | Kode/tilstandsvurdering/step6_tilstandsvurdering.py:1187-1212 | a segment record carries the key of its group |
| Segments.RecordsFor | Kode/tilstandsvurdering/step6_tilstandsvurdering.py:1187-1212 | one record per requested key, in order, each carrying its key |
| Segments.AggregateFluxBySegment | Kode/tilstandsvurdering/step6_tilstandsvurdering.py:1168-1216 | `_aggregate_flux_by_segment` returns the specified segment table, empty for an empty flux table |
| Segments.EmitRecords | Kode/tilstandsvurdering/step6_tilstandsvurdering.py:1187-1213 | the loop over the groups appends exactly the record of each group, in order |
| Segments.RecordSums | Kode/tilstandsvurdering/step6_tilstandsvurdering.py:1187-1199 | a record's group holds exactly the flux rows with its (FID, ov_id, category, substance) key, so it never mixes substances, and its four totals are the sums of those rows' fluxes |
| Segments.RecordSites | Kode/tilstandsvurdering/step6_tilstandsvurdering.py:1201-1205 | the site list is the sorted, duplicate-free list of the group's sites joined by ', ', and the site count is its length, between one and the number of rows |
| Segments.RecordDistances | Kode/tilstandsvurdering/step6_tilstandsvurdering.py:1206-1207 | the minimum and maximum distances are attained by rows of the group and bound all of them |
| Segments.AggregateKeys | Kode/tilstandsvurdering/step6_tilstandsvurdering.py:1176-1187 | one record per distinct key present in the flux table, every flux row's key among them, and an empty table exactly for empty input |
| Segments.RecordsForKeys | Kode/tilstandsvurdering/step6_tilstandsvurdering.py:1187-1213 | the i-th record is the record of the i-th group |
| Segments.TotalRecordsFor | Kode/tilstandsvurdering/step6_tilstandsvurdering.py:1196 | the µg totals of the records of some keys add up to the sum of those groups' fluxes |
| Segments.FluxConserved | Kode/tilstandsvurdering/step6_tilstandsvurdering.py:1168-1216 | aggregation conserves flux: the records' µg totals add up to the flux table's total |
| Segments.CopiesShareSegment | Kode/tilstandsvurdering/step6_tilstandsvurdering.py:1122-1135 | the GVFK copies of one flux row all fall into the same segment group |
| Segments.CopiesCountedPerGvfk | Kode/tilstandsvurdering/step6_tilstandsvurdering.py:1122-1135 | a row copied for n GVFKs adds n times its flux to its segment total |
| Mixing.FlowByOvSpec | Kode/tilstandsvurdering/step6_tilstandsvurdering.py:1236-1240 | a (ov_id, scenario) key is in the flow table iff some row with a discharge carries it, and then its discharge is the last such row's |
| Mixing.FlowLookup | Kode/tilstandsvurdering/step6_tilstandsvurdering.py:1312-1317 | the nearest-segment table by (FID, scenario) wins; otherwise the ov_id table decides; a row without a scenario finds nothing |
| Mixing.CmixInverse | Kode/tilstandsvurdering/step6_tilstandsvurdering.py:1320-1328 | Cmix is defined exactly for a positive discharge, and then Cmix × discharge in L/s × seconds per year gives back the yearly flux |
| Mixing.CmixDecreasing | Kode/tilstandsvurdering/step6_tilstandsvurdering.py:1324-1328 | more discharge gives a strictly smaller Cmix for the same positive flux |
| Mixing.ScenariosOnSpec | Kode/tilstandsvurdering/step6_tilstandsvurdering.py:1302-1307 | the scenarios joined to an ov_id are exactly those of the flow rows with that ov_id |
| Mixing.Somes | Kode/tilstandsvurdering/step6_tilstandsvurdering.py:1302-1307 | each joined scenario is present |
| Mixing.JoinedScenarios | Kode/tilstandsvurdering/step6_tilstandsvurdering.py:1302-1307 | the left join gives every record at least one row |
| Mixing.JoinedScenariosSpec | Kode/tilstandsvurdering/step6_tilstandsvurdering.py:1302-1307 | a record is joined with every scenario of its ov_id's flow rows, and keeps a single row without scenario exactly when there is none |
| Mixing.RowsOf | Kode/tilstandsvurdering/step6_tilstandsvurdering.py:1312-1328 | each joined scenario of a record yields its computed row |
| Mixing.MergedRowsSpec | Kode/tilstandsvurdering/step6_tilstandsvurdering.py:1302-1328 | every merged row is the computed row of an input record and one of its joined scenarios, every such pair has its row, and no record is lost |
| Mixing.CmixRowOfSpec | Kode/tilstandsvurdering/step6_tilstandsvurdering.py:1312-1328 | a row has flow data exactly when its looked-up discharge is positive, exactly then has a Cmix, and that Cmix gives the segment flux back |
| Mixing.CalculateCmixSpec | Kode/tilstandsvurdering/step6_tilstandsvurdering.py:1219-1330 | `_calculate_cmix` is empty exactly when either table is empty; otherwise every row is the computed row of a record and one of its joined scenarios |
| Mixing.DropLeadingTag | Kode/tilstandsvurdering/step6_tilstandsvurdering.py:1353-1358 | a tag at the front of an untagged substance is removed together with the surrounding spaces |
| Mixing.ThresholdAsWritten | Kode/tilstandsvurdering/step6_tilstandsvurdering.py:1348-1367 | as written: the substance's own threshold when it is a modelstof with an entry, else the category's, else none |
| Mixing.ScenarioModelstofOfLabel | Kode/tilstandsvurdering/step6_tilstandsvurdering.py:1094-1110 | the modelstof read back from a scenario label '{category}__via_{m}' is m |
| Mixing.Threshold | Kode/tilstandsvurdering/step6_tilstandsvurdering.py:1348-1367 | the corrected lookup: the same order of fallbacks, with a scenario row's modelstof read from its label |
| Mixing.UntaggedKept | Kode/tilstandsvurdering/step6_tilstandsvurdering.py:1353-1358 | a substance without ':' is left unchanged by the tag removal |
| Mixing.NoColonNoTag | Kode/tilstandsvurdering/step6_tilstandsvurdering.py:1353-1358 | a text without ':' contains neither tag |
| Mixing.ScenarioRowGetsCategoryThreshold | Kode/tilstandsvurdering/step6_tilstandsvurdering.py:1361-1365 | as written, a scenario row's label is never a modelstof, so it always gets the category threshold |
| Mixing.ScenarioRowGetsModelstofThreshold | Kode/tilstandsvurdering/step6_tilstandsvurdering.py:1361-1365 | corrected, a scenario row of a modelstof with an entry gets that modelstof's threshold |
| Mixing.TrichlorethyleneThresholds | Kode/tilstandsvurdering/step6_tilstandsvurdering.py:1361-1365 | with the configured tables, the trichloroethylene scenario of the chlorinated solvents gets the category's 2.5 µg/L as written and its own 10 µg/L corrected |
| Mixing.FlagIffRatioAboveOne | Kode/tilstandsvurdering/step6_tilstandsvurdering.py:1371-1377 | with a positive threshold, a row is flagged exactly when its exceedance ratio is above one |
| Mixing.SignOfProduct | Kode/tilstandsvurdering/step6_tilstandsvurdering.py:1371-1377 | multiplying by a positive threshold keeps the sign |
| Mixing.ApplyMkk | Kode/tilstandsvurdering/step6_tilstandsvurdering.py:1333-1379 | one scored row per Cmix row, in order (the threshold is looked up by the scenario's modelstof: the corrected form of the second finding, not the scenario label the code uses) |
| Mixing.ApplyMkkSpec | Kode/tilstandsvurdering/step6_tilstandsvurdering.py:1369-1377 | a scored row keeps its Cmix row and gets its looked-up threshold; it is flagged exactly when the threshold is defined and the Cmix is above it; it has a ratio, Cmix over threshold, exactly when the threshold is positive and the Cmix defined (the threshold is looked up by the scenario's modelstof: the corrected form of the second finding, not the scenario label the code uses) |
| Mixing.RatioTimesThreshold | Kode/tilstandsvurdering/step6_tilstandsvurdering.py:1374-1377 | a defined ratio times its threshold is the Cmix |
| Mixing.EmptyTableNoExceedance | Kode/tilstandsvurdering/step6_tilstandsvurdering.py:1341-1346 | an empty threshold table leaves every threshold and ratio undefined and no row flagged |
| Summary.Present | Kode/tilstandsvurdering/step6_tilstandsvurdering.py:1411 | the defined scenarios of a column are exactly its non-missing entries (`dropna`) |
| Summary.SiteRows | Kode/tilstandsvurdering/step6_tilstandsvurdering.py:1422-1428 | the flux rows joined to a summary row are exactly those with its FID and ov_id |
| Summary.FlaggedOn | Kode/tilstandsvurdering/step6_tilstandsvurdering.py:1450-1453 | the rows looked at for failing scenarios are exactly the flagged rows with the segment's ov_id, whatever their FID |
| Summary.BaseRows | Kode/tilstandsvurdering/step6_tilstandsvurdering.py:1417-1443 | one summary row per group key, in order (the total kg counts each segment record once: the corrected form of the third finding, not the sum over every flow-scenario row the code takes) |
| Summary.WithFailing | Kode/tilstandsvurdering/step6_tilstandsvurdering.py:1447-1460 | filling `Failing_Scenarios` keeps the number of rows |
| Summary.InsertByRatioSpec | Kode/tilstandsvurdering/step6_tilstandsvurdering.py:1462-1464 | inserting a row into a list ordered by largest ratio (undefined last) keeps it ordered and adds exactly that row |
| Summary.SortByRatioSpec | Kode/tilstandsvurdering/step6_tilstandsvurdering.py:1462-1464 | the summary order is a permutation of the rows with each row's largest ratio at least that of every later defined ratio, undefined ratios last |
| Summary.FillFailing | Kode/tilstandsvurdering/step6_tilstandsvurdering.py:1447-1460 | the loop over the summary rows fills each row's failing scenarios from its ov_id |
| Summary.BuildSegmentSummary | Kode/tilstandsvurdering/step6_tilstandsvurdering.py:1388-1464 | `_build_segment_summary` returns the specified summary: empty for an empty Cmix table, else the grouped rows with failing scenarios, ordered by ratio (the total kg counts each segment record once: the corrected form of the third finding, not the sum over every flow-scenario row the code takes) |
| Summary.WithFailingAt | Kode/tilstandsvurdering/step6_tilstandsvurdering.py:1447-1460 | the i-th filled row is the i-th base row with its ov_id's failing scenarios |
| Summary.SummaryShape | Kode/tilstandsvurdering/step6_tilstandsvurdering.py:1397-1464 | one summary row per (FID, ov_id, name, GVFK) group, none exactly for an empty Cmix table, ordered by largest ratio (the total kg counts each segment record once: the corrected form of the third finding, not the sum over every flow-scenario row the code takes) |
| Summary.SummaryRowsAreGroups | Kode/tilstandsvurdering/step6_tilstandsvurdering.py:1417-1464 | every summary row is the aggregated row of a group present in the Cmix table, and every such group has its row (the total kg counts each segment record once: the corrected form of the third finding, not the sum over every flow-scenario row the code takes) |
| Summary.ExceedanceIffSomeRatioAboveOne | Kode/tilstandsvurdering/step6_tilstandsvurdering.py:1410-1443 | a segment is flagged exactly when some row of its group has an exceedance ratio above one |
| Summary.ExceedingRowFlagged | Kode/tilstandsvurdering/step6_tilstandsvurdering.py:1371-1377 | a Cmix row whose ratio exceeds one carries the exceedance flag, so it counts among the failing rows |
| Summary.FailingSpec | Kode/tilstandsvurdering/step6_tilstandsvurdering.py:1447-1458 | the failing scenarios are sorted, each once, exactly the scenarios of flagged rows of the ov_id; empty when none is flagged and non-empty when a flagged row has a named scenario |
| Summary.JoinLength | Kode/tilstandsvurdering/step6_tilstandsvurdering.py:1456 | a joined list is at least as long as each of its parts |
| Summary.FailingSharedByOv | Kode/tilstandsvurdering/step6_tilstandsvurdering.py:1449-1453 | two summary rows of different FIDs with the same ov_id get the same failing scenarios |
| Summary.TotalKgPerScenario | Kode/tilstandsvurdering/step6_tilstandsvurdering.py:1408 | one segment record joined with n flow scenarios: as written the summary total is n times its flux; corrected it is its flux |
| Summary.TotalKgSpec | Kode/tilstandsvurdering/step6_tilstandsvurdering.py:1408 | the corrected total counts each distinct segment record of the group once, and only those |
| Summary.TwoScenariosDoubleCount | Kode/tilstandsvurdering/step6_tilstandsvurdering.py:1408 | a 2 kg/yr record joined with the Q95 and Q90 scenarios is reported as 4 kg/yr as written, 2 kg/yr corrected |
| Config.ScenarioModelstofferKnown | Kode/config.py:537-675 | every modelstof some category is modelled by has a compound concentration, is one of MODELSTOFFER and has an MKK entry |
| Config.BtxerScenarios | Kode/config.py:556-597 | BTXER is modelled by benzene and oil C10-C25, each with a scenario concentration |
| Config.OplosningsmidlerScenarios | Kode/config.py:560-603 | the chlorinated solvents are modelled by the four chlorinated modelstoffer, each with a scenario concentration |
| Config.OplosningsmidlerLabelsA | Kode/config.py:560-562 | the 1,1,1-trichloroethane and trichloroethylene scenarios of the chlorinated solvents have concentrations |
| Config.OplosningsmidlerLabelsB | Kode/config.py:563-564 | the chloroform and chlorobenzene scenarios of the chlorinated solvents have concentrations |
| Config.KloredeKulbrinterScenarios | Kode/config.py:565-609 | the chlorinated hydrocarbons are modelled by the same four modelstoffer, each with a scenario concentration |
| Config.KloredeKulbrinterLabelsA | Kode/config.py:565-567 | the first two chlorinated-hydrocarbon scenarios have concentrations |
| Config.KloredeKulbrinterLabelsB | Kode/config.py:568-569 | the last two chlorinated-hydrocarbon scenarios have concentrations |
| Config.PolareForbindelserScenarios | Kode/config.py:570-610 | the polar compounds are modelled by MTBE and 4-nonylphenol, each with a scenario concentration |
| Config.PhenolerScenarios | Kode/config.py:572-611 | the phenols are modelled by phenol, with a scenario concentration |
| Config.KlorerdePhenolerScenarios | Kode/config.py:573-612 | the chlorinated phenols are modelled by 2,6-dichlorophenol, with a scenario concentration |
| Config.PesticiderScenarios | Kode/config.py:574-613 | the pesticides are modelled by mecoprop and atrazine, each with a scenario concentration |
| Config.PahForbindelserScenarios | Kode/config.py:576-614 | the PAHs are modelled by fluoranthene, with a scenario concentration |
| Config.UorganiskeForbindelserScenarios | Kode/config.py:577-615 | the inorganic compounds are modelled by arsenic and cyanide, each with a scenario concentration |
| Config.ScenarioTablesConsistent | Kode/config.py:510-675 | the step 6 tables agree: every scenario of every category has its own category concentration, and every scenario modelstof a compound concentration, MODELSTOFFER membership and an MKK entry |
| Config.CategoryThresholdsPresent | Kode/config.py:644-675 | every scenario category has an MKK entry; oil C10-C25 and chlorobenzene carry none |
| Config.SentinelCategories | Kode/config.py:589-618 | exactly LOSSEPLADS, ANDRE and PFAS have no modelstoffer, and they carry the -1 sentinel |
| Config.TrichlorethyleneEntries | Kode/config.py:644-668 | the chlorinated solvents' MKK is 2.5 µg/L and trichloroethylene's own 10 µg/L; every modelstof name is shorter than a scenario label of that category |
| Config.BenzeneEntries | Kode/config.py:513-539 | a service station's benzene has the 8000 µg/L activity value and benzene the 400 µg/L compound value |
| Config.ScenarioNameNonEmpty | Kode/config.py:596-619 | every scenario modelstof is a non-empty known modelstof |
| Config.SentinelsNotLandfillKeys | Kode/config.py:521-536 | the sentinel categories have no landfill concentration of their own |
| Config.SettingsValues | Kode/config.py:104-128 | a year has 31 557 600 seconds; the risk distance is 500 m and the infiltration cap 750 mm/yr (the cap is set at Kode/config.py line 127, the seconds per year at line 688) |
| Config.IntToString | Kode/config.py:371-372 | the threshold is written as a non-empty decimal text |
| Config.ReplaceAbsent | Kode/config.py:371-372 | replacing a pattern that does not occur leaves the text unchanged |
| Config.GetOutputPath | Kode/config.py:350-375 | an unknown file key raises KeyError with that key; a path without '{threshold}' or without a threshold is returned unchanged; otherwise every '{threshold}' is replaced by the threshold |
| Config.NonEmptyOnly | Kode/config.py:395-397 | the kept path parts are exactly the non-empty ones |
| Config.VisualizationPieces | Kode/config.py:394-397 | no path piece is empty |
| Config.VisualizationPathRoutes | Kode/config.py:378-419 | no pieces route to the summary folder; a step key to that step's figure folder followed by its remaining pieces; anything else below workflow_summary/other; no component is empty and a single argument is split at '/' |
| Config.SamplingDecision | Kode/config.py:422-455 | no fraction or one of at least 1 keeps everything; a non-positive fraction raises ValueError; otherwise exactly max(1, ⌊n × fraction⌋) ids are drawn, at least one and at most the number of ids; with no ids at all the draw of one id raises ValueError |
| Config.SamplingSizes | Kode/config.py:446 | a quarter of 10 ids draws 2, a tenth of 3 ids draws 1, and an empty id column is refused |
| Config.KeepSampled | Kode/config.py:449-450 | the sampled table keeps exactly the rows whose id was drawn |
| Loaders.MissingColumns | Kode/data_loaders.py:50 | the missing columns are exactly the required ones the table lacks, in order |
| Loaders.LoadStep5ResultsSpec | Kode/data_loaders.py:25-57 | the Step 5 table is accepted, unchanged, exactly when it is non-empty, has every required column and a river FID in every row; otherwise ValueError |
| Loaders.FirstDecodedSpec | Kode/data_loaders.py:97-104 | the encoding search gives nothing exactly when every encoding fails to decode; otherwise the outcome of the first encoding that decodes |
| Loaders.TryEncodings | Kode/data_loaders.py:97-104 | the for/else loop over the encodings returns the first outcome that is not a decoding failure |
| Loaders.LoadGvfkLayerMapping | Kode/data_loaders.py:81-113 | a missing file raises FileNotFoundError; an undecodable one ValueError; a read error is passed on; the table is returned exactly when it decodes and has the GVFK and layer columns |
| Loaders.Step5cReadLayerMapping | Kode/risikovurdering/step5c_infiltration_filter.py:374-386 | the Step 5c variant returns the first decodable outcome and, when none decodes, re-raises the last encoding's decoding error |
| Loaders.Numbered | Kode/data_loaders.py:132-133 | the rows are numbered from the start position, in order |
| Loaders.LoadRiverSegments | Kode/data_loaders.py:116-144 | a missing river file raises FileNotFoundError and an empty one ValueError |
| Loaders.LoadRiverSegmentsSpec | Kode/data_loaders.py:116-144 | the river table loads exactly when the file exists, is non-empty and has every required column; it keeps every row in order and numbers them 0, 1, 2, … as River_FID |
| Loaders.MeltColumn | Kode/data_loaders.py:172-182 | melting one flow column gives one row per Q-point carrying its ov_id, the column's scenario name and its discharge |
| Loaders.GroupMaxes | Kode/data_loaders.py:184-189 | one flow row per (ov_id, scenario) key, in order |
| Loaders.FlowColumnNames | Kode/data_loaders.py:163 | the flow columns checked are the configured column names, in order |
| Loaders.MeltSpec | Kode/data_loaders.py:172-182 | the long table holds exactly one row per Q-point and flow column |
| Loaders.LoadFlowScenariosSpec | Kode/data_loaders.py:147-191 | the flow table loads exactly when the file exists and every flow column is present; it then holds each (ov_id, scenario) of the long table once, with the largest discharge of its group |
| Loaders.GroupMaxDefined | Kode/data_loaders.py:184-189 | a group's flow is undefined exactly when every discharge of the group is |
| Loaders.GroupMaxBounds | Kode/data_loaders.py:184-189 | a defined group flow is one of the group's discharges and bounds all of them |
| Loaders.ConfiguredFlowColumns | Kode/config.py:679-685 | the configured flow columns are Q95, Q90, Q50, Q10 and Q05 |
| Direction.RasterFor | Kode/risikovurdering/step3b_infiltration_filter.py:92-105 | a layer is read only from a raster that exists: Step 3b's lower-cased regional file or the mainland fallback, Step 5c's DKM_gvd file (Kode/risikovurdering/step5c_infiltration_filter.py:309) |
| Direction.RawPixels | Kode/risikovurdering/step3b_infiltration_filter.py:107-145 | the raw valid polygon pixels when there are any; otherwise the centroid value when there is one; otherwise nothing, and never an empty list |
| Direction.Votes | Kode/risikovurdering/step3b_infiltration_filter.py:204 | the downward votes are at most the number of values |
| Direction.ClassifyMajority | Kode/risikovurdering/step3b_infiltration_filter.py:199-206 | a pair is downward exactly when more than half of its pooled values are at or above zero, upward on a tie or a minority, and no_data exactly when nothing was sampled |
| Direction.FractionAboveHalf | Kode/risikovurdering/step3b_infiltration_filter.py:205-206 | a vote share above one half means twice the votes exceed the values |
| Direction.ZerosVoteDown | Kode/risikovurdering/step3b_infiltration_filter.py:204 | values at or above zero, zero included, all vote downward |
| Direction.EvenSplitIsUpward | Kode/risikovurdering/step3b_infiltration_filter.py:206 | one downward and one upward value give upward |
| Direction.VotesAppend | Kode/risikovurdering/step3b_infiltration_filter.py:193-196 | the pooled vote count is the sum of the layers' vote counts |
| Direction.PoolPixels | Kode/risikovurdering/step3b_infiltration_filter.py:190-196 | the layer loop pools the pixels of every layer that gave any, in layer order |
| Direction.AnalyzeFlowDirections | Kode/risikovurdering/step3b_infiltration_filter.py:147-228 | the pair loop builds the direction table: no geometry gives no_data, otherwise the majority vote of the pooled layer pixels; a later pair with the same key overwrites |
| Direction.DirectionsSpec | Kode/risikovurdering/step3b_infiltration_filter.py:147-228 | the direction table holds exactly the analysed (site, GVFK) keys, each with the direction of the last pair carrying it |
| Direction.NoGeometryNoData | Kode/risikovurdering/step3b_infiltration_filter.py:184-186 | a site without geometry is no_data |
| Direction.PartitionSpec | Kode/risikovurdering/step3b_infiltration_filter.py:384-393 | the kept and removed rows together are the input, row for row |
| Direction.MembersSpec | Kode/risikovurdering/step3b_infiltration_filter.py:377-393 | a row is kept exactly when its pair is not upward and removed exactly when it is; a pair missing from the table counts as no_data |
| Direction.UnanalysedKept | Kode/risikovurdering/step5c_infiltration_filter.py:121-133 | a row whose pair was never analysed is kept, not removed |
| Categorisers.CategorizeSubstance | Kode/risikovurdering/compound_categories.py:221-286 | the override loop with early returns, then the matches loop and the pick of the greatest tuple, compute the specified verdict |
| Categorisers.CategorizeSpec | Kode/risikovurdering/compound_categories.py:246-286 | the verdict always has a distance and a table category or ANDRE; empty folded text gives (ANDRE, 500); a matching text with a firing override compound gets the first matching category with that compound's distance |
| Categorisers.CategorizeLongest | Kode/risikovurdering/compound_categories.py:270-283 | without an override, the verdict is the greatest (keyword length, category, distance) tuple among the matching keywords, so the longest keyword decides |
| Categorisers.CategorizeNoMatch | Kode/risikovurdering/compound_categories.py:285-286 | a text containing no folded keyword gets (ANDRE, 500) |
| Categorisers.FirstSpecific | Kode/risikovurdering/compound_matching.py:69-73 | the override search finds the first compound whose non-empty folded form occurs in the text, or reports that none does |
| Categorisers.CategorizeMatching | Kode/risikovurdering/compound_matching.py:51-75 | the longest-match comprehension and the breaking override loop compute the specified verdict |
| Categorisers.FindSpecific | Kode/risikovurdering/compound_matching.py:69-73 | the loop stops at the first compound that applies |
| Categorisers.FirstSpecificAt | Kode/risikovurdering/compound_matching.py:69-73 | a compound that applies after none before it is the one found |
| Categorisers.MatchingSpec | Kode/risikovurdering/compound_matching.py:51-75 | empty folded text gives (ANDRE, 500); without an override compound in the text the longest match; with one, that first compound's distance and its hinted category if it has one; the category is a table category, ANDRE or a hint |
| Categorisers.MatchingBenzenAnywhere | Kode/risikovurdering/compound_matching.py:69-73 | any 'benzen' in the text, even inside 'trichlorbenzen', gives distance 200 here |
| Categorisers.MatchingCodIsLandfill | Kode/risikovurdering/compound_matching.py:19-73 | 'cod' without 'benzen' gives (LOSSEPLADS, 500) |
| Categorisers.TrichlorbenzenOverrides | Kode/risikovurdering/compound_categories.py:251-262 | 'trichlorbenzen' contains 'benzen', yet no override compound fires on it under the prefix guard |
| Categorisers.CategorizeNoFiring | Kode/risikovurdering/compound_categories.py:270-283 | when no override compound fires, the longest match decides |
| Categorisers.TrichlorbenzenBenzen | Kode/risikovurdering/compound_matching.py:70 | 'benzen' occurs in 'trichlorbenzen' |
| Categorisers.TrichlorbenzenCod | Kode/risikovurdering/compound_categories.py:265 | 'cod' does not occur in 'trichlorbenzen' |
| Categorisers.TrichlorbenzenCyanid | Kode/risikovurdering/compound_categories.py:265 | 'cyanid' does not occur in 'trichlorbenzen' |
| Categorisers.NoSubstring | Kode/risikovurdering/compound_categories.py:265 | a text in which no letter is followed by the first two letters of a word does not contain it |
| Categorisers.CategorizeRefined | Kode/risikovurdering/refined_compound_analysis.py:155-204 | the nested loops with early returns compute the specified refined verdict |
| Categorisers.RefinedSpec | Kode/risikovurdering/refined_compound_analysis.py:155-204 | the overrides never change the category: a matching text gets its first matching category with the first firing compound's distance or else the category's own; no match or a non-string gives (ANDRE, no distance) |
| Categorisers.CategorizeFirstMatch | Kode/compound_categorization.py:163-185 | the nested loops compute the specified first-match verdict |
| Categorisers.FirstMatchSpec | Kode/compound_categorization.py:163-185 | UNCATEGORIZED without a distance exactly for a non-string or a text without a match; otherwise the first matching category in table order, with its own distance |
| Keywords.Names | Kode/risikovurdering/compound_categories.py:215-217 | the category names of a table, in table order |
| Keywords.FoldChar | Kode/risikovurdering/compound_categories.py:199-205 | the ASCII part of a character's compatibility decomposition is ASCII only |
| Keywords.Fold | Kode/risikovurdering/compound_categories.py:199-205 | the accent-folded text is ASCII only |
| Keywords.FoldAscii | Kode/risikovurdering/compound_categories.py:199-205 | folding leaves ASCII text unchanged |
| Keywords.NormalizeSpec | Kode/risikovurdering/compound_categories.py:199-205 | the normalised text is lower-case ASCII, and normalising twice changes nothing |
| Keywords.NormalizeKeeps | Kode/risikovurdering/compound_categories.py:199-205 | normalisation is the identity on lower-case ASCII text such as the override compounds |
| Keywords.NormTable | Kode/risikovurdering/compound_categories.py:270-277 | the folded table keeps every category's name, distance and keyword positions, each keyword normalised |
| Keywords.FirstCategory | Kode/compound_categorization.py:178-185 | the first category in table order with a keyword occurring in the text, or none exactly when no keyword occurs |
| Keywords.FindFirstCategory | Kode/compound_categorization.py:178-185 | the nested search loop with its early return finds that first category |
| Keywords.FirstMatchVerdict | Kode/compound_categorization.py:178-185 | a verdict other than the fallback is a table category with its own distance |
| Keywords.FirstMatchVerdictSpec | Kode/compound_categorization.py:173-185 | the fallback without a distance exactly when no keyword matches; otherwise the first matching category with its distance |
| Keywords.KeywordMatchesSpec | Kode/risikovurdering/compound_categories.py:273-277 | one category contributes exactly the tuples of its non-empty keywords that occur in the text |
| Keywords.MatchesOfSpec | Kode/risikovurdering/compound_categories.py:271-277 | a tuple is in the matches list exactly when it comes from a non-empty keyword of some category occurring in the text |
| Keywords.CollectMatches | Kode/risikovurdering/compound_categories.py:271-277 | the nested loops fill the specified matches list |
| Keywords.Best | Kode/risikovurdering/compound_categories.py:279-282 | the first tuple after the descending sort is one of the matches |
| Keywords.NotLessTransitive | Kode/risikovurdering/compound_categories.py:281 | the (length, category, distance) order is total, so "not less" is transitive |
| Keywords.TupleLessAsymmetric | Kode/risikovurdering/compound_categories.py:281 | the tuple order is asymmetric |
| Keywords.NotLessBothEqual | Kode/risikovurdering/compound_categories.py:281 | two tuples neither less than the other are equal, so the sort's tie order does not matter |
| Keywords.BestIsGreatest | Kode/risikovurdering/compound_categories.py:279-282 | no match is greater than the chosen one: it has a longest keyword and, among equally long ones, the greatest category name |
| Keywords.FirstFiring | Kode/risikovurdering/compound_categories.py:251-268 | the first override compound that fires (the benzene one only under its prefix guard) or none exactly when none fires |
| Keywords.OverrideSpec | Kode/risikovurdering/compound_categories.py:251-268 | an override applies exactly when some keyword matches and some compound fires; it keeps the first-match category with the first firing compound's distance; the refined categoriser's overrides at Kode/risikovurdering/refined_compound_analysis.py lines 171-195 follow the same rule |
| Keywords.BenzenGuardExamples | Kode/risikovurdering/compound_categories.py:252-258 | 'trichlorbenzen' does not pass the benzene guard, while 'benzen' and 'benzen, toluen' do |
| Keywords.CategoryInfo | Kode/compound_categorization.py:188-198 | the entry of a category name, or none exactly when the table has no such name |
| Keywords.CategoryDistance | Kode/risikovurdering/compound_categories.py:208-212 | a known category's distance, else the 500 m default; `get_default_distance` in Kode/risikovurdering/compound_matching.py lines 46-48 is the same rule |
| ThresholdCounts.CaseInsensitiveSiteId | Kode/step5_compound_threshold_counts.py:405-407 | the first column whose lower-cased name is an accepted site id name, or none exactly when no column is |
| ThresholdCounts.ResolveSiteIdColSpec | Kode/step5_compound_threshold_counts.py:398-408 | 'Lokalitet_ID' wins, then 'Lokalitet_', then the first column matching either up to case; KeyError exactly when no column matches in any case |
| ThresholdCounts.SemicolonsAsCommas | Kode/step5_compound_threshold_counts.py:448 | every ';' becomes ',' and nothing else changes |
| ThresholdCounts.SubstanceTokensSpec | Kode/step5_compound_threshold_counts.py:444-449 | every token is non-empty, trimmed and free of ',' and ';' |
| ThresholdCounts.SemicolonIsComma | Kode/step5_compound_threshold_counts.py:448-449 | ';' separates exactly as ',' does, and a text without ';' is split at ',' alone |
| ThresholdCounts.CommasStay | Kode/step5_compound_threshold_counts.py:448 | replacing ';' twice is replacing it once |
| ThresholdCounts.SameBlank | Kode/step5_compound_threshold_counts.py:445 | a text is blank exactly when it is blank after the replacement |
| ThresholdCounts.FlagTokens | Kode/step5_compound_threshold_counts.py:466-484 | the token loop appends, per token, its first-match category and whether the site's distance is within it |
| ThresholdCounts.ExplodeSites | Kode/step5_compound_threshold_counts.py:441-484 | the site loop appends one absence row for a site without tokens, else its token rows |
| ThresholdCounts.TokenRowsSpec | Kode/step5_compound_threshold_counts.py:466-484 | one row per token, in token order, each the flag row of its token |
| ThresholdCounts.SiteRowsSpec | Kode/step5_compound_threshold_counts.py:451-484 | a site yields one row per token, in order, each with its token's first-match category; a site without tokens yields exactly one UNCATEGORIZED row that is not within; every row's flag agrees with its distances |
| ThresholdCounts.FlagRowsSpec | Kode/step5_compound_threshold_counts.py:441-484 | every flag row agrees with its distances and comes from one of the sites |
| ThresholdCounts.FlagRowsCount | Kode/step5_compound_threshold_counts.py:441-484 | every site yields at least one flag row, so the flags are empty exactly when the table is |
| ThresholdCounts.ThresholdRunSpec | Kode/step5_compound_threshold_counts.py:425-494 | flags are produced exactly for a non-empty table with both columns and a site id column, and they are never empty; the same table without rows raises KeyError 'Substance' when the summary reads the column-less flags frame |
| ThresholdCounts.RunCategoryThresholds | Kode/step5_compound_threshold_counts.py:411-494 | a missing distance or substance column skips the run; a missing site id column raises KeyError; no rows raise KeyError 'Substance'; otherwise at least one flag row per site, each consistent |
| ThresholdCounts.SumByNonNegative | Kode/step5_compound_threshold_counts.py:494-497 | a sum of non-negative counts is non-negative |
| ThresholdCounts.WithinAtMostTotal | Kode/step5_compound_threshold_counts.py:494-497 | within rows all carry a substance, so they never outnumber the substance rows |
| ThresholdCounts.PctBounds | Kode/step5_compound_threshold_counts.py:500-501 | the within percentage lies between 0 and 100, and is 100 exactly when every token is within |
| ThresholdCounts.CategorySummariesSpec | Kode/step5_compound_threshold_counts.py:493-501 | over the flag rows of a run, which are never empty: one summary per category in order; each within count lies between 0 and its token count, the percentage between 0 and 100; and the token counts add up to the substance rows |
| ThresholdCounts.HasSubstanceRows | Kode/step5_compound_threshold_counts.py:508 | the rows kept are exactly those with a substance |
| ThresholdCounts.HasSubstanceRowsCount | Kode/step5_compound_threshold_counts.py:494-495 | the number of substance rows is the count of has_substance |
| ThresholdCounts.SubstanceSummariesSpec | Kode/step5_compound_threshold_counts.py:507-514 | every (category, substance) group is non-empty, its within count between 0 and its size, its percentage between 0 and 100, and the group sizes add up to the substance rows |
| ThresholdCounts.HasSubstanceOnes | Kode/step5_compound_threshold_counts.py:494-495 | rows that all carry a substance count one each |
| LandfillScreen.CategorizeContaminationSubstance | Kode/risikovurdering/step5_utils.py:36-45 | ('ANDRE', 500) for NaN or a non-string, otherwise the compound categoriser's verdict with its distance completed from the category table when missing |
| LandfillScreen.SubstanceVerdictSpec | Kode/risikovurdering/step5_utils.py:38-45 | the completion from the table never applies because the categoriser always yields a distance; the category is ANDRE or a table category |
| LandfillScreen.FirstTerm | Kode/risikovurdering/step5_utils.py:76-79 | the index of the first listed term occurring in the text, with no earlier term occurring; none exactly when no term occurs |
| LandfillScreen.LandfillHit | Kode/risikovurdering/step5_utils.py:63-79 | the matched keyword is always one of the five landfill terms |
| LandfillScreen.LandfillHitSpec | Kode/risikovurdering/step5_utils.py:63-79 | nothing is found exactly for NaN or a lower-cased text holding no term; otherwise the keyword is the first term of the list the text holds |
| LandfillScreen.BranchActivityVerdictSpec | Kode/risikovurdering/step5_utils.py:82-99 | LOSSEPLADS at the table's LOSSEPLADS distance exactly when the branch or the activity text holds a landfill term, otherwise ('ANDRE', 500) |
| LandfillScreen.LossepladsDistance | Kode/risikovurdering/compound_categories.py:208-212 | in the compound category table LOSSEPLADS lies 100 m out |
| LandfillScreen.CountsSpec | Kode/risikovurdering/step5_utils.py:86-93 | a keyword's counter equals the number of checks that hit it and is present exactly when that number is positive |
| LandfillScreen.CountsBounded | Kode/risikovurdering/step5_utils.py:60-93 | no counter exceeds the number of checks, and only landfill terms are ever counted |
| LandfillScreen.KeywordStats.constructor | Kode/risikovurdering/step5_utils.py:33 | the statistics start with empty branch and activity counters and no checks |
| LandfillScreen.KeywordStats.CategorizeByBranchActivity | Kode/risikovurdering/step5_utils.py:48-99 | the total_checks counter rises by one, each side's counter of its first landfill keyword is bumped, nothing else changes, and the verdict is the branch/activity verdict |
| LandfillScreen.KeywordStats.GetKeywordStats | Kode/risikovurdering/step5_utils.py:102-104 | a snapshot of the counters, each bounded by the number of checks |
| LandfillScreen.ContainsLandfillTerms | Kode/risikovurdering/step5_utils.py:63-79 | the keyword loop returns the first landfill term of the lower-cased text, nothing for NaN |
| LandfillScreen.ExtractUniqueGvfkNames | Kode/risikovurdering/step5_utils.py:107-123 | the set of stripped accepted GVFK values, empty when the column is missing |
| LandfillScreen.AcceptedNamesHas | Kode/risikovurdering/step5_utils.py:119-121 | every value that is not NaN, not 'nan' and not empty is extracted in stripped form |
| LandfillScreen.AcceptedNamesFrom | Kode/risikovurdering/step5_utils.py:119-121 | every extracted name is the stripped form of an accepted value of the column |
| LandfillScreen.BlankGvfkKept | Kode/risikovurdering/step5_utils.py:120-121 | as written, a value of blanks passes the tests and yields the empty name |
| LandfillScreen.CleanNamesSpec | Kode/risikovurdering/step5_utils.py:107-123 | with stripping done first, no name is empty, 'nan' or padded, and each is also a name of the code as written |
| LandfillScreen.Keep | Kode/risikovurdering/step5_utils.py:191-192 | a row is kept exactly when its qualification equals the wanted side |
| LandfillScreen.SeparateSpec | Kode/risikovurdering/step5_utils.py:165-192 | every row lands in exactly one part, as often as in the table; the first part holds the rows with substance data or a qualifying landfill term, the second the rest |
| LandfillScreen.LandfillUsuallyQualifies | Kode/risikovurdering/step5_utils.py:67-177 | a text with a categoriser landfill term also qualifies for the split, unless it holds 'depon' without 'deponi' |
| LandfillScreen.DeponOnlyLandfill | Kode/risikovurdering/step5_utils.py:70-177 | 'depon' makes a LOSSEPLADS site for the categoriser but does not qualify a site for the split |
| LandfillScreen.FyldOnlyQualifying | Kode/risikovurdering/step5_utils.py:71-177 | 'fyld' qualifies a site for the split but is no landfill term for the categoriser |
| SubstanceStats.DistanceDistribution | Kode/compound_categorization.py:211-225 | the loop builds the distance-to-categories dictionary of the table |
| SubstanceStats.DistributionSpec | Kode/compound_categorization.py:211-225 | the keys are exactly the distances of the table, and each lists the categories with that distance in table order |
| SubstanceStats.NamesAtSpec | Kode/compound_categorization.py:218-223 | a category is listed under a distance exactly when it has that distance, and with distinct category names none is listed twice |
| SubstanceStats.AnalyzeSubstanceList | Kode/compound_categorization.py:228-269 | the total is the list length and the summary is the one the loop specifies: NaN skipped, uncategorised substances listed, categorised ones counted by category and by distance |
| SubstanceStats.TallyTotals | Kode/compound_categorization.py:246-262 | categorised plus uncategorised is the number of non-NaN entries, and the uncategorised list has one entry per uncategorised substance |
| SubstanceStats.CategoryCountsSpec | Kode/compound_categorization.py:259-262 | a category's counter is the number of categorised substances in that category, and is present exactly when positive |
| SubstanceStats.DistanceCountsSpec | Kode/compound_categorization.py:264-267 | a distance's counter is the number of categorised substances at that distance, and is present exactly when positive |
| SubstanceStats.CountsSumToCategorized | Kode/compound_categorization.py:256-267 | the category counters, and likewise the distance counters, sum to the categorised count |
| RiskAssessment.GeneralAssessmentSpec | Kode/risikovurdering/step5_risk_assessment.py:146-153 | exactly the rows whose distance is present and within the threshold survive, in table order |
| RiskAssessment.SolventsThresholdUnreachable | Kode/risikovurdering/step5_risk_assessment.py:42-48 | as written, the solvents key of the landfill thresholds is never a verdict of the Step 5 categoriser, and the chlorinated solvents' actual category has no landfill threshold |
| RiskAssessment.CompoundNames | Kode/risikovurdering/compound_categories.py:221-286 | the category names of the Step 5 compound table, in table order |
| RiskAssessment.CorrectedThresholdsReachable | Kode/risikovurdering/step5_risk_assessment.py:42-48 | every key of the corrected landfill thresholds is a category the Step 5 categoriser can yield |
| RiskAssessment.CorrectedThresholdsRenameOnly | Kode/risikovurdering/step5_risk_assessment.py:42-48 | the corrected table differs from the written one only in the name of the solvents key |
| RiskAssessment.LandfillHitMeansSiteTerm | Kode/risikovurdering/step5_risk_assessment.py:207-220 | a text in which the branch/activity categoriser finds a landfill term is also a landfill site for the compound filter |
| RiskAssessment.SubstanceCombinations | Kode/risikovurdering/step5_risk_assessment.py:242-261 | the substance loop yields the combinations its specification defines |
| RiskAssessment.RowCombinations | Kode/risikovurdering/step5_risk_assessment.py:222-277 | one row's combinations; a row without substance data records exactly one landfill check in the statistics, a row with substance data none |
| RiskAssessment.CollectCombinations | Kode/risikovurdering/step5_risk_assessment.py:222-277 | the row loop yields the rows' combinations in order and records one landfill check per row without substance data |
| RiskAssessment.SubstanceCombosSpec | Kode/risikovurdering/step5_risk_assessment.py:242-261 | at most one combination per substance, each the combination of one of the substances |
| RiskAssessment.RowCombosSpec | Kode/risikovurdering/step5_risk_assessment.py:222-277 | a substance row yields at most one combination per substance, labelled with the substance's category and own threshold and kept only within the effective (landfill-adjusted) threshold; a branch-only row yields at most one, labelled 'Branch/Activity: ' plus its category |
| RiskAssessment.CombinationsFrom | Kode/risikovurdering/step5_risk_assessment.py:222-277 | every combination comes from one of the input rows as that row's contract says |
| RiskAssessment.ApplyLandfillOverride | Kode/risikovurdering/step5_risk_assessment.py:295-353 | the override loop keeps, relabels or drops each combination as specified, and records one landfill check per combination not already LOSSEPLADS |
| RiskAssessment.ApplyCompoundFiltering | Kode/risikovurdering/step5_risk_assessment.py:203-292 | the combinations followed by the override, nothing when there are no combinations; the statistics record the filter's and then the override's checks |
| RiskAssessment.OverrideOneSpec | Kode/risikovurdering/step5_risk_assessment.py:307-344 | LOSSEPLADS rows, rows at non-landfill sites and rows of categories without a landfill threshold are kept; any other row is relabelled LOSSEPLADS with the landfill threshold, original category and subcategory when within it, and dropped otherwise |
| RiskAssessment.OverriddenFlagged | Kode/risikovurdering/step5_risk_assessment.py:329-340 | every relabelled row is LOSSEPLADS with its original category recorded, which has a landfill threshold, and the override never adds rows |
| RiskAssessment.CombinationSurvives | Kode/risikovurdering/step5_risk_assessment.py:251-344 | no combination the filter produced is dropped by the override |
| RiskAssessment.CompoundFilteringKeepsAll | Kode/risikovurdering/step5_risk_assessment.py:342-348 | the filter's output has exactly one row per combination: the dropping branch of the override never fires |
| RiskAssessment.ChlorinatedKeptAsWritten | Kode/risikovurdering/step5_risk_assessment.py:42-48 | as written, a chlorinated-solvent row is neither held to a landfill threshold nor relabelled, wherever its site lies |
| RiskAssessment.ChlorinatedOverriddenCorrected | Kode/risikovurdering/step5_risk_assessment.py:42-48 | with the corrected table, a chlorinated-solvent row at a landfill site within 100 m is held to 100 m and relabelled |
| V1V2Sites.QualifiedRowsSpec | Kode/risikovurdering/step3_v1v2_sites.py:100-147 | exactly the rows with non-blank substance or branch text remain, and none are added |
| V1V2Sites.Present | Kode/risikovurdering/step3_v1v2_sites.py:258 | the non-null values of a column, each of which it holds |
| V1V2Sites.FirstPresent | Kode/risikovurdering/step3_v1v2_sites.py:259-261 | the 'first' aggregation: the first non-null value of the group, none exactly when all are null |
| V1V2Sites.InRiversSpec | Kode/risikovurdering/step3_v1v2_sites.py:248-249 | exactly the rows of river-contact GVFKs remain |
| V1V2Sites.ProcessDataFrom | Kode/risikovurdering/step3_v1v2_sites.py:239-274 | every output row lies in a river-contact GVFK at a site with a geometry, carries the dataset's type, and is the aggregate of its (site, GVFK) group |
| V1V2Sites.ProcessDataCovers | Kode/risikovurdering/step3_v1v2_sites.py:239-274 | every (site, GVFK) pair of a river-contact row at a site with a geometry has an output row |
| V1V2Sites.AggregateSubstances | Kode/risikovurdering/step3_v1v2_sites.py:258 | the joined substance text splits back into the group's distinct substances in first-seen order |
| V1V2Sites.MergeGroup | Kode/risikovurdering/step3_v1v2_sites.py:304-320 | the loop over a repeated pair's records yields its merged row |
| V1V2Sites.CombineAndDeduplicate | Kode/risikovurdering/step3_v1v2_sites.py:277-329 | the combined table is the concatenation when no pair repeats, and one row per pair in first-seen order otherwise |
| V1V2Sites.KeyOutSingle | Kode/risikovurdering/step3_v1v2_sites.py:303-323 | a pair present in the table contributes exactly one row, with its key |
| V1V2Sites.DeduplicatedSpec | Kode/risikovurdering/step3_v1v2_sites.py:277-329 | after combining, every (site, GVFK) pair occurs exactly once and the pairs are those of the input |
| V1V2Sites.SinglePairUnchanged | Kode/risikovurdering/step3_v1v2_sites.py:321-323 | a pair that occurs once keeps its row unchanged |
| V1V2Sites.RepeatedPairMerged | Kode/risikovurdering/step3_v1v2_sites.py:304-320 | a pair that occurs several times is represented by its merged row |
| V1V2Sites.MergedSpec | Kode/risikovurdering/step3_v1v2_sites.py:304-320 | the merged row is the first record typed 'V1 og V2'; its substances are the distinct substances of all the pair's records in first-seen order, or the first record's own text when none has any |
| V1V2Sites.TypeLabelSpec | Kode/risikovurdering/step3_v1v2_sites.py:350-353 | a site with more than one distinct type is 'V1 og V2'; otherwise the label is the one type all its rows share |
| Distances.CleanContactRiversSpec | Kode/risikovurdering/backup/step4_distances_clean.py:54-65 | the candidate rivers are exactly the input rivers with a non-blank stripped GVFK and, when the contact column exists, the configured contact value, with their GVFK stripped |
| Distances.NearestIndex | Kode/risikovurdering/backup/step4_distances_clean.py:150-159 | no nearest segment exactly when there are no candidates, otherwise an index among them |
| Distances.NearestIndexSpec | Kode/risikovurdering/backup/step4_distances_clean.py:154-159 | the nearest segment is no farther than any candidate and strictly closer than every earlier one: the first segment in iteration order that attains the minimum |
| Distances.NearestIsMinimum | Kode/risikovurdering/backup/step4_distances_clean.py:150-164 | the nearest segment's distance is the minimum distance over the candidates |
| Distances.NearestRiver | Kode/risikovurdering/backup/step4_distances_clean.py:145-171 | the clean candidate loop yields the nearest index and its distance, none without candidates |
| Distances.MinimumDistance | Kode/step4_distances.py:119-137 | the plain candidate loop yields the minimum distance over the candidates, none without candidates |
| Distances.VersionsAgree | Kode/step4_distances.py:119-137 | the clean and the plain version skip the same combinations and compute the same distance for every other one |
| Distances.CleanOutcomeSpec | Kode/risikovurdering/backup/step4_distances_clean.py:88-173 | a combination is skipped exactly when its GVFK or geometry is missing; otherwise it has a distance exactly when a segment of its GVFK is a candidate, and then the nearest segment is such a candidate at that distance, no farther than any other |
| Distances.CleanRunStep4 | Kode/risikovurdering/backup/step4_distances_clean.py:25-199 | None for no combinations or no contact rivers, otherwise the flagged distance table of the clean results (None again when no distance is valid) |
| Distances.PlainRunStep4 | Kode/step4_distances.py:15-174 | None for no combinations or no Kontakt == 1 rivers, otherwise the flagged distance table of the plain results |
| Distances.ValidSpec | Kode/step4_distances.py:149 | the valid results are exactly the results with a distance |
| Distances.SiteRowsSpec | Kode/step4_distances.py:169 | a site's valid rows are exactly its rows with a distance |
| Distances.SiteMinSpec | Kode/step4_distances.py:169-172 | a site's merged minimum is absent exactly when it has no distance; otherwise it is one of its distances and none is smaller |
| Distances.FlagSpec | Kode/step4_distances.py:169-174 | Is_Min_Distance holds exactly for a row with a distance that no row of its site undercuts |
| Distances.SomeRowFlagged | Kode/step4_distances.py:169-174 | every site with a valid distance has a row flagged as its minimum |
| Distances.FirstByGvfk | Kode/step4_distances.py:229-233 | one of the rows, whose GVFK comes alphabetically first among them; it supplies the columns that are never null |
| Distances.FirstPresent | Kode/risikovurdering/backup/step4_distances_clean.py:276-282 | the row `first()` takes a column's value from after the sort by GVFK: a row where the column is present, with no present row of smaller GVFK and no earlier present row of the same GVFK; none exactly when the column is null on every row |
| Distances.FirstValueSpec | Kode/risikovurdering/backup/step4_distances_clean.py:276-282 | a column's merged value is null exactly when every row's is, and is otherwise the value of its first present row in GVFK order |
| Distances.MergedNearestSpec | Kode/risikovurdering/backup/step4_distances_clean.py:276-282 | the merged nearest-segment columns are null exactly when no row has a nearest segment; the FID comes from the first row that has one, the water-body id and name each from the first row where they are present |
| Distances.TiedRowsMergeColumns | Kode/risikovurdering/backup/step4_distances_clean.py:276-282 | two tied rows, GVFK "A" without a water-body id and GVFK "B" with id "o2", merge into GVFK "A" with A's segment and the id "o2" |
| Distances.UniqueDistancesRows | Kode/risikovurdering/backup/step4_distances_clean.py:276-282 | a kept row is flagged, agrees outside the nearest-segment columns with a flagged row of its site of alphabetically first GVFK, and carries the site's merged nearest-segment columns |
| Distances.SiteChoiceSpec | Kode/step4_distances.py:229-233 | each site among the flagged rows keeps exactly one row, of that site |
| Distances.MinEntriesSpec | Kode/step4_distances.py:225 | the minimum-distance entries are exactly the flagged rows |
| Distances.UniqueDistancesColumn | Kode/step4_distances.py:229-233 | the per-site table lists the sites of the flagged rows in first-seen order |
| Distances.UniqueDistancesSpec | Kode/step4_distances.py:225-233 | the per-site table has exactly one row per site with a flagged row; that row is flagged, its GVFK comes alphabetically first among the site's flagged rows, its other never-null columns come from such a row, and its nearest-segment columns are merged column by column as `first()` does |
| Distances.AllAffectedGvfksSpec | Kode/step4_distances.py:257-264 | the listed GVFKs are sorted, distinct, exactly those of the site's valid rows and never more than Total_GVFKs_Affected; with clean GVFK names the text splits back into that list |
| Distances.LookupKeyInjective | Kode/step4_distances.py:312-313 | for site ids without '_', equal lookup keys mean equal site and GVFK |
| Distances.DistanceLookupSpec | Kode/step4_distances.py:316 | the lookup has a key exactly for the rows' keys, and each key maps to the distance of the last row carrying it |
| GvfkAnalysis.BranchSitesSpec | Kode/risikovurdering/step6_risikovurdering_analysis.py:210-224 | the branch sites are exactly the rows within 500 m (a missing distance is not) whose branch and activity texts hold no landfill term, NaN holding none |
| GvfkAnalysis.CategoriesSpec | Kode/risikovurdering/step6_risikovurdering_analysis.py:256-273 | shared and substance-only GVFKs split the core set and shared and new ones split the branch set, as the function asserts; the expanded set is their disjoint union |
| GvfkAnalysis.SitesInNewGvfksSpec | Kode/risikovurdering/step6_risikovurdering_analysis.py:285-304 | the sites kept are exactly the branch sites whose GVFK lies outside the core set |
| GvfkAnalysis.CalculateGvfkMetrics | Kode/risikovurdering/step6_risikovurdering_analysis.py:386-410 | the count is the set's size, and area and volume are the sums over the members the lookup knows, in any order |
| GvfkAnalysis.LookupSumRemove | Kode/risikovurdering/step6_risikovurdering_analysis.py:401-404 | any member may be taken first: the sum is that member's value, 0 if unknown, plus the sum over the rest |
| GvfkAnalysis.AbsentContributeNothing | Kode/risikovurdering/step6_risikovurdering_analysis.py:401-404 | members absent from the lookup contribute nothing |
| GvfkAnalysis.LookupSumMonotone | Kode/risikovurdering/step6_risikovurdering_analysis.py:401-404 | with non-negative areas or volumes, the total is non-negative and grows with the set |
| GvfkAnalysis.CountOccurrences | Kode/risikovurdering/step6_risikovurdering_analysis.py:885-906 | the counts of all trimmed non-empty ';'-items of the non-null, non-blank cells, empty when there are none |
| GvfkAnalysis.ValueCountsSpec | Kode/risikovurdering/step6_risikovurdering_analysis.py:903-904 | each item's count is its number of occurrences, and exactly the occurring items are counted |
| GvfkAnalysis.ValueCountsTotal | Kode/risikovurdering/step6_risikovurdering_analysis.py:896-906 | the counts add up to the number of items over all cells, and there are none exactly when no cell has an item |
| GvfkAnalysis.PercentageSpec | Kode/risikovurdering/step6_risikovurdering_analysis.py:995 | a part of a whole as a percentage lies in [0, 100] and is 100 exactly when the part is the whole |
| GvfkAnalysis.OverlapCounts | Kode/risikovurdering/step6_risikovurdering_analysis.py:970-976 | the items common to all three groups are among those common to A and C, which are among C's; C splits into its items also in A or B and those unique to it |
| GvfkAnalysis.OverlapPercentage | Kode/risikovurdering/step6_risikovurdering_analysis.py:988-995 | the overlap percentage lies in [0, 100], is 0 for an empty C, and is 100 exactly when every item of C also occurs in A |
| CombinedMap.FirstMax | Kode/tilstandsvurdering/step6_combined_map.py:185-186 | `idxmax`: an index of the group whose Q95 is no smaller than any other and strictly larger than every earlier one |
| CombinedMap.BuildQPointLookup | Kode/tilstandsvurdering/step6_combined_map.py:170-197 | the loop builds the Q-point lookup of its specification, empty when no point has an id |
| CombinedMap.LookupOfSpec | Kode/tilstandsvurdering/step6_combined_map.py:189-193 | the lookup has a key exactly for the ids entered, each mapped to its group's first maximum-Q95 point |
| CombinedMap.ValidQPointsSpec | Kode/tilstandsvurdering/step6_combined_map.py:178-179 | exactly the points with a non-null id remain |
| CombinedMap.QPointLookupSpec | Kode/tilstandsvurdering/step6_combined_map.py:170-197 | a segment id is a key exactly when some point carries it; its entry is such a point with a Q95 no smaller than any other point of the segment, and points without an id play no part |
| CombinedMap.QPointLookupEmpty | Kode/tilstandsvurdering/step6_combined_map.py:181-183 | the lookup is empty exactly when no point has an id |
| CombinedMap.SplitMultiValueTokens | Kode/tilstandsvurdering/step6_combined_map.py:736-741 | every token is trimmed, non-empty and free of ',', and there are none for None or NaN |
| CombinedMap.CountUniqueValuesSpec | Kode/tilstandsvurdering/step6_combined_map.py:758-761 | the unique count is the number of distinct tokens, at most the number of tokens, and 0 exactly when there are none |
| CombinedMap.NormalizeGvfkIdIdempotent | Kode/tilstandsvurdering/step6_combined_map.py:744-748 | normalising an id twice is normalising it once |
| CombinedMap.BuildOutputPathSpec | Kode/tilstandsvurdering/step6_combined_map.py:792-834 | a path that fits is used unchanged; otherwise the name is cut to a prefix and tagged with the hash, which fits whenever there is room for the tag; only without that room does the path fall back to the bare hash, and it fits whenever the bare-hash path does |
| CombinedMap.ConnectionStyleSpec | Kode/tilstandsvurdering/step6_combined_map.py:1120-1133 | missing or non-positive flux is thin gray; the weight lies in 1..4 and never decreases as the flux grows |
| LegacyFlux.SampleLayers | Kode/step6_tilstandsvurdering_clean.py:141-154 | the raster loop collects, in layer order, exactly the values sampled for layers with a raster and no nodata at the centre |
| LegacyFlux.GetIValue | Kode/step6_tilstandsvurdering_clean.py:134-156 | the loop yields the I value of its specification: the parser's error, 0.5 without layers or samples, otherwise the mean |
| LegacyFlux.SampledSpec | Kode/step6_tilstandsvurdering_clean.py:141-154 | at most one value per layer, none exactly when no layer yields one, and each value is the sample of one of the layers |
| LegacyFlux.MeanBounds | Kode/step6_tilstandsvurdering_clean.py:156 | the mean of the samples lies between any bounds on them |
| LegacyFlux.LayersISpec | Kode/step6_tilstandsvurdering_clean.py:138-156 | no layers or no sampled value give 0.5; otherwise I lies between any bounds on the sampled values |
| LegacyFlux.IValueSpec | Kode/step6_tilstandsvurdering_clean.py:134-139 | a missing cell gives 0.5, a cell the range parser rejects fails, and otherwise I is that of the parsed layers |
| LegacyFlux.RunStep6 | Kode/step6_tilstandsvurdering_clean.py:56-92 | the per-row loop yields the flux table of its specification, or the first row's error |
| LegacyFlux.FluxTableSpec | Kode/step6_tilstandsvurdering_clean.py:56-92 | a successful table has one row per combination, in order, each that combination's row; it fails exactly when some row's layer cell does |
| LegacyFlux.MakeRowSpec | Kode/step6_tilstandsvurdering_clean.py:78-92 | the flux is the plain product A·C·I µg/yr with mg, g and kg columns divided by 1e3, 1e6 and 1e9; it is present exactly when the category has a standard concentration, and agrees with the unit-converting formula of the current Step 6 |
| LegacyFlux.FluxRowOfSpec | Kode/step6_tilstandsvurdering_clean.py:56-74 | the area is the site's geometry area or 1000 m², a GVFK without a layer mapping gets I = 0.5, and the row fails exactly when its layer cell does not parse |

## Left out

- Flux.CalculateFlux: the Step 6 flux table is built with the concentration lookup given the site's own branch and activity, so it shows the corrected behaviour of the first finding. The code as written passes the grouped row, which makes a Servicestationer site's Benzen scenario 400 µg/L instead of 8000 µg/L; that behaviour is stated only by Flux.GroupedRowLosesActivity.
- Flux.EmitGroups: the group loop uses the same corrected lookup context as Flux.CalculateFlux.
- Flux.PendingForSnoc: the rows appended for a group use the same corrected lookup context as Flux.CalculateFlux.
- Flux.PendingForErr: the error a group's lookup raises is that of the corrected lookup context. As written, a group whose only concentration is an activity value raises instead of returning it.
- Flux.PendingConsistent: the consistency of the emitted rows is stated for the corrected lookup context.
- Flux.FluxDetailsValid: the flux table it describes is the corrected one of Flux.CalculateFlux.
- Mixing.ApplyMkk: the rows are scored with Mixing.Threshold, the corrected lookup of the second finding. The code as written keys the lookup by the scenario label, which gives Trichlorethylen the category threshold 2.5 µg/L instead of 10 µg/L; that behaviour is stated by Mixing.ThresholdAsWritten, Mixing.ScenarioRowGetsCategoryThreshold and Mixing.TrichlorethyleneThresholds.
- Mixing.ApplyMkkSpec: the threshold it names is Mixing.Threshold, as in Mixing.ApplyMkk.
- Summary.BaseRows: the total kg of a summary row is Summary.TotalKg, the corrected total of the third finding. The code as written sums every flow-scenario row, which counts one 2 kg/yr flux under two scenarios as 4 kg/yr; that behaviour is stated by Summary.TotalKgAsWritten and Summary.TwoScenariosDoubleCount.
- Summary.BuildSegmentSummary: the summary it returns uses the corrected total of Summary.BaseRows.
- Summary.SummaryShape: the rows it describes carry the corrected total of Summary.BaseRows.
- Summary.SummaryRowsAreGroups: the aggregated rows it names carry the corrected total of Summary.BaseRows.
- Distances.UniqueDistancesColumn: the per-site table lists its sites in first-seen order, while `groupby` lists them sorted by site id. The set of rows and each row's contents are as the code gives them.
- Distances.UniqueDistancesSpec: the Step 5 columns that Step 4 carries through (branch, activity, substances, name, status, region, municipality) are not modelled. `first()` would merge them column by column like the nearest-segment columns.
- LandfillScreen.KeywordStats.GetKeywordStats: the snapshot is a value. `_KEYWORD_STATS.copy()` is shallow, so in the code the returned `branch` and `activity` dicts are the live counters, and later checks show through them. The one caller, in `step5_analysis.py`, reads the snapshot at once, before any further check.
- Config.GetOutputPath: every '{threshold}' is replaced literally, and the configured paths are taken to hold no other braces. `str.format` would raise KeyError or ValueError on any other brace, and no configured path has one.

- File I/O is not modelled: reading and writing geodatabases, shapefiles, CSV and Excel files, creating directories, and checking cache modification times. The loaded tables are inputs of the model, and whether a file exists is a boolean input. For the same reason `create_gvfk_shapefile` and `save_compound_results` are left out, since they only write files.
- Raster reading (rasterio masking, sampling and nodata handling) is an input. Each layer read is described by whether the file exists, its optional centroid value and its valid polygon pixels. Where Steps 3b and 5c fall back from a regional raster, the existence of each raster file is an input too.
- Shapely geometry is not modelled: distances, areas, centroids, dissolves and nearest points. Distances and areas are given reals, and a missing geometry is an `Option`. `load_site_geometries` (Kode/data_loaders.py:60-78) is left out because it only reads and dissolves geometries.
- The nearest-segment flow path of `_calculate_cmix` ("max_near_segment") is left out because it needs geometry. The model keeps only the lookup by FID first, then by ov_id.
- The SHA-1 digest in `_build_output_path` is a parameter. The model takes the first eight hexadecimal characters as given.
- Unicode NFKD normalisation in `_normalize` is replaced by a fixed folding table over Latin-1 and a few combining and spacing diacritics. Characters outside that table are dropped, as the ASCII encoding with `ignore` drops them.
- Python's `lower()` is modelled for ASCII and the Latin-1 upper-case letters only. No other case mappings are modelled.
- The random sampler in `apply_sampling` is a parameter. The model keeps only the guards and the sample size.
- Floating point is not modelled: every quantity is an exact `real`, so there is no rounding, no infinity and no NaN propagation. The running minimum that starts at infinity in Step 4 is an `Option`.
- Plotting, maps, console output and reports are left out.
- pandas `groupby` sorts its keys, but the model lists groups in first-seen order. This matters only where the output order is observable. Every statement about grouped output here is about membership, counts, sums and maxima, which do not depend on that order.
- A dict built from a table with repeated keys keeps the last value. The model states this with `Grouping.LastWins`. The row duplication that a pandas left join causes on such repeated keys is not modelled.
- `get_all_categories` (Kode/compound_categorization.py:201-208) is left out: it only returns the keys of the category table, which the model has as a constant.
- The reporting loops of `analyze_and_export_compounds`, `_analyze_multi_gvfk_impact` and `analyze_three_groups` are left out. They produce reports, and the last of these only calls `count_occurrences` and `analyze_overlap`, which are modelled.
- `_normalize_segment_id` in the combined map is the same function as `_normalize_gvfk_id`, so only the latter is modelled.
- Step 6 calls `load_flow_scenarios_extended` and `load_gvfk_layer_mapping` with a `columns` argument, and neither exists in that form in the loaders module. The model takes the tables those calls would return as inputs.
- Concurrency is not modelled because the pipeline has none.
- Refined table B of `refined_compound_analysis.py` spells one category name with a mis-encoded "Ø". It is transcribed as written, so that category never equals the correctly spelled one.

## Findings

| source | as written | input that shows it | evidently intended | confidence | as-written member | corrected member |
|---|---|---|---|---|---|---|
| Kode/tilstandsvurdering/step6_tilstandsvurdering.py:1081-1103 | the row passed to the concentration lookup is the grouped site/category row, which no longer carries Lokalitetensbranche or Lokalitetensaktivitet, so the activity-substance level of the lookup is never reached | a Servicestationer site whose BTXER scenario is Benzen gets the compound value 400 µg/L instead of the activity value 8000 µg/L | the lookup sees the site's branch and activity | not executed | Flux.GroupedRowLosesActivity | Flux.SiteContextReachesActivity |
| Kode/tilstandsvurdering/step6_tilstandsvurdering.py:1361-1365 | the MKK lookup is keyed by the Qualifying_Substance of a scenario row, which is a scenario label rather than a modelstof name, so the modelstof threshold is never used | a KLOREREDE_OPLØSNINGSMIDLER scenario for Trichlorethylen gets the category threshold 2.5 instead of the substance threshold 10 | a scenario row uses the MKK of its modelstof | not executed | Mixing.ScenarioRowGetsCategoryThreshold | Mixing.ScenarioRowGetsModelstofThreshold |
| Kode/tilstandsvurdering/step6_tilstandsvurdering.py:1408 | the segment summary sums Total_Flux_kg_per_year over every flow scenario row, so the same flux is counted once per flow scenario | one 2 kg/yr flux evaluated under two flow scenarios gives a total of 4 kg/yr | the total is given per flow scenario, or the flux is counted once | not executed | Summary.TwoScenariosDoubleCount | Summary.TotalKgPerScenario |
| Kode/risikovurdering/step5_risk_assessment.py:42-48 | the landfill threshold table is keyed by KLOREREDE_OPLØSNINGSMIDLER, which is not a category of the compound table, so the 100 m landfill threshold never applies | a KLOREDE_KULBRINTER row at a landfill site 80 m from the river keeps its own category and threshold instead of becoming LOSSEPLADS | the key is the compound table's chlorinated-solvent category, KLOREDE_KULBRINTER | not executed | RiskAssessment.SolventsThresholdUnreachable | RiskAssessment.CorrectedThresholdsReachable |
| Kode/risikovurdering/step5_utils.py:120-121 | the GVFK value is examined before it is stripped, so a blank value is accepted | the GVFK value " " adds the name "" to the set | blank names are excluded, as in the other name filters | not executed | LandfillScreen.BlankGvfkKept | LandfillScreen.CleanNamesSpec |
