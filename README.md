# CellDIVE image merging: a verified model of the deterministic core

This project models, in Dafny, the decision logic of the CellDIVE OME-TIFF to
OME-Zarr pipeline and proves properties of it:

- **Grouping the inputs** (`Group_Files.py`). The loose pattern
  `^(?=.*(R\d{3}))(?=.*FINAL).*\.ome\.tif$` and the two structured patterns
  (DAPI and channel/marker) are written out as matchers. The model follows
  the lookahead, the lazy `.+?` prefix, the greedy digit runs, IGNORECASE,
  and the way `.` and `$` treat line feeds. The `defaultdict(list)` is a
  class that the scan fills in listing order. Sorting each list and sorting
  the items by region complete the dict. A missing path and a path that is
  not a directory give the two `ValueError`s.
- **The pipeline driver** (`pipeline.py`):
  - the pyramid level shapes;
  - the automatic chunk edge;
  - the display label taken from a channel info string;
  - the preset override, which rewrites the parsed arguments in place;
  - the guards and store naming of `process_region`, including the dry run;
  - the region selection and the success tally of `main`, with its exit
    status.
- **Merging the metadata** (`ome_metadata_enhanced.py`):
  - the colour-blind-friendly colour table and the colour rule;
  - the schema-repairing TIFF metadata reader;
  - the merge of one OME object from many single-channel files. The merge
    chooses or synthesises a template, builds one channel per file while
    keeping its optics, and adds the objective magnification.
- **Generating metadata from a template or from scratch**
  (`Claude_Code_Reference_Docs/ome_zarr_metadata.py`):
  - the schema-location repair;
  - the minimal OME object;
  - the channel update from info strings;
  - the choice between a loaded template and a minimal object.

Files and modules:

| file | module | contents |
|---|---|---|
| `wrappers.dfy` | `Wrappers` | `Option`, `Result` |
| `sequences.dfy` | `Sequences` | `zip`, and `enumerate` as a loop builds it |
| `text.dfy` | `Text` | ASCII upper-casing, `in`, `str.replace`, `split`/`join`, decimal rendering |
| `ordering.dfy` | `Ordering` | Python's `str` order and the sort of a list of strings |
| `channel_labels.dfy` | `ChannelLabels` | the info-string-to-label rule shared by three source files |
| `filename_patterns.dfy` | `FilenamePatterns` | the three filename patterns |
| `group_files.dfy` | `GroupFiles` | the `defaultdict` class and the two directory scans |
| `pipeline.dfy` | `Pipeline` | pyramid, chunk edge, presets, `process_region`, the region loop |
| `ome_model.dfy` | `OmeModel` | the parts of the OME data model the helpers touch |
| `ome_zarr_metadata.dfy` | `OmeZarrMetadata` | schema repair, minimal OME, channel update, template choice |
| `ome_metadata_enhanced.dfy` | `OmeMetadataEnhanced` | colours, schema-repairing reader, metadata merge |

Reading a TIFF, parsing XML, writing a store, and the listing of a
directory are not modelled. They enter the model as parameters:

- an extraction function from file to `Option<Ome>`;
- the direct-read result and the embedded OME-XML;
- a parse function;
- the entries of a directory in `iterdir` order;
- the success flags the two writers report.

Points where the documentation and the code differ. The model follows the
code in each case.

- The docstrings of `Group_Files.py` present the loose pattern and the
  structured patterns as agreeing on the region. The loose pattern's greedy
  lookahead captures the **last** `R###` of the name. The structured
  patterns capture the token before the channel part. For
  `p_12345678_S1_1.0.4_R001_Cy3_m_FINAL_R002.ome.tif` the two disagree, as
  `FilenamePatterns.TwoRegionLoose` and `FilenamePatterns.TwoRegionStructured`
  show.
- The DAPI pattern records `round_DAPI` in upper case whatever the case in
  the name. The channel pattern keeps the case of the name.
- In the magnification step, when the first instrument already has an
  objective, that objective keeps its own id. The new objective settings
  still refer to `Objective:0`
  (`OmeMetadataEnhanced.MagnificationKeepsForeignObjectiveId`).

## Model

| member | source | states |
|---|---|---|
| Text.UpperNoLower | ome_metadata_enhanced.py:63 | `str.upper` on ASCII keeps the length, leaves no lower-case letter, and changes exactly the strings that have one |
| Text.UpperIdempotent | ome_metadata_enhanced.py:63-68 | upper-casing an upper-cased name changes nothing |
| Text.ContainsIgnoreCaseAt | ome_metadata_enhanced.py:63-68 | `t in name.upper()` (for upper-case `t`) holds exactly when some window of the name equals `t` ignoring case |
| Text.ReplaceAllAbsent | Claude_Code_Reference_Docs/ome_zarr_metadata.py:121 | `replace` returns the string unchanged when the pattern does not occur |
| Text.ReplaceAllIntroduces | Claude_Code_Reference_Docs/ome_zarr_metadata.py:125-128 | when the pattern occurs, the replacement text occurs in the result |
| Text.ReplaceAllMarks | Claude_Code_Reference_Docs/ome_zarr_metadata.py:124-128 | when the replacement starts with the pattern and the pattern's first character does not recur, every occurrence of the pattern in the result starts a replacement |
| Text.ReplaceAllAvoids | Claude_Code_Reference_Docs/ome_zarr_metadata.py:121 | conditions under which a text `q` cannot occur after `replace`; the schema repair instantiates them |
| Text.Split | pipeline.py:269 | `split('_')` gives at least one field and no field holds the separator |
| Text.JoinSplit | pipeline.py:273 | `'_'.join(s.split('_')) == s`, the round trip the label rule relies on |
| Text.SplitSingle | pipeline.py:274-275 | a string splits into one field exactly when it has no separator |
| Text.IndexOf | pipeline.py:269-273 | position of the first underscore: holds it, none before |
| Text.NatToString | Claude_Code_Reference_Docs/ome_zarr_metadata.py:177 | `f"{i}"` is a non-empty run of digits |
| Text.NatToStringRoundTrip | Claude_Code_Reference_Docs/ome_zarr_metadata.py:177 | reading the digits back gives the number |
| Text.NatToStringInjective | Claude_Code_Reference_Docs/ome_zarr_metadata.py:273 | different indices render differently |
| Text.PrefixedNatInjective | ome_metadata_enhanced.py:227 | `Channel:0:{i}` ids differ for different `i` |
| Ordering.BelowReflexive | Group_Files.py:114 | string `<=` is reflexive |
| Ordering.BelowTotal | Group_Files.py:114 | any two strings compare |
| Ordering.BelowAntisymmetric | Group_Files.py:114 | strings below each other are equal |
| Ordering.BelowTransitive | Group_Files.py:114 | string `<=` is transitive |
| Ordering.BelowCommonPrefix | Group_Files.py:110 | a shared prefix (the directory path) does not change the order |
| Ordering.Insert | Group_Files.py:114 | inserting into a sorted list keeps it sorted, adds one element, and is a permutation plus that element |
| Ordering.Sort | Group_Files.py:114 | `list.sort()`: sorted, same length, a permutation |
| Ordering.SortedUnique | Group_Files.py:114 | two sorted permutations of one list are equal, so any correct sort (Timsort included) gives `Sort` |
| Ordering.SortIdempotent | Group_Files.py:113-114 | sorting a sorted list changes nothing |
| ChannelLabels.DisplayLabel | pipeline.py:268-275 | the label rule shared by the writer, the merge (ome_metadata_enhanced.py:211-222) and the channel update: the second field, the fields after the first joined by `_`, or the whole string; its properties are the lemmas below |
| ChannelLabels.DisplayLabelAfterFirstUnderscore | pipeline.py:268-275 | the label is everything after the first `_`, or the whole string when it has none |
| ChannelLabels.LabelOfFields | pipeline.py:270-273 | when there are at least two fields, the label is the fields after the first joined with `_` |
| ChannelLabels.DisplayLabelShorter | pipeline.py:268-275 | the label is never longer, and only as long when there is no `_` |
| ChannelLabels.DisplayLabelOfMarkerInfo | Claude_Code_Reference_Docs/ome_zarr_metadata.py:231-237 | `1.0.4_Cy3_iba1` is shown as `Cy3_iba1` |
| ChannelLabels.DisplayLabelOfDapiInfo | Claude_Code_Reference_Docs/ome_zarr_metadata.py:231-237 | `1.0.4_DAPI` is shown as `DAPI` |
| ChannelLabels.DisplayLabelOfInfo | pipeline.py:268-275 | `round_rest`, with an underscore-free round, is shown as `rest` |
| FilenamePatterns.Line | Group_Files.py:187-188 | `$` may stop before one final line feed |
| FilenamePatterns.LastRegionBelow | Group_Files.py:87 | the last `R\d{3}` below a bound, or none |
| FilenamePatterns.LooseRegion | Group_Files.py:86-107 | a match exactly when the name is one line ending in `.ome.tif` with `FINAL` and some `R\d{3}` (any case); the capture is the rightmost `R\d{3}` |
| FilenamePatterns.DigitRun | Group_Files.py:184 | the greedy `\d+` run: all digits, stopped by a non-digit |
| FilenamePatterns.TakeDate | Group_Files.py:182 | `\d{8}_` consumes an 8-digit token and its underscore |
| FilenamePatterns.TakeSample | Group_Files.py:183 | `S\d{1,2}_` consumes a sample token |
| FilenamePatterns.DigitsThen | Group_Files.py:184 | `\d+` followed by a fixed separator |
| FilenamePatterns.TakeRound | Group_Files.py:184 | `(\d{1,2}\.\d+\.\d+)_` consumes a well-formed round |
| FilenamePatterns.TakeRegion | Group_Files.py:185 | `(R\d{3})_` consumes a region token |
| FilenamePatterns.TakeDapi | Group_Files.py:186 | `DAPI_` in any case |
| FilenamePatterns.TakeChannel | Group_Files.py:200 | `(Cy3\|Cy5\|FITC\|Cy7)_` in any case |
| FilenamePatterns.TakeMarker | Group_Files.py:201 | `([^_]+)_` consumes a non-empty underscore-free marker |
| FilenamePatterns.TakeLabel | Group_Files.py:186-201 | the channel part fits the pattern tried: `DAPI_` or channel and marker |
| FilenamePatterns.ParseBody | Group_Files.py:182-203 | everything after the prefix parses into well-formed tokens that spell it back |
| FilenamePatterns.MatchAt | Group_Files.py:180-205 | with a fixed prefix length, a result is well formed and spells the name |
| FilenamePatterns.FirstFound | Group_Files.py:181 | the search over prefix lengths returns a length that works |
| FilenamePatterns.FirstFoundIsFirst | Group_Files.py:181 | no shorter length works, and none at all when nothing is found |
| FilenamePatterns.FirstFoundReaches | Group_Files.py:181 | a length that works is found at it or before it |
| FilenamePatterns.Match | Group_Files.py:180-205 | `re.match` of a structured pattern: a result is well formed, fits the pattern and spells the name |
| FilenamePatterns.MatchIsLazy | Group_Files.py:181 | `.+?` is lazy: no shorter prefix lets the rest match |
| FilenamePatterns.MatchNoneAt | Group_Files.py:180-205 | no match means no prefix length works |
| FilenamePatterns.TakeRoundOf | Group_Files.py:184 | a well-formed round is read back exactly |
| FilenamePatterns.TakeLabelOf | Group_Files.py:186-201 | a well-formed channel part is read back exactly |
| FilenamePatterns.ParseBodyOf | Group_Files.py:182-203 | a well-formed body is read back exactly |
| FilenamePatterns.MatchAtAssemble | Group_Files.py:180-205 | the name spelled from well-formed pieces parses back into those pieces |
| FilenamePatterns.MatchAssemble | Group_Files.py:180-205 | every well-formed name matches its pattern, with a prefix no longer than it was built with |
| FilenamePatterns.MatchNeedsUnderscore | Group_Files.py:180-205 | a structured match needs an underscore |
| FilenamePatterns.UnmatchedWithoutUnderscore | Group_Files.py:180-205 | neither structured pattern matches a name without an underscore |
| FilenamePatterns.StructuredIsGrouped | Group_Files.py:86-205 | a name either structured pattern accepts is also accepted by the loose pattern, unless its marker spans lines |
| FilenamePatterns.StructuredGroupedByTailRegion | Group_Files.py:86-107 | such a name is keyed by the last region token of its tail whenever the tail has one |
| FilenamePatterns.JoinedGroupedByTailRegion | Group_Files.py:86-107 | the loose capture of pieces followed by a tail with a region token is that tail's last one |
| FilenamePatterns.LooseRegionAt | Group_Files.py:86-107 | the loose capture of a one-line name is its last region token |
| FilenamePatterns.TwoRegionLoose | Group_Files.py:86-107 | `p_12345678_S1_1.0.4_R001_Cy3_m_FINAL_R002.ome.tif` is grouped under `R002` |
| FilenamePatterns.TwoRegionStructured | Group_Files.py:194-205 | the same name's channel entry is filed under `R001` |
| FilenamePatterns.GroupedWithoutInfo | Group_Files.py:86-205 | `R###FINAL.ome.tif` is grouped under `R###` and matches neither structured pattern |
| GroupFiles.Pairs | Group_Files.py:95-110 | the `(region, value)` pairs a scan files, one per accepted file entry in listing order; described by PairsMember, PairsAppend and PairsPermutation |
| GroupFiles.LooseKey | Group_Files.py:103-110 | the loose pattern's key: the captured region and the full path, or nothing; described by LooseGroupMember |
| GroupFiles.Grouped | Group_Files.py:110-117 | the returned dict as a list of items: regions ascending, each list sorted; described by GroupedRegions, GroupedLists and GroupedPermutation |
| GroupFiles.InfoOf | Group_Files.py:218-235 | the DAPI pattern is tried first; an entry exactly when one pattern matches; a DAPI file is filed under that match's region as `round_DAPI`, any other match under the channel match's region as `round_channel_marker` |
| GroupFiles.RegionLists.constructor | Group_Files.py:92 | an empty `defaultdict(list)` |
| GroupFiles.RegionLists.Append | Group_Files.py:110 | `groups[k].append(v)`: a new key starts a one-element list and is added last; the lists keep holding what was filed |
| GroupFiles.RegionLists.File | Group_Files.py:95-110 | one listing entry: afterwards the lists hold what was filed before plus this entry's pair when it is a file the key function accepts |
| GroupFiles.RegionLists.SortEach | Group_Files.py:113-114 | every list is replaced by its sorted version and the keys stay |
| GroupFiles.RegionLists.SortedItems | Group_Files.py:117 | `dict(sorted(items))`: the items in ascending key order |
| GroupFiles.FileAll | Group_Files.py:95-110 | the scan loop files exactly the pairs of the accepted file entries, in listing order |
| GroupFiles.Collect | Group_Files.py:92-117 | scan, sort and order give `Grouped` of the filed pairs |
| GroupFiles.GroupOmeTiffByRegion | Group_Files.py:63-117 | the two `ValueError`s, else the loose pattern's paths grouped by region |
| GroupFiles.ExtractChannelMarkerInfo | Group_Files.py:170-242 | the two `ValueError`s, else the info strings grouped by region |
| GroupFiles.ItemsAreGrouped | Group_Files.py:113-117 | the sorted lists, listed by ascending region, are the grouped dict |
| GroupFiles.KeysInOrderNoDup | Group_Files.py:92-110 | the dict keys are distinct and are exactly the regions that have values |
| GroupFiles.ValuesOfCount | Group_Files.py:110 | each list holds every value filed under its region, as often as it was filed |
| GroupFiles.GroupedRegions | Group_Files.py:117 | the regions of the returned dict strictly ascend and are exactly those something was filed under |
| GroupFiles.GroupedLists | Group_Files.py:113-117 | every list is non-empty, ascending, and a permutation of what was filed under its region |
| GroupFiles.PairsAppend | Group_Files.py:95-110 | scanning two stretches of a listing files what scanning each files |
| GroupFiles.PairsPermutation | Group_Files.py:95-110 | reordering the listing reorders the filed pairs |
| GroupFiles.GroupedPermutation | Group_Files.py:110-117 | the returned dict depends only on how often each pair was filed |
| GroupFiles.ListingOrderIrrelevant | Group_Files.py:95-117 | both scans return the same dict whatever order `iterdir` lists in |
| GroupFiles.PairsMember | Group_Files.py:95-110 | a pair is filed exactly when some file entry's name yields it |
| GroupFiles.PathOfInjective | Group_Files.py:110 | different names in one directory give different paths |
| GroupFiles.LooseGroupMember | Group_Files.py:95-117 | a path is in a region's list exactly when the directory lists that file and the loose pattern captures that region |
| GroupFiles.PathsInNameOrder | Group_Files.py:110-114 | the paths of a region sort in the order of their file names |
| GroupFiles.RoundTextHasNoUnderscore | Group_Files.py:184 | a captured round contains no underscore |
| GroupFiles.DapiInfoLabel | Group_Files.py:223 | a DAPI info string is shown as `DAPI` |
| GroupFiles.ChannelInfoLabel | Group_Files.py:234 | a channel info string is shown as `channel_marker` |
| GroupFiles.InfoDisplayLabel | Group_Files.py:218-235 | the label the writers show for every info string the scan produces |
| Pipeline.CalculatePyramidShapes | pipeline.py:105-144 | the factor choice, then one `(C, int(Y/f), int(X/f))` per factor; `None` for the division by a zero factor |
| Pipeline.PyramidLevelCount | pipeline.py:130-144 | `max(0, num_levels)` levels, each led by the channel count; factors of another length are replaced by generated ones |
| Pipeline.DefaultFactorsAreGenerated | pipeline.py:130-136 | the default list equals the generated factors for every level count |
| Pipeline.GeneratedFactorsGrow | pipeline.py:136 | generated factors are 1, 2, 4, 8, then 12, within 1..12 and non-decreasing |
| Pipeline.PyramidShrinks | pipeline.py:138-142 | positive non-decreasing factors give levels within the base that never grow |
| Pipeline.GeneratedPyramid | pipeline.py:133-142 | with generated factors level 0 is the base, levels never grow, and levels from index 4 on are equal |
| Pipeline.PyramidExample | pipeline.py:105-144 | five levels of 2048 x 2048 with three channels: 2048, 1024, 512, 256, 170 |
| Pipeline.Isqrt | pipeline.py:252 | `int(np.sqrt(n))`: the integer square root |
| Pipeline.AutoChunkEdge | pipeline.py:246-252 | the automatic edge is at most 1024, its square chunk fits 32 MiB, and it is the largest such edge below 1024 |
| Pipeline.ChunkEdgeRule | pipeline.py:246-255 | an explicit size is used unchanged; the automatic edge is at most 1024, and exactly 1024 for item sizes up to 32 bytes |
| Pipeline.Arguments.constructor | pipeline.py:541 | parsed arguments hold the given settings |
| Pipeline.Arguments.ApplyPreset | pipeline.py:544-560 | with a preset, each setting still at its default takes the preset's value; without one nothing changes |
| Pipeline.WithPreset | pipeline.py:544-560 | the preset override on the settings: each setting still at its default takes the preset table's value; described by the three lemmas below |
| Pipeline.PresetOverridesOnlyDefaults | pipeline.py:549-560 | a setting changes only from its default to the preset's value, and every default is replaced |
| Pipeline.PresetOnDefaults | pipeline.py:72-101 | without explicit options a run gets exactly the preset table's row |
| Pipeline.PresetIdempotent | pipeline.py:544-560 | applying a preset twice is applying it once; workers and chunk size are then set; valid settings stay valid |
| Pipeline.ExplicitDefaultIsOverridden | pipeline.py:553-556 | passing `--compression blosc --compression-level 5` explicitly is the same as not passing them |
| Pipeline.ZarrName | pipeline.py:365-368 | the store name `{prefix}_{region}.zarr` or `{region}.zarr`; described by ZarrNameInjective |
| Pipeline.ZarrNameInjective | pipeline.py:365-368 | different regions of one run never share a store name |
| Pipeline.ProcessRegion | pipeline.py:360-409 | a count mismatch fails before anything else; the store path; the writers run only outside a dry run; success exactly for a dry run or when both writers succeed |
| Pipeline.KeepCounts | pipeline.py:677 | the filter keeps every available request as often as it was made, and nothing else |
| Pipeline.KeepAppend | pipeline.py:677 | the filter keeps the requested order |
| Pipeline.SelectRegions | pipeline.py:676-685 | the requested regions that exist, in request order, an error when a request matches none, or every region; described by SelectRegionsRule, KeepCounts and KeepAppend |
| Pipeline.SelectRegionsRule | pipeline.py:676-685 | the selection fails exactly when regions were requested and none exists; otherwise every selected region exists |
| Pipeline.TallyOf | pipeline.py:693-716 | the loop's success count and failed list, corrected so that a region missing from either dict counts as failed; described by TallyAccounts |
| Pipeline.ProcessRegions | pipeline.py:693-716 | the loop's tally is `TallyOf`, with a region missing from either dict counted as failed |
| Pipeline.TallyAccounts | pipeline.py:693-728 | every region is counted once, the failed list holds exactly the failing regions, and the status is 1 exactly when one failed |
| Pipeline.DryRunExitsZero | pipeline.py:370-373 | a dry run over regions whose files and channel names line up exits 0 |
| Pipeline.RunAsWritten | pipeline.py:696-716 | the loop as written: unchecked lookups, so the first region missing from either dict ends the run with a KeyError; described by CrashPersists, AsWrittenAgreesWhenComplete and MissingChannelInfoCrashes |
| Pipeline.ProcessRegionsAsWritten | pipeline.py:696-716 | the loop with unchecked dict lookups: it stops at the first region missing from either dict |
| Pipeline.CrashPersists | pipeline.py:696-700 | once the loop as written has stopped, later regions change nothing |
| Pipeline.AsWrittenAgreesWhenComplete | pipeline.py:696-716 | when every region has files and channel info, the loop as written and the tolerant loop agree |
| Pipeline.MissingChannelInfoCrashes | pipeline.py:700 | one file `R001FINAL.ome.tif`: R001 is selected, the loop as written stops with a KeyError, the tolerant loop reports R001 failed and exits 1 |
| Pipeline.OneFileGroups | Group_Files.py:95-117 | one accepted file makes a dict of one region |
| Pipeline.OneFileHasNoInfo | Group_Files.py:211-242 | one file neither structured pattern parses makes an empty dict |
| Pipeline.SingleRegionWithoutInfo | pipeline.py:676-700 | a grouped region without channel info is selected, fatal as written, and a failure in the tolerant loop |
| Pipeline.MainOutcome | pipeline.py:649-739 | `main` after the two scans: no groups exits 1, an empty selection exits 1, otherwise the tally decides. It uses the tolerant loop `TallyOf`, which is the corrected version. The exit status still agrees with the code as written (MainStatusAgrees) |
| Pipeline.AsWrittenExitAgrees | pipeline.py:696-739 | the loop as written, whose uncaught KeyError exits 1, and the tolerant loop end with the same status |
| Pipeline.MainStatusAgrees | pipeline.py:649-739 | `main` as written and the corrected `main` exit with the same status for every scan result and every request |
| Pipeline.ExitZeroIff | pipeline.py:649-739 | for `main` with the corrected loop: the run exits 0 exactly when some file was grouped, the selection is non-empty, and every selected region succeeded; by MainStatusAgrees the same holds for the program as written |
| OmeZarrMetadata.FixOmeXmlSchema | Claude_Code_Reference_Docs/ome_zarr_metadata.py:106-130 | rename `xmlns:schemaLocation`, then, unless `xmlns:xsi=` occurs, declare it on every `<OME ` tag; described by the lemmas below |
| OmeZarrMetadata.ReplacementsDisagree | Claude_Code_Reference_Docs/ome_zarr_metadata.py:121-128 | neither replacement text can be the start of a `xmlns:schemaLocation` |
| OmeZarrMetadata.FixSchemaRemovesBadAttribute | Claude_Code_Reference_Docs/ome_zarr_metadata.py:120-128 | no `xmlns:schemaLocation` survives the repair, and the declaration step creates none |
| OmeZarrMetadata.FixSchemaDeclaresXsi | Claude_Code_Reference_Docs/ome_zarr_metadata.py:123-128 | after the repair `xmlns:xsi=` occurs somewhere in the text whenever an `<OME ` tag is present |
| OmeZarrMetadata.FixSchemaDeclaresXsiOnEveryTag | Claude_Code_Reference_Docs/ome_zarr_metadata.py:123-128 | when the renamed text has no `xmlns:xsi=`, every `<OME ` of the result opens a tag that declares the `xsi` namespace |
| OmeZarrMetadata.FixSchemaKeepsCleanXml | Claude_Code_Reference_Docs/ome_zarr_metadata.py:106-130 | well-formed XML is returned unchanged |
| OmeZarrMetadata.FixSchemaIdempotent | Claude_Code_Reference_Docs/ome_zarr_metadata.py:106-130 | repairing twice is repairing once |
| OmeZarrMetadata.CreateMinimalOme | Claude_Code_Reference_Docs/ome_zarr_metadata.py:133-200 | `create_minimal_ome` with its defaults; described by MinimalOmeShape and MinimalOmeDefaults |
| OmeZarrMetadata.MinimalOmeShape | Claude_Code_Reference_Docs/ome_zarr_metadata.py:176-200 | one image `Image:0` and pixels `Pixels:0` with the requested sizes; `max(0, size_c)` channels named `Channel i` with distinct ids |
| OmeZarrMetadata.MinimalOmeDefaults | Claude_Code_Reference_Docs/ome_zarr_metadata.py:133-200 | with every argument defaulted: a 1024 x 1024 `uint16` `XYZCT` image with one channel |
| OmeZarrMetadata.WithChannels | Claude_Code_Reference_Docs/ome_zarr_metadata.py:245-281 | one image's channel list replaced and `size_c` set to its length; described by WithChannelsChangesOnlyChannels |
| OmeZarrMetadata.WithChannelsChangesOnlyChannels | Claude_Code_Reference_Docs/ome_zarr_metadata.py:245-281 | replacing one image's channels changes nothing else, and sets the channel count to the list's length |
| OmeZarrMetadata.InfoChannelsShape | Claude_Code_Reference_Docs/ome_zarr_metadata.py:252-278 | one channel per info string, named by its display label, one sample per pixel, no colour, distinct ids |
| OmeZarrMetadata.UpdateOmeChannels | Claude_Code_Reference_Docs/ome_zarr_metadata.py:242-283 | an index past the end is a `ValueError`; one below `-len` is an `IndexError`; otherwise that image (counted from the end when negative) gets the new channels |
| OmeZarrMetadata.LastIndex | Claude_Code_Reference_Docs/ome_zarr_metadata.py:434 | the last position of a character, or -1 |
| OmeZarrMetadata.LastIndexIs | Claude_Code_Reference_Docs/ome_zarr_metadata.py:434 | a position holding the character with none after it is the last one |
| OmeZarrMetadata.Stem | Claude_Code_Reference_Docs/ome_zarr_metadata.py:434 | `Path.stem`: the last component without its last suffix; described by StemOfStore |
| OmeZarrMetadata.StemOfStore | Claude_Code_Reference_Docs/ome_zarr_metadata.py:434 | the stem of `dir/b.zarr` is `b` |
| OmeZarrMetadata.CreateOmeMetadataForZarr | Claude_Code_Reference_Docs/ome_zarr_metadata.py:428-456 | a missing template is an error; a loaded template gets its first image's channels replaced; otherwise a minimal object named after `image_name` or the stem |
| OmeZarrMetadata.MinimalObjectChannels | Claude_Code_Reference_Docs/ome_zarr_metadata.py:433-456 | without a usable template: one image, one channel per info string labelled from it, ids `Channel:0:i`, matching count |
| OmeZarrMetadata.ImageZeroChannelIds | Claude_Code_Reference_Docs/ome_zarr_metadata.py:273 | channels built for image 0 have ids `Channel:0:i` |
| OmeMetadataEnhanced.AssignChannelColor | ome_metadata_enhanced.py:46-73 | `assign_channel_color`: DAPI, then the fluorophores in table order, then the eight defaults by index; described by the lemmas below |
| OmeMetadataEnhanced.FirstFluorophoreFound | ome_metadata_enhanced.py:67-69 | a fluorophore colour is found exactly when some fluorophore occurs, and it belongs to one with none before it |
| OmeMetadataEnhanced.FirstFluorophoreIsFirst | ome_metadata_enhanced.py:67-69 | the first fluorophore in table order that occurs decides |
| OmeMetadataEnhanced.ColorRule | ome_metadata_enhanced.py:62-73 | without DAPI, the first fluorophore that occurs decides the colour; with none, the index picks from the eight defaults |
| OmeMetadataEnhanced.DapiIsWhite | ome_metadata_enhanced.py:62-64 | DAPI in any case gets `FFFFFF` whatever the index |
| OmeMetadataEnhanced.ColorCycles | ome_metadata_enhanced.py:71-73 | indices eight apart get the same colour |
| OmeMetadataEnhanced.PaletteIsHex | ome_metadata_enhanced.py:27-43 | every colour of the table is six hexadecimal digits |
| OmeMetadataEnhanced.ColorIsPaletteEntry | ome_metadata_enhanced.py:27-73 | the assigned colour is always a table entry |
| OmeMetadataEnhanced.ExtractOmeFromTiffWithFix | ome_metadata_enhanced.py:76-126 | the direct read, else the schema repair retry on the embedded XML; described by ExtractOutcome and ExtractParsesRepairedXml |
| OmeMetadataEnhanced.ExtractOutcome | ome_metadata_enhanced.py:94-126 | a direct read is returned as is; otherwise an object comes back only from a retry after a `schemaLocation` error with embedded OME-XML |
| OmeMetadataEnhanced.ExtractParsesRepairedXml | ome_metadata_enhanced.py:103-117 | a rescued read parsed XML without `xmlns:schemaLocation`, in which `xmlns:xsi=` occurs whenever an `<OME ` tag remains |
| OmeMetadataEnhanced.RepairedDeclaresXsi | ome_metadata_enhanced.py:110-115 | repaired text with an `<OME ` tag declares `xsi` |
| OmeMetadataEnhanced.MergedChannelRule | ome_metadata_enhanced.py:222-245 | channel `i`: id, label, one sample, the label's colour; each optics field only when the file's first channel has a truthy one, and then that one |
| OmeMetadataEnhanced.MergedChannelsAt | ome_metadata_enhanced.py:205-247 | one channel per input, channel `i` built from file `i` and info string `i` |
| OmeMetadataEnhanced.MergedChannelIdsDistinct | ome_metadata_enhanced.py:227 | the merged channels have pairwise distinct ids |
| OmeMetadataEnhanced.SynthesizedTemplate | ome_metadata_enhanced.py:167-193 | the template built without usable metadata; described by MergedWithoutTemplate |
| OmeMetadataEnhanced.ChooseTemplate | ome_metadata_enhanced.py:165-196 | the template always has a first image |
| OmeMetadataEnhanced.WithMagnification | ome_metadata_enhanced.py:254-283 | the magnification step; described by MagnificationRule, MagnificationKeepsImages and MagnificationKeepsForeignObjectiveId |
| OmeMetadataEnhanced.MagnificationRule | ome_metadata_enhanced.py:254-283 | without a magnification, or with objective settings already, nothing changes; otherwise only the first image's settings and the first instrument change, and its first objective carries the magnification |
| OmeMetadataEnhanced.MagnificationKeepsForeignObjectiveId | ome_metadata_enhanced.py:263-280 | an existing first objective keeps its id while the settings refer to `Objective:0` |
| OmeMetadataEnhanced.Merged | ome_metadata_enhanced.py:165-285 | the merged object: template, rename, channels, `size_c`, magnification; described by MergedShape and MergedWithoutTemplate |
| OmeMetadataEnhanced.MergeOmeMetadataFromFiles | ome_metadata_enhanced.py:161-285 | unequal lists are a `ValueError`; empty lists an `IndexError`; otherwise the merged object |
| OmeMetadataEnhanced.BuildChannels | ome_metadata_enhanced.py:203-247 | the loop appends one channel per (file, info) pair, in order |
| OmeMetadataEnhanced.BuildChannel | ome_metadata_enhanced.py:209-245 | one pass of the loop builds the channel `MergedChannelRule` describes |
| OmeMetadataEnhanced.MergedShape | ome_metadata_enhanced.py:195-251 | the merged image is renamed, has one channel per input with a matching count, and otherwise keeps the template's pixels; other images are the template's |
| OmeMetadataEnhanced.MagnificationKeepsImages | ome_metadata_enhanced.py:254-266 | the magnification step changes no image beyond its objective settings |
| OmeMetadataEnhanced.MergedWithoutTemplate | ome_metadata_enhanced.py:167-193 | without template metadata: X and Y from the first file's shape (1024 below two dimensions), one plane and time point, `uint16`, and only the instrument the magnification adds |
| Sequences.EnumeratedAt | ome_metadata_enhanced.py:205 | `enumerate(zip(...))` appending one result per element gives result `i` from element `i` |

## Left out

- Reading TIFF files, `from_tiff`/`from_xml`, `tifffile`, the zarr and XML writers, and `iterdir` are not modelled. They are parameters: extraction and parse functions, the direct-read outcome, the embedded XML, the writers' success flags, and directory entries.
- `create_zarr_from_tiff_group`, `write_ome_xml_to_zarr`, `create_metadata_for_merged_zarr` and `create_ome_from_template` do image or file I/O. Only their outcomes enter the model, and only the chunk-edge and label rules inside the zarr writer are modelled.
- `print` output, progress messages, `print_group_summary`, `print_channel_marker_info`, argument parsing beyond the preset override, the dependency check, and `workflow_example.py` are not modelled.
- Case-insensitive matching, `str.upper` and `\d` are modelled for ASCII only. Unicode case folding and non-ASCII digits are not.
- Floating point is not modelled. `int(a / b)` is modelled exactly for the non-negative integer sizes of a shape. Wavelengths and magnifications are carried as real numbers.
- The colour strings are kept as hex text. Their conversion to the integer colour of the OME model is not modelled.
- GroupFiles.PathOf: paths are `root/name` for a root without a trailing slash. Path normalisation is not modelled.
- OmeZarrMetadata.Stem: only for paths without trailing or doubled slashes.
- `ome_types` validation of the objects built (for example a negative size) is not modelled. Settings objects are represented by their ids.
- OmeMetadataEnhanced.MagnificationRule: the `except` path of the magnification step is not modelled. With the fields modelled here nothing in that block can raise.
- Pipeline.ChunkEdge: the edge is computed and printed, but the writer is not given it, so nothing downstream uses it. The model states the rule and nothing more. The compression setting is likewise only printed.
- OME objects are values. In-place updates of the template's image and pixels are modelled as functional updates of the returned object. Nothing else holds a reference to them.
- Pipeline.Arguments.ApplyPreset: the preset table entries are modelled, but not the `KeyError` for an unknown preset name, which the parser's `choices` rules out.
- GroupFiles.Collect: the model sorts with an insertion sort. `Ordering.SortedUnique` shows that any correct sort gives the same list.

## Findings

| source | as written | input that shows it | evidently intended | confidence | as-written member | corrected member |
|---|---|---|---|---|---|---|
| pipeline.py:700 | `channel_info[region_id]` is looked up unchecked for every selected region, so a region that the loose pattern grouped but no structured pattern parsed raises `KeyError` and aborts the whole run | a directory holding the single file `R001FINAL.ome.tif` | the region is reported as failed, the other regions are processed, and the run exits 1 | not executed | Pipeline.MissingChannelInfoCrashes | Pipeline.TallyAccounts |
