/** The decision logic of the pipeline driver: pyramid geometry, the
    automatic chunk edge, the preset override, the guards and naming of
    `process_region`, and the region selection and success tally of the
    command-line entry point. Image I/O is represented by the outcomes the
    writers report. */
module Pipeline {
  import opened Wrappers
  import opened Text
  import GroupFiles
  import FilenamePatterns

  /* ---------------- pyramid geometry ---------------- */

  /** A level shape `(C, Y, X)`. */
  type Shape = (int, int, int)

  /** The factors used when none are passed. */
  const DefaultFactors: seq<int> := [1, 2, 4, 8, 12]

  function Pow2(i: nat): nat {
    if i == 0 then 1 else 2 * Pow2(i - 1)
  }

  /** `[2**i if i < 4 else 12 for i in range(n)]`; the range of a negative
      count is empty. */
  function GeneratedFactors(n: int): seq<int> {
    var k := if n < 0 then 0 else n;
    seq(k, i requires 0 <= i < k => if i < 4 then Pow2(i) else 12)
  }

  /** The factors the shapes are computed from: the given list (or the
      default one) when it has one entry per level, generated ones otherwise. */
  function ChosenFactors(factors: Option<seq<int>>, numLevels: int): seq<int> {
    var fs := factors.GetOr(DefaultFactors);
    if |fs| != numLevels then GeneratedFactors(numLevels) else fs
  }

  /** Python's `int(a / b)` for a non-negative `a`: true division, truncated
      toward zero. */
  function TruncDiv(a: nat, b: int): int
    requires b != 0
  {
    if b > 0 then a / b else -(a / -b)
  }

  predicate NonZero(fs: seq<int>) {
    forall i | 0 <= i < |fs| :: fs[i] != 0
  }

  /** The shape of the level downsampled by `f`. */
  function Level(base: (nat, nat), channels: nat, f: int): Shape
    requires f != 0
  {
    (channels, TruncDiv(base.0, f), TruncDiv(base.1, f))
  }

  /** One level per factor, in factor order. */
  function LevelShapes(base: (nat, nat), channels: nat, fs: seq<int>): seq<Shape>
    requires NonZero(fs)
  {
    seq(|fs|, i requires 0 <= i < |fs| => Level(base, channels, fs[i]))
  }

  /** `calculate_pyramid_shapes`. `None` is the ZeroDivisionError that a
      zero factor in a caller's list of the right length raises. */
  method CalculatePyramidShapes(base: (nat, nat), numChannels: nat, numLevels: int,
                                factors: Option<seq<int>>)
    returns (r: Option<seq<Shape>>)
    ensures var fs := ChosenFactors(factors, numLevels);
      r == if NonZero(fs) then Some(LevelShapes(base, numChannels, fs)) else None
  {
    var fs := factors.GetOr(DefaultFactors);
    if |fs| != numLevels {
      fs := GeneratedFactors(numLevels);
    }
    var shapes: seq<Shape> := [];
    var i := 0;
    while i < |fs|
      invariant 0 <= i <= |fs|
      invariant NonZero(fs[..i])
      invariant |shapes| == i
      invariant forall j | 0 <= j < i :: fs[j] != 0 && shapes[j] == Level(base, numChannels, fs[j])
    {
      if fs[i] == 0 {
        return None;
      }
      shapes := shapes + [Level(base, numChannels, fs[i])];
      i := i + 1;
    }
    assert fs[..i] == fs;
    assert fs == ChosenFactors(factors, numLevels);
    assert shapes == LevelShapes(base, numChannels, fs);
    return Some(shapes);
  }

  /** Whatever factors are passed, there are `max(0, num_levels)` levels,
      each led by the channel count. */
  lemma PyramidLevelCount(base: (nat, nat), numChannels: nat, numLevels: int, factors: Option<seq<int>>)
    requires NonZero(ChosenFactors(factors, numLevels))
    ensures var s := LevelShapes(base, numChannels, ChosenFactors(factors, numLevels));
      |s| == (if numLevels < 0 then 0 else numLevels) &&
      forall i | 0 <= i < |s| :: s[i].0 == numChannels
  {
  }

  /** The default list is exactly what the generator produces, so without a
      list the factors are the generated ones for every level count. */
  lemma DefaultFactorsAreGenerated(numLevels: int)
    ensures ChosenFactors(None, numLevels) == GeneratedFactors(numLevels)
  {
    if numLevels == 5 {
      assert Pow2(1) == 2 && Pow2(2) == 4 && Pow2(3) == 8;
    }
  }

  /** Generated factors are 1, 2, 4, 8 and then 12 for every further level. */
  lemma GeneratedFactorsGrow(n: int)
    ensures var fs := GeneratedFactors(n);
      (forall i | 0 <= i < |fs| :: 1 <= fs[i] <= 12) &&
      (forall i, j | 0 <= i <= j < |fs| :: fs[i] <= fs[j]) &&
      (forall i | 4 <= i < |fs| :: fs[i] == 12) &&
      fs[..if |fs| < 4 then |fs| else 4] == [1, 2, 4, 8][..if |fs| < 4 then |fs| else 4]
  {
    var fs := GeneratedFactors(n);
    assert Pow2(1) == 2 && Pow2(2) == 4 && Pow2(3) == 8;
    forall i, j | 0 <= i <= j < |fs|
      ensures fs[i] <= fs[j]
    {
      if j < 4 {
        assert i == j || (i == 0 && fs[j] >= 2) || (i == 1 && fs[j] >= 4) || (i == 2 && j == 3);
      }
    }
  }

  /** A larger divisor gives a no larger quotient. */
  lemma DivAntitone(a: nat, f: int, g: int)
    requires 1 <= f <= g
    ensures a / g <= a / f
  {
    var q, p := a / g, a / f;
    MulMono(g, f, q);
    assert q * g <= a;
    assert (p + 1) * f == p * f + f;
    assert a < (p + 1) * f;
    MulMono(q, p + 1, f);
  }

  lemma MulMono(x: int, y: int, f: int)
    requires f >= 0
    ensures x >= y ==> x * f >= y * f
  {
    assert x * f - y * f == (x - y) * f;
    if x >= y {
      assert (x - y) * f >= 0;
    }
  }

  /** With positive, non-decreasing factors no level exceeds the base and
      no level is larger than the one before it. */
  lemma PyramidShrinks(base: (nat, nat), channels: nat, fs: seq<int>)
    requires forall i | 0 <= i < |fs| :: fs[i] >= 1
    requires forall i, j | 0 <= i <= j < |fs| :: fs[i] <= fs[j]
    ensures NonZero(fs)
    ensures var s := LevelShapes(base, channels, fs);
      (forall i | 0 <= i < |s| :: 0 <= s[i].1 <= base.0 && 0 <= s[i].2 <= base.1) &&
      (forall i, j | 0 <= i <= j < |s| :: s[j].1 <= s[i].1 && s[j].2 <= s[i].2)
  {
    var s := LevelShapes(base, channels, fs);
    forall i | 0 <= i < |s|
      ensures 0 <= s[i].1 <= base.0 && 0 <= s[i].2 <= base.1
    {
      DivAntitone(base.0, 1, fs[i]);
      DivAntitone(base.1, 1, fs[i]);
    }
    forall i, j | 0 <= i <= j < |s|
      ensures s[j].1 <= s[i].1 && s[j].2 <= s[i].2
    {
      DivAntitone(base.0, fs[i], fs[j]);
      DivAntitone(base.1, fs[i], fs[j]);
    }
  }

  /** Without a factor list, or with one of the wrong length: level 0 is the
      base, levels never grow, and every level from index 4 on is the same. */
  lemma GeneratedPyramid(base: (nat, nat), channels: nat, numLevels: int, factors: Option<seq<int>>)
    requires factors.None? || |factors.value| != numLevels
    ensures NonZero(ChosenFactors(factors, numLevels))
    ensures var s := LevelShapes(base, channels, ChosenFactors(factors, numLevels));
      (|s| > 0 ==> s[0] == (channels, base.0, base.1)) &&
      (forall i | 0 <= i < |s| :: 0 <= s[i].1 <= base.0 && 0 <= s[i].2 <= base.1) &&
      (forall i, j | 0 <= i <= j < |s| :: s[j].1 <= s[i].1 && s[j].2 <= s[i].2) &&
      (forall i, j | 4 <= i < |s| && 4 <= j < |s| :: s[i] == s[j])
  {
    DefaultFactorsAreGenerated(numLevels);
    var fs := GeneratedFactors(numLevels);
    assert ChosenFactors(factors, numLevels) == fs;
    GeneratedFactorsGrow(numLevels);
    PyramidShrinks(base, channels, fs);
  }

  /** Five levels of a 2048 x 2048 base with three channels. */
  lemma PyramidExample()
    ensures NonZero(ChosenFactors(None, 5))
    ensures LevelShapes((2048, 2048), 3, ChosenFactors(None, 5)) ==
      [(3, 2048, 2048), (3, 1024, 1024), (3, 512, 512), (3, 256, 256), (3, 170, 170)]
  {
    DefaultFactorsAreGenerated(5);
    GeneratedFactorsGrow(5);
  }

  /* ---------------- chunk edge ---------------- */

  /** The 32 MiB the automatic chunk edge aims at. */
  const TargetChunkBytes: nat := 32 * 1024 * 1024

  lemma IsqrtStep(n: nat, t: nat)
    requires n >= 4 && t * t <= n / 4 < (t + 1) * (t + 1)
    ensures (2 * t) * (2 * t) <= n < (2 * t + 2) * (2 * t + 2)
  {
    assert (2 * t) * (2 * t) == 4 * (t * t);
    assert (2 * t + 2) * (2 * t + 2) == 4 * ((t + 1) * (t + 1));
    assert n / 4 + 1 <= (t + 1) * (t + 1);
  }

  /** The integer square root, `int(sqrt(n))`. */
  function Isqrt(n: nat): (r: nat)
    ensures r * r <= n < (r + 1) * (r + 1)
  {
    if n < 4 then (if n == 0 then 0 else 1)
    else
      var t := Isqrt(n / 4);
      IsqrtStep(n, t);
      if (2 * t + 1) * (2 * t + 1) <= n then 2 * t + 1 else 2 * t
  }

  lemma SquareMono(a: nat, b: nat)
    requires a <= b
    ensures a * a <= b * b
  {
    assert a * a <= a * b <= b * b;
  }

  lemma SquareGrows(a: nat, b: nat)
    ensures a * a > b * b ==> a > b
  {
    if a <= b {
      SquareMono(a, b);
    }
  }

  lemma MulDivBound(q: nat, k: nat, n: nat)
    requires k > 0 && q <= n / k
    ensures q * k <= n
  {
    assert q * k <= (n / k) * k <= n;
  }

  /** The automatic edge for items of `itemsize` bytes: the largest square
      chunk that fits the 32 MiB target, capped at 1024. */
  function AutoChunkEdge(itemsize: nat): (r: nat)
    requires itemsize > 0
    ensures r <= 1024
    ensures r * r * itemsize <= TargetChunkBytes
    ensures r < 1024 ==> TargetChunkBytes < (r + 1) * (r + 1) * itemsize
  {
    var q := TargetChunkBytes / itemsize;
    var s := Isqrt(q);
    var r := if s < 1024 then s else 1024;
    SquareMono(r, s);
    MulDivBound(r * r, itemsize, TargetChunkBytes);
    BelowNextSquare(itemsize, q, r);
    r
  }

  lemma BelowNextSquare(itemsize: nat, q: nat, r: nat)
    requires itemsize > 0 && q == TargetChunkBytes / itemsize
    requires r < 1024 ==> q < (r + 1) * (r + 1)
    ensures r < 1024 ==> TargetChunkBytes < (r + 1) * (r + 1) * itemsize
  {
    if r < 1024 {
      assert q + 1 <= (r + 1) * (r + 1);
      assert TargetChunkBytes < (q + 1) * itemsize;
      assert (q + 1) * itemsize <= (r + 1) * (r + 1) * itemsize;
    }
  }

  /** The chunk edge used: an explicit size as given, else the automatic one. */
  function ChunkEdge(chunkSize: Option<int>, itemsize: nat): int
    requires itemsize > 0
  {
    match chunkSize
    case Some(c) => c
    case None => AutoChunkEdge(itemsize)
  }

  /** An explicit size is used unchanged; without one, every item size up to
      32 bytes (all NumPy image dtypes, `uint16` included) gets 1024. */
  lemma ChunkEdgeRule(chunkSize: Option<int>, itemsize: nat)
    requires itemsize > 0
    ensures chunkSize.Some? ==> ChunkEdge(chunkSize, itemsize) == chunkSize.value
    ensures chunkSize.None? ==> ChunkEdge(chunkSize, itemsize) <= 1024
    ensures chunkSize.None? && itemsize <= 32 ==> ChunkEdge(chunkSize, itemsize) == 1024
  {
    if chunkSize.None? && itemsize <= 32 {
      var q := TargetChunkBytes / itemsize;
      DivAntitone(TargetChunkBytes, itemsize, 32);
      assert TargetChunkBytes / 32 == 1048576;
      var s := Isqrt(q);
      SquareGrows(s + 1, 1024);
    }
  }

  /* ---------------- presets ---------------- */

  datatype Preset = QuPath | Fast | Small | Network

  /** The settings a preset may override. */
  datatype Settings = Settings(
    workers: Option<int>,
    compression: string,
    compressionLevel: int,
    chunkSize: Option<int>,
    pyramidLevels: int)

  /** The parser's defaults; a value still equal to its default counts as
      not given. */
  const Defaults: Settings := Settings(None, "blosc", 5, None, 5)

  /** The preset table. */
  function PresetValues(p: Preset): Settings {
    match p
    case QuPath => Settings(Some(8), "blosc", 3, Some(512), 6)
    case Fast => Settings(Some(16), "lz4", 1, Some(1024), 5)
    case Small => Settings(Some(4), "zstd", 9, Some(512), 5)
    case Network => Settings(Some(4), "blosc", 7, Some(1024), 5)
  }

  /** Each setting still at its default takes the preset's value. */
  function WithPreset(s: Settings, p: Preset): Settings {
    var v := PresetValues(p);
    Settings(
      if s.workers == Defaults.workers then v.workers else s.workers,
      if s.compression == Defaults.compression then v.compression else s.compression,
      if s.compressionLevel == Defaults.compressionLevel then v.compressionLevel else s.compressionLevel,
      if s.chunkSize == Defaults.chunkSize then v.chunkSize else s.chunkSize,
      if s.pyramidLevels == Defaults.pyramidLevels then v.pyramidLevels else s.pyramidLevels)
  }

  /** What the parser accepts for compression and its level. */
  predicate ValidSettings(s: Settings) {
    s.compression in ["blosc", "zstd", "lz4", "none"] && 1 <= s.compressionLevel <= 9
  }

  /** The parsed arguments that a preset rewrites in place. */
  class Arguments {
    var config: Option<Preset>
    var workers: Option<int>
    var compression: string
    var compressionLevel: int
    var chunkSize: Option<int>
    var pyramidLevels: int

    function Current(): Settings
      reads this
    {
      Settings(workers, compression, compressionLevel, chunkSize, pyramidLevels)
    }

    constructor(config: Option<Preset>, s: Settings)
      ensures this.config == config && Current() == s
    {
      this.config := config;
      workers := s.workers;
      compression := s.compression;
      compressionLevel := s.compressionLevel;
      chunkSize := s.chunkSize;
      pyramidLevels := s.pyramidLevels;
    }

    /** Applies the selected preset, field by field. */
    method ApplyPreset()
      modifies this
      ensures config == old(config)
      ensures config.None? ==> Current() == old(Current())
      ensures config.Some? ==> Current() == WithPreset(old(Current()), config.value)
    {
      if config.Some? {
        var preset := PresetValues(config.value);
        if workers.None? {
          workers := preset.workers;
        }
        if compression == "blosc" {
          compression := preset.compression;
        }
        if compressionLevel == 5 {
          compressionLevel := preset.compressionLevel;
        }
        if chunkSize.None? {
          chunkSize := preset.chunkSize;
        }
        if pyramidLevels == 5 {
          pyramidLevels := preset.pyramidLevels;
        }
      }
    }
  }

  /** A setting changes only when it was at its default, and then it takes
      the preset's value: explicit values other than the defaults survive. */
  lemma PresetOverridesOnlyDefaults(s: Settings, p: Preset)
    ensures var r, v := WithPreset(s, p), PresetValues(p);
      (r.workers != s.workers ==> s.workers == None && r.workers == v.workers) &&
      (r.compression != s.compression ==> s.compression == "blosc" && r.compression == v.compression) &&
      (r.compressionLevel != s.compressionLevel ==> s.compressionLevel == 5 && r.compressionLevel == v.compressionLevel) &&
      (r.chunkSize != s.chunkSize ==> s.chunkSize == None && r.chunkSize == v.chunkSize) &&
      (r.pyramidLevels != s.pyramidLevels ==> s.pyramidLevels == 5 && r.pyramidLevels == v.pyramidLevels)
    ensures var r, v := WithPreset(s, p), PresetValues(p);
      (s.workers == None ==> r.workers == v.workers) &&
      (s.compression == "blosc" ==> r.compression == v.compression) &&
      (s.compressionLevel == 5 ==> r.compressionLevel == v.compressionLevel) &&
      (s.chunkSize == None ==> r.chunkSize == v.chunkSize) &&
      (s.pyramidLevels == 5 ==> r.pyramidLevels == v.pyramidLevels)
  {
  }

  /** A run with no explicit options gets exactly the preset. */
  lemma PresetOnDefaults(p: Preset)
    ensures WithPreset(Defaults, p) == PresetValues(p)
  {
  }

  /** Applying a preset twice is applying it once; afterwards the worker
      count and the chunk size are always set, and parser-valid settings
      stay valid. */
  lemma PresetIdempotent(s: Settings, p: Preset)
    ensures WithPreset(WithPreset(s, p), p) == WithPreset(s, p)
    ensures WithPreset(s, p).workers.Some? && WithPreset(s, p).chunkSize.Some?
    ensures ValidSettings(s) ==> ValidSettings(WithPreset(s, p))
  {
  }

  /** Passing a default value explicitly is the same as not passing it. */
  lemma ExplicitDefaultIsOverridden()
    ensures WithPreset(Settings(Some(2), "blosc", 5, Some(256), 5), Small) ==
      Settings(Some(2), "zstd", 9, Some(256), 5)
  {
  }

  /* ---------------- one region ---------------- */

  /** Where a run writes and whether it writes at all. */
  datatype RunConfig = RunConfig(outputDir: string, prefix: Option<string>, dryRun: bool)

  /** The store name `prefix_R.zarr`, or `R.zarr` without a prefix. An empty
      prefix is still a prefix. */
  function ZarrName(prefix: Option<string>, region: string): string {
    match prefix
    case Some(p) => p + "_" + region + ".zarr"
    case None => region + ".zarr"
  }

  /** Different regions of one run never share a store. */
  lemma ZarrNameInjective(prefix: Option<string>, a: string, b: string)
    requires ZarrName(prefix, a) == ZarrName(prefix, b)
    ensures a == b
  {
    var lead := match prefix case Some(p) => p + "_" case None => "";
    assert ZarrName(prefix, a) == lead + a + ".zarr";
    assert ZarrName(prefix, b) == lead + b + ".zarr";
    assert a == (lead + a + ".zarr")[|lead|..|lead| + |a|];
    assert b == (lead + b + ".zarr")[|lead|..|lead| + |b|];
  }

  /** How `process_region` ends. */
  datatype RegionResult =
    | CountMismatch
    | DryRun(store: string)
    | ZarrFailed(store: string)
    | MetadataFailed(store: string)
    | Written(store: string)

  /** The boolean `process_region` returns. */
  predicate Succeeded(r: RegionResult) {
    r.DryRun? || r.Written?
  }

  /** Whether the writers were called. */
  predicate Attempted(r: RegionResult) {
    r.ZarrFailed? || r.MetadataFailed? || r.Written?
  }

  /** `process_region`; `zarrOk` and `metadataOk` are what the zarr writer
      and the metadata writer report. */
  function ProcessRegion(cfg: RunConfig, region: string, files: seq<string>, names: seq<string>,
                         zarrOk: bool, metadataOk: bool): (r: RegionResult)
    ensures r.CountMismatch? <==> |files| != |names|
    ensures !r.CountMismatch? ==> r.store == GroupFiles.PathOf(cfg.outputDir, ZarrName(cfg.prefix, region))
    ensures Attempted(r) ==> |files| == |names| && !cfg.dryRun
    ensures Succeeded(r) <==> |files| == |names| && (cfg.dryRun || (zarrOk && metadataOk))
  {
    if |files| != |names| then CountMismatch
    else
      var store := GroupFiles.PathOf(cfg.outputDir, ZarrName(cfg.prefix, region));
      if cfg.dryRun then DryRun(store)
      else if !zarrOk then ZarrFailed(store)
      else if !metadataOk then MetadataFailed(store)
      else Written(store)
  }

  /* ---------------- region selection ---------------- */

  /** `[r for r in requested if r in available]`. */
  function Keep(requested: seq<string>, available: seq<string>): seq<string>
    decreases |requested|
  {
    if |requested| == 0 then []
    else
      var r := requested[|requested| - 1];
      Keep(requested[..|requested| - 1], available) + (if r in available then [r] else [])
  }

  /** The filter keeps every available request as often as it was made,
      and nothing else. */
  lemma {:induction false} KeepCounts(requested: seq<string>, available: seq<string>, x: string)
    ensures multiset(Keep(requested, available))[x] ==
      if x in available then multiset(requested)[x] else 0
    decreases |requested|
  {
    if |requested| > 0 {
      var front := requested[..|requested| - 1];
      KeepCounts(front, available, x);
      assert requested == front + [requested[|requested| - 1]];
    }
  }

  /** The filter keeps the requested order: it splits over concatenation. */
  lemma {:induction false} KeepAppend(a: seq<string>, b: seq<string>, available: seq<string>)
    ensures Keep(a + b, available) == Keep(a, available) + Keep(b, available)
    decreases |b|
  {
    if |b| == 0 {
      assert a + b == a;
    } else {
      var front := b[..|b| - 1];
      assert (a + b)[..|a + b| - 1] == a + front;
      assert (a + b)[|a + b| - 1] == b[|b| - 1];
      KeepAppend(a, front, available);
    }
  }

  /** The regions to process: all of them in the dict's order, or the
      requested ones that exist, in the requested order. */
  function SelectRegions(requested: seq<string>, available: seq<string>): Result<seq<string>, string> {
    if |requested| == 0 then Ok(available)
    else
      var kept := Keep(requested, available);
      if |kept| == 0 then Err("None of the specified regions found")
      else Ok(kept)
  }

  /** The selection fails exactly when regions were requested and none of
      them exists; otherwise every selected region exists. */
  lemma SelectRegionsRule(requested: seq<string>, available: seq<string>)
    ensures SelectRegions(requested, available).Err? <==>
      |requested| > 0 && forall x | x in requested :: x !in available
    ensures SelectRegions(requested, available).Ok? ==>
      forall x | x in SelectRegions(requested, available).value :: x in available
  {
    var kept := Keep(requested, available);
    forall x
      ensures x in kept <==> x in requested && x in available
    {
      KeepCounts(requested, available, x);
    }
    if |kept| > 0 {
      assert kept[0] in kept;
    }
  }

  /* ---------------- the tally ---------------- */

  /** `dict[k]` on the items of a returned dict. */
  function Lookup(g: GroupFiles.Groups, k: string): Option<seq<string>>
    decreases |g|
  {
    if |g| == 0 then None
    else if g[0].0 == k then Some(g[0].1)
    else Lookup(g[1..], k)
  }

  /** What the writers report for each region: the zarr store, then the
      metadata. */
  type Writers = string -> (bool, bool)

  /** Successes so far and the failed regions in processing order. */
  datatype Tally = Tally(successes: nat, failed: seq<string>)

  /** The exit status after the summary. */
  function ExitCode(t: Tally): int {
    if |t.failed| > 0 then 1 else 0
  }

  function Record(t: Tally, region: string, ok: bool): Tally {
    if ok then t.(successes := t.successes + 1) else t.(failed := t.failed + [region])
  }

  /** Whether a region succeeds; a region missing from either dict fails
      without being processed. */
  predicate Succeeds(cfg: RunConfig, groups: GroupFiles.Groups, info: GroupFiles.Groups,
                     writers: Writers, region: string)
  {
    match (Lookup(groups, region), Lookup(info, region))
    case (Some(files), Some(names)) =>
      Succeeded(ProcessRegion(cfg, region, files, names, writers(region).0, writers(region).1))
    case _ => false
  }

  /** The tally after processing `regions` in order. */
  function TallyOf(cfg: RunConfig, groups: GroupFiles.Groups, info: GroupFiles.Groups,
                   writers: Writers, regions: seq<string>): Tally
    decreases |regions|
  {
    if |regions| == 0 then Tally(0, [])
    else
      var last := regions[|regions| - 1];
      Record(TallyOf(cfg, groups, info, writers, regions[..|regions| - 1]), last,
             Succeeds(cfg, groups, info, writers, last))
  }

  /** The processing loop of the entry point, with a region that lacks
      channel info counted as failed. */
  method ProcessRegions(cfg: RunConfig, groups: GroupFiles.Groups, info: GroupFiles.Groups,
                        writers: Writers, regions: seq<string>)
    returns (t: Tally)
    ensures t == TallyOf(cfg, groups, info, writers, regions)
  {
    var successCount := 0;
    var failedRegions: seq<string> := [];
    for i := 0 to |regions|
      invariant Tally(successCount, failedRegions) == TallyOf(cfg, groups, info, writers, regions[..i])
    {
      var region := regions[i];
      var ok := false;
      var files := Lookup(groups, region);
      var names := Lookup(info, region);
      if files.Some? && names.Some? {
        var zarrOk, metadataOk := writers(region).0, writers(region).1;
        var outcome := ProcessRegion(cfg, region, files.value, names.value, zarrOk, metadataOk);
        ok := Succeeded(outcome);
      }
      if ok {
        successCount := successCount + 1;
      } else {
        failedRegions := failedRegions + [region];
      }
      assert regions[..i + 1][..i] == regions[..i];
    }
    assert regions[..|regions|] == regions;
    t := Tally(successCount, failedRegions);
  }

  /** Every processed region is counted once, the failed list holds exactly
      the regions that failed, and the exit status is 1 exactly when one did. */
  lemma {:induction false} TallyAccounts(cfg: RunConfig, groups: GroupFiles.Groups, info: GroupFiles.Groups,
                                         writers: Writers, regions: seq<string>)
    ensures var t := TallyOf(cfg, groups, info, writers, regions);
      t.successes + |t.failed| == |regions| &&
      (forall x :: x in t.failed <==> x in regions && !Succeeds(cfg, groups, info, writers, x)) &&
      (ExitCode(t) == 1 <==> exists x | x in regions :: !Succeeds(cfg, groups, info, writers, x))
    decreases |regions|
  {
    if |regions| > 0 {
      var front := regions[..|regions| - 1];
      TallyAccounts(cfg, groups, info, writers, front);
      assert regions == front + [regions[|regions| - 1]];
    }
  }

  /** A dry run over regions whose files and channel names line up exits 0. */
  lemma DryRunExitsZero(cfg: RunConfig, groups: GroupFiles.Groups, info: GroupFiles.Groups,
                        writers: Writers, regions: seq<string>)
    requires cfg.dryRun
    requires forall x | x in regions ::
      Lookup(groups, x).Some? && Lookup(info, x).Some? &&
      |Lookup(groups, x).value| == |Lookup(info, x).value|
    ensures ExitCode(TallyOf(cfg, groups, info, writers, regions)) == 0
  {
    TallyAccounts(cfg, groups, info, writers, regions);
  }

  /* ---------------- the unchecked lookup, as written ---------------- */

  /** How the loop as written ends: a KeyError out of a dict lookup aborts
      the run after the regions before it, or the tally is complete. */
  datatype Run = Crashed(region: string, before: Tally) | Completed(tally: Tally)

  /** The loop as written: `file_groups[region_id]` and
      `channel_info[region_id]` are unchecked. */
  function RunAsWritten(cfg: RunConfig, groups: GroupFiles.Groups, info: GroupFiles.Groups,
                        writers: Writers, regions: seq<string>): Run
    decreases |regions|
  {
    if |regions| == 0 then Completed(Tally(0, []))
    else
      var last := regions[|regions| - 1];
      match RunAsWritten(cfg, groups, info, writers, regions[..|regions| - 1])
      case Crashed(r, t) => Crashed(r, t)
      case Completed(t) =>
        if Lookup(groups, last).None? || Lookup(info, last).None? then Crashed(last, t)
        else Completed(Record(t, last, Succeeds(cfg, groups, info, writers, last)))
  }

  method ProcessRegionsAsWritten(cfg: RunConfig, groups: GroupFiles.Groups, info: GroupFiles.Groups,
                                 writers: Writers, regions: seq<string>)
    returns (r: Run)
    ensures r == RunAsWritten(cfg, groups, info, writers, regions)
  {
    var successCount := 0;
    var failedRegions: seq<string> := [];
    for i := 0 to |regions|
      invariant Completed(Tally(successCount, failedRegions)) == RunAsWritten(cfg, groups, info, writers, regions[..i])
    {
      var region := regions[i];
      assert regions[..i + 1][..i] == regions[..i];
      var files := Lookup(groups, region);
      var names := Lookup(info, region);
      if files.None? || names.None? {
        CrashPersists(cfg, groups, info, writers, regions, i + 1);
        return Crashed(region, Tally(successCount, failedRegions));
      }
      var outcome := ProcessRegion(cfg, region, files.value, names.value, writers(region).0, writers(region).1);
      if Succeeded(outcome) {
        successCount := successCount + 1;
      } else {
        failedRegions := failedRegions + [region];
      }
    }
    assert regions[..|regions|] == regions;
    r := Completed(Tally(successCount, failedRegions));
  }

  /** Once the loop as written has crashed, later regions change nothing. */
  lemma {:induction false} CrashPersists(cfg: RunConfig, groups: GroupFiles.Groups, info: GroupFiles.Groups,
                                         writers: Writers, regions: seq<string>, k: nat)
    requires k <= |regions| && RunAsWritten(cfg, groups, info, writers, regions[..k]).Crashed?
    ensures RunAsWritten(cfg, groups, info, writers, regions) ==
      RunAsWritten(cfg, groups, info, writers, regions[..k])
    decreases |regions| - k
  {
    if k == |regions| {
      assert regions[..k] == regions;
    } else {
      var front := regions[..|regions| - 1];
      assert front[..k] == regions[..k];
      CrashPersists(cfg, groups, info, writers, front, k);
    }
  }

  /** When every region has its files and channel names, the loop as
      written and the tolerant loop agree. */
  lemma {:induction false} AsWrittenAgreesWhenComplete(cfg: RunConfig, groups: GroupFiles.Groups,
                                                        info: GroupFiles.Groups, writers: Writers,
                                                        regions: seq<string>)
    requires forall x | x in regions :: Lookup(groups, x).Some? && Lookup(info, x).Some?
    ensures RunAsWritten(cfg, groups, info, writers, regions) ==
      Completed(TallyOf(cfg, groups, info, writers, regions))
    decreases |regions|
  {
    if |regions| > 0 {
      AsWrittenAgreesWhenComplete(cfg, groups, info, writers, regions[..|regions| - 1]);
    }
  }

  /** The exit status of the loop as written: the uncaught KeyError ends
      the interpreter with status 1. */
  function RunStatus(r: Run): int {
    match r
    case Crashed(_, _) => 1
    case Completed(t) => ExitCode(t)
  }

  /** The loop as written and the tolerant loop end with the same status,
      whichever regions lack files or channel names. */
  lemma {:induction false} AsWrittenExitAgrees(cfg: RunConfig, groups: GroupFiles.Groups,
                                               info: GroupFiles.Groups, writers: Writers,
                                               regions: seq<string>)
    ensures RunStatus(RunAsWritten(cfg, groups, info, writers, regions)) ==
      ExitCode(TallyOf(cfg, groups, info, writers, regions))
    decreases |regions|
  {
    if |regions| > 0 {
      AsWrittenExitAgrees(cfg, groups, info, writers, regions[..|regions| - 1]);
    }
  }

  /** A directory holding one final file whose name the loose pattern
      groups under R001 but neither channel pattern parses: the region is
      selected, the loop as written stops with a KeyError, and the tolerant
      loop reports R001 as failed and exits 1. */
  lemma MissingChannelInfoCrashes()
    ensures var name := "R001FINAL.ome.tif";
      var entries := [GroupFiles.Entry(name, true)];
      var groups := GroupFiles.Grouped(GroupFiles.Pairs(entries, GroupFiles.LooseKey("in")));
      var info := GroupFiles.Grouped(GroupFiles.Pairs(entries, GroupFiles.InfoKey()));
      var cfg := RunConfig("out", None, true);
      var writers: Writers := _ => (true, true);
      groups == [("R001", [GroupFiles.PathOf("in", name)])] &&
      info == [] &&
      SelectRegions([], GroupFiles.Regions(groups)) == Ok(["R001"]) &&
      RunAsWritten(cfg, groups, info, writers, ["R001"]) == Crashed("R001", Tally(0, [])) &&
      TallyOf(cfg, groups, info, writers, ["R001"]) == Tally(0, ["R001"]) &&
      ExitCode(TallyOf(cfg, groups, info, writers, ["R001"])) == 1
  {
    var name := "R001FINAL.ome.tif";
    assert name == "R001" + "FINAL.ome.tif";
    assert "R001"[1..4] == "001";
    FilenamePatterns.GroupedWithoutInfo("R001");
    OneFileGroups("in", name, "R001");
    OneFileHasNoInfo(name);
    SingleRegionWithoutInfo(RunConfig("out", None, true), _ => (true, true), "R001", [GroupFiles.PathOf("in", name)]);
  }

  /** One file the loose pattern accepts makes a dict of one region. */
  lemma OneFileGroups(root: string, name: string, region: string)
    requires FilenamePatterns.LooseRegion(name) == Some(region)
    ensures GroupFiles.Grouped(GroupFiles.Pairs([GroupFiles.Entry(name, true)], GroupFiles.LooseKey(root))) ==
      [(region, [GroupFiles.PathOf(root, name)])]
  {
    PairsSingle(name, GroupFiles.LooseKey(root));
    GroupedSingle(region, GroupFiles.PathOf(root, name));
  }

  /** One file neither channel pattern parses makes an empty dict. */
  lemma OneFileHasNoInfo(name: string)
    requires GroupFiles.InfoOf(name) == None
    ensures GroupFiles.Grouped(GroupFiles.Pairs([GroupFiles.Entry(name, true)], GroupFiles.InfoKey())) == []
  {
    PairsSingle(name, GroupFiles.InfoKey());
  }

  lemma PairsSingle(name: string, key: string -> Option<GroupFiles.Filed>)
    ensures GroupFiles.Pairs([GroupFiles.Entry(name, true)], key) ==
      if key(name).Some? then [key(name).value] else []
  {
    var entries := [GroupFiles.Entry(name, true)];
    assert entries[..0] == [];
  }

  /** A single filed value makes a dict of one single-element list. */
  lemma GroupedSingle(k: string, v: string)
    ensures GroupFiles.Grouped([(k, v)]) == [(k, [v])]
  {
    var pairs := [(k, v)];
    assert pairs[..0] == [];
    assert GroupFiles.KeysInOrder(pairs) == [k];
    assert GroupFiles.ValuesOf(pairs, k) == [v];
  }

  /** A grouped region without channel info: selected, fatal as written,
      a failure in the tolerant loop. */
  lemma SingleRegionWithoutInfo(cfg: RunConfig, writers: Writers, region: string, files: seq<string>)
    ensures var groups := [(region, files)];
      SelectRegions([], GroupFiles.Regions(groups)) == Ok([region]) &&
      RunAsWritten(cfg, groups, [], writers, [region]) == Crashed(region, Tally(0, [])) &&
      TallyOf(cfg, groups, [], writers, [region]) == Tally(0, [region])
  {
    var regions := [region];
    assert regions[..0] == [];
    assert GroupFiles.Regions([(region, files)]) == regions;
  }

  /* ---------------- the entry point ---------------- */

  /** How the entry point ends after the directory scan. */
  datatype Outcome = NoFiles | NoneFound | Finished(tally: Tally)

  function ExitStatus(o: Outcome): int {
    match o
    case Finished(t) => ExitCode(t)
    case _ => 1
  }

  /** The entry point from the scan results on: no groups is an error, then
      the selection, then the tolerant processing loop. */
  function MainOutcome(cfg: RunConfig, groups: GroupFiles.Groups, info: GroupFiles.Groups,
                       writers: Writers, requested: seq<string>): Outcome
  {
    if |groups| == 0 then NoFiles
    else
      match SelectRegions(requested, GroupFiles.Regions(groups))
      case Err(_) => NoneFound
      case Ok(regions) => Finished(TallyOf(cfg, groups, info, writers, regions))
  }

  /** The exit status of the entry point as written, whose loop stops at
      the first region missing from either dict. */
  function MainStatusAsWritten(cfg: RunConfig, groups: GroupFiles.Groups, info: GroupFiles.Groups,
                               writers: Writers, requested: seq<string>): int
  {
    if |groups| == 0 then 1
    else
      match SelectRegions(requested, GroupFiles.Regions(groups))
      case Err(_) => 1
      case Ok(regions) => RunStatus(RunAsWritten(cfg, groups, info, writers, regions))
  }

  /** The corrected entry point exits with the status of the one as
      written: it reports the missing region instead of crashing. */
  lemma MainStatusAgrees(cfg: RunConfig, groups: GroupFiles.Groups, info: GroupFiles.Groups,
                         writers: Writers, requested: seq<string>)
    ensures MainStatusAsWritten(cfg, groups, info, writers, requested) ==
      ExitStatus(MainOutcome(cfg, groups, info, writers, requested))
  {
    if |groups| > 0 {
      var sel := SelectRegions(requested, GroupFiles.Regions(groups));
      if sel.Ok? {
        AsWrittenExitAgrees(cfg, groups, info, writers, sel.value);
      }
    }
  }

  /** The run exits 0 exactly when some file was grouped, the selection is
      not empty, and every selected region succeeded. */
  lemma ExitZeroIff(cfg: RunConfig, groups: GroupFiles.Groups, info: GroupFiles.Groups,
                    writers: Writers, requested: seq<string>)
    ensures ExitStatus(MainOutcome(cfg, groups, info, writers, requested)) == 0 <==>
      |groups| > 0 &&
      SelectRegions(requested, GroupFiles.Regions(groups)).Ok? &&
      forall x | x in SelectRegions(requested, GroupFiles.Regions(groups)).value ::
        Succeeds(cfg, groups, info, writers, x)
  {
    if |groups| > 0 {
      var sel := SelectRegions(requested, GroupFiles.Regions(groups));
      if sel.Ok? {
        TallyAccounts(cfg, groups, info, writers, sel.value);
      }
    }
  }
}
