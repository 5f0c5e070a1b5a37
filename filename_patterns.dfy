/** The three filename patterns of the directory scan, written out as
    matchers over the file name. All three are compiled with IGNORECASE and
    applied with `re.match`, so they are anchored at the start; `.` does not
    match a line feed, and `$` matches at the end or before one final line
    feed. */
module FilenamePatterns {
  import opened Wrappers
  import opened Text

  /* ---------------- common pieces ---------------- */

  /** The part of `name` that `$` can end at: one final line feed dropped. */
  function Line(name: string): (s: string)
    ensures s == name || (name == s + "\n")
  {
    if |name| > 0 && name[|name| - 1] == '\n' then name[..|name| - 1] else name
  }

  predicate NoNewline(s: string) {
    '\n' !in s
  }

  /** `R\d{3}` (either case of `R`) starts at position `j` of `s`. */
  predicate RegionAt(s: string, j: int) {
    0 <= j && j + 4 <= |s| && (s[j] == 'R' || s[j] == 'r') && AllDigits(s[j + 1..j + 4])
  }

  /** `j` is the last position of `s` where `R\d{3}` starts. */
  predicate RightmostRegionAt(s: string, j: int) {
    RegionAt(s, j) && forall k | j < k < |s| :: !RegionAt(s, k)
  }

  /** The last position below `bound` where `R\d{3}` starts, if any. */
  function LastRegionBelow(s: string, bound: nat): (r: Option<nat>)
    ensures r.Some? ==> r.value < bound && RegionAt(s, r.value)
    ensures r.Some? ==> forall k | r.value < k < bound :: !RegionAt(s, k)
    ensures r.None? ==> forall k | 0 <= k < bound :: !RegionAt(s, k)
    decreases bound
  {
    if bound == 0 then None
    else if RegionAt(s, bound - 1) then Some(bound - 1)
    else LastRegionBelow(s, bound - 1)
  }

  /* ---------------- the loose pattern ---------------- */

  /** What the loose pattern demands of a name: one line, a `.ome.tif`
      ending, `FINAL` somewhere and `R\d{3}` somewhere (all in any case). */
  predicate LooseAccepts(name: string) {
    var s := Line(name);
    NoNewline(s) && EndsWithIgnoreCase(s, ".ome.tif") && ContainsIgnoreCase(s, "FINAL")
    && exists j | 0 <= j < |s| :: RegionAt(s, j)
  }

  /** `^(?=.*(R\d{3}))(?=.*FINAL).*\.ome\.tif$` with IGNORECASE: the
      captured region, or None when the name does not match. The greedy
      `.*` in the first lookahead backtracks from the end of the line, so
      the capture is the rightmost `R\d{3}`, with the case of the name. */
  function LooseRegion(name: string): (r: Option<string>)
    ensures r.Some? <==> LooseAccepts(name)
    ensures r.Some? ==> exists j | 0 <= j < |Line(name)| ::
      RightmostRegionAt(Line(name), j) && r.value == Line(name)[j..j + 4]
  {
    var s := Line(name);
    if NoNewline(s) && EndsWithIgnoreCase(s, ".ome.tif") && ContainsIgnoreCase(s, "FINAL") then
      match LastRegionBelow(s, |s|)
      case Some(j) =>
        assert RightmostRegionAt(s, j);
        Some(s[j..j + 4])
      case None => None
    else None
  }

  /* ---------------- tokens of the structured patterns ---------------- */

  /** `c` matches the upper-case letter `u` under IGNORECASE. */
  predicate Letter(c: char, u: char) {
    UpperChar(c) == u
  }

  /** `\d{8}` */
  predicate DateToken(t: string) {
    |t| == 8 && AllDigits(t)
  }

  /** `S\d{1,2}` */
  predicate SampleToken(t: string) {
    2 <= |t| <= 3 && Letter(t[0], 'S') && AllDigits(t[1..])
  }

  /** The imaging round `\d{1,2}\.\d+\.\d+`, such as `1.0.4`. */
  datatype Round = Round(major: string, minor: string, patch: string)

  predicate RoundOk(r: Round) {
    1 <= |r.major| <= 2 && AllDigits(r.major)
    && |r.minor| >= 1 && AllDigits(r.minor) && |r.patch| >= 1 && AllDigits(r.patch)
  }

  /** The round as the pattern captures it. */
  function RoundText(r: Round): string {
    r.major + "." + r.minor + "." + r.patch
  }

  /** `R\d{3}` */
  predicate RegionToken(t: string) {
    |t| == 4 && RegionAt(t, 0)
  }

  /** `DAPI` */
  predicate DapiToken(t: string) {
    |t| == 4 && Letter(t[0], 'D') && Letter(t[1], 'A') && Letter(t[2], 'P') && Letter(t[3], 'I')
  }

  /** `Cy3|Cy5|FITC|Cy7` */
  predicate ChannelToken(t: string) {
    (|t| == 3 && Letter(t[0], 'C') && Letter(t[1], 'Y') && (t[2] == '3' || t[2] == '5' || t[2] == '7'))
    || (|t| == 4 && Letter(t[0], 'F') && Letter(t[1], 'I') && Letter(t[2], 'T') && Letter(t[3], 'C'))
  }

  /** `[^_]+` */
  predicate MarkerToken(t: string) {
    |t| >= 1 && '_' !in t
  }

  /** `.*FINAL.*\.ome\.tif$`: the rest of the name is one line (up to a
      final line feed) that ends in `.ome.tif` and has `FINAL` before it. */
  predicate TailOk(t: string) {
    var u := Line(t);
    NoNewline(u) && |u| >= 8 && EndsWithIgnoreCase(u, ".ome.tif")
    && ContainsIgnoreCase(u[..|u| - 8], "FINAL")
  }

  /** `.+?`: a non-empty run of characters other than a line feed. */
  predicate PrefixToken(t: string) {
    |t| >= 1 && NoNewline(t)
  }

  /* ---------------- a parsed structured name ---------------- */

  /** The channel part: the DAPI pattern has a literal `DAPI_`, the other
      pattern a channel and a marker. */
  datatype Label = Dapi(word: string) | Stained(channel: string, marker: string)

  datatype Pattern = DapiPattern | ChannelPattern

  /** Every piece of a name matched by a structured pattern. */
  datatype Parsed = Parsed(prefix: string, date: string, sample: string, round: Round,
                           region: string, part: Label, tail: string)

  /** `token_rest` */
  function Glue(token: string, rest: string): string {
    token + "_" + rest
  }

  /** `token.rest` */
  function Dot(token: string, rest: string): string {
    token + "." + rest
  }

  /** The round followed by `_rest`. */
  function SpellRound(r: Round, rest: string): string {
    Dot(r.major, Dot(r.minor, Glue(r.patch, rest)))
  }

  /** The channel part followed by `rest`. */
  function Spell(l: Label, rest: string): string {
    match l
    case Dapi(w) => Glue(w, rest)
    case Stained(c, m) => Glue(c, Glue(m, rest))
  }

  predicate LabelOk(l: Label) {
    match l
    case Dapi(w) => DapiToken(w)
    case Stained(c, m) => ChannelToken(c) && MarkerToken(m)
  }

  predicate Fits(pattern: Pattern, l: Label) {
    pattern == DapiPattern <==> l.Dapi?
  }

  function PatternOf(l: Label): (pattern: Pattern)
    ensures Fits(pattern, l)
  {
    if l.Dapi? then DapiPattern else ChannelPattern
  }

  predicate WellFormed(p: Parsed) {
    PrefixToken(p.prefix) && DateToken(p.date) && SampleToken(p.sample) && RoundOk(p.round)
    && RegionToken(p.region) && LabelOk(p.part) && TailOk(p.tail)
  }

  /** Everything after `prefix_`. */
  function Body(p: Parsed): string {
    Glue(p.date, Glue(p.sample, SpellRound(p.round, Glue(p.region, Spell(p.part, p.tail)))))
  }

  /** The file name the pieces spell. */
  function Assemble(p: Parsed): string {
    Glue(p.prefix, Body(p))
  }

  /* ---------------- one step per token ---------------- */

  /** A token and what follows the underscore after it. */
  datatype Cut = Cut(token: string, rest: string)

  /** Length of the run of ASCII digits at the start of `s`. */
  function DigitRun(s: string): (n: nat)
    ensures n <= |s| && AllDigits(s[..n]) && (n < |s| ==> !IsDigit(s[n]))
    decreases |s|
  {
    if |s| == 0 || !IsDigit(s[0]) then 0
    else
      var m := DigitRun(s[1..]);
      assert s[..1 + m] == [s[0]] + s[1..][..m];
      1 + m
  }

  /** Digits followed by a non-digit: the run is exactly the digits. */
  lemma {:induction false} DigitRunOf(d: string, e: string)
    requires AllDigits(d) && |e| > 0 && !IsDigit(e[0])
    ensures DigitRun(d + e) == |d|
    decreases |d|
  {
    if |d| > 0 {
      assert (d + e)[1..] == d[1..] + e;
      DigitRunOf(d[1..], e);
    } else {
      assert d + e == e;
    }
  }

  function TakeDate(s: string): (r: Option<Cut>)
    ensures r.Some? ==> s == Glue(r.value.token, r.value.rest) && DateToken(r.value.token)
  {
    if |s| >= 9 && AllDigits(s[..8]) && s[8] == '_' then
      assert s == s[..8] + "_" + s[9..];
      Some(Cut(s[..8], s[9..]))
    else None
  }

  function TakeSample(s: string): (r: Option<Cut>)
    ensures r.Some? ==> s == Glue(r.value.token, r.value.rest) && SampleToken(r.value.token)
  {
    if |s| >= 1 && Letter(s[0], 'S') then
      var n := DigitRun(s[1..]);
      if 1 <= n <= 2 && 1 + n < |s| && s[1 + n] == '_' then
        assert s[..1 + n][1..] == s[1..][..n];
        assert s == s[..1 + n] + "_" + s[2 + n..];
        Some(Cut(s[..1 + n], s[2 + n..]))
      else None
    else None
  }

  /** `\d+` followed by `stop`. */
  function DigitsThen(s: string, stop: char): (r: Option<Cut>)
    ensures r.Some? ==> s == r.value.token + [stop] + r.value.rest
    ensures r.Some? ==> |r.value.token| >= 1 && AllDigits(r.value.token)
  {
    var n := DigitRun(s);
    if 1 <= n < |s| && s[n] == stop then
      assert s == s[..n] + [stop] + s[n + 1..];
      Some(Cut(s[..n], s[n + 1..]))
    else None
  }

  /** `(\d{1,2}\.\d+\.\d+)_`: each digit run is greedy and must be
      followed by its separator, so backtracking cannot change the split. */
  function TakeRound(s: string): (r: Option<(Round, string)>)
    ensures r.Some? ==> s == SpellRound(r.value.0, r.value.1) && RoundOk(r.value.0)
  {
    match DigitsThen(s, '.')
    case None => None
    case Some(a) =>
      if |a.token| > 2 then None
      else
        match DigitsThen(a.rest, '.')
        case None => None
        case Some(b) =>
          match DigitsThen(b.rest, '_')
          case None => None
          case Some(c) => Some((Round(a.token, b.token, c.token), c.rest))
  }

  function TakeRegion(s: string): (r: Option<Cut>)
    ensures r.Some? ==> s == Glue(r.value.token, r.value.rest) && RegionToken(r.value.token)
  {
    if |s| >= 5 && RegionAt(s, 0) && s[4] == '_' then
      assert s[..4][1..4] == s[1..4];
      assert s == s[..4] + "_" + s[5..];
      Some(Cut(s[..4], s[5..]))
    else None
  }

  function TakeDapi(s: string): (r: Option<Cut>)
    ensures r.Some? ==> s == Glue(r.value.token, r.value.rest) && DapiToken(r.value.token)
  {
    if |s| >= 5 && DapiToken(s[..4]) && s[4] == '_' then
      assert s == s[..4] + "_" + s[5..];
      Some(Cut(s[..4], s[5..]))
    else None
  }

  /** The four alternatives differ in first letter or in length, so at most
      one of them can be followed by `_`. */
  function TakeChannel(s: string): (r: Option<Cut>)
    ensures r.Some? ==> s == Glue(r.value.token, r.value.rest) && ChannelToken(r.value.token)
  {
    if |s| >= 4 && ChannelToken(s[..3]) && s[3] == '_' then
      assert s == s[..3] + "_" + s[4..];
      Some(Cut(s[..3], s[4..]))
    else if |s| >= 5 && ChannelToken(s[..4]) && s[4] == '_' then
      assert s == s[..4] + "_" + s[5..];
      Some(Cut(s[..4], s[5..]))
    else None
  }

  /** `[^_]+_`: the greedy run stops at the first underscore. */
  function TakeMarker(s: string): (r: Option<Cut>)
    ensures r.Some? ==> s == Glue(r.value.token, r.value.rest) && MarkerToken(r.value.token)
  {
    if '_' in s then
      var k := IndexOf(s, '_');
      if k >= 1 then
        assert s == s[..k] + "_" + s[k + 1..];
        Some(Cut(s[..k], s[k + 1..]))
      else None
    else None
  }

  /** The channel part and the text after it. */
  function TakeLabel(pattern: Pattern, s: string): (r: Option<(Label, string)>)
    ensures r.Some? ==> s == Spell(r.value.0, r.value.1) && LabelOk(r.value.0)
    ensures r.Some? ==> Fits(pattern, r.value.0)
  {
    match pattern
    case DapiPattern =>
      (match TakeDapi(s)
       case Some(d) => Some((Dapi(d.token), d.rest))
       case None => None)
    case ChannelPattern =>
      match TakeChannel(s)
      case None => None
      case Some(c) =>
        match TakeMarker(c.rest)
        case None => None
        case Some(m) => Some((Stained(c.token, m.token), m.rest))
  }

  /** Everything after `prefix_`, token by token. */
  function ParseBody(pattern: Pattern, prefix: string, s: string): (r: Option<Parsed>)
    ensures r.Some? ==> r.value.prefix == prefix && Body(r.value) == s
    ensures r.Some? ==> DateToken(r.value.date) && SampleToken(r.value.sample)
    ensures r.Some? ==> RoundOk(r.value.round) && RegionToken(r.value.region)
    ensures r.Some? ==> LabelOk(r.value.part) && Fits(pattern, r.value.part) && TailOk(r.value.tail)
  {
    match TakeDate(s)
    case None => None
    case Some(d) =>
    match TakeSample(d.rest)
    case None => None
    case Some(m) =>
    match TakeRound(m.rest)
    case None => None
    case Some(n) =>
    match TakeRegion(n.1)
    case None => None
    case Some(g) =>
    match TakeLabel(pattern, g.rest)
    case None => None
    case Some(lt) =>
      if TailOk(lt.1) then Some(Parsed(prefix, d.token, m.token, n.0, g.token, lt.0, lt.1))
      else None
  }

  /** The pattern with its lazy prefix fixed to the first `k` characters. */
  function MatchAt(pattern: Pattern, name: string, k: nat): (r: Option<Parsed>)
    ensures r.Some? ==> WellFormed(r.value) && Fits(pattern, r.value.part)
    ensures r.Some? ==> Assemble(r.value) == name && |r.value.prefix| == k
  {
    if 1 <= k < |name| && PrefixToken(name[..k]) && name[k] == '_' then
      assert name == Glue(name[..k], name[k + 1..]);
      ParseBody(pattern, name[..k], name[k + 1..])
    else None
  }

  /** The first `i` in `[k, bound)` at which `f` gives a value, with that
      value. */
  function FirstFound<T>(f: nat -> Option<T>, k: nat, bound: nat): (r: Option<(nat, T)>)
    ensures r.Some? ==> k <= r.value.0 < bound && f(r.value.0) == Some(r.value.1)
    decreases bound - k
  {
    if k >= bound then None
    else if f(k).Some? then Some((k, f(k).value))
    else FirstFound(f, k + 1, bound)
  }

  /** Nothing before the first value, and no value at all when there is none. */
  lemma {:induction false} FirstFoundIsFirst<T>(f: nat -> Option<T>, k: nat, bound: nat)
    ensures FirstFound(f, k, bound).Some? ==>
      forall i | k <= i < FirstFound(f, k, bound).value.0 :: f(i).None?
    ensures FirstFound(f, k, bound).None? ==> forall i | k <= i < bound :: f(i).None?
    decreases bound - k
  {
    if k < bound && f(k).None? {
      FirstFoundIsFirst(f, k + 1, bound);
    }
  }

  /** A value at `i` is found, at `i` or before. */
  lemma {:induction false} FirstFoundReaches<T>(f: nat -> Option<T>, k: nat, bound: nat, i: nat)
    requires k <= i < bound && f(i).Some?
    ensures FirstFound(f, k, bound).Some? && FirstFound(f, k, bound).value.0 <= i
    decreases bound - k
  {
    if f(k).None? {
      FirstFoundReaches(f, k + 1, bound, i);
    }
  }

  /** The DAPI pattern
      `^.+?_\d{8}_S\d{1,2}_(\d{1,2}\.\d+\.\d+)_(R\d{3})_DAPI_.*FINAL.*\.ome\.tif$`,
      or the channel pattern, which has `(Cy3|Cy5|FITC|Cy7)_([^_]+)_` where
      this one has `DAPI_`; both with IGNORECASE. `re.match` tries the lazy
      prefix `.+?` at lengths 1, 2, ... and keeps the first length with
      which the rest of the pattern matches. The result holds every piece of
      the name, the captures among them. */
  function Match(pattern: Pattern, name: string): (r: Option<Parsed>)
    ensures r.Some? ==> WellFormed(r.value) && Fits(pattern, r.value.part) && Assemble(r.value) == name
    ensures r.Some? ==> MatchAt(pattern, name, |r.value.prefix|) == r
  {
    match FirstFound(MatchAtIn(pattern, name), 1, |name|)
    case Some(found) => Some(found.1)
    case None => None
  }

  /** `MatchAt` with the pattern and the name fixed. */
  function MatchAtIn(pattern: Pattern, name: string): (f: nat -> Option<Parsed>)
    ensures forall k :: f(k) == MatchAt(pattern, name, k)
  {
    (k: nat) => MatchAt(pattern, name, k)
  }

  /** The prefix is lazy: no shorter prefix lets the rest match. */
  lemma MatchIsLazy(pattern: Pattern, name: string, k: nat)
    requires Match(pattern, name).Some? && k < |Match(pattern, name).value.prefix|
    ensures MatchAt(pattern, name, k).None?
  {
    var f := MatchAtIn(pattern, name);
    FirstFoundIsFirst(f, 1, |name|);
    assert f(k) == MatchAt(pattern, name, k);
  }

  /** No match means no prefix length works. */
  lemma MatchNoneAt(pattern: Pattern, name: string, k: nat)
    requires Match(pattern, name).None?
    ensures MatchAt(pattern, name, k).None?
  {
    var f := MatchAtIn(pattern, name);
    FirstFoundIsFirst(f, 1, |name|);
    assert f(k) == MatchAt(pattern, name, k);
  }

  /* ---------------- round trip ---------------- */

  lemma TakeDateOf(t: string, rest: string)
    requires DateToken(t)
    ensures TakeDate(Glue(t, rest)) == Some(Cut(t, rest))
  {
    var s := Glue(t, rest);
    assert s[..8] == t && s[9..] == rest;
  }

  lemma TakeSampleOf(t: string, rest: string)
    requires SampleToken(t)
    ensures TakeSample(Glue(t, rest)) == Some(Cut(t, rest))
  {
    var s := Glue(t, rest);
    assert s[1..] == t[1..] + ("_" + rest);
    DigitRunOf(t[1..], "_" + rest);
    assert s[..|t|] == t && s[|t| + 1..] == rest;
  }

  lemma DigitsThenOf(d: string, stop: char, rest: string)
    requires |d| >= 1 && AllDigits(d) && !IsDigit(stop)
    ensures DigitsThen(d + [stop] + rest, stop) == Some(Cut(d, rest))
  {
    var s := d + [stop] + rest;
    assert s == d + ([stop] + rest);
    DigitRunOf(d, [stop] + rest);
    assert s[..|d|] == d && s[|d| + 1..] == rest;
  }

  lemma TakeRoundOf(r: Round, rest: string)
    requires RoundOk(r)
    ensures TakeRound(SpellRound(r, rest)) == Some((r, rest))
  {
    var after := Glue(r.patch, rest);
    DigitsThenOf(r.patch, '_', rest);
    DigitsThenOf(r.minor, '.', after);
    DigitsThenOf(r.major, '.', Dot(r.minor, after));
  }

  lemma TakeRegionOf(t: string, rest: string)
    requires RegionToken(t)
    ensures TakeRegion(Glue(t, rest)) == Some(Cut(t, rest))
  {
    var s := Glue(t, rest);
    assert s[..4] == t && s[5..] == rest;
    assert s[1..4] == t[1..4];
  }

  lemma TakeMarkerOf(m: string, rest: string)
    requires MarkerToken(m)
    ensures TakeMarker(Glue(m, rest)) == Some(Cut(m, rest))
  {
    var s := Glue(m, rest);
    assert s[..|m|] == m;
    assert s[|m|] == '_';
    assert IndexOf(s, '_') == |m|;
    assert s[|m| + 1..] == rest;
  }

  lemma TakeChannelOf(c: string, rest: string)
    requires ChannelToken(c)
    ensures TakeChannel(Glue(c, rest)) == Some(Cut(c, rest))
  {
    var s := Glue(c, rest);
    assert s[..|c|] == c && s[|c|] == '_' && s[|c| + 1..] == rest;
    if |c| == 4 {
      assert s[..3][0] == c[0];
    }
  }

  lemma TakeDapiOf(w: string, rest: string)
    requires DapiToken(w)
    ensures TakeDapi(Glue(w, rest)) == Some(Cut(w, rest))
  {
    var s := Glue(w, rest);
    assert s[..4] == w && s[4] == '_' && s[5..] == rest;
  }

  lemma TakeLabelOf(l: Label, rest: string)
    requires LabelOk(l)
    ensures TakeLabel(PatternOf(l), Spell(l, rest)) == Some((l, rest))
  {
    match l
    case Dapi(w) =>
      TakeDapiOf(w, rest);
    case Stained(c, m) =>
      TakeChannelOf(c, Glue(m, rest));
      TakeMarkerOf(m, rest);
  }

  lemma ParseBodyOf(p: Parsed)
    requires WellFormed(p)
    ensures ParseBody(PatternOf(p.part), p.prefix, Body(p)) == Some(p)
  {
    var tail4 := Spell(p.part, p.tail);
    var tail3 := Glue(p.region, tail4);
    var tail2 := SpellRound(p.round, tail3);
    var tail1 := Glue(p.sample, tail2);
    TakeDateOf(p.date, tail1);
    TakeSampleOf(p.sample, tail2);
    TakeRoundOf(p.round, tail3);
    TakeRegionOf(p.region, tail4);
    TakeLabelOf(p.part, p.tail);
  }

  /** Parsing the spelled-out name at its own prefix length gives back the
      pieces. */
  lemma MatchAtAssemble(p: Parsed)
    requires WellFormed(p)
    ensures MatchAt(PatternOf(p.part), Assemble(p), |p.prefix|) == Some(p)
  {
    var name := Assemble(p);
    var k := |p.prefix|;
    assert name[..k] == p.prefix && name[k] == '_' && name[k + 1..] == Body(p);
    ParseBodyOf(p);
  }

  /** A name built from well-formed pieces matches its pattern, with a lazy
      prefix no longer than the one it was built with. */
  lemma MatchAssemble(p: Parsed)
    requires WellFormed(p)
    ensures Match(PatternOf(p.part), Assemble(p)).Some?
    ensures |Match(PatternOf(p.part), Assemble(p)).value.prefix| <= |p.prefix|
  {
    var pattern, name := PatternOf(p.part), Assemble(p);
    MatchAtAssemble(p);
    var f := MatchAtIn(pattern, name);
    assert f(|p.prefix|) == Some(p);
    FirstFoundReaches(f, 1, |name|, |p.prefix|);
  }

  /** A structured match needs an underscore in the name. */
  lemma MatchNeedsUnderscore(pattern: Pattern, name: string)
    ensures Match(pattern, name).Some? ==> '_' in name
  {
    var r := Match(pattern, name);
    if r.Some? {
      assert name[|r.value.prefix|] == '_';
    }
  }

  /* ---------------- the loose and the structured captures ---------------- */

  /** `x` is a suffix of `s`. */
  predicate EndsIn(s: string, x: string) {
    |x| <= |s| && s[|s| - |x|..] == x
  }

  lemma EndsInTransitive(s: string, x: string, y: string)
    requires EndsIn(s, x) && EndsIn(x, y)
    ensures EndsIn(s, y)
  {
    assert s[|s| - |y|..] == s[|s| - |x|..][|x| - |y|..];
  }

  /** Region tokens in a suffix are region tokens of the whole string,
      shifted, and the other way round. */
  lemma RegionAtSuffix(s: string, x: string, k: int)
    requires EndsIn(s, x) && |s| - |x| <= k
    ensures RegionAt(s, k) <==> RegionAt(x, k - (|s| - |x|))
  {
    var d := |s| - |x|;
    if k + 4 <= |s| {
      assert s[k + 1..k + 4] == x[k - d + 1..k - d + 4];
      assert s[k] == x[k - d];
    }
  }

  /** A case-insensitive ending of a suffix is an ending of the whole. */
  lemma EndsWithIgnoreCaseSuffix(s: string, x: string, e: string)
    requires EndsIn(s, x) && EndsWithIgnoreCase(x, e)
    ensures EndsWithIgnoreCase(s, e)
  {
    assert s[|s| - |e|..] == x[|x| - |e|..];
  }

  /** What a piece contains, ignoring case, the whole contains. */
  lemma ContainsIgnoreCaseInside(s: string, x: string, at: int, w: string)
    requires OccursAt(s, x, at) && ContainsIgnoreCase(x, w)
    ensures ContainsIgnoreCase(s, w)
  {
    OccursAtUpper(s, x, at);
    ContainsWitness(Upper(s), Upper(x), at);
    ContainsTransitive(Upper(s), Upper(x), Upper(w));
  }

  lemma DigitsNoNewline(t: string)
    requires AllDigits(t)
    ensures NoNewline(t)
  {
    assert forall i | 0 <= i < |t| :: t[i] != '\n';
  }

  /** A token of an assembled name and the separator written after it. */
  datatype Piece = Piece(text: string, sep: char)

  /** The pieces, each followed by its separator, then `tail`. */
  function Joined(pieces: seq<Piece>, tail: string): (s: string)
    ensures |s| >= |tail|
    decreases |pieces|
  {
    if |pieces| == 0 then tail
    else pieces[0].text + [pieces[0].sep] + Joined(pieces[1..], tail)
  }

  function LabelPieces(l: Label): seq<Piece> {
    match l
    case Dapi(w) => [Piece(w, '_')]
    case Stained(c, m) => [Piece(c, '_'), Piece(m, '_')]
  }

  /** The tokens of a parsed name in front of its tail; the region is the
      seventh. */
  function Pieces(p: Parsed): seq<Piece> {
    [Piece(p.prefix, '_'), Piece(p.date, '_'), Piece(p.sample, '_'),
     Piece(p.round.major, '.'), Piece(p.round.minor, '.'), Piece(p.round.patch, '_'),
     Piece(p.region, '_')] + LabelPieces(p.part)
  }

  /** An assembled name is its pieces followed by its tail. */
  lemma AssembleJoined(p: Parsed)
    ensures Assemble(p) == Joined(Pieces(p), p.tail)
  {
    var ps, t := Pieces(p), p.tail;
    var x7 := Spell(p.part, t);
    assert Joined(ps[7..], t) == x7 by {
      match p.part
      case Dapi(w) =>
        assert Joined(ps[8..], t) == t;
      case Stained(c, m) =>
        assert Joined(ps[9..], t) == t;
        assert Joined(ps[8..], t) == Glue(m, t);
    }
    var x6 := Glue(p.region, x7);
    assert Joined(ps[6..], t) == x6;
    var x5 := Glue(p.round.patch, x6);
    assert Joined(ps[5..], t) == x5;
    var x4 := Dot(p.round.minor, x5);
    assert Joined(ps[4..], t) == x4;
    var x3 := Dot(p.round.major, x4);
    assert Joined(ps[3..], t) == x3;
    var x2 := Glue(p.sample, x3);
    assert Joined(ps[2..], t) == x2;
    var x1 := Glue(p.date, x2);
    assert Joined(ps[1..], t) == x1;
    assert ps[0..] == ps;
  }

  /** Every piece and every separator is free of line feeds. */
  predicate OneLine(pieces: seq<Piece>) {
    forall i | 0 <= i < |pieces| :: NoNewline(pieces[i].text) && pieces[i].sep != '\n'
  }

  /** Whatever follows the first `k` pieces ends the name. */
  lemma {:induction false} JoinedEndsIn(pieces: seq<Piece>, tail: string, k: nat)
    requires k <= |pieces|
    ensures EndsIn(Joined(pieces, tail), Joined(pieces[k..], tail))
    decreases k
  {
    var s := Joined(pieces, tail);
    if k == 0 {
      assert pieces[k..] == pieces;
    } else {
      var x := Joined(pieces[1..], tail);
      JoinedEndsIn(pieces[1..], tail, k - 1);
      assert pieces[1..][k - 1..] == pieces[k..];
      assert s[|s| - |x|..] == x;
      EndsInTransitive(s, x, Joined(pieces[k..], tail));
    }
  }

  /** The tail ends the name. */
  lemma JoinedEndsInTail(pieces: seq<Piece>, tail: string)
    ensures EndsIn(Joined(pieces, tail), tail)
  {
    JoinedEndsIn(pieces, tail, |pieces|);
    assert pieces[|pieces|..] == [];
  }

  lemma LineAppend(h: string, x: string)
    requires |x| > 0
    ensures Line(h + x) == h + Line(x)
  {
    if x[|x| - 1] == '\n' {
      assert (h + x)[..|h + x| - 1] == h + x[..|x| - 1];
    }
  }

  /** The final line feed, if any, belongs to the tail. */
  lemma {:induction false} JoinedLine(pieces: seq<Piece>, tail: string)
    requires |tail| > 0
    ensures Line(Joined(pieces, tail)) == Joined(pieces, Line(tail))
    decreases |pieces|
  {
    if |pieces| > 0 {
      JoinedLine(pieces[1..], tail);
      LineAppend(pieces[0].text + [pieces[0].sep], Joined(pieces[1..], tail));
    }
  }

  lemma {:induction false} JoinedNoNewline(pieces: seq<Piece>, tail: string)
    requires OneLine(pieces) && NoNewline(tail)
    ensures NoNewline(Joined(pieces, tail))
    decreases |pieces|
  {
    if |pieces| > 0 {
      assert NoNewline(pieces[0].text) && pieces[0].sep != '\n';
      assert OneLine(pieces[1..]) by {
        forall i | 0 <= i < |pieces[1..]|
          ensures NoNewline(pieces[1..][i].text) && pieces[1..][i].sep != '\n'
        {
          assert pieces[1..][i] == pieces[i + 1];
        }
      }
      JoinedNoNewline(pieces[1..], tail);
    }
  }

  /** A one-line name that ends in a tail the structured patterns accept
      ends in `.ome.tif` and contains `FINAL`. */
  lemma LooseShapeFromTail(s: string, u: string)
    requires EndsIn(s, u)
    requires |u| >= 8 && EndsWithIgnoreCase(u, ".ome.tif")
    requires ContainsIgnoreCase(u[..|u| - 8], "FINAL")
    ensures EndsWithIgnoreCase(s, ".ome.tif") && ContainsIgnoreCase(s, "FINAL")
  {
    EndsWithIgnoreCaseSuffix(s, u, ".ome.tif");
    var d := |s| - |u|;
    assert s[d..d + |u| - 8] == u[..|u| - 8];
    ContainsIgnoreCaseInside(s, u[..|u| - 8], d, "FINAL");
  }

  /** The loose pattern's view of one-line pieces followed by a tail that
      the structured patterns accept: one line, ending in `.ome.tif`, with
      `FINAL` in it, and the tail at its end. */
  lemma JoinedLooseShape(pieces: seq<Piece>, tail: string)
    requires OneLine(pieces) && TailOk(tail)
    ensures Line(Joined(pieces, tail)) == Joined(pieces, Line(tail))
    ensures NoNewline(Joined(pieces, Line(tail)))
    ensures EndsWithIgnoreCase(Joined(pieces, Line(tail)), ".ome.tif")
    ensures ContainsIgnoreCase(Joined(pieces, Line(tail)), "FINAL")
    ensures EndsIn(Joined(pieces, Line(tail)), Line(tail))
  {
    var u := Line(tail);
    JoinedLine(pieces, tail);
    JoinedNoNewline(pieces, u);
    JoinedEndsInTail(pieces, u);
    LooseShapeFromTail(Joined(pieces, u), u);
  }

  /** A name whose pieces start with a region token starts with one. */
  lemma RegionPieceFront(pieces: seq<Piece>, u: string)
    requires |pieces| > 0 && RegionToken(pieces[0].text)
    ensures RegionAt(Joined(pieces, u), 0)
  {
    var t, x := pieces[0].text, Joined(pieces, u);
    assert x[0] == t[0];
    assert x[1..4] == t[1..4];
  }

  /** A name is grouped when its one-line form `s` ends in `.ome.tif`,
      holds `FINAL` and ends in a piece `r` that starts with a region
      token. */
  lemma LooseAcceptsOf(name: string, s: string, r: string)
    requires Line(name) == s && NoNewline(s)
    requires EndsWithIgnoreCase(s, ".ome.tif") && ContainsIgnoreCase(s, "FINAL")
    requires EndsIn(s, r) && RegionAt(r, 0)
    ensures LooseAccepts(name)
  {
    RegionAtSuffix(s, r, |s| - |r|);
  }

  /** One-line pieces, one of them a region token, followed by a tail the
      structured patterns accept, make a name the loose pattern accepts. */
  lemma JoinedIsGrouped(pieces: seq<Piece>, tail: string, k: nat)
    requires OneLine(pieces) && TailOk(tail)
    requires k < |pieces| && RegionToken(pieces[k].text)
    ensures LooseAccepts(Joined(pieces, tail))
  {
    var u := Line(tail);
    JoinedLooseShape(pieces, tail);
    JoinedEndsIn(pieces, u, k);
    assert pieces[k..][0] == pieces[k];
    RegionPieceFront(pieces[k..], u);
    LooseAcceptsOf(Joined(pieces, tail), Joined(pieces, u), Joined(pieces[k..], u));
  }

  /** The last region token of a suffix that holds one is the last of the
      whole string. */
  lemma RightmostRegionInSuffix(s: string, u: string, j: nat)
    requires EndsIn(s, u) && RightmostRegionAt(u, j)
    ensures RightmostRegionAt(s, |s| - |u| + j)
    ensures s[|s| - |u| + j..|s| - |u| + j + 4] == u[j..j + 4]
  {
    var d := |s| - |u|;
    RegionAtSuffix(s, u, d + j);
    forall k | d + j < k < |s|
      ensures !RegionAt(s, k)
    {
      RegionAtSuffix(s, u, k);
    }
  }

  /** The loose capture of a name whose one-line form `s` ends in
      `.ome.tif`, holds `FINAL` and has its last region token at `j`. */
  lemma LooseRegionOf(name: string, s: string, j: nat)
    requires Line(name) == s && NoNewline(s)
    requires EndsWithIgnoreCase(s, ".ome.tif") && ContainsIgnoreCase(s, "FINAL")
    requires RightmostRegionAt(s, j)
    ensures LooseRegion(name) == Some(s[j..j + 4])
  {
    RegionAtSuffix(s, s[j..], j);
    LooseAcceptsOf(name, s, s[j..]);
    var r := LooseRegion(name);
    var i :| 0 <= i < |s| && RightmostRegionAt(s, i) && r.value == s[i..i + 4];
    assert i == j;
  }

  /** The loose capture of a name whose one-line form `s` ends in
      `.ome.tif`, holds `FINAL` and ends in `u`, whose last region token
      starts at `j`. */
  lemma LooseRegionFromSuffix(name: string, s: string, u: string, j: nat)
    requires Line(name) == s && NoNewline(s)
    requires EndsWithIgnoreCase(s, ".ome.tif") && ContainsIgnoreCase(s, "FINAL")
    requires EndsIn(s, u) && RightmostRegionAt(u, j)
    ensures LooseRegion(name) == Some(u[j..j + 4])
  {
    RightmostRegionInSuffix(s, u, j);
    LooseRegionOf(name, s, |s| - |u| + j);
  }

  /** When the tail carries a region token, the loose pattern keys the name
      by the tail's last one, whatever the pieces hold. */
  lemma JoinedGroupedByTailRegion(pieces: seq<Piece>, tail: string, j: nat)
    requires OneLine(pieces) && TailOk(tail)
    requires RightmostRegionAt(Line(tail), j)
    ensures LooseRegion(Joined(pieces, tail)) == Some(Line(tail)[j..j + 4])
  {
    var u := Line(tail);
    JoinedLooseShape(pieces, tail);
    LooseRegionFromSuffix(Joined(pieces, tail), Joined(pieces, u), u, j);
  }

  /** The pieces of a well-formed name are one line each, provided its
      marker is: `[^_]+` lets a marker hold a line feed. */
  lemma PiecesOneLine(p: Parsed)
    requires WellFormed(p)
    requires p.part.Stained? ==> NoNewline(p.part.marker)
    ensures OneLine(Pieces(p))
  {
    var head := [Piece(p.prefix, '_'), Piece(p.date, '_'), Piece(p.sample, '_'),
                 Piece(p.round.major, '.'), Piece(p.round.minor, '.'), Piece(p.round.patch, '_'),
                 Piece(p.region, '_')];
    TokensNoNewline(p);
    assert OneLine(head);
    LabelOneLine(p.part);
    assert Pieces(p) == head + LabelPieces(p.part);
  }

  /** The tokens in front of the channel part are one line each. */
  lemma TokensNoNewline(p: Parsed)
    requires WellFormed(p)
    ensures NoNewline(p.prefix) && NoNewline(p.date) && NoNewline(p.sample)
    ensures NoNewline(p.round.major) && NoNewline(p.round.minor) && NoNewline(p.round.patch)
    ensures NoNewline(p.region)
  {
    DigitsNoNewline(p.date);
    DigitsNoNewline(p.sample[1..]);
    assert p.sample == [p.sample[0]] + p.sample[1..];
    DigitsNoNewline(p.round.major);
    DigitsNoNewline(p.round.minor);
    DigitsNoNewline(p.round.patch);
    DigitsNoNewline(p.region[1..4]);
    assert p.region == [p.region[0]] + p.region[1..4];
  }

  /** The channel part is one line when its marker is. */
  lemma LabelOneLine(l: Label)
    requires LabelOk(l)
    requires l.Stained? ==> NoNewline(l.marker)
    ensures OneLine(LabelPieces(l))
  {
    match l
    case Dapi(w) =>
      assert w == [w[0], w[1], w[2], w[3]];
    case Stained(c, m) =>
      if |c| == 3 {
        assert c == [c[0], c[1], c[2]];
      } else {
        assert c == [c[0], c[1], c[2], c[3]];
      }
  }

  /** Every name a structured pattern accepts is also grouped by the loose
      pattern, unless its marker spans lines. */
  lemma StructuredIsGrouped(p: Parsed)
    requires WellFormed(p)
    requires p.part.Stained? ==> NoNewline(p.part.marker)
    ensures LooseAccepts(Assemble(p))
  {
    AssembleJoined(p);
    PiecesOneLine(p);
    JoinedIsGrouped(Pieces(p), p.tail, 6);
  }

  /** When the tail of such a name carries a region token, the loose
      pattern keys the file by the tail's last one, whatever region the
      structured patterns capture. */
  lemma StructuredGroupedByTailRegion(p: Parsed, j: nat)
    requires WellFormed(p)
    requires p.part.Stained? ==> NoNewline(p.part.marker)
    requires RightmostRegionAt(Line(p.tail), j)
    ensures LooseRegion(Assemble(p)) == Some(Line(p.tail)[j..j + 4])
  {
    AssembleJoined(p);
    PiecesOneLine(p);
    JoinedGroupedByTailRegion(Pieces(p), p.tail, j);
  }

  /** `p_12345678_S1_1.0.4_R001_Cy3_m_FINAL_R002.ome.tif` */
  const TwoRegionParsed := Parsed("p", "12345678", "S1", Round("1", "0", "4"), "R001",
                                  Stained("Cy3", "m"), "FINAL_R002.ome.tif")

  /** A one-line text holding `FINAL`, followed by `.ome.tif`, is an
      accepted tail. */
  lemma TailOkOf(v: string, f: nat)
    requires NoNewline(v) && OccursAt(v, "FINAL", f)
    ensures TailOk(v + ".ome.tif")
  {
    var u := v + ".ome.tif";
    assert Line(u) == u;
    assert NoNewline(u);
    assert u[|u| - 8..] == ".ome.tif";
    assert u[..|u| - 8] == v;
    OccursAtUpper(v, "FINAL", f);
    ContainsWitness(Upper(v), Upper("FINAL"), f);
  }

  /** The tail `FINAL_R002.ome.tif` is accepted. */
  lemma TwoRegionTailOk()
    ensures TailOk(TwoRegionParsed.tail)
  {
    var v := "FINAL_R002";
    assert TwoRegionParsed.tail == v + ".ome.tif";
    assert v[0..5] == "FINAL";
    TailOkOf(v, 0);
  }

  /** Its last region token is the `R002` at 6. */
  lemma TwoRegionTailRegion()
    ensures RightmostRegionAt(Line(TwoRegionParsed.tail), 6)
    ensures Line(TwoRegionParsed.tail)[6..10] == "R002"
  {
    var u := TwoRegionParsed.tail;
    assert Line(u) == u;
    assert u[6..10] == "R002";
    assert u[7..10] == "002";
    assert RegionAt(u, 6);
    assert u[7..] == "002.ome.tif";
    forall k | 6 < k < |u|
      ensures !RegionAt(u, k)
    {
      assert u[k] == u[7..][k - 7];
    }
  }

  lemma TwoRegionWellFormed()
    ensures WellFormed(TwoRegionParsed)
  {
    TwoRegionTailOk();
    var p := TwoRegionParsed;
    assert PrefixToken(p.prefix);
    assert DateToken(p.date);
    assert SampleToken(p.sample) by {
      assert p.sample[1..] == "1";
    }
    assert RoundOk(p.round);
    assert RegionToken(p.region) by {
      assert p.region[1..4] == "001";
    }
    assert LabelOk(p.part);
  }

  /** The loose pattern groups `p_12345678_S1_1.0.4_R001_Cy3_m_FINAL_R002.ome.tif`
      under `R002`. */
  lemma TwoRegionLoose()
    ensures LooseRegion(Assemble(TwoRegionParsed)) == Some("R002")
  {
    var p := TwoRegionParsed;
    TwoRegionTailRegion();
    TwoRegionWellFormed();
    StructuredGroupedByTailRegion(p, 6);
  }

  /** The channel pattern files the same name under `R001`. */
  lemma TwoRegionStructured()
    ensures Match(ChannelPattern, Assemble(TwoRegionParsed)) == Some(TwoRegionParsed)
    ensures TwoRegionParsed.region == "R001"
  {
    TwoRegionWellFormed();
    MatchAssemble(TwoRegionParsed);
    MatchAtAssemble(TwoRegionParsed);
  }

  /** The loose pattern on a one-line name whose last region token starts
      at `j`. */
  lemma LooseRegionAt(s: string, j: nat, f: nat)
    requires NoNewline(s)
    requires |s| >= 8 && s[|s| - 8..] == ".ome.tif"
    requires OccursAt(s, "FINAL", f)
    requires RightmostRegionAt(s, j)
    ensures LooseRegion(s) == Some(s[j..j + 4])
  {
    assert Line(s) == s;
    OccursAtUpper(s, "FINAL", f);
    assert LooseAccepts(s);
    var r := LooseRegion(s);
    var i :| 0 <= i < |s| && RightmostRegionAt(s, i) && r.value == s[i..i + 4];
    assert i == j;
  }

  /** A name the loose pattern groups but neither structured pattern
      matches, so its region has a file but no channel entry for it: a
      region token directly followed by `FINAL.ome.tif`, such as
      `R001FINAL.ome.tif`. */
  lemma GroupedWithoutInfo(r: string)
    requires RegionToken(r)
    ensures LooseRegion(r + "FINAL.ome.tif") == Some(r)
    ensures Match(DapiPattern, r + "FINAL.ome.tif").None?
    ensures Match(ChannelPattern, r + "FINAL.ome.tif").None?
  {
    var rest := "FINAL.ome.tif";
    var s := r + rest;
    assert NoNewline(rest) && forall k | 0 <= k < |rest| :: rest[k] != 'R' && rest[k] != 'r' && rest[k] != '_';
    forall j | 0 < j < |s|
      ensures !RegionAt(s, j)
    {
      if j < 4 {
        assert s[j] == r[1..4][j - 1];
      } else {
        assert s[j] == rest[j - 4];
      }
    }
    assert forall k | 1 <= k < 4 :: r[k] == r[1..4][k - 1];
    assert NoNewline(s);
    assert s[|s| - 8..] == ".ome.tif";
    assert s[4..9] == "FINAL";
    assert s[0..4] == r;
    LooseRegionAt(s, 0, 4);
    assert '_' !in s;
    UnmatchedWithoutUnderscore(s);
  }

  /** Neither structured pattern matches a name without an underscore. */
  lemma UnmatchedWithoutUnderscore(name: string)
    requires '_' !in name
    ensures Match(DapiPattern, name).None? && Match(ChannelPattern, name).None?
  {
    MatchNeedsUnderscore(DapiPattern, name);
    MatchNeedsUnderscore(ChannelPattern, name);
  }

}
