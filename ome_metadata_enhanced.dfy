/** The metadata merge that builds one OME object for a merged multi-channel
    image: colour-blind-friendly channel colours, the template taken from the
    first TIFF (or synthesised), one channel per input file with its optics
    preserved, and the objective magnification. Reading a TIFF is
    represented by an extraction function from file to `Option<Ome>` and by
    the series shape of the first file. */
module OmeMetadataEnhanced {
  import opened Wrappers
  import opened Text
  import opened OmeModel
  import opened Sequences
  import ChannelLabels
  import OmeZarrMetadata

  /* ---------------- colours ---------------- */

  const DapiColor: string := "FFFFFF"

  /** The fluorophore entries of the palette, in the order they are tried. */
  const Fluorophores: seq<(string, string)> :=
    [("CY3", "FFB000"), ("CY5", "DC267F"), ("CY7", "00FFFF"), ("FITC", "00FF00")]

  /** The fallback colours, cycled by channel index. */
  const DefaultColors: seq<string> :=
    ["FFB000", "DC267F", "00FFFF", "00FF00", "FE6100", "785EF0", "FFE119", "648FFF"]

  /** The colour of the first fluorophore (in table order) that occurs in
      `upper`, if any. */
  function FirstFluorophore(upper: string, fluors: seq<(string, string)>): Option<string>
    decreases |fluors|
  {
    if |fluors| == 0 then None
    else if Contains(upper, fluors[0].0) then Some(fluors[0].1)
    else FirstFluorophore(upper, fluors[1..])
  }

  /** A colour is found exactly when some fluorophore of the table occurs,
      and it is the colour of one that occurs with none before it. */
  lemma {:induction false} FirstFluorophoreFound(upper: string, fluors: seq<(string, string)>)
    ensures var r := FirstFluorophore(upper, fluors);
      (r.Some? <==> exists k | 0 <= k < |fluors| :: Contains(upper, fluors[k].0)) &&
      (r.Some? ==> exists k | 0 <= k < |fluors| ::
        Contains(upper, fluors[k].0) && r.value == fluors[k].1 &&
        forall j | 0 <= j < k :: !Contains(upper, fluors[j].0))
    decreases |fluors|
  {
    if |fluors| > 0 && !Contains(upper, fluors[0].0) {
      FirstFluorophoreFound(upper, fluors[1..]);
      assert forall k | 1 <= k < |fluors| :: fluors[k] == fluors[1..][k - 1];
      var r := FirstFluorophore(upper, fluors[1..]);
      if r.Some? {
        var k :| 0 <= k < |fluors[1..]| && Contains(upper, fluors[1..][k].0) && r.value == fluors[1..][k].1 &&
          forall j | 0 <= j < k :: !Contains(upper, fluors[1..][j].0);
        assert Contains(upper, fluors[k + 1].0) && r.value == fluors[k + 1].1;
        assert forall j | 0 <= j < k + 1 :: !Contains(upper, fluors[j].0);
      }
    }
  }

  /** `assign_channel_color`: white for DAPI, then the first matching
      fluorophore, then the default palette cycled by index (Python's `%`
      and Dafny's agree for the positive divisor 8). */
  function AssignChannelColor(name: string, index: int): string {
    var upper := Upper(name);
    if Contains(upper, "DAPI") then DapiColor
    else
      match FirstFluorophore(upper, Fluorophores)
      case Some(c) => c
      case None => DefaultColors[index % |DefaultColors|]
  }

  /** The fluorophore found is the first of the table that occurs. */
  lemma {:induction false} FirstFluorophoreIsFirst(upper: string, fluors: seq<(string, string)>, k: nat)
    requires k < |fluors| && Contains(upper, fluors[k].0)
    requires forall j | 0 <= j < k :: !Contains(upper, fluors[j].0)
    ensures FirstFluorophore(upper, fluors) == Some(fluors[k].1)
    decreases k
  {
    if k > 0 {
      assert !Contains(upper, fluors[0].0);
      assert fluors[1..][k - 1] == fluors[k];
      FirstFluorophoreIsFirst(upper, fluors[1..], k - 1);
    }
  }

  /** The first fluorophore of the table that occurs decides, wherever it
      occurs in the name; without one the index picks from the defaults. */
  lemma ColorRule(name: string, index: int)
    ensures !Contains(Upper(name), "DAPI") ==>
      forall k | 0 <= k < |Fluorophores| ::
        (Contains(Upper(name), Fluorophores[k].0) &&
         forall j | 0 <= j < k :: !Contains(Upper(name), Fluorophores[j].0)) ==>
        AssignChannelColor(name, index) == Fluorophores[k].1
    ensures (!Contains(Upper(name), "DAPI") &&
             forall k | 0 <= k < |Fluorophores| :: !Contains(Upper(name), Fluorophores[k].0)) ==>
      AssignChannelColor(name, index) == DefaultColors[index % 8]
  {
    var upper := Upper(name);
    forall k | 0 <= k < |Fluorophores| &&
      Contains(upper, Fluorophores[k].0) && forall j | 0 <= j < k :: !Contains(upper, Fluorophores[j].0)
      ensures FirstFluorophore(upper, Fluorophores) == Some(Fluorophores[k].1)
    {
      FirstFluorophoreIsFirst(upper, Fluorophores, k);
    }
    FirstFluorophoreFound(upper, Fluorophores);
  }

  /** DAPI, written in any case, gets white whatever the index. */
  lemma DapiIsWhite(name: string, index: int)
    requires ContainsIgnoreCase(name, "dapi")
    ensures AssignChannelColor(name, index) == "FFFFFF"
  {
    assert Upper("dapi") == "DAPI";
  }

  /** Indices eight apart get the same colour. */
  lemma ColorCycles(name: string, index: int)
    ensures AssignChannelColor(name, index + 8) == AssignChannelColor(name, index)
  {
    assert (index + 8) % |DefaultColors| == index % |DefaultColors|;
  }

  /** An upper-case hexadecimal digit. */
  predicate IsHexDigit(c: char) {
    '0' <= c <= '9' || 'A' <= c <= 'F'
  }

  /** Six hexadecimal digits, `RRGGBB`. */
  predicate IsHexColor(s: string) {
    |s| == 6 && forall k | 0 <= k < 6 :: IsHexDigit(s[k])
  }

  /** Every colour of the table. */
  function Palette(): set<string> {
    {DapiColor} + (set k | 0 <= k < |Fluorophores| :: Fluorophores[k].1) + (set c | c in DefaultColors)
  }

  /** Every colour the table offers is six hexadecimal digits. */
  lemma PaletteIsHex()
    ensures forall c | c in Palette() :: IsHexColor(c)
  {
    assert IsHexColor("FFFFFF") && IsHexColor("FFB000") && IsHexColor("DC267F") && IsHexColor("00FFFF");
    assert IsHexColor("00FF00") && IsHexColor("FE6100") && IsHexColor("785EF0") && IsHexColor("FFE119");
    assert IsHexColor("648FFF");
  }

  /** The colour is always a table entry, hence six hexadecimal digits. */
  lemma ColorIsPaletteEntry(name: string, index: int)
    ensures AssignChannelColor(name, index) in Palette()
    ensures IsHexColor(AssignChannelColor(name, index))
  {
    PaletteIsHex();
    var upper := Upper(name);
    var r := FirstFluorophore(upper, Fluorophores);
    FirstFluorophoreFound(upper, Fluorophores);
    if !Contains(upper, "DAPI") && r.Some? {
      var k :| 0 <= k < |Fluorophores| && Contains(upper, Fluorophores[k].0) && r.value == Fluorophores[k].1 &&
        forall j | 0 <= j < k :: !Contains(upper, Fluorophores[j].0);
      assert Fluorophores[k].1 in Palette();
    }
    if !Contains(upper, "DAPI") && r.None? {
      assert DefaultColors[index % 8] in Palette();
    }
  }

  /* ---------------- reading a TIFF's metadata ---------------- */

  /** What a direct read of the OME metadata gave: the object, or the
      message of the exception it raised. */
  type DirectRead = Result<Ome, string>

  /** `extract_ome_from_tiff_with_fix`: a missing file gives nothing; a
      failed direct read is retried only when its message names
      `schemaLocation` and the TIFF carries OME-XML, which is repaired with
      the two string steps of `OmeZarrMetadata.FixOmeXmlSchema` before
      parsing. `parse` stands for `from_xml`, `None` for a parse error. */
  function ExtractOmeFromTiffWithFix(exists_: bool, direct: DirectRead, embedded: Option<string>,
                                     parse: string -> Option<Ome>): Option<Ome>
  {
    if !exists_ then None
    else if direct.Ok? then Some(direct.value)
    else if !Contains(direct.error, "schemaLocation") then None
    else if embedded.None? || embedded.value == "" then None
    else parse(OmeZarrMetadata.FixOmeXmlSchema(embedded.value))
  }

  /** A file that exists and reads directly gives its object; otherwise an
      object comes back only from the retry, which needs a `schemaLocation`
      error and non-empty embedded OME-XML. */
  lemma ExtractOutcome(exists_: bool, direct: DirectRead, embedded: Option<string>, parse: string -> Option<Ome>)
    ensures exists_ && direct.Ok? ==> ExtractOmeFromTiffWithFix(exists_, direct, embedded, parse) == Some(direct.value)
    ensures ExtractOmeFromTiffWithFix(exists_, direct, embedded, parse).Some? ==>
      exists_ && (direct.Ok? || (Contains(direct.error, "schemaLocation") && embedded.Some? && embedded.value != ""))
  {
  }

  /** Whenever a failed direct read is rescued, the parser was handed XML
      without the misnamed attribute and with the `xsi` prefix declared
      wherever an `<OME ` tag was left. */
  lemma ExtractParsesRepairedXml(exists_: bool, direct: DirectRead, embedded: Option<string>,
                                 parse: string -> Option<Ome>)
    ensures direct.Err? && ExtractOmeFromTiffWithFix(exists_, direct, embedded, parse).Some? ==>
      exists xml | !Contains(xml, OmeZarrMetadata.BadAttribute) &&
        (Contains(xml, OmeZarrMetadata.OmeOpen) ==> Contains(xml, OmeZarrMetadata.XsiDeclared)) ::
        ExtractOmeFromTiffWithFix(exists_, direct, embedded, parse) == parse(xml)
  {
    if direct.Err? && ExtractOmeFromTiffWithFix(exists_, direct, embedded, parse).Some? {
      var xml := OmeZarrMetadata.FixOmeXmlSchema(embedded.value);
      OmeZarrMetadata.FixSchemaRemovesBadAttribute(embedded.value);
      RepairedDeclaresXsi(embedded.value);
      assert ExtractOmeFromTiffWithFix(exists_, direct, embedded, parse) == parse(xml);
    }
  }

  /** A repaired text that still has an `<OME ` tag declares `xsi`. */
  lemma RepairedDeclaresXsi(xml: string)
    ensures var fixed := OmeZarrMetadata.FixOmeXmlSchema(xml);
      Contains(fixed, OmeZarrMetadata.OmeOpen) ==> Contains(fixed, OmeZarrMetadata.XsiDeclared)
  {
    var renamed := OmeZarrMetadata.RenameSchemaLocation(xml);
    var fixed := OmeZarrMetadata.FixOmeXmlSchema(xml);
    OmeZarrMetadata.FixSchemaDeclaresXsi(xml);
    if !Contains(renamed, OmeZarrMetadata.OmeOpen) && !Contains(renamed, OmeZarrMetadata.XsiDeclared) {
      ReplaceAllAbsent(renamed, OmeZarrMetadata.OmeOpen, OmeZarrMetadata.OmeOpenWithXsi);
    }
  }

  /* ---------------- the merge ---------------- */

  datatype MergeError =
    | CountMismatch(files: nat, names: nat)  // the ValueError on unequal lists
    | NoFiles                                // `tiff_files[0]` on an empty list

  /** Python truthiness of an optional wavelength. */
  predicate Truthy(x: Option<real>) {
    x.Some? && x.value != 0.0
  }

  /** The first channel of the first image of an extracted object, if any. */
  function SourceChannel(source: Option<Ome>): Option<Channel> {
    if source.Some? && |source.value.images| > 0 && |source.value.images[0].pixels.channels| > 0
    then Some(source.value.images[0].pixels.channels[0])
    else None
  }

  /** Channel `i` of the merged image, built from its info string and the
      metadata extracted from its file. */
  function MergedChannel(i: nat, info: string, source: Option<Ome>): Channel {
    var display := ChannelLabels.DisplayLabel(info);
    var built := Channel("Channel:0:" + NatToString(i), Some(display), Some(1), Some(AssignChannelColor(display, i)),
                         None, None, None, None);
    match SourceChannel(source)
    case None => built
    case Some(o) =>
      built.(excitationWavelength := if Truthy(o.excitationWavelength) then o.excitationWavelength else None,
             emissionWavelength := if Truthy(o.emissionWavelength) then o.emissionWavelength else None,
             lightSourceSettings := o.lightSourceSettings,
             detectorSettings := o.detectorSettings)
  }

  /** Channel `i`: id `Channel:0:i`, the info's display label as name, one
      sample per pixel, the label's colour at index `i`; a wavelength or a
      settings reference only when the file's first channel has a truthy
      one, and then that one. */
  lemma MergedChannelRule(i: nat, info: string, source: Option<Ome>)
    ensures var c := MergedChannel(i, info, source);
      var display := ChannelLabels.DisplayLabel(info);
      var o := SourceChannel(source);
      c.id == "Channel:0:" + NatToString(i) && c.name == Some(display) && c.samplesPerPixel == Some(1) &&
      c.color == Some(AssignChannelColor(display, i)) &&
      (c.excitationWavelength.Some? <==> o.Some? && Truthy(o.value.excitationWavelength)) &&
      (c.excitationWavelength.Some? ==> c.excitationWavelength == o.value.excitationWavelength) &&
      (c.emissionWavelength.Some? <==> o.Some? && Truthy(o.value.emissionWavelength)) &&
      (c.emissionWavelength.Some? ==> c.emissionWavelength == o.value.emissionWavelength) &&
      (c.lightSourceSettings.Some? <==> o.Some? && o.value.lightSourceSettings.Some?) &&
      (c.lightSourceSettings.Some? ==> c.lightSourceSettings == o.value.lightSourceSettings) &&
      (c.detectorSettings.Some? <==> o.Some? && o.value.detectorSettings.Some?) &&
      (c.detectorSettings.Some? ==> c.detectorSettings == o.value.detectorSettings)
  {
  }

  /** How the merge loop turns the `i`-th (file, info string) pair into
      a channel. */
  function ChannelRecipe(extract: string -> Option<Ome>): (nat, (string, string)) -> Channel {
    (i: nat, input: (string, string)) => MergedChannel(i, input.1, extract(input.0))
  }

  /** The channels of the merged image, one per file and info string. */
  function MergedChannels(files: seq<string>, names: seq<string>, extract: string -> Option<Ome>): seq<Channel>
    requires |files| == |names|
  {
    Enumerated(ChannelRecipe(extract), Zip(files, names), |names|)
  }

  /** One channel per input, channel `i` built from input `i`. */
  lemma MergedChannelsAt(files: seq<string>, names: seq<string>, extract: string -> Option<Ome>)
    requires |files| == |names|
    ensures var cs := MergedChannels(files, names, extract);
      |cs| == |names| && forall i | 0 <= i < |names| :: cs[i] == MergedChannel(i, names[i], extract(files[i]))
  {
    EnumeratedAt(ChannelRecipe(extract), Zip(files, names), |names|);
  }

  /** The merged channels have pairwise distinct ids. */
  lemma MergedChannelIdsDistinct(files: seq<string>, names: seq<string>, extract: string -> Option<Ome>)
    requires |files| == |names|
    ensures var cs := MergedChannels(files, names, extract);
      forall i, j | 0 <= i < j < |cs| :: cs[i].id != cs[j].id
  {
    var cs := MergedChannels(files, names, extract);
    MergedChannelsAt(files, names, extract);
    forall i, j | 0 <= i < j < |cs|
      ensures cs[i].id != cs[j].id
    {
      PrefixedNatInjective("Channel:0:", i, j);
    }
  }

  /** The template built when the first file yields no usable metadata:
      X and Y from the last two dimensions of its series shape (1024 each
      when it has fewer than two), one plane, one time point, `uint16`. */
  function SynthesizedTemplate(shape: seq<nat>, imageName: string, n: nat): Ome {
    var sizeY := if |shape| >= 2 then shape[|shape| - 2] else 1024;
    var sizeX := if |shape| >= 2 then shape[|shape| - 1] else 1024;
    Ome([PlainImage(imageName, Pixels("Pixels:0", "XYZCT", sizeX, sizeY, 1, n, 1, "uint16", [], true))], [])
  }

  /** The first file's object when it has an image, the synthesised one
      otherwise. */
  function ChooseTemplate(extracted: Option<Ome>, shape: seq<nat>, imageName: string, n: nat): (t: Ome)
    ensures |t.images| > 0
  {
    if extracted.Some? && |extracted.value.images| > 0 then extracted.value
    else SynthesizedTemplate(shape, imageName, n)
  }

  /** The magnification step: only with a magnification and when the first
      image has no objective settings. The settings then refer to
      `Objective:0`; an `Instrument:0` is added when there is no instrument;
      the first instrument gets the objective, or its first objective gets
      the magnification. */
  function WithMagnification(o: Ome, magnification: Option<real>): Ome
    requires |o.images| > 0
  {
    if magnification.None? || o.images[0].objectiveSettings.Some? then o
    else
      var image := o.images[0].(objectiveSettings := Some("Objective:0"));
      var instruments := if |o.instruments| == 0 then [Instrument("Instrument:0", [])] else o.instruments;
      var first := instruments[0];
      var objectives :=
        if |first.objectives| == 0 then [Objective("Objective:0", magnification)]
        else [first.objectives[0].(nominalMagnification := magnification)] + first.objectives[1..];
      Ome([image] + o.images[1..], [first.(objectives := objectives)] + instruments[1..])
  }

  /** Without a magnification, or when the first image has objective
      settings already, nothing changes. Otherwise only the first image's
      settings and the first instrument change: the first objective carries
      the magnification, and is `Objective:0` when it is new. */
  lemma MagnificationRule(o: Ome, magnification: Option<real>)
    requires |o.images| > 0
    ensures magnification.None? || o.images[0].objectiveSettings.Some? ==> WithMagnification(o, magnification) == o
    ensures magnification.Some? && o.images[0].objectiveSettings.None? ==>
      var r := WithMagnification(o, magnification);
      |r.images| == |o.images| && r.images[0] == o.images[0].(objectiveSettings := Some("Objective:0")) &&
      (forall k | 1 <= k < |r.images| :: r.images[k] == o.images[k]) &&
      |r.instruments| == (if |o.instruments| == 0 then 1 else |o.instruments|) &&
      (forall k | 1 <= k < |r.instruments| :: r.instruments[k] == o.instruments[k]) &&
      r.instruments[0].id == (if |o.instruments| == 0 then "Instrument:0" else o.instruments[0].id) &&
      |r.instruments[0].objectives| >= 1 &&
      r.instruments[0].objectives[0].nominalMagnification == magnification &&
      (|o.instruments| == 0 || |o.instruments[0].objectives| == 0 ==>
        r.instruments[0].objectives == [Objective("Objective:0", magnification)]) &&
      (|o.instruments| > 0 && |o.instruments[0].objectives| > 0 ==>
        r.instruments[0].objectives[0].id == o.instruments[0].objectives[0].id &&
        r.instruments[0].objectives[1..] == o.instruments[0].objectives[1..])
  {
  }

  /** An existing first objective keeps its own id while the new settings
      refer to `Objective:0`, so the reference can name no objective. */
  lemma MagnificationKeepsForeignObjectiveId()
    ensures var o := Ome([PlainImage("x", Pixels("Pixels:0", "XYZCT", 1, 1, 1, 0, 1, "uint16", [], true))],
                         [Instrument("Instrument:0", [Objective("Objective:7", None)])]);
      var r := WithMagnification(o, Some(20.0));
      r.images[0].objectiveSettings == Some("Objective:0") &&
      forall k | 0 <= k < |r.instruments[0].objectives| :: r.instruments[0].objectives[k].id != "Objective:0"
  {
  }

  /** The merged object `merge_ome_metadata_from_files` returns for equal,
      non-empty lists. */
  function Merged(files: seq<string>, names: seq<string>, extract: string -> Option<Ome>, shape: seq<nat>,
                  imageName: string, magnification: Option<real>): Ome
    requires |files| == |names| > 0
  {
    var template := ChooseTemplate(extract(files[0]), shape, imageName, |names|);
    var channels := MergedChannels(files, names, extract);
    var image := template.images[0].(name := Some(imageName),
                                     pixels := template.images[0].pixels.(channels := channels, sizeC := |channels|));
    WithMagnification(template.(images := [image] + template.images[1..]), magnification)
  }

  /** `merge_ome_metadata_from_files`. The template's first image is renamed
      and gets one channel per file, built in a loop; the magnification is
      attached last. */
  method MergeOmeMetadataFromFiles(files: seq<string>, names: seq<string>, extract: string -> Option<Ome>,
                                   shape: seq<nat>, imageName: string := "Merged_Image",
                                   magnification: Option<real> := Some(20.0))
    returns (r: Result<Ome, MergeError>)
    ensures |files| != |names| ==> r == Err(CountMismatch(|files|, |names|))
    ensures |files| == |names| == 0 ==> r == Err(NoFiles)
    ensures |files| == |names| > 0 ==> r == Ok(Merged(files, names, extract, shape, imageName, magnification))
  {
    if |files| != |names| {
      return Err(CountMismatch(|files|, |names|));
    }
    if |files| == 0 {
      return Err(NoFiles);
    }
    var template := ChooseTemplate(extract(files[0]), shape, imageName, |names|);
    var image := template.images[0].(name := Some(imageName));
    var channels := BuildChannels(files, names, extract);
    image := image.(pixels := image.pixels.(channels := channels, sizeC := |channels|));
    var merged := template.(images := [image] + template.images[1..]);
    r := Ok(WithMagnification(merged, magnification));
  }

  /** The merge loop: one channel per file, in file order. */
  method BuildChannels(files: seq<string>, names: seq<string>, extract: string -> Option<Ome>)
    returns (channels: seq<Channel>)
    requires |files| == |names|
    ensures channels == MergedChannels(files, names, extract)
  {
    channels := [];
    for i := 0 to |files|
      invariant channels == Enumerated(ChannelRecipe(extract), Zip(files, names), i)
    {
      var channel := BuildChannel(i, names[i], extract(files[i]));
      channels := channels + [channel];
    }
  }

  /** One pass of the merge loop: a fresh channel with the label, the
      colour and one sample per pixel, then each optics field of the file's
      first channel that is set. */
  method BuildChannel(i: nat, info: string, source: Option<Ome>) returns (channel: Channel)
    ensures channel == MergedChannel(i, info, source)
  {
    var display := ChannelLabels.DisplayLabel(info);
    var color := AssignChannelColor(display, i);
    channel := Channel("Channel:0:" + NatToString(i), Some(display), Some(1), Some(color), None, None, None, None);
    if source.Some? && |source.value.images| > 0 && |source.value.images[0].pixels.channels| > 0 {
      var original := source.value.images[0].pixels.channels[0];
      if Truthy(original.excitationWavelength) {
        channel := channel.(excitationWavelength := original.excitationWavelength);
      }
      if Truthy(original.emissionWavelength) {
        channel := channel.(emissionWavelength := original.emissionWavelength);
      }
      if original.lightSourceSettings.Some? {
        channel := channel.(lightSourceSettings := original.lightSourceSettings);
      }
      if original.detectorSettings.Some? {
        channel := channel.(detectorSettings := original.detectorSettings);
      }
    }
  }

  /** The merged image is named `image_name`, has exactly one channel per
      input, channel `i` built from input `i`, a channel count to match,
      and otherwise the template's pixels; other images are the template's. */
  lemma MergedShape(files: seq<string>, names: seq<string>, extract: string -> Option<Ome>, shape: seq<nat>,
                    imageName: string, magnification: Option<real>)
    requires |files| == |names| > 0
    ensures var o := Merged(files, names, extract, shape, imageName, magnification);
      var t := ChooseTemplate(extract(files[0]), shape, imageName, |names|);
      var p := o.images[0].pixels;
      |o.images| == |t.images| && o.images[0].name == Some(imageName) &&
      |p.channels| == |names| && p.sizeC == |names| &&
      (forall i | 0 <= i < |names| :: p.channels[i] == MergedChannel(i, names[i], extract(files[i]))) &&
      p.id == t.images[0].pixels.id && p.dimensionOrder == t.images[0].pixels.dimensionOrder &&
      p.sizeX == t.images[0].pixels.sizeX && p.sizeY == t.images[0].pixels.sizeY &&
      p.sizeZ == t.images[0].pixels.sizeZ && p.sizeT == t.images[0].pixels.sizeT &&
      p.pixelType == t.images[0].pixels.pixelType &&
      (forall k | 1 <= k < |o.images| :: o.images[k] == t.images[k])
  {
    var t := ChooseTemplate(extract(files[0]), shape, imageName, |names|);
    var channels := MergedChannels(files, names, extract);
    MergedChannelsAt(files, names, extract);
    var image := t.images[0].(name := Some(imageName), pixels := t.images[0].pixels.(channels := channels, sizeC := |channels|));
    MagnificationKeepsImages(t.(images := [image] + t.images[1..]), magnification);
  }

  /** The magnification step changes no image but in its objective
      settings. */
  lemma MagnificationKeepsImages(o: Ome, magnification: Option<real>)
    requires |o.images| > 0
    ensures var r := WithMagnification(o, magnification);
      |r.images| == |o.images| && r.images[0].name == o.images[0].name && r.images[0].id == o.images[0].id &&
      r.images[0].pixels == o.images[0].pixels && r.images[1..] == o.images[1..]
  {
  }

  /** When the first file yields no image, the merged image is synthesised:
      X and Y from the first file's shape (1024 when it has fewer than two
      dimensions), one plane and time point, `uint16`, `XYZCT`, and the
      only instrument is the one the magnification may add. */
  lemma MergedWithoutTemplate(files: seq<string>, names: seq<string>, extract: string -> Option<Ome>,
                              shape: seq<nat>, imageName: string, magnification: Option<real>)
    requires |files| == |names| > 0
    requires extract(files[0]).None? || |extract(files[0]).value.images| == 0
    ensures var o := Merged(files, names, extract, shape, imageName, magnification);
      var p := o.images[0].pixels;
      |o.images| == 1 && o.images[0].id == "Image:0" && p.id == "Pixels:0" &&
      p.sizeX == (if |shape| >= 2 then shape[|shape| - 1] else 1024) &&
      p.sizeY == (if |shape| >= 2 then shape[|shape| - 2] else 1024) &&
      p.sizeZ == 1 && p.sizeT == 1 && p.sizeC == |names| &&
      p.pixelType == "uint16" && p.dimensionOrder == "XYZCT" &&
      (magnification.None? ==> o.instruments == []) &&
      (magnification.Some? ==> o.instruments == [Instrument("Instrument:0", [Objective("Objective:0", magnification)])])
  {
    MergedShape(files, names, extract, shape, imageName, magnification);
  }
}
