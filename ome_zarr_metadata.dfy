/** The OME-XML helpers of the metadata generator: the schema-location
    repair, the minimal OME object, the channel update from filename-derived
    channel info, and the choice between a template and a minimal object.
    Reading a template TIFF and writing the XML file are represented by the
    loaded object and the returned object. */
module OmeZarrMetadata {
  import opened Wrappers
  import opened Text
  import opened OmeModel
  import ChannelLabels

  /* ---------------- schema repair ---------------- */

  const BadAttribute: string := "xmlns:schemaLocation"
  const GoodAttribute: string := "xsi:schemaLocation"
  const XsiDeclared: string := "xmlns:xsi="
  const OmeOpen: string := "<OME "
  const XsiNamespace: string := "\"http://www.w3.org/2001/XMLSchema-instance\" "
  const OmeOpenWithXsi: string := OmeOpen + XsiDeclared + XsiNamespace

  /** The first step: every misnamed schema-location attribute is renamed. */
  function RenameSchemaLocation(xml: string): string {
    ReplaceAll(xml, BadAttribute, GoodAttribute)
  }

  /** `fix_ome_xml_schema`: rename the attribute, then declare the `xsi`
      prefix on every `<OME ` tag unless it is declared somewhere already. */
  function FixOmeXmlSchema(xml: string): string {
    var renamed := RenameSchemaLocation(xml);
    if Contains(renamed, XsiDeclared) then renamed
    else ReplaceAll(renamed, OmeOpen, OmeOpenWithXsi)
  }

  /** Every window that starts inside `r` differs from the bad attribute
      before `r` ends, for both replacement texts. */
  lemma ReplacementsDisagree()
    ensures forall i | 0 <= i < |GoodAttribute| :: DisagreeEarly(GoodAttribute[i..], BadAttribute)
    ensures forall i | 0 <= i < |OmeOpenWithXsi| :: DisagreeEarly(OmeOpenWithXsi[i..], BadAttribute)
  {
    forall i | 0 <= i < |GoodAttribute|
      ensures DisagreeEarly(GoodAttribute[i..], BadAttribute)
    {
      if i == 0 {
        assert GoodAttribute[i..][1] != BadAttribute[1];
      } else {
        assert GoodAttribute[i..][0] != BadAttribute[0];
      }
    }
    forall i | 0 <= i < |OmeOpenWithXsi|
      ensures DisagreeEarly(OmeOpenWithXsi[i..], BadAttribute)
    {
      if i == 5 {
        assert OmeOpenWithXsi[i..][6] != BadAttribute[6];
      } else if i == 11 {
        assert OmeOpenWithXsi[i..][1] != BadAttribute[1];
      } else if i < 5 {
        assert OmeOpenWithXsi[i] == OmeOpen[i];
        assert OmeOpenWithXsi[i..][0] != BadAttribute[0];
      } else if i < 15 {
        assert OmeOpenWithXsi[i] == XsiDeclared[i - 5];
        assert OmeOpenWithXsi[i..][0] != BadAttribute[0];
      } else {
        assert OmeOpenWithXsi[i] == XsiNamespace[i - 15];
        assert OmeOpenWithXsi[i..][0] != BadAttribute[0];
      }
    }
  }

  /** No misnamed attribute survives the repair, and the declaration step
      does not create one. */
  lemma FixSchemaRemovesBadAttribute(xml: string)
    ensures !Contains(RenameSchemaLocation(xml), BadAttribute)
    ensures !Contains(FixOmeXmlSchema(xml), BadAttribute)
  {
    ReplacementsDisagree();
    assert GoodAttribute[0] !in BadAttribute[1..];
    ReplaceAllAvoids(xml, BadAttribute, GoodAttribute, BadAttribute);
    var renamed := RenameSchemaLocation(xml);
    NoOccurrence(renamed, BadAttribute);
    assert OmeOpenWithXsi[0] !in BadAttribute[1..];
    ReplaceAllAvoids(renamed, OmeOpen, OmeOpenWithXsi, BadAttribute);
  }

  /** After the repair the `xsi` prefix is declared whenever the renamed
      text has an `<OME ` tag. */
  lemma FixSchemaDeclaresXsi(xml: string)
    ensures Contains(RenameSchemaLocation(xml), OmeOpen) ==> Contains(FixOmeXmlSchema(xml), XsiDeclared)
  {
    var renamed := RenameSchemaLocation(xml);
    if Contains(renamed, OmeOpen) && !Contains(renamed, XsiDeclared) {
      ReplaceAllIntroduces(renamed, OmeOpen, OmeOpenWithXsi);
      assert OmeOpenWithXsi[5..15] == XsiDeclared;
      ContainsWitness(OmeOpenWithXsi, XsiDeclared, 5);
      ContainsTransitive(FixOmeXmlSchema(xml), OmeOpenWithXsi, XsiDeclared);
    }
  }

  /** When the declaration step runs, it reaches every tag: each `<OME ` of
      the result opens a tag that declares the `xsi` prefix. */
  lemma FixSchemaDeclaresXsiOnEveryTag(xml: string, i: nat)
    requires !Contains(RenameSchemaLocation(xml), XsiDeclared)
    requires OccursAt(FixOmeXmlSchema(xml), OmeOpen, i)
    ensures OccursAt(FixOmeXmlSchema(xml), OmeOpenWithXsi, i)
  {
    assert OmeOpenWithXsi[..|OmeOpen|] == OmeOpen;
    assert OmeOpen[1..] == "OME ";
    assert OmeOpenWithXsi[1..] == "OME " + XsiDeclared + XsiNamespace;
    assert '<' !in "OME " && '<' !in XsiDeclared && '<' !in XsiNamespace;
    ReplaceAllMarks(RenameSchemaLocation(xml), OmeOpen, OmeOpenWithXsi, i);
  }

  /** Well-formed XML is left as it is. */
  lemma FixSchemaKeepsCleanXml(xml: string)
    requires !Contains(xml, BadAttribute)
    requires Contains(xml, XsiDeclared) || !Contains(xml, OmeOpen)
    ensures FixOmeXmlSchema(xml) == xml
  {
    ReplaceAllAbsent(xml, BadAttribute, GoodAttribute);
    if !Contains(xml, XsiDeclared) {
      ReplaceAllAbsent(xml, OmeOpen, OmeOpenWithXsi);
    }
  }

  /** Repairing twice is repairing once. */
  lemma FixSchemaIdempotent(xml: string)
    ensures FixOmeXmlSchema(FixOmeXmlSchema(xml)) == FixOmeXmlSchema(xml)
  {
    var fixed := FixOmeXmlSchema(xml);
    FixSchemaRemovesBadAttribute(xml);
    FixSchemaDeclaresXsi(xml);
    var renamed := RenameSchemaLocation(xml);
    if !Contains(fixed, XsiDeclared) {
      assert !Contains(renamed, OmeOpen);
      ReplaceAllAbsent(renamed, OmeOpen, OmeOpenWithXsi);
    }
    FixSchemaKeepsCleanXml(fixed);
  }

  /* ---------------- the minimal object ---------------- */

  /** `[Channel(id=f"Channel:0:{i}", name=f"Channel {i}") for i in range(n)]`. */
  function MinimalChannels(n: int): seq<Channel> {
    var k := if n < 0 then 0 else n;
    seq(k, i requires 0 <= i < k => NamedChannel("Channel:0:" + NatToString(i), "Channel " + NatToString(i)))
  }

  /** `create_minimal_ome`. */
  function CreateMinimalOme(imageName: string := "Image", sizeX: int := 1024, sizeY: int := 1024,
                            sizeC: int := 1, sizeZ: int := 1, sizeT: int := 1,
                            pixelType: string := "uint16", dimensionOrder: string := "XYZCT"): Ome
  {
    var pixels := Pixels("Pixels:0", dimensionOrder, sizeX, sizeY, sizeZ, sizeC, sizeT, pixelType,
                         MinimalChannels(sizeC), true);
    Ome([PlainImage(imageName, pixels)], [])
  }

  /** One image `Image:0` with pixels `Pixels:0` carrying the requested
      sizes, and `max(0, size_c)` channels `Channel:0:i` named `Channel i`
      with distinct ids. */
  lemma MinimalOmeShape(imageName: string, sizeX: int, sizeY: int, sizeC: int, sizeZ: int, sizeT: int,
                        pixelType: string, dimensionOrder: string)
    ensures var o := CreateMinimalOme(imageName, sizeX, sizeY, sizeC, sizeZ, sizeT, pixelType, dimensionOrder);
      |o.images| == 1 && o.instruments == [] &&
      o.images[0].id == "Image:0" && o.images[0].name == Some(imageName) &&
      o.images[0].pixels.id == "Pixels:0" &&
      o.images[0].pixels.sizeX == sizeX && o.images[0].pixels.sizeY == sizeY &&
      o.images[0].pixels.sizeC == sizeC && o.images[0].pixels.sizeZ == sizeZ &&
      o.images[0].pixels.sizeT == sizeT &&
      o.images[0].pixels.pixelType == pixelType && o.images[0].pixels.dimensionOrder == dimensionOrder &&
      |o.images[0].pixels.channels| == (if sizeC < 0 then 0 else sizeC)
    ensures var cs := MinimalChannels(sizeC);
      (forall i | 0 <= i < |cs| :: cs[i].name == Some("Channel " + NatToString(i))) &&
      (forall i, j | 0 <= i < j < |cs| :: cs[i].id != cs[j].id)
  {
    var cs := MinimalChannels(sizeC);
    forall i, j | 0 <= i < j < |cs|
      ensures cs[i].id != cs[j].id
    {
      PrefixedNatInjective("Channel:0:", i, j);
    }
  }

  /** With every argument defaulted: a 1024 x 1024 single-plane `uint16`
      image in `XYZCT` order with one channel. */
  lemma MinimalOmeDefaults()
    ensures CreateMinimalOme() == Ome([Image("Image:0", Some("Image"),
      Pixels("Pixels:0", "XYZCT", 1024, 1024, 1, 1, 1, "uint16",
             [NamedChannel("Channel:0:0", "Channel 0")], true), None)], [])
  {
    assert NatToString(0) == "0";
    assert "Channel:0:" + "0" == "Channel:0:0" && "Channel " + "0" == "Channel 0";
    assert MinimalChannels(1) == [NamedChannel("Channel:0:0", "Channel 0")];
  }

  /* ---------------- the channel update ---------------- */

  datatype UpdateError =
    | ImageIndexOutOfRange(index: int, count: nat)  // the ValueError raised for an index past the end
    | ListIndexError(index: int)                    // `images[index]` below `-len(images)`

  /** The list position `images[index]` reads, for `-count <= index < count`. */
  function Position(index: int, count: nat): int {
    if index < 0 then count + index else index
  }

  /** The channel made from info string `info` at position `i` of image
      `imageIndex`: id `Channel:{imageIndex}:{i}`, the display label as its
      name, one sample per pixel and no colour. */
  function InfoChannel(imageIndex: int, i: nat, info: string): Channel {
    Channel("Channel:" + IntToString(imageIndex) + ":" + NatToString(i),
            Some(ChannelLabels.DisplayLabel(info)), Some(1), None, None, None, None, None)
  }

  function InfoChannels(info: seq<string>, imageIndex: int): seq<Channel> {
    seq(|info|, i requires 0 <= i < |info| => InfoChannel(imageIndex, i, info[i]))
  }

  /** Image `k` with its channel list replaced and its channel count set to
      the new list's length. */
  function WithChannels(o: Ome, k: nat, channels: seq<Channel>): Ome
    requires k < |o.images|
  {
    var image := o.images[k];
    o.(images := o.images[k := image.(pixels := image.pixels.(channels := channels, sizeC := |channels|))])
  }

  /** Replacing the channels of one image changes nothing else: not the
      other images, not the instruments, not the image's other fields. */
  lemma WithChannelsChangesOnlyChannels(o: Ome, k: nat, channels: seq<Channel>)
    requires k < |o.images|
    ensures var r := WithChannels(o, k, channels);
      |r.images| == |o.images| && r.instruments == o.instruments &&
      (forall j | 0 <= j < |o.images| && j != k :: r.images[j] == o.images[j]) &&
      r.images[k].pixels.channels == channels && r.images[k].pixels.sizeC == |channels| &&
      r.images[k] == o.images[k].(pixels := r.images[k].pixels) &&
      r.images[k].pixels == o.images[k].pixels.(channels := channels, sizeC := |channels|)
  {
  }

  /** The channels built from info strings have distinct ids, carry the
      display labels, one sample per pixel and no colour. */
  lemma InfoChannelsShape(info: seq<string>, imageIndex: int)
    ensures var cs := InfoChannels(info, imageIndex);
      |cs| == |info| &&
      (forall i | 0 <= i < |cs| ::
        cs[i].name == Some(ChannelLabels.DisplayLabel(info[i])) &&
        cs[i].samplesPerPixel == Some(1) && cs[i].color == None) &&
      (forall i, j | 0 <= i < j < |cs| :: cs[i].id != cs[j].id)
  {
    var cs := InfoChannels(info, imageIndex);
    var prefix := "Channel:" + IntToString(imageIndex) + ":";
    forall i, j | 0 <= i < j < |cs|
      ensures cs[i].id != cs[j].id
    {
      assert cs[i].id == prefix + NatToString(i);
      assert cs[j].id == prefix + NatToString(j);
      PrefixedNatInjective(prefix, i, j);
    }
  }

  /** `update_ome_channels`: image `image_index` (counted from the end when
      negative) gets one channel per info string and a matching channel
      count. */
  method UpdateOmeChannels(ome: Ome, info: seq<string>, imageIndex: int := 0)
    returns (r: Result<Ome, UpdateError>)
    ensures imageIndex >= |ome.images| ==> r == Err(ImageIndexOutOfRange(imageIndex, |ome.images|))
    ensures imageIndex < -|ome.images| ==> r == Err(ListIndexError(imageIndex))
    ensures -|ome.images| <= imageIndex < |ome.images| ==>
      r == Ok(WithChannels(ome, Position(imageIndex, |ome.images|), InfoChannels(info, imageIndex)))
  {
    if imageIndex >= |ome.images| {
      return Err(ImageIndexOutOfRange(imageIndex, |ome.images|));
    }
    if imageIndex < -|ome.images| {
      return Err(ListIndexError(imageIndex));
    }
    var k := Position(imageIndex, |ome.images|);
    var channels: seq<Channel> := [];
    for i := 0 to |info|
      invariant |channels| == i
      invariant forall j | 0 <= j < i :: channels[j] == InfoChannel(imageIndex, j, info[j])
    {
      channels := channels + [InfoChannel(imageIndex, i, info[i])];
    }
    assert channels == InfoChannels(info, imageIndex);
    return Ok(WithChannels(ome, k, channels));
  }

  /* ---------------- template or minimal object ---------------- */

  /** What loading the template TIFF gives: no template path, a path that
      does not exist (a ValueError), or the loaded object (`None` when
      loading or the repair failed). */
  datatype Template = NoTemplate | TemplateMissing(path: string) | Loaded(ome: Option<Ome>)

  datatype CreateError = TemplateNotFound(path: string) | ChannelUpdateFailed(error: UpdateError)

  /** The last position of `c` in `s`, or -1. */
  function LastIndex(s: string, c: char): (i: int)
    ensures -1 <= i < |s|
    ensures i >= 0 ==> s[i] == c
    ensures forall j | i < j < |s| :: s[j] != c
    decreases |s|
  {
    if |s| == 0 then -1
    else if s[|s| - 1] == c then |s| - 1
    else LastIndex(s[..|s| - 1], c)
  }

  /** A position holding `c` with no `c` after it is the last one. */
  lemma LastIndexIs(s: string, c: char, k: nat)
    requires k < |s| && s[k] == c
    requires forall j | k < j < |s| :: s[j] != c
    ensures LastIndex(s, c) == k
  {
  }

  /** `Path(path).stem` for a path without trailing or doubled slashes: the
      last component without its last suffix. */
  function Stem(path: string): string {
    var name := path[LastIndex(path, '/') + 1..];
    var i := LastIndex(name, '.');
    if 0 < i < |name| - 1 then name[..i] else name
  }

  /** The stem of a store `dir/b.zarr` is `b`. */
  lemma StemOfStore(dir: string, b: string)
    requires |b| > 0 && '/' !in b
    ensures Stem(dir + "/" + b + ".zarr") == b
  {
    var path := dir + "/" + b + ".zarr";
    var name := b + ".zarr";
    assert path == dir + "/" + name;
    forall j | |dir| < j < |path|
      ensures path[j] != '/'
    {
      assert path[j] == name[j - |dir| - 1];
      assert name[j - |dir| - 1] in b || name[j - |dir| - 1] in ".zarr";
    }
    LastIndexIs(path, '/', |dir|);
    assert path[|dir| + 1..] == name;
    forall j | |b| < j < |name|
      ensures name[j] != '.'
    {
      assert name[j] == ".zarr"[j - |b|];
    }
    LastIndexIs(name, '.', |b|);
    assert name[..|b|] == b;
  }

  /** The object the generator writes: the loaded template, or a minimal
      object named after `image_name` (or the store's stem when that is
      empty or absent), with its first image's channels replaced from the
      channel info. */
  method CreateOmeMetadataForZarr(zarrPath: string, info: seq<string>, template: Template,
                                  imageName: Option<string> := None,
                                  sizeX: int := 1024, sizeY: int := 1024, sizeZ: int := 1, sizeT: int := 1,
                                  pixelType: string := "uint16")
    returns (r: Result<Ome, CreateError>)
    ensures template.TemplateMissing? ==> r == Err(TemplateNotFound(template.path))
    ensures template.Loaded? && template.ome.Some? && |template.ome.value.images| == 0 ==>
      r == Err(ChannelUpdateFailed(ImageIndexOutOfRange(0, 0)))
    ensures template.Loaded? && template.ome.Some? && |template.ome.value.images| > 0 ==>
      r == Ok(WithChannels(template.ome.value, 0, InfoChannels(info, 0)))
    ensures template.NoTemplate? || template == Loaded(None) ==>
      var name := if imageName.None? || imageName.value == "" then Stem(zarrPath) else imageName.value;
      r == Ok(WithChannels(CreateMinimalOme(name, sizeX, sizeY, |info|, sizeZ, sizeT, pixelType), 0,
                           InfoChannels(info, 0)))
  {
    if template.TemplateMissing? {
      return Err(TemplateNotFound(template.path));
    }
    var ome: Ome;
    if template.Loaded? && template.ome.Some? {
      ome := template.ome.value;
    } else {
      var name := if imageName.None? || imageName.value == "" then Stem(zarrPath) else imageName.value;
      ome := CreateMinimalOme(name, sizeX, sizeY, |info|, sizeZ, sizeT, pixelType);
    }
    var updated := UpdateOmeChannels(ome, info);
    if updated.Err? {
      r := Err(ChannelUpdateFailed(updated.error));
    } else {
      r := Ok(updated.value);
    }
  }

  /** Without a usable template the written object has exactly one channel
      per info string, labelled from it, with ids `Channel:0:i`, and a
      channel count that matches. */
  lemma MinimalObjectChannels(name: string, info: seq<string>, sizeX: int, sizeY: int, sizeZ: int, sizeT: int,
                              pixelType: string)
    ensures var o := WithChannels(CreateMinimalOme(name, sizeX, sizeY, |info|, sizeZ, sizeT, pixelType), 0,
                                  InfoChannels(info, 0));
      |o.images| == 1 && o.images[0].name == Some(name) &&
      o.images[0].pixels.sizeC == |info| && |o.images[0].pixels.channels| == |info| &&
      o.images[0].pixels.sizeX == sizeX && o.images[0].pixels.sizeY == sizeY &&
      forall i | 0 <= i < |info| ::
        o.images[0].pixels.channels[i].id == "Channel:0:" + NatToString(i) &&
        o.images[0].pixels.channels[i].name == Some(ChannelLabels.DisplayLabel(info[i]))
  {
    var m := CreateMinimalOme(name, sizeX, sizeY, |info|, sizeZ, sizeT, pixelType);
    MinimalOmeShape(name, sizeX, sizeY, |info|, sizeZ, sizeT, pixelType, "XYZCT");
    WithChannelsChangesOnlyChannels(m, 0, InfoChannels(info, 0));
    InfoChannelsShape(info, 0);
    ImageZeroChannelIds(info);
  }

  /** Channels built for image 0 have ids `Channel:0:i`. */
  lemma ImageZeroChannelIds(info: seq<string>)
    ensures forall i | 0 <= i < |info| :: InfoChannels(info, 0)[i].id == "Channel:0:" + NatToString(i)
  {
    assert IntToString(0) == "0";
    forall i | 0 <= i < |info|
      ensures InfoChannels(info, 0)[i].id == "Channel:0:" + NatToString(i)
    {
      assert "Channel:" + "0" + ":" + NatToString(i) == "Channel:0:" + NatToString(i);
    }
  }
}
