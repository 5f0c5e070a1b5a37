/** The part of the OME data model (as the `ome_types` package exposes it)
    that the metadata helpers read and write. Settings objects the helpers
    only copy are represented by their ids; wavelengths and magnifications
    are carried as given. */
module OmeModel {
  import opened Wrappers

  datatype Channel = Channel(
    id: string,
    name: Option<string>,
    samplesPerPixel: Option<int>,
    color: Option<string>,
    excitationWavelength: Option<real>,
    emissionWavelength: Option<real>,
    lightSourceSettings: Option<string>,
    detectorSettings: Option<string>)

  datatype Pixels = Pixels(
    id: string,
    dimensionOrder: string,
    sizeX: int,
    sizeY: int,
    sizeZ: int,
    sizeC: int,
    sizeT: int,
    pixelType: string,
    channels: seq<Channel>,
    metadataOnly: bool)

  /** `objectiveSettings` holds the id of the objective it refers to. */
  datatype Image = Image(
    id: string,
    name: Option<string>,
    pixels: Pixels,
    objectiveSettings: Option<string>)

  datatype Objective = Objective(id: string, nominalMagnification: Option<real>)

  datatype Instrument = Instrument(id: string, objectives: seq<Objective>)

  datatype Ome = Ome(images: seq<Image>, instruments: seq<Instrument>)

  /** `Channel(id=..., name=...)` with every other field unset. */
  function NamedChannel(id: string, name: string): Channel {
    Channel(id, Some(name), None, None, None, None, None, None)
  }

  /** An image with one pixels block and no objective settings. */
  function PlainImage(name: string, pixels: Pixels): Image {
    Image("Image:0", Some(name), pixels, None)
  }
}
