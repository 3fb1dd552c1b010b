/**
 * Values shared by the parts of the GPS download task: the optional value used
 * wherever the Java code passes or returns null, the parsed track data as far as
 * the task looks into it, the outcome of a server reader, and the settings and
 * preferences the task reads.
 */
module GpsCommon {

  /** Some value, or the Java null. */
  datatype Option<+T> = None | Some(value: T)

  /** Identity of a layer object (Java compares layers by reference). */
  type LayerId = nat

  /**
   * GpxData: the track points themselves stay opaque; the task reads only the
   * metadata name (GpxConstants.META_NAME, possibly null) and whether the data
   * came from the server.
   */
  datatype GpxData = GpxData(metadataName: Option<string>, fromServer: bool)

  /** An OsmTransferException raised by a server reader. */
  datatype TransferError = TransferError(message: string)

  /**
   * What OsmServerReader.parseRawGps does: it returns data (which may be null)
   * or raises a transfer error.
   */
  datatype ReadOutcome = Read(data: Option<GpxData>) | TransferFailed(error: TransferError)

  /** DownloadParams, of which the task reads only isNewLayer(). */
  datatype DownloadParams = DownloadParams(newLayer: bool)

  /** The two preferences the task reads: gpx.prefermetadataname and download.gps.mergeWithLocal. */
  datatype Preferences = Preferences(preferMetadataName: bool, mergeWithLocal: bool)
}
