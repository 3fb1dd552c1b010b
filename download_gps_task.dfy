/**
 * DownloadGpsTask and its inner DownloadTask: starting a download from bounds or
 * from a URL, cancelling it, reading the data with cancellation and transfer
 * errors handled, and finishing by naming the new layers and adding them to the
 * registry or merging them into existing layers.
 *
 * The server readers are represented by their outcome (passed to RealRun); the
 * GPX importer by a function that makes the new layer objects; threading, progress
 * monitors and translations are not modelled.
 */
module DownloadGps {
  import opened GpsCommon
  import opened SourceResolver
  import opened LayerNaming
  import opened LayerRegistry

  /** The OsmServerReader a task reads with. */
  datatype Reader = BoundingBoxReader(bounds: string) | LocationReader(url: string)

  /** The reader loadUrl sets up for a resolved URL. */
  function ReaderFor(d: Descriptor): (r: Option<Reader>)
    ensures r.None? <==> d.NotRecognised? || d.Rewritten?
    ensures d.FetchUrl? ==> r == Some(LocationReader(d.url))
    ensures d.FetchBBox? ==> r == Some(BoundingBoxReader(d.bounds))
  {
    match d
    case FetchUrl(u) => Some(LocationReader(u))
    case FetchBBox(b) => Some(BoundingBoxReader(b))
    case _ => None
  }

  // ---------------------------------------------------------------------------
  // GpxImporter.loadLayers, as far as finish depends on it

  /** The layers loadLayers makes: a GPX layer and, depending on the data, a marker layer. */
  datatype ImportedLayers = ImportedLayers(gpx: Layer, marker: Option<Layer>)

  /** The identity of a layer reference that may be null. */
  function IdOf(layer: Option<Layer>): (r: Option<LayerId>)
    ensures r.Some? <==> layer.Some?
    ensures r.Some? ==> r.value == layer.value.id
  {
    if layer.Some? then Some(layer.value.id) else None
  }

  /** tr("Markers from {0}", name), untranslated. */
  function MarkerLayerName(name: string): (r: string)
    ensures |r| == |"Markers from "| + |name|
    ensures r[..|"Markers from "|] == "Markers from "
    ensures r[|"Markers from "|..] == name
  {
    "Markers from " + name
  }

  /**
   * The new layer objects: a GPX layer with the given name holding the data, and
   * a marker layer made from it; both objects are new, so no layer in the
   * registry is either of them or refers to them.
   */
  function ImportLayers(ls: seq<Layer>, data: GpxData, name: string, withMarkers: bool): (r: ImportedLayers)
    ensures r.gpx.kind == GpxKind && r.gpx.name == name && r.gpx.fromServer == data.fromServer
    ensures r.gpx.fromLayer.None? && r.gpx.invalidations == 0 && r.gpx.mergedFrom == []
    ensures !Registered(ls, r.gpx.id)
    ensures forall i :: 0 <= i < |ls| ==> ls[i].fromLayer != Some(r.gpx.id)
    ensures r.marker.Some? <==> withMarkers
    ensures r.marker.Some? ==>
              && r.marker.value.kind == MarkerKind && r.marker.value.name == MarkerLayerName(name)
              && r.marker.value.fromLayer == Some(r.gpx.id)
              && r.marker.value.id != r.gpx.id && !Registered(ls, r.marker.value.id)
  {
    var id := IdBound(ls);
    ImportedLayers(
      Layer(id, GpxKind, name, data.fromServer, None, 0, []),
      if withMarkers then Some(Layer(id + 1, MarkerKind, MarkerLayerName(name), false, Some(id), 0, []))
      else None)
  }

  /** The imported layers are new objects: the registry mentions neither of them in any way. */
  lemma ImportIsFresh(ls: seq<Layer>, data: GpxData, name: string, withMarkers: bool)
    ensures !Mentioned(ls, ImportLayers(ls, data, name, withMarkers).gpx.id)
    ensures withMarkers ==> !Mentioned(ls, ImportLayers(ls, data, name, withMarkers).marker.value.id)
  {
    IdBoundAboveMentioned(ls, IdBound(ls));
    IdBoundAboveMentioned(ls, IdBound(ls) + 1);
  }

  /**
   * Lines 143-145 of finish on values: add or merge the GPX layer against
   * findGpxMergeLayer, then the marker layer against the marker layers made from
   * the GPX layer just created.
   */
  function Integrate(ls: seq<Layer>, active: Option<LayerId>, imported: ImportedLayers, newLayer: bool, merge: bool): (r: seq<Layer>)
    ensures |ls| <= |r| <= |ls| + 2
  {
    var gpxStep := AddOrMerge(ls, Some(imported.gpx), FindGpxMergeLayer(ls, active, merge), newLayer).layers;
    AddOrMerge(gpxStep, imported.marker, FindMarkerMergeLayer(gpxStep, Some(imported.gpx.id)), newLayer).layers
  }

  /** After finishing, the registry mentions the imported layers, whether they were added or merged. */
  lemma IntegrateMentionsImported(ls: seq<Layer>, active: Option<LayerId>, imported: ImportedLayers, newLayer: bool, merge: bool)
    ensures Mentioned(Integrate(ls, active, imported, newLayer, merge), imported.gpx.id)
    ensures imported.marker.Some? ==> Mentioned(Integrate(ls, active, imported, newLayer, merge), imported.marker.value.id)
  {
    var gpxTarget := FindGpxMergeLayer(ls, active, merge);
    var gpxStep := AddOrMerge(ls, Some(imported.gpx), gpxTarget, newLayer).layers;
    AddOrMergeKeepsMentioned(ls, Some(imported.gpx), gpxTarget, newLayer);
    AddOrMergeKeepsMentioned(gpxStep, imported.marker, FindMarkerMergeLayer(gpxStep, Some(imported.gpx.id)), newLayer);
  }

  /** Finishing keeps every layer in place. */
  lemma IntegrateKeepsLayers(ls: seq<Layer>, active: Option<LayerId>, imported: ImportedLayers, newLayer: bool, merge: bool)
    ensures var r := Integrate(ls, active, imported, newLayer, merge);
      forall i :: 0 <= i < |ls| ==> r[i].id == ls[i].id
  {
    var gpxTarget := FindGpxMergeLayer(ls, active, merge);
    var gpxStep := AddOrMerge(ls, Some(imported.gpx), gpxTarget, newLayer).layers;
    AddOrMergeKeepsIds(ls, Some(imported.gpx), gpxTarget, newLayer);
    AddOrMergeKeepsIds(gpxStep, imported.marker, FindMarkerMergeLayer(gpxStep, Some(imported.gpx.id)), newLayer);
  }

  /** Finishing keeps every identity the registry knew of. */
  lemma IntegrateKeepsMentioned(ls: seq<Layer>, active: Option<LayerId>, imported: ImportedLayers, newLayer: bool, merge: bool)
    ensures forall id: LayerId :: Mentioned(ls, id) ==> Mentioned(Integrate(ls, active, imported, newLayer, merge), id)
  {
    var gpxTarget := FindGpxMergeLayer(ls, active, merge);
    var gpxStep := AddOrMerge(ls, Some(imported.gpx), gpxTarget, newLayer).layers;
    AddOrMergeKeepsMentioned(ls, Some(imported.gpx), gpxTarget, newLayer);
    AddOrMergeKeepsMentioned(gpxStep, imported.marker, FindMarkerMergeLayer(gpxStep, Some(imported.gpx.id)), newLayer);
  }

  /**
   * A later download never reuses the identity of a layer an earlier one made:
   * the next import's layers are distinct from this one's, whether they were
   * added or merged.
   */
  lemma NextImportIsFresh(ls: seq<Layer>, active: Option<LayerId>, imported: ImportedLayers, newLayer: bool, merge: bool,
                          data: GpxData, name: string, withMarkers: bool)
    ensures
      var next := ImportLayers(Integrate(ls, active, imported, newLayer, merge), data, name, withMarkers);
      && next.gpx.id != imported.gpx.id
      && (imported.marker.Some? ==> next.gpx.id != imported.marker.value.id)
      && (next.marker.Some? ==> next.marker.value.id != imported.gpx.id)
      && (next.marker.Some? && imported.marker.Some? ==> next.marker.value.id != imported.marker.value.id)
  {
    var r := Integrate(ls, active, imported, newLayer, merge);
    IntegrateMentionsImported(ls, active, imported, newLayer, merge);
    ImportIsFresh(r, data, name, withMarkers);
  }

  /**
   * What finish does to the registry. The GPX layer is added when a new layer is
   * asked for or there is no merge target, and merged into the target otherwise.
   * The marker layer is looked up by the GPX layer just created, which no
   * registered marker layer can refer to, so it is always added, never merged.
   * Identities stay unique.
   */
  lemma {:induction false} IntegrateShape(ls: seq<Layer>, active: Option<LayerId>, data: GpxData, name: string,
                                          withMarkers: bool, newLayer: bool, merge: bool)
    requires UniqueIds(ls)
    ensures
      var imported := ImportLayers(ls, data, name, withMarkers);
      var target := FindGpxMergeLayer(ls, active, merge);
      var gpxStep := AddOrMerge(ls, Some(imported.gpx), target, newLayer).layers;
      var markers := if withMarkers then [imported.marker.value] else [];
      var result := Integrate(ls, active, imported, newLayer, merge);
      && FindMarkerMergeLayer(gpxStep, Some(imported.gpx.id)).None?
      && result == gpxStep + markers
      && (newLayer || target.None? ==> result == ls + [imported.gpx] + markers)
      && (!newLayer && target.Some? ==> |result| == |ls| + |markers| && result[..|ls|] == gpxStep)
      && UniqueIds(result)
  {
    var imported := ImportLayers(ls, data, name, withMarkers);
    var target := FindGpxMergeLayer(ls, active, merge);
    var gpxStep := AddOrMerge(ls, Some(imported.gpx), target, newLayer).layers;
    var markers := if withMarkers then [imported.marker.value] else [];
    AddOrMergeKeepsUnique(ls, Some(imported.gpx), target, newLayer);
    forall i | 0 <= i < |gpxStep|
      ensures !MarkerOf(gpxStep[i], Some(imported.gpx.id))
    {
      if i < |ls| {
        assert gpxStep[i].fromLayer == ls[i].fromLayer;
      } else {
        assert gpxStep[i] == imported.gpx;
      }
    }
    if withMarkers {
      AddOrMergeKeepsUnique(gpxStep, imported.marker, None, newLayer);
    }
    assert gpxStep + [] == gpxStep;
  }

  /**
   * New data from the server goes into an active GPX layer that came from the
   * server when no new layer is asked for: that layer, and no other registered
   * layer, merges the new GPX layer in and is invalidated exactly once; the only
   * layer added is the marker layer, if there is one.
   */
  lemma ActiveServerLayerReceivesMerge(ls: seq<Layer>, active: LayerId, data: GpxData, name: string,
                                       withMarkers: bool, merge: bool)
    requires UniqueIds(ls)
    requires ActiveLayer(ls, Some(active)).Some?
    requires ActiveLayer(ls, Some(active)).value.kind == GpxKind && ActiveLayer(ls, Some(active)).value.fromServer
    ensures
      var imported := ImportLayers(ls, data, name, withMarkers);
      var result := Integrate(ls, Some(active), imported, false, merge);
      && |result| == |ls| + (if withMarkers then 1 else 0)
      && (forall i :: 0 <= i < |ls| && ls[i].id != active ==> result[i] == ls[i])
      && (forall i :: 0 <= i < |ls| && ls[i].id == active ==>
            && result[i].invalidations == ls[i].invalidations + 1
            && result[i].mergedFrom == ls[i].mergedFrom + [imported.gpx.id])
  {
    var imported := ImportLayers(ls, data, name, withMarkers);
    assert ActiveIsGpxCandidate(ls, Some(active), merge);
    assert FindGpxMergeLayer(ls, Some(active), merge) == Some(active);
    IntegrateShape(ls, Some(active), data, name, withMarkers, false, merge);
  }

  /** The new marker layer is still unregistered once the GPX layer has been placed. */
  lemma MarkerStaysUnregistered(ls: seq<Layer>, imported: ImportedLayers, target: Option<LayerId>, newLayer: bool)
    requires imported.marker.Some? ==> imported.marker.value.id != imported.gpx.id && !Registered(ls, imported.marker.value.id)
    ensures imported.marker.Some? ==>
              !Registered(AddOrMerge(ls, Some(imported.gpx), target, newLayer).layers, imported.marker.value.id)
  {
    var r := AddOrMerge(ls, Some(imported.gpx), target, newLayer).layers;
    assert forall i :: 0 <= i < |ls| ==> r[i].id == ls[i].id;
    assert |r| > |ls| ==> r[|ls|] == imported.gpx;
  }

  /** A GPX layer nothing refers to yet has no marker layer, also once it has been placed. */
  lemma FreshGpxHasNoMarker(ls: seq<Layer>, gpx: Layer, target: Option<LayerId>, newLayer: bool)
    requires gpx.kind == GpxKind
    requires forall i :: 0 <= i < |ls| ==> ls[i].fromLayer != Some(gpx.id)
    ensures FindMarkerMergeLayer(AddOrMerge(ls, Some(gpx), target, newLayer).layers, Some(gpx.id)).None?
  {
    var r := AddOrMerge(ls, Some(gpx), target, newLayer).layers;
    forall i | 0 <= i < |r|
      ensures !MarkerOf(r[i], Some(gpx.id))
    {
      if i < |ls| {
        assert r[i].fromLayer == ls[i].fromLayer;
      } else {
        assert r[i] == gpx;
      }
    }
  }

  /** The layer the first addOrMergeLayer call of finish returns: the new GPX layer or its merge target. */
  function GpxHolder(ls: seq<Layer>, active: Option<LayerId>, imported: ImportedLayers, newLayer: bool, merge: bool): Option<LayerId>
  {
    AddOrMerge(ls, Some(imported.gpx), FindGpxMergeLayer(ls, active, merge), newLayer).returned
  }

  /** What finish does, step by step: an addOrMergeLayer call with its layer and result, or the post-layer task. */
  datatype FinishStep = AddOrMergeStep(layer: Option<LayerId>, holder: Option<LayerId>) | PostLayerTaskStep

  // ---------------------------------------------------------------------------
  // The task objects

  /**
   * DownloadGpsTask, together with the fields of AbstractDownloadTask that it
   * uses: the cancel flag, the remembered errors, the downloaded data and the
   * zoom setting.
   */
  class DownloadGpsTask {
    var url: Option<string>
    var downloadTask: DownloadTask?
    var gpxLayer: Option<LayerId>
    var canceled: bool
    var errorMessages: seq<TransferError>
    var downloadedData: Option<GpxData>
    var zoomAfterDownload: bool

    /** The download task, when there is one, is an inner object of this one. */
    ghost predicate Valid()
      reads this
    {
      downloadTask != null ==> downloadTask.outer == this
    }

    constructor (zoomAfterDownload: bool)
      ensures Valid()
      ensures url == None && downloadTask == null && gpxLayer == None
      ensures !canceled && errorMessages == [] && downloadedData == None
      ensures this.zoomAfterDownload == zoomAfterDownload
    {
      url := None;
      downloadTask := null;
      gpxLayer := None;
      canceled := false;
      errorMessages := [];
      downloadedData := None;
      this.zoomAfterDownload := zoomAfterDownload;
    }

    /** download(settings, bounds): a new task reading the bounds from the server. The result stands for the Future. */
    method Download(settings: DownloadParams, bounds: string) returns (t: DownloadTask)
      modifies this`downloadTask
      ensures Valid()
      ensures fresh(t) && downloadTask == t
      ensures t.outer == this && t.reader == BoundingBoxReader(bounds) && t.newLayer == settings.newLayer
      ensures t.rawData == None && !t.readerCanceled && t.finishLog == []
    {
      t := new DownloadTask(this, settings, BoundingBoxReader(bounds));
      downloadTask := t;
    }

    /**
     * loadUrl(settings, url): stores the URL, rewrites user-trace and edit-trace
     * URLs and starts again, starts a URL download for the direct patterns, a
     * bounds download for a trackpoints URL with a usable bbox parameter, and
     * otherwise returns null with the download task left as it was.
     */
    method LoadUrl(settings: DownloadParams, u: string, p: UrlPatterns) returns (t: DownloadTask?)
      requires Valid()
      requires RewriteIsFinal(p)
      modifies this`url, this`downloadTask
      ensures Valid()
      ensures url == Some(FinalUrl(p, u))
      ensures t == null <==> Resolve(p, u) == NotRecognised
      ensures t == null ==> downloadTask == old(downloadTask)
      ensures t != null ==>
                && fresh(t) && downloadTask == t && t.outer == this
                && Some(t.reader) == ReaderFor(Resolve(p, u)) && t.newLayer == settings.newLayer
                && t.rawData == None && !t.readerCanceled && t.finishLog == []
      decreases if MappedUrl(p, u).Some? then 1 else 0
    {
      url := Some(u);
      var mapped := MappedUrl(p, u);
      if mapped.Some? {
        assert MappedUrl(p, mapped.value).None?;
        t := LoadUrl(settings, mapped.value, p);
        return;
      }
      if MatchesAny(p, DirectPatterns, u) {
        t := new DownloadTask(this, settings, LocationReader(u));
        downloadTask := t;
        return;
      } else if p.matches(TrackpointsBbox, u) {
        var table := Split(u);
        var bounds := ScanForBBox(table);
        if bounds.Some? {
          t := Download(settings, bounds.value);
          return;
        }
      }
      t := null;
    }

    /** cancel(): forwarded to the download task, if there is one. */
    method Cancel()
      requires Valid()
      modifies this`canceled, downloadTask
      ensures downloadTask == null ==> canceled == old(canceled)
      ensures downloadTask != null ==> canceled && downloadTask.readerCanceled
      ensures downloadTask != null ==>
                downloadTask.rawData == old(downloadTask.rawData) &&
                downloadTask.finishLog == old(downloadTask.finishLog)
    {
      if downloadTask != null {
        downloadTask.Cancel();
      }
    }
  }

  /** The inner DownloadTask: one run of a reader and the processing of its data. */
  class DownloadTask {
    const outer: DownloadGpsTask
    const reader: Reader
    const newLayer: bool
    var rawData: Option<GpxData>
    var readerCanceled: bool    // reader.cancel() was called
    var finishLog: seq<FinishStep>  // what finish did, in order

    constructor (outer: DownloadGpsTask, settings: DownloadParams, reader: Reader)
      ensures this.outer == outer && this.reader == reader && newLayer == settings.newLayer
      ensures rawData == None && !readerCanceled && finishLog == []
    {
      this.outer := outer;
      this.reader := reader;
      this.newLayer := settings.newLayer;
      rawData := None;
      readerCanceled := false;
      finishLog := [];
    }

    /** cancel(): sets the task's cancel flag and cancels the reader. */
    method Cancel()
      modifies outer`canceled, this`readerCanceled
      ensures outer.canceled && readerCanceled
    {
      outer.canceled := true;
      readerCanceled := true;
    }

    /**
     * realRun(). Nothing is read when the task is already cancelled. The reader's
     * result is stored; a transfer error is remembered unless the task has been
     * cancelled by then. cancelDuringRead stands for a cancel() that arrives from
     * another thread while the reader is at work.
     */
    method RealRun(outcome: ReadOutcome, cancelDuringRead: bool)
      modifies this`rawData, this`readerCanceled, outer`canceled, outer`errorMessages
      ensures old(outer.canceled) ==>
                && rawData == old(rawData) && outer.errorMessages == old(outer.errorMessages)
                && outer.canceled && readerCanceled == old(readerCanceled)
      ensures !old(outer.canceled) ==>
                && outer.canceled == cancelDuringRead
                && readerCanceled == (old(readerCanceled) || cancelDuringRead)
      ensures !old(outer.canceled) && outcome.Read? ==>
                rawData == outcome.data && outer.errorMessages == old(outer.errorMessages)
      ensures !old(outer.canceled) && outcome.TransferFailed? ==>
                && rawData == old(rawData)
                && outer.errorMessages == old(outer.errorMessages) + (if cancelDuringRead then [] else [outcome.error])
    {
      if outer.canceled {
        return;
      }
      if cancelDuringRead {
        Cancel();
      }
      match outcome
      case Read(data) =>
        rawData := data;
      case TransferFailed(e) =>
        if outer.canceled {
          return;
        }
        outer.errorMessages := outer.errorMessages + [e];
    }

    /**
     * finish(). Records the data as the downloaded data; with no data it stops
     * there. Otherwise it names the layers, makes them, adds or merges the GPX
     * layer and then the marker layer, and runs the post-layer task.
     */
    method Finish(reg: LayerManager, prefs: Preferences, p: UrlPatterns, withMarkers: bool)
      requires reg.Valid()
      modifies outer`downloadedData, outer`gpxLayer, this`finishLog, reg`layers, reg`zoomRequests
      ensures reg.Valid()
      ensures outer.downloadedData == rawData
      ensures rawData.None? ==>
                && reg.layers == old(reg.layers) && reg.zoomRequests == old(reg.zoomRequests)
                && outer.gpxLayer == old(outer.gpxLayer) && finishLog == old(finishLog)
      ensures rawData.Some? ==>
                var name := LayerName(prefs.preferMetadataName, p, outer.url, rawData);
                var imported := ImportLayers(old(reg.layers), rawData.value, name, withMarkers);
                && outer.gpxLayer == Some(imported.gpx.id)
                && reg.layers == Integrate(old(reg.layers), reg.active, imported, newLayer, prefs.mergeWithLocal)
                && reg.zoomRequests == old(reg.zoomRequests) +
                     (if outer.zoomAfterDownload then Ids(reg.layers[|old(reg.layers)|..]) else [])
                && finishLog == old(finishLog)
                     + [AddOrMergeStep(Some(imported.gpx.id), GpxHolder(old(reg.layers), reg.active, imported, newLayer, prefs.mergeWithLocal))]
                     + [AddOrMergeStep(IdOf(imported.marker), IdOf(imported.marker))]
                     + [PostLayerTaskStep]
    {
      outer.downloadedData := rawData;
      if rawData.None? {
        return;
      }
      var name := LayerName(prefs.preferMetadataName, p, outer.url, rawData);
      var layers := ImportLayers(reg.layers, rawData.value, name, withMarkers);
      outer.gpxLayer := Some(layers.gpx.id);
      AddImported(reg, layers, prefs.mergeWithLocal);
      finishLog := finishLog + [PostLayerTaskStep];
    }

    /**
     * The two addOrMergeLayer calls of finish: the GPX layer into the layer
     * findGpxMergeLayer picks, then the marker layer into the one that
     * findMarkerMergeLayer picks for the fresh GPX layer.
     */
    method AddImported(reg: LayerManager, layers: ImportedLayers, merge: bool)
      requires reg.Valid()
      requires layers.gpx.kind == GpxKind && !Registered(reg.layers, layers.gpx.id)
      requires forall i :: 0 <= i < |reg.layers| ==> reg.layers[i].fromLayer != Some(layers.gpx.id)
      requires layers.marker.Some? ==>
                 layers.marker.value.id != layers.gpx.id && !Registered(reg.layers, layers.marker.value.id)
      modifies reg`layers, reg`zoomRequests, this`finishLog
      ensures reg.Valid()
      ensures reg.layers == Integrate(old(reg.layers), reg.active, layers, newLayer, merge)
      ensures reg.zoomRequests == old(reg.zoomRequests) +
                (if outer.zoomAfterDownload then Ids(reg.layers[|old(reg.layers)|..]) else [])
      ensures finishLog == old(finishLog)
                + [AddOrMergeStep(Some(layers.gpx.id), GpxHolder(old(reg.layers), reg.active, layers, newLayer, merge))]
                + [AddOrMergeStep(IdOf(layers.marker), IdOf(layers.marker))]
    {
      ghost var before, zoomBefore := reg.layers, reg.zoomRequests;
      var gpxTarget := FindGpxMergeLayer(reg.layers, reg.active, merge);
      var _ := AddOrMergeLayer(reg, Some(layers.gpx), gpxTarget);
      ghost var middle, zoomMiddle := reg.layers, reg.zoomRequests;
      MarkerStaysUnregistered(before, layers, gpxTarget, newLayer);
      FreshGpxHasNoMarker(before, layers.gpx, gpxTarget, newLayer);
      var markerTarget := FindMarkerMergeLayer(reg.layers, Some(layers.gpx.id));
      var _ := AddOrMergeLayer(reg, layers.marker, markerTarget);
      ZoomOverTwoSteps(before, middle, reg.layers, zoomBefore, zoomMiddle, reg.zoomRequests, outer.zoomAfterDownload);
    }

    /**
     * addOrMergeLayer(layer, mergeLayer): adds the layer (with the zoom setting)
     * when a new layer is asked for or there is no merge target, otherwise merges
     * it into the target and invalidates the target; returns the layer that now
     * holds the data.
     */
    method AddOrMergeLayer(reg: LayerManager, layer: Option<Layer>, mergeLayer: Option<LayerId>) returns (r: Option<LayerId>)
      requires reg.Valid()
      requires layer.Some? ==> !Registered(reg.layers, layer.value.id)
      modifies reg`layers, reg`zoomRequests, this`finishLog
      ensures reg.Valid()
      ensures r == AddOrMerge(old(reg.layers), layer, mergeLayer, newLayer).returned
      ensures finishLog == old(finishLog) + [AddOrMergeStep(IdOf(layer), r)]
      ensures reg.layers == AddOrMerge(old(reg.layers), layer, mergeLayer, newLayer).layers
      ensures |reg.layers| >= |old(reg.layers)|
      ensures forall i :: 0 <= i < |old(reg.layers)| ==> reg.layers[i].id == old(reg.layers)[i].id
      ensures reg.zoomRequests == old(reg.zoomRequests) +
                (if outer.zoomAfterDownload then Ids(reg.layers[|old(reg.layers)|..]) else [])
    {
      if layer.None? {
        assert reg.layers[|reg.layers|..] == [];
        r := None;
      } else if newLayer || mergeLayer.None? {
        reg.AddLayer(layer.value, outer.zoomAfterDownload);
        assert reg.layers[|old(reg.layers)|..] == [layer.value];
        r := Some(layer.value.id);
      } else {
        reg.MergeFrom(mergeLayer.value, layer.value.id);
        reg.Invalidate(mergeLayer.value);
        assert reg.layers[|old(reg.layers)|..] == [];
        r := mergeLayer;
      }
      finishLog := finishLog + [AddOrMergeStep(IdOf(layer), r)];
    }

    /**
     * One run of the task as PleaseWaitRunnable drives it: realRun, then finish.
     * A task cancelled before it reads, or whose read fails, leaves the registry
     * as it was and runs no post-layer task; one cancelled before it reads also
     * remembers no error.
     */
    method Run(outcome: ReadOutcome, cancelDuringRead: bool, reg: LayerManager, prefs: Preferences,
               p: UrlPatterns, withMarkers: bool)
      requires reg.Valid()
      requires rawData.None?
      modifies this`rawData, this`readerCanceled, this`finishLog
      modifies outer`canceled, outer`errorMessages, outer`downloadedData, outer`gpxLayer
      modifies reg`layers, reg`zoomRequests
      ensures reg.Valid()
      ensures old(outer.canceled) || outcome.TransferFailed? ==>
                && reg.layers == old(reg.layers) && reg.zoomRequests == old(reg.zoomRequests)
                && outer.downloadedData == None && outer.gpxLayer == old(outer.gpxLayer)
                && finishLog == old(finishLog)
      ensures old(outer.canceled) ==> outer.errorMessages == old(outer.errorMessages)
      ensures !old(outer.canceled) && outcome.TransferFailed? ==>
                outer.errorMessages == old(outer.errorMessages) + (if cancelDuringRead then [] else [outcome.error])
      ensures !old(outer.canceled) && outcome.Read? ==>
                && outer.downloadedData == outcome.data
                && outer.errorMessages == old(outer.errorMessages)
                && (outcome.data.None? ==>
                      && reg.layers == old(reg.layers) && reg.zoomRequests == old(reg.zoomRequests)
                      && outer.gpxLayer == old(outer.gpxLayer) && finishLog == old(finishLog))
      ensures !old(outer.canceled) && outcome.Read? && outcome.data.Some? ==>
                var name := LayerName(prefs.preferMetadataName, p, outer.url, outcome.data);
                var imported := ImportLayers(old(reg.layers), outcome.data.value, name, withMarkers);
                && outer.gpxLayer == Some(imported.gpx.id)
                && reg.layers == Integrate(old(reg.layers), reg.active, imported, newLayer, prefs.mergeWithLocal)
                && reg.zoomRequests == old(reg.zoomRequests) +
                     (if outer.zoomAfterDownload then Ids(reg.layers[|old(reg.layers)|..]) else [])
                && finishLog == old(finishLog)
                     + [AddOrMergeStep(Some(imported.gpx.id), GpxHolder(old(reg.layers), reg.active, imported, newLayer, prefs.mergeWithLocal))]
                     + [AddOrMergeStep(IdOf(imported.marker), IdOf(imported.marker))]
                     + [PostLayerTaskStep]
    {
      RealRun(outcome, cancelDuringRead);
      Finish(reg, prefs, p, withMarkers);
    }
  }

  /** The zoom requests of two add-or-merge steps name the layers the two steps added, in order. */
  lemma ZoomOverTwoSteps(a: seq<Layer>, b: seq<Layer>, c: seq<Layer>,
                         za: seq<LayerId>, zb: seq<LayerId>, zc: seq<LayerId>, zoom: bool)
    requires |a| <= |b| <= |c|
    requires forall i :: 0 <= i < |b| ==> c[i].id == b[i].id
    requires zb == za + (if zoom then Ids(b[|a|..]) else [])
    requires zc == zb + (if zoom then Ids(c[|b|..]) else [])
    ensures zc == za + (if zoom then Ids(c[|a|..]) else [])
  {
    IdsOfSuffixes(a, b, c);
    if zoom {
      assert zc == za + (Ids(b[|a|..]) + Ids(c[|b|..]));
    }
  }

  /** The identities added over two add-or-merge steps are those added by each step, in order. */
  lemma IdsOfSuffixes(a: seq<Layer>, b: seq<Layer>, c: seq<Layer>)
    requires |a| <= |b| <= |c|
    requires forall i :: 0 <= i < |b| ==> c[i].id == b[i].id
    ensures Ids(c[|a|..]) == Ids(b[|a|..]) + Ids(c[|b|..])
  {
    var l, r := Ids(c[|a|..]), Ids(b[|a|..]) + Ids(c[|b|..]);
    assert |l| == |r|;
    forall k | 0 <= k < |l| ensures l[k] == r[k] {
      if k < |b| - |a| {
        assert l[k] == c[|a| + k].id;
      } else {
        assert l[k] == c[|a| + k].id;
      }
    }
  }
}
