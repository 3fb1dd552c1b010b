# DownloadGpsTask, modelled in Dafny

A model of JOSM's `DownloadGpsTask`. This is the download task that fetches GPS
traces from the OpenStreetMap server, either by bounding box or by URL, and
places the result in the layer list. It has four parts:

- **URL dispatch** (module `SourceResolver`). User-trace and edit-trace URLs are
  rewritten to `https://www.openstreetmap.org/trace/<id>/data` and dispatched
  again. Trace, external script, external file and tasking-manager URLs are
  fetched as they are. For a trackpoints URL, the token after the first `bbox`
  token that is not the last token becomes the bounds. Any other URL gets no
  task (`null`).
  - The `GpxUrlPattern` regular expressions are left abstract: one function
    says whether a pattern matches, another gives a capture group.
  - The split on `?`, `=` and `&` with limit -1 is modelled exactly, and so is
    the indexed scan of its tokens.
- **Task lifecycle** (module `DownloadGps`). Two classes: `DownloadGpsTask` and
  its inner `DownloadTask`.
  - The outer task holds the cancel flag, the remembered errors and the
    downloaded data (fields of its superclass), plus its own `url`,
    `downloadTask` and `gpxLayer` fields.
  - `RealRun` takes the reader's outcome as an input: data (possibly null) or a
    transfer error. It also takes a flag for a `cancel()` that arrives from
    another thread while the reader runs.
  - `Finish` names the layers, makes them, adds or merges them in the registry
    and runs the post-layer task.
- **Layer naming** (module `LayerNaming`). `Utils.firstNotEmptyString(default,
  candidates...)` returns the first candidate that is not null or blank, and
  the default only when every candidate is. So `getLayerName` gives the .gpx
  file name, then the metadata name, then "Downloaded GPX Data". The
  `gpx.prefermetadataname` preference swaps the first two.
- **Layer registry** (module `LayerRegistry`). The layers are a sequence of
  records. Each record holds an identity, a kind, `fromServer`, the marker
  layer's `fromLayer`, an invalidation count and the layers merged into it.
  There is also an optional active layer. Finding a merge target is a pure
  query. Adding and merging are updates of a `LayerManager` object.

Three points of the code that shape the model:

- **Naming.** The default name is only the fallback: it is used when neither
  the file name nor the metadata name has text (`DownloadGpsTask.java:155-160`).
- **Marker merge target.** The marker layer's merge target is looked up through
  the GPX layer object just made by the importer (`DownloadGpsTask.java:143-145`),
  not through the layer `addOrMergeLayer` returned. No registered marker layer
  can refer to that new object, so in `finish` the marker layer is always added
  and never merged (`DownloadGps.IntegrateShape`).
- **Trailing `bbox` token.** A `bbox` token with nothing after it yields no
  bounds. Because the split keeps trailing empty tokens (limit -1), a URL that
  ends in `bbox=` yields the empty bounds string, not null
  (`DownloadGpsTask.java:88-92`, `SourceResolver.BBoxOfQuery`). That string then
  goes to `new Bounds(...)`, whose parsing is not modelled (see "Bounds parsing"
  under "Left out"): the model's `LoadUrl` builds a bounding-box task on `""`,
  although `""` is not a valid bounds string.
- **A `bbox` value before the key.** The scan compares tokens, not keys. A
  parameter whose value is `bbox`, placed in front of the `bbox` parameter, is
  taken as the key, and the key `bbox` itself becomes the bounds: in
  `...?x=bbox&bbox=1,2,3,4` the bounds are `bbox`, not `1,2,3,4`
  (`DownloadGpsTask.java:88-92`, `SourceResolver.BBoxValueBeforeKey`).

## Model

| member | source | states |
|---|---|---|
| SourceResolver.TraceDataUrl | src/org/openstreetmap/josm/actions/downloadtasks/DownloadGpsTask.java:73 | the canonical URL is the trace prefix, the id and `/data`, so the id can be read back from it |
| SourceResolver.FirstMatching | src/org/openstreetmap/josm/actions/downloadtasks/DownloadGpsTask.java:70-74 | the position found is the first pattern in list order that matches; none exactly when no pattern matches |
| SourceResolver.MappedUrl | src/org/openstreetmap/josm/actions/downloadtasks/DownloadGpsTask.java:70-74 | a rewrite exists exactly when USER_TRACE_ID or EDIT_TRACE_ID matches; it is the canonical trace URL built from group 2 of USER_TRACE_ID when that matches, else from group 2 of EDIT_TRACE_ID |
| SourceResolver.Split | src/org/openstreetmap/josm/actions/downloadtasks/DownloadGpsTask.java:88 | at least one token |
| SourceResolver.SplitTokensHaveNoSeparator | src/org/openstreetmap/josm/actions/downloadtasks/DownloadGpsTask.java:88 | no token contains `?`, `=` or `&` |
| SourceResolver.SplitCons | src/org/openstreetmap/josm/actions/downloadtasks/DownloadGpsTask.java:88 | the one-character unfolding step of the limit -1 split that SplitJoin and SplitConcat use: a leading separator starts a new empty token; any other leading character joins the first token of the rest |
| SourceResolver.SplitJoin | src/org/openstreetmap/josm/actions/downloadtasks/DownloadGpsTask.java:88 | one more token than separators (limit -1 keeps empty tokens), and the tokens joined with the separators rebuild the URL |
| SourceResolver.SplitWithoutSeparator | src/org/openstreetmap/josm/actions/downloadtasks/DownloadGpsTask.java:88 | a string without separators is one token |
| SourceResolver.SplitConcat | src/org/openstreetmap/josm/actions/downloadtasks/DownloadGpsTask.java:88 | splitting `a + sep + b` gives the tokens of `a` followed by the tokens of `b` |
| SourceResolver.BBoxValue | src/org/openstreetmap/josm/actions/downloadtasks/DownloadGpsTask.java:89-92 | no bounds exactly when every `bbox` token is the last token; otherwise the token after the first `bbox` token |
| SourceResolver.ScanForBBox | src/org/openstreetmap/josm/actions/downloadtasks/DownloadGpsTask.java:89-92 | the indexed loop returns the bounds that BBoxValue specifies |
| SourceResolver.BBoxValueSkipsPrefix | src/org/openstreetmap/josm/actions/downloadtasks/DownloadGpsTask.java:89-92 | tokens other than `bbox` in front do not change the scan's result |
| SourceResolver.BBoxOfQuery | src/org/openstreetmap/josm/actions/downloadtasks/DownloadGpsTask.java:88-92 | after a part with no `bbox` token, `?bbox=` + v yields the first token of v: v itself when v has no separator, and the empty string for a URL ending in `bbox=` |
| SourceResolver.BBoxValueBeforeKey | src/org/openstreetmap/josm/actions/downloadtasks/DownloadGpsTask.java:88-92 | a parameter whose value is `bbox` in front of the `bbox` parameter makes the key `bbox` itself the bounds |
| SourceResolver.BBoxAsFinalToken | src/org/openstreetmap/josm/actions/downloadtasks/DownloadGpsTask.java:88-92 | a URL ending in `?bbox` yields no bounds |
| SourceResolver.Classify | src/org/openstreetmap/josm/actions/downloadtasks/DownloadGpsTask.java:70-94 | rewrite exactly when a rewrite pattern matches; else a URL fetch of the URL itself exactly when a direct pattern matches; else bounds exactly when TRACKPOINTS_BBOX matches and the scan finds a value; else not recognised |
| SourceResolver.FinalUrl | src/org/openstreetmap/josm/actions/downloadtasks/DownloadGpsTask.java:69-76 | the URL loadUrl ends at: the URL itself when no rewrite pattern matches, else the canonical trace URL from group 2 of USER_TRACE_ID, or of EDIT_TRACE_ID when only that matches |
| SourceResolver.Resolve | src/org/openstreetmap/josm/actions/downloadtasks/DownloadGpsTask.java:68-94 | the result of dispatch with the rewrite followed is never a rewrite, and it is the classification of the URL dispatch ends at |
| SourceResolver.ResolveFollowsRewrite | src/org/openstreetmap/josm/actions/downloadtasks/DownloadGpsTask.java:70-77 | a rewritten URL resolves exactly as its canonical trace URL does; resolving again from the final URL changes nothing |
| SourceResolver.UnmatchedUrlNotRecognised | src/org/openstreetmap/josm/actions/downloadtasks/DownloadGpsTask.java:78-94 | a URL no pattern matches is not recognised |
| SourceResolver.ResolveTrackpoints | src/org/openstreetmap/josm/actions/downloadtasks/DownloadGpsTask.java:87-94 | a URL only TRACKPOINTS_BBOX may match is fetched by the first usable `bbox` value when that pattern matches, and is not recognised when the scan finds none |
| SourceResolver.TrackpointsQuery | src/org/openstreetmap/josm/actions/downloadtasks/DownloadGpsTask.java:87-94 | a trackpoints URL `...?bbox=v` matched by no earlier pattern fetches the bounds at the start of v; `...?bbox` is not recognised |
| LayerNaming.FirstNotEmptyString | src/org/openstreetmap/josm/actions/downloadtasks/DownloadGpsTask.java:158-160 | the first candidate that is not null or blank wins; the default only when all candidates are empty; the result is the default or one of the candidates |
| LayerNaming.GpxFileName | src/org/openstreetmap/josm/actions/downloadtasks/DownloadGpsTask.java:152-153 | a file name exists exactly when there is a URL and EXTERNAL_GPX_FILE matches it, and it is group 1 |
| LayerNaming.MetadataName | src/org/openstreetmap/josm/actions/downloadtasks/DownloadGpsTask.java:154 | a metadata name exactly when there is data and it holds a name, and then that name |
| LayerNaming.LayerName | src/org/openstreetmap/josm/actions/downloadtasks/DownloadGpsTask.java:150-162 | without the preference: file name if not empty, else metadata name if not empty, else the default; with it: metadata name and file name swap |
| LayerNaming.DefaultOnlyWhenNoName | src/org/openstreetmap/josm/actions/downloadtasks/DownloadGpsTask.java:155-161 | the default is chosen when both names are empty; otherwise the name is a non-blank file name or metadata name |
| LayerNaming.PreferenceSwapsNames | src/org/openstreetmap/josm/actions/downloadtasks/DownloadGpsTask.java:157-161 | with both names present the preference picks between them; with at most one present it makes no difference |
| LayerNaming.NamingExample | src/org/openstreetmap/josm/actions/downloadtasks/DownloadGpsTask.java:150-162 | file "track" and metadata "MyRide" give "track" without the preference and "MyRide" with it; a blank metadata name and no URL give the default |
| LayerRegistry.FindFirst | src/org/openstreetmap/josm/actions/downloadtasks/DownloadGpsTask.java:181-183 | the position found is the first layer in registry order that passes the filter; none exactly when no layer passes |
| LayerRegistry.ActiveLayer | src/org/openstreetmap/josm/actions/downloadtasks/DownloadGpsTask.java:178 | the active layer is the registered layer with the active identity, if any |
| LayerRegistry.FindGpxMergeLayer | src/org/openstreetmap/josm/actions/downloadtasks/DownloadGpsTask.java:176-184 | any result is a GPX layer with `merge or fromServer`; the active layer when it is such a layer, else the first such layer in order; none exactly when there is no such layer |
| LayerRegistry.FindMarkerMergeLayer | src/org/openstreetmap/josm/actions/downloadtasks/DownloadGpsTask.java:186-190 | none for a null GPX layer; any result is the first marker layer whose fromLayer is exactly the given layer; none exactly when there is no such marker layer |
| LayerRegistry.MergedFrom | src/org/openstreetmap/josm/actions/downloadtasks/DownloadGpsTask.java:170 | only the target layer changes, by recording the merged layer |
| LayerRegistry.Invalidated | src/org/openstreetmap/josm/actions/downloadtasks/DownloadGpsTask.java:171 | only the target layer changes, with one more invalidation |
| LayerRegistry.AddOrMerge | src/org/openstreetmap/josm/actions/downloadtasks/DownloadGpsTask.java:164-174 | null layer: nothing changes and null is returned; new layer asked for or no target: the registry grows by exactly that layer, which is returned; otherwise same length and order, only the target merged into and invalidated once, and the target returned |
| LayerRegistry.AddOrMergeKeepsIds | src/org/openstreetmap/josm/actions/downloadtasks/DownloadGpsTask.java:164-174 | adding or merging keeps every layer at its place |
| LayerRegistry.AddOrMergeKeepsMentioned | src/org/openstreetmap/josm/actions/downloadtasks/DownloadGpsTask.java:164-174 | every layer object the registry knew of stays known, and the layer placed becomes known: as a registered layer when added, as a merged layer of the target when merged |
| LayerRegistry.AddOrMergeKeepsUnique | src/org/openstreetmap/josm/actions/downloadtasks/DownloadGpsTask.java:164-174 | adding a new layer or merging keeps layer identities unique, and no registered layer disappears |
| LayerRegistry.LayerManager.AddLayer | src/org/openstreetmap/josm/actions/downloadtasks/DownloadGpsTask.java:167 | appends the layer, and records a zoom request when asked |
| LayerRegistry.LayerManager.MergeFrom | src/org/openstreetmap/josm/actions/downloadtasks/DownloadGpsTask.java:170 | the registry becomes MergedFrom of the old one |
| LayerRegistry.LayerManager.Invalidate | src/org/openstreetmap/josm/actions/downloadtasks/DownloadGpsTask.java:171 | the registry becomes Invalidated of the old one |
| DownloadGps.ReaderFor | src/org/openstreetmap/josm/actions/downloadtasks/DownloadGpsTask.java:81-91 | a URL fetch of u gets a location reader on u, bounds b get a bounding-box reader on b; nothing else gets a reader |
| DownloadGps.MarkerLayerName | src/org/openstreetmap/josm/actions/downloadtasks/DownloadGpsTask.java:141 | the marker layer's name is "Markers from " followed by the GPX layer's name |
| DownloadGps.ImportLayers | src/org/openstreetmap/josm/actions/downloadtasks/DownloadGpsTask.java:140-143 | a new, unregistered GPX layer with the computed name and the data's fromServer, which nothing refers to; a marker layer named "Markers from" + name, made from that GPX layer, exactly when the importer makes one |
| DownloadGps.ImportIsFresh | src/org/openstreetmap/josm/actions/downloadtasks/DownloadGpsTask.java:140-142 | the layers the importer makes are new objects: the registry mentions neither, not even as a merged layer |
| DownloadGps.Integrate | src/org/openstreetmap/josm/actions/downloadtasks/DownloadGpsTask.java:143-145 | finish leaves the registry at least as long as before and at most two layers longer (which layers are added, and that none is replaced, is stated by IntegrateShape and IntegrateKeepsLayers) |
| DownloadGps.IntegrateKeepsLayers | src/org/openstreetmap/josm/actions/downloadtasks/DownloadGpsTask.java:143-145 | every registered layer keeps its place |
| DownloadGps.IntegrateKeepsMentioned | src/org/openstreetmap/josm/actions/downloadtasks/DownloadGpsTask.java:143-145 | every layer object the registry knew of is still known afterwards |
| DownloadGps.IntegrateMentionsImported | src/org/openstreetmap/josm/actions/downloadtasks/DownloadGpsTask.java:143-145 | afterwards the registry knows the new GPX layer and the new marker layer, added or merged |
| DownloadGps.NextImportIsFresh | src/org/openstreetmap/josm/actions/downloadtasks/DownloadGpsTask.java:140-145 | the layers of a later download are distinct objects from those of this one, whether this one's were added or merged |
| DownloadGps.IntegrateShape | src/org/openstreetmap/josm/actions/downloadtasks/DownloadGpsTask.java:143-145 | the marker lookup by the fresh GPX layer finds nothing, so the marker layer is always appended; the GPX layer is appended when a new layer is asked for or there is no target, otherwise merged; identities stay unique |
| DownloadGps.ActiveServerLayerReceivesMerge | src/org/openstreetmap/josm/actions/downloadtasks/DownloadGpsTask.java:164-184 | with an active GPX layer from the server and no new layer asked for, that layer alone merges the new data and is invalidated exactly once |
| DownloadGps.DownloadGpsTask.Download | src/org/openstreetmap/josm/actions/downloadtasks/DownloadGpsTask.java:59-65 | a fresh task with a bounding-box reader becomes the download task |
| DownloadGps.DownloadGpsTask.LoadUrl | src/org/openstreetmap/josm/actions/downloadtasks/DownloadGpsTask.java:68-95 | stores the final URL; returns null exactly when the URL is not recognised, leaving the download task unchanged; otherwise a fresh task whose reader matches the resolved descriptor |
| DownloadGps.DownloadGpsTask.Cancel | src/org/openstreetmap/josm/actions/downloadtasks/DownloadGpsTask.java:98-102 | with no download task nothing happens; otherwise the task is cancelled and so is its reader |
| DownloadGps.DownloadTask.constructor | src/org/openstreetmap/josm/actions/downloadtasks/DownloadGpsTask.java:114-118 | the task keeps its outer task, the reader it is given and the new-layer setting, with no data read, the reader not cancelled and nothing finished yet |
| DownloadGps.DownloadTask.Cancel | src/org/openstreetmap/josm/actions/downloadtasks/DownloadGpsTask.java:193-198 | sets the cancel flag and cancels the reader |
| DownloadGps.DownloadTask.RealRun | src/org/openstreetmap/josm/actions/downloadtasks/DownloadGpsTask.java:121-131 | cancelled before the read: no data, no error; a read stores its data; a transfer error is remembered only when the task is not cancelled when it is caught |
| DownloadGps.DownloadTask.Finish | src/org/openstreetmap/josm/actions/downloadtasks/DownloadGpsTask.java:134-148 | records the data; with null data changes no layer, no registry entry and no zoom request; otherwise the registry is Integrate of the old one, zoom requests name the added layers, and the finish log gains, in this order, the GPX addOrMergeLayer call with the layer it returned, the marker call (the marker layer is always its own holder), and the post-layer task |
| DownloadGps.DownloadTask.AddImported | src/org/openstreetmap/josm/actions/downloadtasks/DownloadGpsTask.java:143-145 | the registry becomes Integrate of the old one: the GPX layer added or merged into findGpxMergeLayer's pick, then the marker layer into findMarkerMergeLayer's pick; zoom requests name exactly the layers added; the finish log gains the two calls in order |
| DownloadGps.DownloadTask.AddOrMergeLayer | src/org/openstreetmap/josm/actions/downloadtasks/DownloadGpsTask.java:164-174 | the registry and the returned layer are as AddOrMerge gives them; a zoom request is made for an added layer when zooming is on; the call and its result are appended to the finish log |
| DownloadGps.DownloadTask.Run | src/org/openstreetmap/josm/actions/downloadtasks/DownloadGpsTask.java:121-148 | cancelled before the read or failing to read: registry, zoom requests, GPX layer and finish log unchanged (no post-layer task), no data recorded; cancelled before the read: no error remembered; a read of null: data recorded as null, registry, zoom requests, GPX layer and finish log unchanged; a read of data, even with a cancel during the read: the GPX layer is the imported one, the registry is Integrate of the old one, zoom requests name the added layers, and the finish log gains the two addOrMergeLayer calls and then the post-layer task |

## Left out

- Network readers are not modelled. `BoundingBoxDownloader`,
  `OsmServerLocationReader`, `parseRawGps` and `reader.cancel` are I/O. Their
  outcome is an input of `RealRun`, and `reader.cancel()` is recorded as a flag.
  `isGpxParsedProperly` only feeds the importer and is not modelled.
- Threading is not modelled: `MainApplication.worker.submit`, `Future`,
  `PleaseWaitRunnable` and progress monitors. A concurrent `cancel()` during the
  read is an input of `RealRun`. `Download` and `LoadUrl` return the task that
  would be submitted. `Run` composes `RealRun` and `Finish` in the order
  `PleaseWaitRunnable` runs them. Exceptions other than transfer errors that
  `PleaseWaitRunnable` handles are not modelled.
- The `GpxUrlPattern` regular expressions are uninterpreted. Their definitions
  (`UrlPatterns`) are not part of this model.
- SourceResolver.Resolve: requires that a URL produced by a rewrite is not
  rewritten again, so dispatch follows at most one rewrite. A chain of two or
  more rewrites, which the Java `loadUrl` would follow call by call, is not
  modelled; whether the real patterns allow one depends on their regexes, which
  are not part of this model.
- DownloadGps.DownloadGpsTask.LoadUrl: has the same requirement, for the same
  reason.
- `Objects.requireNonNull(url)` is not modelled. A Dafny string cannot be null.
- Bounds parsing is not modelled: `new Bounds(..., LEFT_BOTTOM_RIGHT_TOP)` and
  `getDownloadProjectionBounds` are floating-point geometry. The bounds string
  stays opaque. A malformed bounds string, which `Bounds` would reject, is not
  modelled.
- Importer and layer internals are foreign code. `GpxImporter.loadLayers` is
  modelled only as making new layer objects; whether it makes a marker layer is
  an input. `mergeFrom` is recorded as a list of merged layers and `invalidate`
  as a counter. What the post-layer task does is not modelled; its run is recorded as a step of the finish log.
- LayerRegistry.LayerManager.AddLayer: where `addLayer` inserts a layer is
  abstracted; the model appends it. So "first in registry order" for
  findGpxMergeLayer and findMarkerMergeLayer means first in order of addition,
  which need not be JOSM's layer order.
- `LayerManager.addLayer` side effects other than placing the layer are not
  modelled (the active-layer change, listeners). The active layer stays as it was.
- LayerNaming.FirstNotEmptyString: `Utils` is not part of this model. Its
  blankness test uses the characters Java counts as whitespace or space,
  together with the zero-width space and the byte-order mark.
- Glue and trivial members are not modelled: `tr(...)` (names are untranslated),
  `Config.getPref()` (the two preferences are inputs), `getTitle`,
  `getPatterns`, `getConfirmationMessage` (a TODO stub),
  `isSafeForRemotecontrolRequests` and `canRunInBackground`.
