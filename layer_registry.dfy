/**
 * The application's layer registry as DownloadGpsTask sees it: an ordered list of
 * layers with an active layer, the queries that pick a layer to merge new data
 * into, and the add and merge updates.
 */
module LayerRegistry {
  import opened GpsCommon

  /** GpxLayer, MarkerLayer, or any other kind of layer. */
  datatype LayerKind = GpxKind | MarkerKind | OtherKind

  /** One layer object, as far as this task reads or changes it. */
  datatype Layer = Layer(
    id: LayerId,
    kind: LayerKind,
    name: string,
    fromServer: bool,            // GpxLayer: data.fromServer
    fromLayer: Option<LayerId>,  // MarkerLayer: the GPX layer it was made from
    invalidations: nat,          // how often invalidate() was called
    mergedFrom: seq<LayerId>)    // the layers passed to mergeFrom(), in order

  predicate Registered(ls: seq<Layer>, id: LayerId)
  {
    exists i :: 0 <= i < |ls| && ls[i].id == id
  }

  /** No layer object is in the list twice. */
  predicate UniqueIds(ls: seq<Layer>)
  {
    forall i, j :: 0 <= i < |ls| && 0 <= j < |ls| && ls[i].id == ls[j].id ==> i == j
  }

  /** Stream.filter(keep).findFirst() over the layers: the position of the first layer kept. */
  function FindFirst(ls: seq<Layer>, keep: Layer -> bool): (r: Option<nat>)
    ensures r.Some? ==> r.value < |ls| && keep(ls[r.value])
    ensures r.Some? ==> forall j :: 0 <= j < r.value ==> !keep(ls[j])
    ensures r.None? <==> forall j :: 0 <= j < |ls| ==> !keep(ls[j])
  {
    if |ls| == 0 then None
    else if keep(ls[0]) then Some(0)
    else
      match FindFirst(ls[1..], keep)
      case None =>
        assert forall j :: 1 <= j < |ls| ==> ls[1..][j - 1] == ls[j];
        None
      case Some(k) => Some(k + 1)
  }

  /** Where the layer with the given identity sits in the list. */
  function IndexOf(ls: seq<Layer>, id: LayerId): (r: Option<nat>)
    ensures r.Some? ==> r.value < |ls| && ls[r.value].id == id
    ensures r.None? <==> !Registered(ls, id)
  {
    FindFirst(ls, (l: Layer) => l.id == id)
  }

  /** getActiveLayer(): the layer the active identity names, if it is registered. */
  function ActiveLayer(ls: seq<Layer>, active: Option<LayerId>): (r: Option<Layer>)
    ensures r.Some? ==> active == Some(r.value.id) && r.value in ls
    ensures r.None? ==> active.None? || !Registered(ls, active.value)
  {
    if active.None? then None
    else
      match IndexOf(ls, active.value)
      case Some(i) => Some(ls[i])
      case None => None
  }

  /** The filter of findGpxMergeLayer: a GPX layer, from the server unless merging with local layers is allowed. */
  predicate GpxMergeCandidate(l: Layer, merge: bool)
  {
    l.kind == GpxKind && (merge || l.fromServer)
  }

  predicate ActiveIsGpxCandidate(ls: seq<Layer>, active: Option<LayerId>, merge: bool)
  {
    var a := ActiveLayer(ls, active);
    a.Some? && GpxMergeCandidate(a.value, merge)
  }

  /**
   * findGpxMergeLayer: the active layer when it is a candidate, else the first
   * candidate in registry order, else none.
   */
  function FindGpxMergeLayer(ls: seq<Layer>, active: Option<LayerId>, merge: bool): (r: Option<LayerId>)
    ensures r.Some? ==> exists i :: 0 <= i < |ls| && ls[i].id == r.value && GpxMergeCandidate(ls[i], merge)
    ensures ActiveIsGpxCandidate(ls, active, merge) ==> r == active
    ensures !ActiveIsGpxCandidate(ls, active, merge) && r.Some? ==>
              exists i :: && 0 <= i < |ls| && ls[i].id == r.value && GpxMergeCandidate(ls[i], merge)
                          && forall j :: 0 <= j < i ==> !GpxMergeCandidate(ls[j], merge)
    ensures r.None? <==> forall i :: 0 <= i < |ls| ==> !GpxMergeCandidate(ls[i], merge)
  {
    var a := ActiveLayer(ls, active);
    if a.Some? && GpxMergeCandidate(a.value, merge) then Some(a.value.id)
    else
      match FindFirst(ls, (l: Layer) => GpxMergeCandidate(l, merge))
      case Some(i) => Some(ls[i].id)
      case None => None
  }

  /** The filter of findMarkerMergeLayer: a marker layer made from exactly the given GPX layer. */
  predicate MarkerOf(l: Layer, gpx: Option<LayerId>)
  {
    gpx.Some? && l.kind == MarkerKind && l.fromLayer == gpx
  }

  /** findMarkerMergeLayer: the first marker layer made from the given GPX layer; none when that layer is null. */
  function FindMarkerMergeLayer(ls: seq<Layer>, gpx: Option<LayerId>): (r: Option<LayerId>)
    ensures gpx.None? ==> r.None?
    ensures r.Some? ==>
              exists i :: && 0 <= i < |ls| && ls[i].id == r.value && MarkerOf(ls[i], gpx)
                          && forall j :: 0 <= j < i ==> !MarkerOf(ls[j], gpx)
    ensures r.None? <==> forall i :: 0 <= i < |ls| ==> !MarkerOf(ls[i], gpx)
  {
    match FindFirst(ls, (l: Layer) => MarkerOf(l, gpx))
    case Some(i) => Some(ls[i].id)
    case None => None
  }

  /** The list after target.mergeFrom(from): only the target records the merge. */
  function MergedFrom(ls: seq<Layer>, target: LayerId, from: LayerId): (r: seq<Layer>)
    ensures |r| == |ls|
    ensures forall i :: 0 <= i < |ls| && ls[i].id != target ==> r[i] == ls[i]
    ensures forall i :: 0 <= i < |ls| && ls[i].id == target ==>
              r[i] == ls[i].(mergedFrom := ls[i].mergedFrom + [from])
  {
    seq(|ls|, i requires 0 <= i < |ls| =>
      if ls[i].id == target then ls[i].(mergedFrom := ls[i].mergedFrom + [from]) else ls[i])
  }

  /** The list after target.invalidate(): only the target counts one more invalidation. */
  function Invalidated(ls: seq<Layer>, target: LayerId): (r: seq<Layer>)
    ensures |r| == |ls|
    ensures forall i :: 0 <= i < |ls| && ls[i].id != target ==> r[i] == ls[i]
    ensures forall i :: 0 <= i < |ls| && ls[i].id == target ==>
              r[i] == ls[i].(invalidations := ls[i].invalidations + 1)
  {
    seq(|ls|, i requires 0 <= i < |ls| =>
      if ls[i].id == target then ls[i].(invalidations := ls[i].invalidations + 1) else ls[i])
  }

  /** What addOrMergeLayer leaves: the layer it returns and the new list. */
  datatype Placement = Placement(returned: Option<LayerId>, layers: seq<Layer>)

  /**
   * addOrMergeLayer on values: a null layer changes nothing; a new layer is asked
   * for or there is no target, so the list grows by exactly that layer; otherwise
   * the list keeps its order and length and only the target changes, having merged
   * the layer in and been invalidated once.
   */
  function AddOrMerge(ls: seq<Layer>, layer: Option<Layer>, target: Option<LayerId>, newLayer: bool): (r: Placement)
    ensures layer.None? ==> r.returned.None? && r.layers == ls
    ensures layer.Some? && (newLayer || target.None?) ==>
              r.returned == Some(layer.value.id) && r.layers == ls + [layer.value]
    ensures layer.Some? && !newLayer && target.Some? ==>
              && r.returned == target
              && |r.layers| == |ls|
              && (forall i :: 0 <= i < |ls| && ls[i].id != target.value ==> r.layers[i] == ls[i])
              && (forall i :: 0 <= i < |ls| && ls[i].id == target.value ==>
                    r.layers[i] == ls[i].(invalidations := ls[i].invalidations + 1,
                                          mergedFrom := ls[i].mergedFrom + [layer.value.id]))
  {
    if layer.None? then Placement(None, ls)
    else if newLayer || target.None? then Placement(Some(layer.value.id), ls + [layer.value])
    else Placement(target, Invalidated(MergedFrom(ls, target.value, layer.value.id), target.value))
  }

  /** Adding a layer not yet registered, or merging into a registered one, keeps identities unique. */
  lemma AddOrMergeKeepsUnique(ls: seq<Layer>, layer: Option<Layer>, target: Option<LayerId>, newLayer: bool)
    requires UniqueIds(ls)
    requires layer.Some? ==> !Registered(ls, layer.value.id)
    ensures UniqueIds(AddOrMerge(ls, layer, target, newLayer).layers)
    ensures forall id :: Registered(ls, id) ==> Registered(AddOrMerge(ls, layer, target, newLayer).layers, id)
  {
    var r := AddOrMerge(ls, layer, target, newLayer).layers;
    if layer.Some? && (newLayer || target.None?) {
      assert forall i :: 0 <= i < |ls| ==> r[i] == ls[i];
      assert r[|ls|] == layer.value;
    } else {
      assert forall i :: 0 <= i < |ls| ==> r[i].id == ls[i].id;
    }
  }

  /** Adding or merging keeps every layer at its place. */
  lemma AddOrMergeKeepsIds(ls: seq<Layer>, layer: Option<Layer>, target: Option<LayerId>, newLayer: bool)
    ensures |AddOrMerge(ls, layer, target, newLayer).layers| >= |ls|
    ensures forall i :: 0 <= i < |ls| ==> AddOrMerge(ls, layer, target, newLayer).layers[i].id == ls[i].id
  {
  }

  /**
   * The identity names a layer object that the list knows of: a registered
   * layer, the layer a marker layer was made from, or a layer merged into one.
   */
  predicate Mentioned(ls: seq<Layer>, id: LayerId)
  {
    exists i :: 0 <= i < |ls| && (ls[i].id == id || ls[i].fromLayer == Some(id) || id in ls[i].mergedFrom)
  }

  /** A number above every identity in the list. */
  function IdsBound(ids: seq<LayerId>): (b: nat)
    ensures forall k :: 0 <= k < |ids| ==> ids[k] < b
  {
    if |ids| == 0 then 0
    else
      var rest := IdsBound(ids[1..]);
      assert forall k :: 1 <= k < |ids| ==> ids[1..][k - 1] == ids[k];
      if ids[0] + 1 > rest then ids[0] + 1 else rest
  }

  /** A number above every identity the list mentions, so identities from it on are unused. */
  function IdBound(ls: seq<Layer>): (b: nat)
    ensures forall i :: 0 <= i < |ls| ==> ls[i].id < b
    ensures forall i :: 0 <= i < |ls| && ls[i].fromLayer.Some? ==> ls[i].fromLayer.value < b
    ensures forall i, k :: 0 <= i < |ls| && 0 <= k < |ls[i].mergedFrom| ==> ls[i].mergedFrom[k] < b
  {
    if |ls| == 0 then 0
    else
      var rest := IdBound(ls[1..]);
      var l := ls[0];
      var own := if l.fromLayer.Some? && l.fromLayer.value > l.id then l.fromLayer.value + 1 else l.id + 1;
      var merged := IdsBound(l.mergedFrom);
      var here := if own > merged then own else merged;
      assert forall i :: 1 <= i < |ls| ==> ls[1..][i - 1] == ls[i];
      if here > rest then here else rest
  }

  /** No identity from IdBound on is mentioned. */
  lemma IdBoundAboveMentioned(ls: seq<Layer>, id: LayerId)
    requires id >= IdBound(ls)
    ensures !Mentioned(ls, id)
  {
    if Mentioned(ls, id) {
      var i :| 0 <= i < |ls| && (ls[i].id == id || ls[i].fromLayer == Some(id) || id in ls[i].mergedFrom);
      assert false;
    }
  }

  /** An identity the list mentions is still mentioned after adding or merging, and so is the layer placed. */
  lemma AddOrMergeKeepsMentioned(ls: seq<Layer>, layer: Option<Layer>, target: Option<LayerId>, newLayer: bool)
    requires layer.Some? && !newLayer && target.Some? ==> Registered(ls, target.value)
    ensures forall id: LayerId :: Mentioned(ls, id) ==> Mentioned(AddOrMerge(ls, layer, target, newLayer).layers, id)
    ensures layer.Some? ==> Mentioned(AddOrMerge(ls, layer, target, newLayer).layers, layer.value.id)
  {
    var r := AddOrMerge(ls, layer, target, newLayer).layers;
    if layer.Some? && (newLayer || target.None?) {
      assert forall i :: 0 <= i < |ls| ==> r[i] == ls[i];
      assert r[|ls|] == layer.value;
    } else if layer.Some? {
      forall id: LayerId | Mentioned(ls, id) ensures Mentioned(r, id) {
        var i :| 0 <= i < |ls| && (ls[i].id == id || ls[i].fromLayer == Some(id) || id in ls[i].mergedFrom);
        assert r[i].id == ls[i].id && r[i].fromLayer == ls[i].fromLayer;
        assert ls[i].mergedFrom <= r[i].mergedFrom;
      }
      var t :| 0 <= t < |ls| && ls[t].id == target.value;
      assert layer.value.id in r[t].mergedFrom;
    }
  }

  /** The identities of a list of layers, in order. */
  function Ids(ls: seq<Layer>): seq<LayerId>
  {
    seq(|ls|, i requires 0 <= i < |ls| => ls[i].id)
  }

  /**
   * MainApplication.getLayerManager(): the registered layers in order, the active
   * layer, and the zoom requests made when layers were added.
   */
  class LayerManager {
    var layers: seq<Layer>
    var active: Option<LayerId>
    var zoomRequests: seq<LayerId>

    ghost predicate Valid()
      reads this
    {
      UniqueIds(layers) && (active.Some? ==> Registered(layers, active.value))
    }

    constructor ()
      ensures Valid()
      ensures layers == [] && active == None && zoomRequests == []
    {
      layers := [];
      active := None;
      zoomRequests := [];
    }

    /** addLayer(layer, initialZoom): appends a layer that is not yet registered. */
    method AddLayer(layer: Layer, initialZoom: bool)
      requires Valid()
      requires !Registered(layers, layer.id)
      modifies this`layers, this`zoomRequests
      ensures Valid()
      ensures layers == old(layers) + [layer]
      ensures zoomRequests == old(zoomRequests) + (if initialZoom then [layer.id] else [])
    {
      AddOrMergeKeepsUnique(layers, Some(layer), None, true);
      layers := layers + [layer];
      if initialZoom {
        zoomRequests := zoomRequests + [layer.id];
      }
    }

    /** target.mergeFrom(from): the layer target takes over the contents of from. */
    method MergeFrom(target: LayerId, from: LayerId)
      requires Valid()
      modifies this`layers
      ensures Valid()
      ensures layers == MergedFrom(old(layers), target, from)
    {
      layers := MergedFrom(layers, target, from);
      assert forall i :: 0 <= i < |layers| ==> layers[i].id == old(layers)[i].id;
    }

    /** target.invalidate(): the layer target is marked for repainting. */
    method Invalidate(target: LayerId)
      requires Valid()
      modifies this`layers
      ensures Valid()
      ensures layers == Invalidated(old(layers), target)
    {
      layers := Invalidated(layers, target);
      assert forall i :: 0 <= i < |layers| ==> layers[i].id == old(layers)[i].id;
    }
  }
}
