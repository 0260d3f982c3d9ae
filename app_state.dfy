/**
 * The application state store: the selected bubble, playback mode, zoom, active filters, the
 * dirty flag and the loaded graph, each changed only through its own setter. Each setter
 * sanitises its argument and leaves every other field as it was.
 */
module AppState {
  import opened Wrappers
  import opened JsValue

  datatype Zoom = Zoom(x: real, y: real, zoom: real)

  /** `activeFilters`; a `minPriority` or `type` of `null` is `None`. */
  datatype Filters = Filters(tags: seq<Value>, minPriority: Option<real>, filterType: Option<string>)

  datatype GraphData = GraphData(nodes: seq<Value>, edges: seq<Value>)

  /** The whole state object, as `getState` returns it. */
  datatype State = State(
    selectedNodeId: Value,
    playbackMode: Value,
    zoomState: Zoom,
    activeFilters: Filters,
    dirty: bool,
    graph: GraphData)

  /** `defaultState`. */
  const DefaultState: State :=
    State(Null, Str("linear"), Zoom(0.0, 0.0, 1.0), Filters([], None, None), false, GraphData([], []))

  /** `!v || typeof v !== 'object'` is false: the setters act only on such arguments. */
  predicate IsUpdate(v: Value) {
    Truthy(v) && IsObject(v)
  }

  /** `Number.isFinite(v) ? v : fallback`. */
  function FiniteOr(v: Value, fallback: real): real {
    if IsFinite(v) then v.n else fallback
  }

  /** The zoom state after `setZoomState(next)`: each finite field replaces the old one. */
  function NextZoom(z: Zoom, next: Value): (r: Zoom)
    ensures !IsUpdate(next) ==> r == z
    ensures IsUpdate(next) ==>
      && (IsFinite(Get(next, "x")) ==> r.x == Get(next, "x").n) && (!IsFinite(Get(next, "x")) ==> r.x == z.x)
      && (IsFinite(Get(next, "y")) ==> r.y == Get(next, "y").n) && (!IsFinite(Get(next, "y")) ==> r.y == z.y)
      && (IsFinite(Get(next, "zoom")) ==> r.zoom == Get(next, "zoom").n)
      && (!IsFinite(Get(next, "zoom")) ==> r.zoom == z.zoom)
  {
    if !IsUpdate(next) then z
    else Zoom(FiniteOr(Get(next, "x"), z.x), FiniteOr(Get(next, "y"), z.y), FiniteOr(Get(next, "zoom"), z.zoom))
  }

  /** A zoom state as the plain object a caller passes. */
  function ZoomValue(z: Zoom): Value {
    Obj(map["x" := Num(z.x), "y" := Num(z.y), "zoom" := Num(z.zoom)])
  }

  /** Setting a complete zoom object stores exactly that zoom state. */
  lemma NextZoomOfValue(z: Zoom, w: Zoom)
    ensures NextZoom(z, ZoomValue(w)) == w
  {
    var v := ZoomValue(w);
    assert Get(v, "x") == Num(w.x) && Get(v, "y") == Num(w.y) && Get(v, "zoom") == Num(w.zoom);
    assert IsUpdate(v) by { assert "x" in v.fields; }
  }

  /** Repeating a zoom update changes nothing further. */
  lemma NextZoomIdempotent(z: Zoom, next: Value)
    ensures NextZoom(NextZoom(z, next), next) == NextZoom(z, next)
  {
  }

  /** The filters after `setActiveFilters(next)`. */
  function NextFilters(f: Filters, next: Value): (r: Filters)
    ensures !IsUpdate(next) ==> r == f
    ensures IsUpdate(next) ==>
      && r.tags == (if Get(next, "tags").Arr? then Get(next, "tags").items else f.tags)
      && (IsFinite(Get(next, "minPriority")) ==> r.minPriority == Some(Get(next, "minPriority").n))
      && (Get(next, "minPriority") == Null ==> r.minPriority == None)
      && (!IsFinite(Get(next, "minPriority")) && Get(next, "minPriority") != Null ==> r.minPriority == f.minPriority)
      && (Get(next, "type").Str? ==> r.filterType == Some(Get(next, "type").s))
      && (Get(next, "type") == Null ==> r.filterType == None)
      && (!Get(next, "type").Str? && Get(next, "type") != Null ==> r.filterType == f.filterType)
  {
    if !IsUpdate(next) then f
    else
      var tags := Get(next, "tags");
      var minPriority := Get(next, "minPriority");
      var filterType := Get(next, "type");
      Filters(
        if tags.Arr? then tags.items else f.tags,
        if IsFinite(minPriority) then Some(minPriority.n) else if minPriority == Null then None else f.minPriority,
        if filterType.Str? then Some(filterType.s) else if filterType == Null then None else f.filterType)
  }

  function OptionalNumber(o: Option<real>): Value {
    match o
    case Some(n) => Num(n)
    case None => Null
  }

  function OptionalText(o: Option<string>): Value {
    match o
    case Some(s) => Str(s)
    case None => Null
  }

  /** Filters as the plain object a caller passes. */
  function FiltersValue(f: Filters): Value {
    Obj(map["tags" := Arr(f.tags), "minPriority" := OptionalNumber(f.minPriority),
      "type" := OptionalText(f.filterType)])
  }

  /** Setting a complete filters object, `null`s included, stores exactly those filters. */
  lemma NextFiltersOfValue(f: Filters, g: Filters)
    ensures NextFilters(f, FiltersValue(g)) == g
  {
    var v := FiltersValue(g);
    assert Get(v, "tags") == Arr(g.tags);
    assert Get(v, "minPriority") == OptionalNumber(g.minPriority);
    assert Get(v, "type") == OptionalText(g.filterType);
    assert IsUpdate(v) by { assert "tags" in v.fields; }
  }

  /** Repeating a filters update changes nothing further. */
  lemma NextFiltersIdempotent(f: Filters, next: Value)
    ensures NextFilters(NextFilters(f, next), next) == NextFilters(f, next)
  {
  }

  /** `Array.isArray(v) ? v : []`. */
  function ItemsOf(v: Value): (r: seq<Value>)
    ensures v.Arr? ==> r == v.items
    ensures !v.Arr? ==> r == []
  {
    if v.Arr? then v.items else []
  }

  /** The module-level `state` object and its setters. */
  class StateStore {
    var selectedNodeId: Value
    var playbackMode: Value
    var zoomState: Zoom
    var activeFilters: Filters
    var dirty: bool
    var graph: GraphData

    /** The selection is `null` or a truthy id, and the playback mode is never falsy. */
    ghost predicate Valid()
      reads this
    {
      (selectedNodeId == Null || Truthy(selectedNodeId)) && Truthy(playbackMode)
    }

    function Snapshot(): State
      reads this
    {
      State(selectedNodeId, playbackMode, zoomState, activeFilters, dirty, graph)
    }

    /** The store starts as a copy of `defaultState`. */
    constructor()
      ensures Valid() && Snapshot() == DefaultState
    {
      selectedNodeId := Null;
      playbackMode := Str("linear");
      zoomState := Zoom(0.0, 0.0, 1.0);
      activeFilters := Filters([], None, None);
      dirty := false;
      graph := GraphData([], []);
    }

    /** `resetState`: every field back to its default; the new state is returned. */
    method ResetState() returns (s: State)
      modifies this
      ensures Valid() && Snapshot() == DefaultState && s == DefaultState
    {
      selectedNodeId := Null;
      playbackMode := Str("linear");
      zoomState := Zoom(0.0, 0.0, 1.0);
      activeFilters := Filters([], None, None);
      dirty := false;
      graph := GraphData([], []);
      s := Snapshot();
    }

    /** `setDirty`: the flag becomes the truthiness of the argument. */
    method SetDirty(isDirty: Value)
      requires Valid()
      modifies this
      ensures Valid() && Snapshot() == old(Snapshot()).(dirty := Truthy(isDirty))
    {
      dirty := Truthy(isDirty);
    }

    /** `setSelectedNode`: a falsy id clears the selection to `null`. */
    method SetSelectedNode(nodeId: Value)
      requires Valid()
      modifies this
      ensures Valid() && Snapshot() == old(Snapshot()).(selectedNodeId := selectedNodeId)
      ensures Truthy(nodeId) ==> selectedNodeId == nodeId
      ensures !Truthy(nodeId) ==> selectedNodeId == Null
    {
      selectedNodeId := Or(nodeId, Null);
    }

    /** `setPlaybackMode`: a falsy mode becomes `linear`. */
    method SetPlaybackMode(mode: Value)
      requires Valid()
      modifies this
      ensures Valid() && Snapshot() == old(Snapshot()).(playbackMode := playbackMode)
      ensures Truthy(mode) ==> playbackMode == mode
      ensures !Truthy(mode) ==> playbackMode == Str("linear")
    {
      playbackMode := Or(mode, Str("linear"));
    }

    /** `setZoomState`: only the zoom changes, as `NextZoom` says. */
    method SetZoomState(nextZoomState: Value)
      requires Valid()
      modifies this
      ensures Valid() && Snapshot() == old(Snapshot()).(zoomState := NextZoom(old(zoomState), nextZoomState))
    {
      if !IsUpdate(nextZoomState) {
        return;
      }
      zoomState := Zoom(
        FiniteOr(Get(nextZoomState, "x"), zoomState.x),
        FiniteOr(Get(nextZoomState, "y"), zoomState.y),
        FiniteOr(Get(nextZoomState, "zoom"), zoomState.zoom));
    }

    /** `setActiveFilters`: only the filters change, as `NextFilters` says. */
    method SetActiveFilters(nextFilters: Value)
      requires Valid()
      modifies this
      ensures Valid() && Snapshot() == old(Snapshot()).(activeFilters := NextFilters(old(activeFilters), nextFilters))
    {
      if !IsUpdate(nextFilters) {
        return;
      }
      activeFilters := NextFilters(activeFilters, nextFilters);
    }

    /** `setGraph`: a non-array list is stored as empty. */
    method SetGraph(nodes: Value, edges: Value)
      requires Valid()
      modifies this
      ensures Valid() && Snapshot() == old(Snapshot()).(graph := GraphData(ItemsOf(nodes), ItemsOf(edges)))
    {
      graph := GraphData(ItemsOf(nodes), ItemsOf(edges));
    }
  }
}
