/**
 * Edges between bubbles: the four edge types, weight clamping, payload validation, edge
 * construction and the existence test used before connecting two bubbles.
 */
module Edge {
  import opened Wrappers
  import opened JsValue

  /** `ALLOWED_EDGE_TYPES`. */
  const AllowedEdgeTypes: seq<string> := ["dependency", "sequence", "reference", "causal"]

  /** `normalizeEdgeType`: an allowed type string is kept, anything else becomes `sequence`. */
  function NormalizeEdgeType(t: Value): (r: string)
    ensures r in AllowedEdgeTypes
    ensures t.Str? && t.s in AllowedEdgeTypes ==> r == t.s
    ensures !(t.Str? && t.s in AllowedEdgeTypes) ==> r == "sequence"
  {
    if t.Str? && t.s in AllowedEdgeTypes then t.s else "sequence"
  }

  /** Normalising a normalised type changes nothing. */
  lemma NormalizeEdgeTypeIdempotent(t: Value)
    ensures NormalizeEdgeType(Str(NormalizeEdgeType(t))) == NormalizeEdgeType(t)
  {
  }

  /** `Math.max(0, Math.min(10, x))`. */
  function ClampWeight(x: real): real {
    if x < 0.0 then 0.0 else if x > 10.0 then 10.0 else x
  }

  /** `normalizeWeight`: a finite number clamped to [0, 10]; anything else is 1. */
  function NormalizeWeight(w: Value): (r: real)
    ensures 0.0 <= r <= 10.0
    ensures ToFinite(w).None? ==> r == 1.0
    ensures ToFinite(w).Some? && 0.0 <= ToFinite(w).value <= 10.0 ==> r == ToFinite(w).value
    ensures ToFinite(w).Some? && ToFinite(w).value < 0.0 ==> r == 0.0
    ensures ToFinite(w).Some? && ToFinite(w).value > 10.0 ==> r == 10.0
  {
    match ToFinite(w)
    case None => 1.0
    case Some(x) => ClampWeight(x)
  }

  /** Normalising a normalised weight changes nothing. */
  lemma NormalizeWeightIdempotent(w: Value)
    ensures NormalizeWeight(Num(NormalizeWeight(w))) == NormalizeWeight(w)
  {
  }

  /** `validateEdgePayload`: the message it throws, or `None` when the payload is acceptable. */
  function ValidateEdgePayload(payload: Value): (r: Option<string>)
    ensures r.None? <==> IsObject(payload) && Truthy(Get(payload, "from")) && Truthy(Get(payload, "to"))
    ensures !IsObject(payload) ==> r == Some("Edge payload must be an object.")
    ensures IsObject(payload) && !Truthy(Get(payload, "from")) ==> r == Some("Edge requires a from node.")
    ensures IsObject(payload) && Truthy(Get(payload, "from")) && !Truthy(Get(payload, "to")) ==>
      r == Some("Edge requires a to node.")
  {
    if !IsObject(payload) then Some("Edge payload must be an object.")
    else if !Truthy(Get(payload, "from")) then Some("Edge requires a from node.")
    else if !Truthy(Get(payload, "to")) then Some("Edge requires a to node.")
    else None
  }

  /** The edge record `createEdge` returns. */
  datatype EdgeRecord = EdgeRecord(
    id: Value,
    from: Value,
    to: Value,
    labelText: string,
    weight: real,
    edgeType: string,
    metadata: map<string, Value>)

  /**
   * `createEdge`, with `freshId` standing for the generated id used when the payload has none;
   * a payload `validateEdgePayload` rejects gives its message.
   */
  function CreateEdge(payload: Value, freshId: string): (r: Result<EdgeRecord, string>)
    ensures r.Err? <==> ValidateEdgePayload(payload).Some?
    ensures r.Err? ==> r.error == ValidateEdgePayload(payload).value
    ensures r.Ok? ==>
      && r.value.from == Get(payload, "from") && r.value.to == Get(payload, "to")
      && r.value.id == (if Truthy(Get(payload, "id")) then Get(payload, "id") else Str(freshId))
      && r.value.labelText == (if Get(payload, "label").Str? then Get(payload, "label").s else "")
      && r.value.weight == NormalizeWeight(Get(payload, "weight"))
      && r.value.edgeType == NormalizeEdgeType(Get(payload, "type"))
      && r.value.edgeType in AllowedEdgeTypes && 0.0 <= r.value.weight <= 10.0
    // `{ ...payload.metadata }`: an object's or array's fields, and none for anything else.
    ensures r.Ok? && IsObject(Get(payload, "metadata")) ==> r.value.metadata == Fields(Get(payload, "metadata"))
    ensures r.Ok? && !IsObject(Get(payload, "metadata")) ==> r.value.metadata == map[]
  {
    match ValidateEdgePayload(payload)
    case Some(message) => Err(message)
    case None =>
      var given := Get(payload, "label");
      var metadata := Get(payload, "metadata");
      Ok(EdgeRecord(
        Or(Get(payload, "id"), Str(freshId)),
        Get(payload, "from"),
        Get(payload, "to"),
        if given.Str? then given.s else "",
        NormalizeWeight(Get(payload, "weight")),
        NormalizeEdgeType(Get(payload, "type")),
        SpreadObject(metadata)))
  }

  /** The record as the JavaScript object it is. */
  function EdgeValue(e: EdgeRecord): Value {
    Obj(map[
      "id" := e.id, "from" := e.from, "to" := e.to, "label" := Str(e.labelText),
      "weight" := Num(e.weight), "type" := Str(e.edgeType), "metadata" := Obj(e.metadata)])
  }

  /** `endpoint?.id || endpoint`: an endpoint may be a node object or a bare id. */
  function EndpointId(endpoint: Value): Value {
    Or(Get(endpoint, "id"), endpoint)
  }

  /** The type an edge is stored with: `edge.type || 'sequence'`. */
  function StoredType(edge: Value): Value {
    Or(Get(edge, "type"), Str("sequence"))
  }

  /** The test `edgeExists` applies to one edge. */
  predicate EdgeMatches(edge: Value, fromId: string, toId: string, t: Value) {
    && EndpointId(Get(edge, "from")) == Str(fromId)
    && EndpointId(Get(edge, "to")) == Str(toId)
    && StoredType(edge) == Str(NormalizeEdgeType(Or(t, StoredType(edge))))
  }

  /** `null` or `undefined`: reading `edge.from` of it throws a `TypeError`. */
  predicate Nullish(v: Value) {
    v.Null? || v.Undefined?
  }

  /**
   * `edgeExists`: false for a non-array; otherwise `some` scans the edges in order, stopping
   * at the first match, and throws (`None`) when it reaches `null` or `undefined` first.
   */
  function EdgeExists(edges: Value, fromId: string, toId: string, t: Value): (r: Option<bool>)
    ensures !edges.Arr? ==> r == Some(false)
    ensures edges.Arr? ==> r == AnyMatches(edges.items, fromId, toId, t)
    ensures NoNullEdges(edges) ==>
      r.Some? && (r.value <==> edges.Arr? && exists i :: 0 <= i < |edges.items| && EdgeMatches(edges.items[i], fromId, toId, t))
  {
    if !edges.Arr? then Some(false)
    else if NoNullEdges(edges) then
      AnyMatchesTotal(edges.items, fromId, toId, t);
      AnyMatches(edges.items, fromId, toId, t)
    else AnyMatches(edges.items, fromId, toId, t)
  }

  /** No element is `null` or `undefined`. */
  predicate NoNullEdges(edges: Value) {
    edges.Arr? ==> forall i :: 0 <= i < |edges.items| ==> !Nullish(edges.items[i])
  }

  /** `items[i]` matches and no earlier element is nullish: `some` returns true there. */
  predicate MatchReached(items: seq<Value>, i: int, fromId: string, toId: string, t: Value) {
    && 0 <= i < |items| && EdgeMatches(items[i], fromId, toId, t)
    && forall j :: 0 <= j < i ==> !Nullish(items[j])
  }

  /** `items[i]` is nullish and no earlier element matches: `some` throws there. */
  predicate NullReached(items: seq<Value>, i: int, fromId: string, toId: string, t: Value) {
    && 0 <= i < |items| && Nullish(items[i])
    && forall j :: 0 <= j < i ==> !EdgeMatches(items[j], fromId, toId, t)
  }

  /** Past a non-nullish, non-matching head, both outcomes are those of the tail, one index on. */
  lemma ReachedShift(items: seq<Value>, i: int, fromId: string, toId: string, t: Value)
    requires items != [] && !Nullish(items[0]) && !EdgeMatches(items[0], fromId, toId, t)
    ensures MatchReached(items, i + 1, fromId, toId, t) <==> MatchReached(items[1..], i, fromId, toId, t)
    ensures NullReached(items, i + 1, fromId, toId, t) <==> NullReached(items[1..], i, fromId, toId, t)
  {
    assert forall j :: 0 <= j < |items| - 1 ==> items[1..][j] == items[j + 1];
    if MatchReached(items[1..], i, fromId, toId, t) {
      forall j | 0 <= j < i + 1 ensures !Nullish(items[j]) {
        if j > 0 { assert items[j] == items[1..][j - 1]; }
      }
    }
    if NullReached(items[1..], i, fromId, toId, t) {
      forall j | 0 <= j < i + 1 ensures !EdgeMatches(items[j], fromId, toId, t) {
        if j > 0 { assert items[j] == items[1..][j - 1]; }
      }
    }
  }

  /** `items.some(matches)`: a match wins if it comes before every nullish element, which throws. */
  function AnyMatches(items: seq<Value>, fromId: string, toId: string, t: Value): (r: Option<bool>)
    ensures r == Some(true) <==> exists i :: MatchReached(items, i, fromId, toId, t)
    ensures r == None <==> exists i :: NullReached(items, i, fromId, toId, t)
  {
    if items == [] then Some(false)
    else if Nullish(items[0]) then
      assert NullReached(items, 0, fromId, toId, t);
      None
    else if EdgeMatches(items[0], fromId, toId, t) then
      assert MatchReached(items, 0, fromId, toId, t);
      Some(true)
    else
      var r := AnyMatches(items[1..], fromId, toId, t);
      assert forall i :: MatchReached(items, i, fromId, toId, t) ==> i > 0;
      assert forall i :: NullReached(items, i, fromId, toId, t) ==> i > 0;
      forall i ensures MatchReached(items, i + 1, fromId, toId, t) <==> MatchReached(items[1..], i, fromId, toId, t)
        ensures NullReached(items, i + 1, fromId, toId, t) <==> NullReached(items[1..], i, fromId, toId, t)
      {
        ReachedShift(items, i, fromId, toId, t);
      }
      assert (exists i :: MatchReached(items, i, fromId, toId, t)) ==> exists i :: MatchReached(items[1..], i, fromId, toId, t) by {
        if i :| MatchReached(items, i, fromId, toId, t) {
          assert MatchReached(items[1..], i - 1, fromId, toId, t);
        }
      }
      assert (exists i :: NullReached(items, i, fromId, toId, t)) ==> exists i :: NullReached(items[1..], i, fromId, toId, t) by {
        if i :| NullReached(items, i, fromId, toId, t) {
          assert NullReached(items[1..], i - 1, fromId, toId, t);
        }
      }
      r
  }

  /** Without nullish elements the scan never throws and answers whether some edge matches. */
  lemma AnyMatchesTotal(items: seq<Value>, fromId: string, toId: string, t: Value)
    requires forall i :: 0 <= i < |items| ==> !Nullish(items[i])
    ensures AnyMatches(items, fromId, toId, t).Some?
    ensures AnyMatches(items, fromId, toId, t).value <==>
      exists i :: 0 <= i < |items| && EdgeMatches(items[i], fromId, toId, t)
  {
    if i :| 0 <= i < |items| && EdgeMatches(items[i], fromId, toId, t) {
      assert MatchReached(items, i, fromId, toId, t);
    }
    assert forall i :: !NullReached(items, i, fromId, toId, t);
  }


  /** With a falsy type argument, an edge matches only if its stored type is an allowed one. */
  lemma UntypedMatchNeedsAllowedType(edge: Value, fromId: string, toId: string, t: Value)
    requires !Truthy(t)
    ensures EdgeMatches(edge, fromId, toId, t) ==>
      StoredType(edge).Str? && StoredType(edge).s in AllowedEdgeTypes
  {
  }

  /** With an allowed type argument, an edge matches exactly when its stored type is that type. */
  lemma TypedMatch(edge: Value, fromId: string, toId: string, t: string)
    requires t in AllowedEdgeTypes
    ensures EdgeMatches(edge, fromId, toId, Str(t)) <==>
      EndpointId(Get(edge, "from")) == Str(fromId) && EndpointId(Get(edge, "to")) == Str(toId)
      && StoredType(edge) == Str(t)
  {
    assert Truthy(Str(t)) by { assert t != []; }
  }

  /** An edge built by `createEdge` between two ids is found by `edgeExists` under its own type. */
  lemma CreatedEdgeExists(payload: Value, freshId: string, fromId: string, toId: string)
    requires Get(payload, "from") == Str(fromId) && Get(payload, "to") == Str(toId)
    requires CreateEdge(payload, freshId).Ok?
    ensures var e := CreateEdge(payload, freshId).value;
      && EdgeExists(Arr([EdgeValue(e)]), fromId, toId, Str(e.edgeType)) == Some(true)
      && EdgeExists(Arr([EdgeValue(e)]), fromId, toId, Undefined) == Some(true)
  {
    var e := CreateEdge(payload, freshId).value;
    var v := EdgeValue(e);
    assert Get(v, "from") == Str(fromId) && Get(v, "to") == Str(toId);
    assert Get(v, "type") == Str(e.edgeType);
    assert Truthy(Str(e.edgeType)) by { assert e.edgeType != []; }
    assert EdgeMatches(v, fromId, toId, Str(e.edgeType));
    assert EdgeMatches(v, fromId, toId, Undefined);
    assert Arr([v]).items[0] == v;
  }
}
