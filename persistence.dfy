/**
 * Snapshot migration: a stored or imported map is brought to schema version 2, with every
 * bubble and connection given a default for each missing or ill-typed field. Migration is the
 * identity on its own output. JSON parsing and printing are not part of this model; the clock
 * `normalizeDate` reads is the parameter `now`.
 */
module Persistence {
  import opened Wrappers
  import opened JsValue

  /** `SCHEMA_VERSION`. */
  const SchemaVersion: real := 2.0

  /** `node && typeof node === 'object' ? node : {}`. */
  function SourceOf(v: Value): Value {
    if IsObject(v) then v else Obj(map[])
  }

  /** `` `${prefix}${index + 1}` ``. */
  function NumberedId(prefix: string, index: nat): string {
    prefix + NatToString(index + 1)
  }

  /** A bubble as `migrateNode` returns it; every field has the type the schema gives it. */
  datatype MigratedNode = MigratedNode(
    id: Value,
    text: string,
    x: real,
    y: real,
    locked: bool,
    order: real,
    nodeType: string,
    notes: string,
    tags: seq<string>,
    priority: real,
    colorOverride: Option<string>,
    dueDate: Option<string>,
    metadata: Value,
    aiSummary: string,
    voiceNote: string,
    createdAt: string,
    updatedAt: string)

  /** `typeof v === 'string' ? v : fallback`. */
  function TextOr(v: Value, fallback: string): string {
    if v.Str? then v.s else fallback
  }

  /** `Number.isFinite(v) ? v : fallback`. */
  function NumberOr(v: Value, fallback: real): real {
    if IsFinite(v) then v.n else fallback
  }

  /** `typeof v === 'string' ? v : null`. */
  function TextOrNull(v: Value): Option<string> {
    if v.Str? then Some(v.s) else None
  }

  /** `v && typeof v === 'object' ? v : {}`. */
  function ObjectOr(v: Value): (r: Value)
    ensures r.Obj? || r.Arr?
  {
    if Truthy(v) && IsObject(v) then v else Obj(map[])
  }

  /** `migrateNode(node, index)`, with `now` for the current time. */
  function MigrateNode(node: Value, index: nat, now: string): (r: MigratedNode)
    requires now != []
    ensures Truthy(r.id) && r.createdAt != [] && r.updatedAt != []
    ensures var source := SourceOf(node);
      && r.id == (if Truthy(Get(source, "id")) then Get(source, "id") else Str(NumberedId("node_", index)))
      && r.text == (if Get(source, "text").Str? then Get(source, "text").s else "New idea")
      && r.locked == Truthy(Get(source, "locked"))
    // Each number is the source's when it is finite, else its default.
    ensures var source := SourceOf(node);
      && r.x == (if IsFinite(Get(source, "x")) then Get(source, "x").n else 0.0)
      && r.y == (if IsFinite(Get(source, "y")) then Get(source, "y").n else 0.0)
      && r.order == (if IsFinite(Get(source, "order")) then Get(source, "order").n else (index + 1) as real)
      && r.priority == (if IsFinite(Get(source, "priority")) then Get(source, "priority").n else 0.0)
    // Each string is the source's when it is a string, else its default.
    ensures var source := SourceOf(node);
      && r.nodeType == (if Get(source, "type").Str? then Get(source, "type").s else "idea")
      && r.notes == (if Get(source, "notes").Str? then Get(source, "notes").s else "")
      && r.aiSummary == (if Get(source, "aiSummary").Str? then Get(source, "aiSummary").s else "")
      && r.voiceNote == (if Get(source, "voiceNote").Str? then Get(source, "voiceNote").s else "")
      && r.colorOverride == (if Get(source, "colorOverride").Str? then Some(Get(source, "colorOverride").s) else None)
      && r.dueDate == (if Get(source, "dueDate").Str? then Some(Get(source, "dueDate").s) else None)
    // The metadata object or array is kept as it is (not copied), anything else becomes `{}`.
    ensures var source := SourceOf(node);
      && (IsObject(Get(source, "metadata")) ==> r.metadata == Get(source, "metadata"))
      && (!IsObject(Get(source, "metadata")) ==> r.metadata == Obj(map[]))
    ensures var source := SourceOf(node);
      && r.createdAt == NormalizeDate(Get(source, "createdAt"), now)
      && r.updatedAt == NormalizeDate(Get(source, "updatedAt"), now)
  {
    var source := SourceOf(node);
    var tags := Get(source, "tags");
    NumberedIdTruthy("node_", index);
    MigratedNode(
      Or(Get(source, "id"), Str(NumberedId("node_", index))),
      TextOr(Get(source, "text"), "New idea"),
      NumberOr(Get(source, "x"), 0.0),
      NumberOr(Get(source, "y"), 0.0),
      Truthy(Get(source, "locked")),
      NumberOr(Get(source, "order"), (index + 1) as real),
      TextOr(Get(source, "type"), "idea"),
      TextOr(Get(source, "notes"), ""),
      if tags.Arr? then TagStrings(tags.items) else [],
      NumberOr(Get(source, "priority"), 0.0),
      TextOrNull(Get(source, "colorOverride")),
      TextOrNull(Get(source, "dueDate")),
      ObjectOr(Get(source, "metadata")),
      TextOr(Get(source, "aiSummary"), ""),
      TextOr(Get(source, "voiceNote"), ""),
      NormalizeDate(Get(source, "createdAt"), now),
      NormalizeDate(Get(source, "updatedAt"), now))
  }

  /** `String(tag)` for each tag. */
  function TagStrings(tags: seq<Value>): (r: seq<string>)
    ensures |r| == |tags| && forall i :: 0 <= i < |r| ==> r[i] == ToStr(tags[i])
  {
    if tags == [] then [] else [ToStr(tags[0])] + TagStrings(tags[1..])
  }

  /** `normalizeDate`: a non-empty string is kept, anything else becomes the current time. */
  function NormalizeDate(v: Value, now: string): (r: string)
    requires now != []
    ensures r != []
  {
    if v.Str? && v.s != [] then v.s else now
  }

  /** `node_{i+1}` and `edge_{i+1}` are truthy. */
  lemma NumberedIdTruthy(prefix: string, index: nat)
    ensures Truthy(Str(NumberedId(prefix, index)))
  {
  }

  function OptionalText(o: Option<string>): Value {
    match o
    case Some(s) => Str(s)
    case None => Null
  }

  /** A migrated bubble as the object that is stored. */
  function NodeValue(n: MigratedNode): Value {
    Obj(map[
      "metadata" := n.metadata, "aiSummary" := Str(n.aiSummary), "voiceNote" := Str(n.voiceNote),
      "createdAt" := Str(n.createdAt), "updatedAt" := Str(n.updatedAt),
      "type" := Str(n.nodeType), "notes" := Str(n.notes), "tags" := Arr(StringItems(n.tags)),
      "priority" := Num(n.priority), "colorOverride" := OptionalText(n.colorOverride),
      "dueDate" := OptionalText(n.dueDate),
      "id" := n.id, "text" := Str(n.text), "x" := Num(n.x), "y" := Num(n.y),
      "locked" := Bool(n.locked), "order" := Num(n.order)])
  }

  /** What a migrated bubble holds, read back from the stored object. */
  lemma MigrateNodeDefaults(node: Value, index: nat, now: string)
    requires now != []
    ensures var v := NodeValue(MigrateNode(node, index, now)); var source := SourceOf(node);
      && Get(v, "id") == (if Truthy(Get(source, "id")) then Get(source, "id") else Str(NumberedId("node_", index)))
      && Get(v, "text") == (if Get(source, "text").Str? then Get(source, "text") else Str("New idea"))
      && Get(v, "x") == (if IsFinite(Get(source, "x")) then Get(source, "x") else Num(0.0))
      && Get(v, "y") == (if IsFinite(Get(source, "y")) then Get(source, "y") else Num(0.0))
      && Get(v, "order") == (if IsFinite(Get(source, "order")) then Get(source, "order") else Num((index + 1) as real))
      && Get(v, "locked") == Bool(Truthy(Get(source, "locked")))
    ensures var v := NodeValue(MigrateNode(node, index, now)); var source := SourceOf(node);
      && Get(v, "priority") == (if IsFinite(Get(source, "priority")) then Get(source, "priority") else Num(0.0))
      && Get(v, "notes") == (if Get(source, "notes").Str? then Get(source, "notes") else Str(""))
      && Get(v, "colorOverride") == (if Get(source, "colorOverride").Str? then Get(source, "colorOverride") else Null)
      && Get(v, "dueDate") == (if Get(source, "dueDate").Str? then Get(source, "dueDate") else Null)
    ensures var v := NodeValue(MigrateNode(node, index, now)); var source := SourceOf(node);
      && Get(v, "aiSummary") == (if Get(source, "aiSummary").Str? then Get(source, "aiSummary") else Str(""))
      && Get(v, "voiceNote") == (if Get(source, "voiceNote").Str? then Get(source, "voiceNote") else Str(""))
      && Get(v, "metadata") == (if IsObject(Get(source, "metadata")) then Get(source, "metadata") else Obj(map[]))
    ensures var v := NodeValue(MigrateNode(node, index, now)); var source := SourceOf(node);
      && Get(v, "createdAt") == Str(NormalizeDate(Get(source, "createdAt"), now))
      && Get(v, "updatedAt") == Str(NormalizeDate(Get(source, "updatedAt"), now))
  {
    var n := MigrateNode(node, index, now);
    NodeValueCore(n);
    NodeValueContent(n);
    NodeValueAnnotations(n);
    NodeValueTimestamps(n);
  }

  /** The tags of a migrated bubble are all strings: each tag's `String(tag)`. */
  lemma MigrateNodeTags(node: Value, index: nat, now: string)
    requires now != []
    ensures var v := NodeValue(MigrateNode(node, index, now)); var tags := Get(SourceOf(node), "tags");
      && Get(v, "tags").Arr?
      && (forall i :: 0 <= i < |Get(v, "tags").items| ==> Get(v, "tags").items[i].Str?)
      && (tags.Arr? ==> Get(v, "tags").items == seq(|tags.items|, i requires 0 <= i < |tags.items| => Str(ToStr(tags.items[i]))))
      && (!tags.Arr? ==> Get(v, "tags").items == [])
      && Get(v, "type") == (if Get(SourceOf(node), "type").Str? then Get(SourceOf(node), "type") else Str("idea"))
  {
    NodeValueContent(MigrateNode(node, index, now));
  }

  /** The identifier, text, position and order fields read back from the stored object. */
  lemma NodeValueCore(n: MigratedNode)
    ensures var v := NodeValue(n);
      && Get(v, "id") == n.id && Get(v, "text") == Str(n.text) && Get(v, "x") == Num(n.x)
      && Get(v, "y") == Num(n.y) && Get(v, "locked") == Bool(n.locked) && Get(v, "order") == Num(n.order)
  {
  }

  /** The descriptive fields read back from the stored object. */
  lemma NodeValueContent(n: MigratedNode)
    ensures var v := NodeValue(n);
      && Get(v, "type") == Str(n.nodeType) && Get(v, "notes") == Str(n.notes)
      && Get(v, "tags") == Arr(StringItems(n.tags)) && Get(v, "priority") == Num(n.priority)
      && Get(v, "colorOverride") == OptionalText(n.colorOverride) && Get(v, "dueDate") == OptionalText(n.dueDate)
  {
  }

  /** The annotation fields read back from the stored object. */
  lemma NodeValueAnnotations(n: MigratedNode)
    ensures var v := NodeValue(n);
      && Get(v, "metadata") == n.metadata && Get(v, "aiSummary") == Str(n.aiSummary)
      && Get(v, "voiceNote") == Str(n.voiceNote)
  {
  }

  /** The timestamps read back from the stored object. */
  lemma NodeValueTimestamps(n: MigratedNode)
    ensures var v := NodeValue(n);
      Get(v, "createdAt") == Str(n.createdAt) && Get(v, "updatedAt") == Str(n.updatedAt)
  {
  }

  /** `String(s)` of a string is the string itself. */
  lemma TagStringsOfStrings(tags: seq<string>)
    ensures TagStrings(StringItems(tags)) == tags
  {
  }

  /** Migrating a migrated bubble again, at the same index and at any time, changes nothing. */
  lemma MigrateNodeIdempotent(node: Value, index: nat, now: string, later: string)
    requires now != [] && later != []
    ensures MigrateNode(NodeValue(MigrateNode(node, index, now)), index, later) == MigrateNode(node, index, now)
  {
    var n := MigrateNode(node, index, now);
    var m := MigrateNode(NodeValue(n), index, later);
    assert m.id == n.id && m.text == n.text && m.x == n.x && m.y == n.y && m.locked == n.locked
      && m.order == n.order by {
      NodeValueCore(n);
    }
    assert m.nodeType == n.nodeType && m.notes == n.notes && m.tags == n.tags && m.priority == n.priority
      && m.colorOverride == n.colorOverride && m.dueDate == n.dueDate by {
      NodeValueContent(n);
      TagStringsOfStrings(n.tags);
    }
    assert m.metadata == n.metadata && m.aiSummary == n.aiSummary && m.voiceNote == n.voiceNote
      && m.createdAt == n.createdAt && m.updatedAt == n.updatedAt by {
      NodeValueAnnotations(n);
      NodeValueTimestamps(n);
      assert n.metadata.Obj? || n.metadata.Arr?;
    }
  }

  /** A connection as `migrateEdge` returns it. */
  datatype MigratedEdge = MigratedEdge(
    id: Value,
    from: Value,
    to: Value,
    labelText: string,
    weight: real,
    edgeType: string,
    metadata: Value)

  /**
   * `migrateEdge(edge, index)`. An absent `from` or `to` is kept as `undefined`, as the
   * object literal holds it.
   */
  function MigrateEdge(edge: Value, index: nat): (r: MigratedEdge)
    ensures Truthy(r.id)
  {
    var source := SourceOf(edge);
    NumberedIdTruthy("edge_", index);
    MigratedEdge(
      Or(Get(source, "id"), Str(NumberedId("edge_", index))),
      Get(source, "from"),
      Get(source, "to"),
      TextOr(Get(source, "label"), ""),
      NumberOr(Get(source, "weight"), 1.0),
      TextOr(Get(source, "type"), "sequence"),
      ObjectOr(Get(source, "metadata")))
  }

  /** A migrated connection as the object that is stored. */
  function EdgeValue(e: MigratedEdge): Value {
    Obj(map[
      "id" := e.id, "from" := e.from, "to" := e.to, "label" := Str(e.labelText),
      "weight" := Num(e.weight), "type" := Str(e.edgeType), "metadata" := e.metadata])
  }

  lemma EdgeValueFields(e: MigratedEdge)
    ensures var v := EdgeValue(e);
      && Get(v, "id") == e.id && Get(v, "from") == e.from && Get(v, "to") == e.to
      && Get(v, "label") == Str(e.labelText) && Get(v, "weight") == Num(e.weight)
      && Get(v, "type") == Str(e.edgeType) && Get(v, "metadata") == e.metadata
  {
  }

  /** What a migrated connection holds, read back from the stored object; endpoints are copied. */
  lemma MigrateEdgeDefaults(edge: Value, index: nat)
    ensures var v := EdgeValue(MigrateEdge(edge, index)); var source := SourceOf(edge);
      && Get(v, "id") == (if Truthy(Get(source, "id")) then Get(source, "id") else Str(NumberedId("edge_", index)))
      && Get(v, "from") == Get(source, "from") && Get(v, "to") == Get(source, "to")
      && Get(v, "label") == (if Get(source, "label").Str? then Get(source, "label") else Str(""))
      && Get(v, "weight") == (if IsFinite(Get(source, "weight")) then Get(source, "weight") else Num(1.0))
      && Get(v, "type") == (if Get(source, "type").Str? then Get(source, "type") else Str("sequence"))
      && Get(v, "metadata") == (if IsObject(Get(source, "metadata")) then Get(source, "metadata") else Obj(map[]))
  {
    EdgeValueFields(MigrateEdge(edge, index));
  }

  /** Migrating a migrated connection again, at the same index, changes nothing. */
  lemma MigrateEdgeIdempotent(edge: Value, index: nat)
    ensures MigrateEdge(EdgeValue(MigrateEdge(edge, index)), index) == MigrateEdge(edge, index)
  {
    var e := MigrateEdge(edge, index);
    EdgeValueFields(e);
    assert e.metadata.Obj? || e.metadata.Arr?;
  }

  /** A snapshot as `migrateSnapshot` returns it; `schemaVersion` is always `SchemaVersion`. */
  datatype MigratedSnapshot = MigratedSnapshot(
    schemaVersion: real,
    mapId: Value,
    mapName: Value,
    bubbleTypes: Value,
    bubbles: seq<MigratedNode>,
    connections: seq<MigratedEdge>)

  /** `{ labels: {}, locked: false }`. */
  const EmptyBubbleTypes: Value := Obj(map["labels" := Obj(map[]), "locked" := Bool(false)])

  /** `Array.isArray(v) ? v : []`. */
  function ItemsOf(v: Value): seq<Value> {
    if v.Arr? then v.items else []
  }

  /** `migrateSnapshot(rawSnapshot)`, with `now` for the current time. */
  function MigrateSnapshot(rawSnapshot: Value, now: string): (r: MigratedSnapshot)
    requires now != []
    ensures r.schemaVersion == 2.0
    ensures Truthy(r.mapName) && Truthy(r.bubbleTypes)
    ensures r.mapId == Null || Truthy(r.mapId)
    ensures var raw := SourceOf(rawSnapshot);
      && |r.bubbles| == |ItemsOf(Get(raw, "bubbles"))| && |r.connections| == |ItemsOf(Get(raw, "connections"))|
      && (forall i :: 0 <= i < |r.bubbles| ==> r.bubbles[i] == MigrateNode(ItemsOf(Get(raw, "bubbles"))[i], i, now))
      && (forall i :: 0 <= i < |r.connections| ==> r.connections[i] == MigrateEdge(ItemsOf(Get(raw, "connections"))[i], i))
  {
    var raw := SourceOf(rawSnapshot);
    var bubbles := ItemsOf(Get(raw, "bubbles"));
    var connections := ItemsOf(Get(raw, "connections"));
    assert Truthy(EmptyBubbleTypes);
    MigratedSnapshot(
      SchemaVersion,
      Or(Get(raw, "mapId"), Null),
      Or(Get(raw, "mapName"), Str("Untitled Map")),
      Or(Get(raw, "bubbleTypes"), EmptyBubbleTypes),
      seq(|bubbles|, i requires 0 <= i < |bubbles| => MigrateNode(bubbles[i], i, now)),
      seq(|connections|, i requires 0 <= i < |connections| => MigrateEdge(connections[i], i)))
  }

  /** A migrated snapshot as the object that is stored. */
  function SnapshotValue(s: MigratedSnapshot): Value {
    Obj(map[
      "schemaVersion" := Num(s.schemaVersion), "mapId" := s.mapId, "mapName" := s.mapName,
      "bubbleTypes" := s.bubbleTypes,
      "bubbles" := Arr(seq(|s.bubbles|, i requires 0 <= i < |s.bubbles| => NodeValue(s.bubbles[i]))),
      "connections" := Arr(seq(|s.connections|, i requires 0 <= i < |s.connections| => EdgeValue(s.connections[i])))])
  }

  /** The map-level fields and list lengths of a migrated snapshot, with their defaults. */
  lemma MigrateSnapshotDefaults(rawSnapshot: Value, now: string)
    requires now != []
    ensures var r := MigrateSnapshot(rawSnapshot, now); var raw := SourceOf(rawSnapshot);
      && (!Get(raw, "bubbles").Arr? ==> r.bubbles == [])
      && (Get(raw, "bubbles").Arr? ==> |r.bubbles| == |Get(raw, "bubbles").items|)
      && (!Get(raw, "connections").Arr? ==> r.connections == [])
      && (Get(raw, "connections").Arr? ==> |r.connections| == |Get(raw, "connections").items|)
      && r.mapName == (if Truthy(Get(raw, "mapName")) then Get(raw, "mapName") else Str("Untitled Map"))
      && r.mapId == (if Truthy(Get(raw, "mapId")) then Get(raw, "mapId") else Null)
      && r.bubbleTypes == (if Truthy(Get(raw, "bubbleTypes")) then Get(raw, "bubbleTypes") else EmptyBubbleTypes)
  {
  }

  /** Migrating a migrated snapshot again, at any time, changes nothing. */
  lemma MigrateSnapshotIdempotent(rawSnapshot: Value, now: string, later: string)
    requires now != [] && later != []
    ensures MigrateSnapshot(SnapshotValue(MigrateSnapshot(rawSnapshot, now)), later) == MigrateSnapshot(rawSnapshot, now)
  {
    var s := MigrateSnapshot(rawSnapshot, now);
    var v := SnapshotValue(s);
    var r := MigrateSnapshot(v, later);
    assert Get(v, "mapId") == s.mapId && Get(v, "mapName") == s.mapName && Get(v, "bubbleTypes") == s.bubbleTypes;
    var nodeValues := ItemsOf(Get(v, "bubbles"));
    assert |r.bubbles| == |s.bubbles|;
    forall i | 0 <= i < |s.bubbles| ensures r.bubbles[i] == s.bubbles[i] {
      var raw := ItemsOf(Get(SourceOf(rawSnapshot), "bubbles"));
      MigrateNodeIdempotent(raw[i], i, now, later);
    }
    var edgeValues := ItemsOf(Get(v, "connections"));
    assert |r.connections| == |s.connections|;
    forall i | 0 <= i < |s.connections| ensures r.connections[i] == s.connections[i] {
      var raw := ItemsOf(Get(SourceOf(rawSnapshot), "connections"));
      MigrateEdgeIdempotent(raw[i], i);
    }
  }
}
