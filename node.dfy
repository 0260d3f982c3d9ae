/**
 * Bubble records: priority and tag normalisation, node creation with defaults, and updates
 * that overlay a patch and renormalise. A node is the JavaScript object it is, a map from
 * field names to values, because an update may store any field of any type. Generated ids and
 * timestamps are parameters.
 */
module Node {
  import opened Wrappers
  import opened Text
  import opened JsValue

  /** `Math.round(x)`: halves round up. */
  function Round(x: real): int {
    (x + 0.5).Floor
  }

  /** `Math.max(0, Math.min(10, n))`. */
  function ClampPriority(n: int): int {
    if n < 0 then 0 else if n > 10 then 10 else n
  }

  /** `normalizePriority`: the rounded finite number clamped to [0, 10]; anything else is 0. */
  function NormalizePriority(v: Value): (r: int)
    ensures 0 <= r <= 10
    ensures ToFinite(v).None? ==> r == 0
    ensures ToFinite(v).Some? ==> r == ClampPriority(Round(ToFinite(v).value))
  {
    match ToFinite(v)
    case None => 0
    case Some(x) => ClampPriority(Round(x))
  }

  /** An integer already in range is its own normalisation. */
  lemma NormalizePriorityOfInteger(n: int)
    requires 0 <= n <= 10
    ensures NormalizePriority(Num(n as real)) == n
  {
    assert (n as real + 0.5).Floor == n;
  }

  /** Normalising a normalised priority changes nothing. */
  lemma NormalizePriorityIdempotent(v: Value)
    ensures NormalizePriority(Num(NormalizePriority(v) as real)) == NormalizePriority(v)
  {
    NormalizePriorityOfInteger(NormalizePriority(v));
  }

  /** `String(tag || '').trim()`. */
  function TagText(tag: Value): (r: string)
    ensures IsTrimmed(r)
  {
    Trim(ToStr(Or(tag, Str(""))))
  }

  /** A stored tag: trimmed and not empty. */
  predicate CleanTag(t: string) {
    t != [] && IsTrimmed(t)
  }

  /** The tag texts of a list of tags, in order. */
  function TagTexts(items: seq<Value>): (r: seq<string>)
    ensures |r| == |items|
    ensures forall i :: 0 <= i < |r| ==> IsTrimmed(r[i])
  {
    seq(|items|, i requires 0 <= i < |items| => TagText(items[i]))
  }

  /** The texts that are not empty, in order. */
  function NonEmpty(texts: seq<string>): (r: seq<string>)
    requires forall i :: 0 <= i < |texts| ==> IsTrimmed(texts[i])
    ensures forall i :: 0 <= i < |r| ==> CleanTag(r[i])
    ensures |r| <= |texts|
  {
    if texts == [] then []
    else
      var rest := NonEmpty(texts[1..]);
      if texts[0] != [] then [texts[0]] + rest else rest
  }

  /** The trimmed tag texts that are not empty, in order. */
  function NonEmptyTags(items: seq<Value>): (r: seq<string>)
    ensures forall i :: 0 <= i < |r| ==> CleanTag(r[i])
    ensures |r| <= |items|
  {
    NonEmpty(TagTexts(items))
  }

  /** `normalizeTags`: at most 20 trimmed, non-empty tags in order; a non-array gives none. */
  function NormalizeTags(tags: Value): (r: seq<string>)
    ensures |r| <= 20
    ensures forall i :: 0 <= i < |r| ==> CleanTag(r[i])
    ensures !tags.Arr? ==> r == []
    ensures tags.Arr? ==> r == Take(NonEmptyTags(tags.items), 20)
  {
    if !tags.Arr? then [] else Take(NonEmptyTags(tags.items), 20)
  }

  /** `s.slice(0, n)`. */
  function Take<T>(s: seq<T>, n: nat): (r: seq<T>)
    ensures |r| <= n && r == s[..if |s| < n then |s| else n]
  {
    if |s| <= n then s else s[..n]
  }

  /** A trimmed, non-empty tag string is its own tag text. */
  lemma TagTextOfClean(t: string)
    requires CleanTag(t)
    ensures TagText(Str(t)) == t
  {
    assert Or(Str(t), Str("")) == Str(t);
    assert ToStr(Str(t)) == t;
    TrimOfTrimmed(t);
  }

  /** Non-empty texts pass through the filter unchanged. */
  lemma {:induction false} NonEmptyOfClean(texts: seq<string>)
    requires forall i :: 0 <= i < |texts| ==> texts[i] != [] && IsTrimmed(texts[i])
    ensures NonEmpty(texts) == texts
  {
    if texts != [] {
      NonEmptyOfClean(texts[1..]);
    }
  }

  /** Trimmed, non-empty tag strings pass through the filter unchanged. */
  lemma NonEmptyTagsOfClean(tags: seq<string>)
    requires forall i :: 0 <= i < |tags| ==> CleanTag(tags[i])
    ensures NonEmptyTags(StringItems(tags)) == tags
  {
    var vs := StringItems(tags);
    forall i | 0 <= i < |tags|
      ensures TagTexts(vs)[i] == tags[i]
    {
      TagTextOfClean(tags[i]);
    }
    assert TagTexts(vs) == tags;
    NonEmptyOfClean(tags);
  }

  /** Normalising normalised tags changes nothing. */
  lemma NormalizeTagsIdempotent(tags: Value)
    ensures NormalizeTags(Arr(StringItems(NormalizeTags(tags)))) == NormalizeTags(tags)
  {
    NonEmptyTagsOfClean(NormalizeTags(tags));
  }

  /** `typeof v === 'string' ? v : fallback`. */
  function StringOr(v: Value, fallback: Value): Value {
    if v.Str? then v else fallback
  }

  /** The text a new node gets: the trimmed `text`, or `New idea` when that is empty. */
  function NodeText(v: Value): (r: string)
    ensures r != [] && IsTrimmed(r)
    ensures Trim(ToStr(Or(v, Str("")))) != [] ==> r == Trim(ToStr(Or(v, Str(""))))
    ensures Trim(ToStr(Or(v, Str("")))) == [] ==> r == "New idea"
  {
    var t := Trim(ToStr(Or(v, Str(""))));
    TrimTrimmed(ToStr(Or(v, Str(""))));
    if t != [] then t else "New idea"
  }

  /** The record `createNode` builds. */
  datatype NodeRecord = NodeRecord(
    id: Value,
    text: string,
    x: Value,
    y: Value,
    notes: string,
    tags: seq<string>,
    priority: int,
    colorOverride: Value,
    dueDate: Value,
    metadata: map<string, Value>,
    aiSummary: Value,
    voiceNote: Value,
    createdAt: Value,
    updatedAt: Value)

  /** `Number.isFinite(v) ? v : 0`. */
  function FiniteOrZero(v: Value): (r: Value)
    ensures r.Num?
    ensures IsFinite(v) ==> r == v
  {
    if IsFinite(v) then v else Num(0.0)
  }

  /** `String(v || '')`: the string of a truthy value, else empty. */
  function StringOrEmpty(v: Value): (r: string)
    ensures Truthy(v) ==> r == ToStr(v)
    ensures !Truthy(v) ==> r == ""
  {
    ToStr(Or(v, Str("")))
  }

  /** `input && typeof input === 'object' ? input : {}`. */
  function NodeSource(input: Value): Value {
    if IsObject(input) then input else Obj(map[])
  }

  /**
   * `createNode`, with `freshId` for the generated id and `now` for the current timestamp; a
   * non-object input is read as `{}`.
   */
  function CreateNode(input: Value, freshId: string, now: string): (r: NodeRecord)
    ensures var source := NodeSource(input);
      && r.text != [] && IsTrimmed(r.text)
      && r.text == (if Trim(ToStr(Or(Get(source, "text"), Str("")))) == [] then "New idea"
                    else Trim(ToStr(Or(Get(source, "text"), Str("")))))
    ensures var source := NodeSource(input);
      && r.x == (if IsFinite(Get(source, "x")) then Get(source, "x") else Num(0.0))
      && r.y == (if IsFinite(Get(source, "y")) then Get(source, "y") else Num(0.0))
    ensures var source := NodeSource(input);
      && r.tags == NormalizeTags(Get(source, "tags"))
      && |r.tags| <= 20 && (forall i :: 0 <= i < |r.tags| ==> CleanTag(r.tags[i]))
    ensures var source := NodeSource(input);
      r.priority == NormalizePriority(Get(source, "priority")) && 0 <= r.priority <= 10
    ensures var source := NodeSource(input);
      && r.id == (if Truthy(Get(source, "id")) then Get(source, "id") else Str(freshId))
      && r.notes == (if Truthy(Get(source, "notes")) then ToStr(Get(source, "notes")) else "")
    // The optional strings are kept only when they are strings.
    ensures var source := NodeSource(input);
      && r.colorOverride == (if Get(source, "colorOverride").Str? then Get(source, "colorOverride") else Null)
      && r.dueDate == (if Get(source, "dueDate").Str? then Get(source, "dueDate") else Null)
      && r.aiSummary == (if Get(source, "aiSummary").Str? then Get(source, "aiSummary") else Str(""))
      && r.voiceNote == (if Get(source, "voiceNote").Str? then Get(source, "voiceNote") else Str(""))
    // The metadata is a copy of an object's or array's fields, and empty for anything else.
    ensures var source := NodeSource(input);
      && (Get(source, "metadata").Obj? ==> r.metadata == Get(source, "metadata").fields)
      && (IsObject(Get(source, "metadata")) ==> r.metadata == Fields(Get(source, "metadata")))
      && (!IsObject(Get(source, "metadata")) ==> r.metadata == map[])
    ensures var source := NodeSource(input);
      && r.createdAt == (if Truthy(Get(source, "createdAt")) then Get(source, "createdAt") else Str(now))
      && r.updatedAt == (if Truthy(Get(source, "updatedAt")) then Get(source, "updatedAt") else Str(now))
  {
    var source := NodeSource(input);
    var metadata := Get(source, "metadata");
    NodeRecord(
      Or(Get(source, "id"), Str(freshId)),
      NodeText(Get(source, "text")),
      FiniteOrZero(Get(source, "x")),
      FiniteOrZero(Get(source, "y")),
      StringOrEmpty(Get(source, "notes")),
      NormalizeTags(Get(source, "tags")),
      NormalizePriority(Get(source, "priority")),
      StringOr(Get(source, "colorOverride"), Null),
      StringOr(Get(source, "dueDate"), Null),
      SpreadObject(metadata),
      StringOr(Get(source, "aiSummary"), Str("")),
      StringOr(Get(source, "voiceNote"), Str("")),
      Or(Get(source, "createdAt"), Str(now)),
      Or(Get(source, "updatedAt"), Str(now)))
  }

  /** The record as the JavaScript object it is. */
  function NodeObject(n: NodeRecord): map<string, Value> {
    map[
      "id" := n.id, "text" := Str(n.text), "x" := n.x, "y" := n.y, "notes" := Str(n.notes),
      "colorOverride" := n.colorOverride, "dueDate" := n.dueDate, "metadata" := Obj(n.metadata),
      "aiSummary" := n.aiSummary, "voiceNote" := n.voiceNote, "createdAt" := n.createdAt,
      "updatedAt" := n.updatedAt, "tags" := Arr(StringItems(n.tags)), "priority" := Num(n.priority as real)]
  }

  /** `tags` and `priority` hold their own normalisations, as after `createNode` or `updateNode`. */
  predicate NormalizedNode(node: map<string, Value>) {
    && "tags" in node && "priority" in node
    && node["tags"] == Arr(StringItems(NormalizeTags(node["tags"])))
    && node["priority"] == Num(NormalizePriority(node["priority"]) as real)
  }

  /** The fields of the node overlaid with those of the patch: `{ ...node, ...patch }`. */
  function Merge(node: Value, patch: Value): map<string, Value> {
    Fields(node) + Fields(patch)
  }

  /**
   * `updateNode` with `now` for the current timestamp: a falsy node, or a patch that is not an
   * object, leaves the node as it is; otherwise the patch's fields overlay the node's and `tags`
   * and `priority` are renormalised.
   */
  function UpdateNode(node: Value, patch: Value, now: string): (r: Value)
    ensures !Truthy(node) || !IsObject(patch) ==> r == node
    ensures Truthy(node) && IsObject(patch) ==>
      && r.Obj? && NormalizedNode(r.fields)
      && "updatedAt" in r.fields && r.fields["updatedAt"] == Str(now)
  {
    if !Truthy(node) || !IsObject(patch) then node
    else Obj(Stamped(Merge(node, patch), now))
  }

  /** The merged fields with `tags` and `priority` renormalised and `updatedAt` set to `now`. */
  function Stamped(next: map<string, Value>, now: string): (r: map<string, Value>)
    ensures r.Keys == next.Keys + {"tags", "priority", "updatedAt"}
    ensures forall k :: k in next && k !in {"tags", "priority", "updatedAt"} ==> r[k] == next[k]
    ensures r["tags"] == Arr(StringItems(NormalizeTags(Get(Obj(next), "tags"))))
    ensures r["priority"] == Num(NormalizePriority(Get(Obj(next), "priority")) as real)
    ensures r["updatedAt"] == Str(now) && NormalizedNode(r)
  {
    var tags := NormalizeTags(Get(Obj(next), "tags"));
    var priority := NormalizePriority(Get(Obj(next), "priority"));
    NormalizeTagsIdempotent(Get(Obj(next), "tags"));
    NormalizePriorityIdempotent(Get(Obj(next), "priority"));
    next["tags" := Arr(StringItems(tags))]["priority" := Num(priority as real)]["updatedAt" := Str(now)]
  }

  /**
   * An update keeps every field of the node and the patch, the patch's value winning, and adds
   * `tags`, `priority` and `updatedAt`.
   */
  lemma UpdateNodeFields(node: Value, patch: Value, now: string)
    requires Truthy(node) && IsObject(patch)
    ensures var r := UpdateNode(node, patch, now);
      && r.Obj?
      && r.fields.Keys == Merge(node, patch).Keys + {"tags", "priority", "updatedAt"}
      && (forall k :: k in Merge(node, patch) && k !in {"tags", "priority", "updatedAt"} ==>
            r.fields[k] == (if k in Fields(patch) then Fields(patch)[k] else Fields(node)[k]))
  {
    var fn, fp := Fields(node), Fields(patch);
    assert Merge(node, patch) == fn + fp;
    assert UpdateNode(node, patch, now) == Obj(Stamped(fn + fp, now));
  }

  /** After an update `tags` and `priority` are the normalisations of the merged values. */
  lemma UpdateNodeNormalizes(node: Value, patch: Value, now: string)
    requires Truthy(node) && IsObject(patch)
    ensures var r := UpdateNode(node, patch, now);
      && r.Obj?
      && r.fields["tags"] == Arr(StringItems(NormalizeTags(Get(Obj(Merge(node, patch)), "tags"))))
      && r.fields["priority"] == Num(NormalizePriority(Get(Obj(Merge(node, patch)), "priority")) as real)
  {
  }

  /** A record whose tags and priority are their own normalisations is stored normalised. */
  lemma NodeObjectNormalized(n: NodeRecord)
    requires NormalizeTags(Arr(StringItems(n.tags))) == n.tags
    requires NormalizePriority(Num(n.priority as real)) == n.priority
    ensures NormalizedNode(NodeObject(n))
  {
    assert NodeObject(n)["tags"] == Arr(StringItems(n.tags));
    assert NodeObject(n)["priority"] == Num(n.priority as real);
  }

  /** A created node is normalised. */
  lemma CreatedNodeNormalized(input: Value, freshId: string, now: string)
    ensures NormalizedNode(NodeObject(CreateNode(input, freshId, now)))
  {
    var n := CreateNode(input, freshId, now);
    var source := NodeSource(input);
    assert n.tags == NormalizeTags(Get(source, "tags"));
    assert n.priority == NormalizePriority(Get(source, "priority"));
    NormalizeTagsIdempotent(Get(source, "tags"));
    NormalizePriorityIdempotent(Get(source, "priority"));
    NodeObjectNormalized(n);
  }

  /** On a normalised node, an update with an empty patch only stamps `updatedAt`. */
  lemma EmptyPatchOnlyStamps(node: map<string, Value>, now: string)
    requires NormalizedNode(node)
    ensures UpdateNode(Obj(node), Obj(map[]), now) == Obj(node["updatedAt" := Str(now)])
  {
    var next := Merge(Obj(node), Obj(map[]));
    assert Fields(Obj(map[])) == map[];
    assert next == node;
    var tags := Arr(StringItems(NormalizeTags(Get(Obj(next), "tags"))));
    var priority := Num(NormalizePriority(Get(Obj(next), "priority")) as real);
    assert tags == node["tags"] && priority == node["priority"];
    assert node["tags" := tags]["priority" := priority] == node;
    assert UpdateNode(Obj(node), Obj(map[]), now).fields == next["tags" := tags]["priority" := priority]["updatedAt" := Str(now)];
  }

  /** The patch `markNodeMoved` applies. */
  function MovePatch(node: Value, x: Value, y: Value): map<string, Value> {
    map["x" := if IsFinite(x) then x else Get(node, "x"), "y" := if IsFinite(y) then y else Get(node, "y")]
  }

  /**
   * `markNodeMoved` with `now` for the current timestamp: an update whose patch sets `x` and `y`
   * to the arguments when they are finite numbers and to the node's own values otherwise.
   */
  function MarkNodeMoved(node: Value, x: Value, y: Value, now: string): (r: Value)
    // The source reads `node.x` (`node.y`) only when `x` (`y`) is not a finite number.
    requires node.Null? || node.Undefined? ==> IsFinite(x) && IsFinite(y)
    ensures !Truthy(node) ==> r == node
    ensures Truthy(node) ==> r.Obj? && "x" in r.fields && "y" in r.fields
    ensures Truthy(node) ==> r.fields["x"] == (if IsFinite(x) then x else Get(node, "x"))
    ensures Truthy(node) ==> r.fields["y"] == (if IsFinite(y) then y else Get(node, "y"))
  {
    var patch := MovePatch(node, x, y);
    assert "x" in Merge(node, Obj(patch)) && "y" in Merge(node, Obj(patch));
    if Truthy(node) then UpdateNodeFields(node, Obj(patch), now); UpdateNode(node, Obj(patch), now)
    else UpdateNode(node, Obj(patch), now)
  }

  /** Moving a node adds `x`, `y` and `updatedAt` to its fields and no others. */
  lemma MoveKeys(node: map<string, Value>, x: Value, y: Value, now: string)
    requires NormalizedNode(node)
    ensures var r := MarkNodeMoved(Obj(node), x, y, now);
      r.Obj? && r.fields.Keys == node.Keys + {"x", "y", "updatedAt"}
  {
    var patch := MovePatch(Obj(node), x, y);
    assert MarkNodeMoved(Obj(node), x, y, now) == UpdateNode(Obj(node), Obj(patch), now);
    UpdateNodeFields(Obj(node), Obj(patch), now);
    assert Merge(Obj(node), Obj(patch)) == node + patch;
    assert patch.Keys == {"x", "y"};
  }

  /** Moving a normalised node keeps its tags and priority. */
  lemma MoveKeepsNormalized(node: map<string, Value>, x: Value, y: Value, now: string)
    requires NormalizedNode(node)
    ensures var r := MarkNodeMoved(Obj(node), x, y, now);
      r.Obj? && r.fields["tags"] == node["tags"] && r.fields["priority"] == node["priority"]
  {
    var patch := MovePatch(Obj(node), x, y);
    assert MarkNodeMoved(Obj(node), x, y, now) == UpdateNode(Obj(node), Obj(patch), now);
    UpdateNodeNormalizes(Obj(node), Obj(patch), now);
    assert "tags" !in patch && "priority" !in patch;
    assert Get(Obj(Merge(Obj(node), Obj(patch))), "tags") == node["tags"];
    assert Get(Obj(Merge(Obj(node), Obj(patch))), "priority") == node["priority"];
  }

  /** Moving a normalised node changes no field but `x`, `y` and `updatedAt`. */
  lemma MoveChangesOnlyPosition(node: map<string, Value>, x: Value, y: Value, now: string, k: string)
    requires NormalizedNode(node)
    requires k in node && k !in {"x", "y", "updatedAt"}
    ensures var r := MarkNodeMoved(Obj(node), x, y, now);
      r.Obj? && k in r.fields && r.fields[k] == node[k]
  {
    if k == "tags" || k == "priority" {
      MoveKeepsNormalized(node, x, y, now);
    } else {
      var patch := MovePatch(Obj(node), x, y);
      assert MarkNodeMoved(Obj(node), x, y, now) == UpdateNode(Obj(node), Obj(patch), now);
      UpdateNodeFields(Obj(node), Obj(patch), now);
      assert Merge(Obj(node), Obj(patch)) == node + patch;
      assert k !in patch;
    }
  }
}
