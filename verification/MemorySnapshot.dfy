/** Normalization of stored memory snapshots: contract-owned fields, labels and `required`
    names are removed, everything authored stays. Printing and parsing of JSON text is a
    parameter; all that is assumed of it is that parsing undoes printing. */
module MemorySnapshot {
  import opened Wrappers

  datatype Json =
    | Null
    | Bool(b: bool)
    | Num(literal: string)
    | Str(s: string)
    | Arr(items: seq<Json>)
    | Obj(fields: map<string, Json>)

  datatype Codec = Codec(parse: string -> Option<Json>, dump: Json -> string)

  ghost predicate RoundTrips(codec: Codec) {
    forall v :: codec.parse(codec.dump(v)) == Some(v)
  }

  const FIELDS: set<string> := {"memory_type", "memory_types", "memoryType", "memoryTypes", "by_memory_type"}
  const LABELS: set<string> := {"core", "working", "episodic", "semantic", "procedural", "social"}
  const HIT_KEYS: set<string> := {"memory_id", "memory_item_id", "excerpt"}
  const OPAQUE_KEYS: set<string> := {"default", "const", "enum", "examples"}
  const RECORD_KEYS: set<string> := {"operations", "memories", "existing_memories"}
  const PLAIN_KEYS: set<string> :=
    {"decision", "context", "input_data", "expected_output", "configuration", "parameters"}

  /** Where the value stands: in memory records, in a JSON schema, in a column whose `result`
      strings hold serialized snapshots. */
  datatype Mode = Mode(record: bool, schema: bool, serialized: bool)

  const PLAIN := Mode(false, false, false)
  const SCHEMA := Mode(false, true, false)

  predicate IsFieldName(v: Json) { v.Str? && v.s in FIELDS }

  predicate IsLabel(v: Json) { v.Str? && v.s in LABELS }

  predicate MemoryHit(fields: map<string, Json>, mode: Mode) {
    mode.record && exists k :: k in HIT_KEYS && k in fields
  }

  /** The field is removed. */
  predicate Removed(fields: map<string, Json>, key: string, mode: Mode)
    requires key in fields
  {
    || ((mode.record || mode.schema) && key in FIELDS)
    || (MemoryHit(fields, mode) && key == "type" && IsLabel(fields[key]))
  }

  /** An envelope of serialized memories. */
  predicate IsEnvelope(v: Json) {
    v.Obj? && ("memories" in v.fields || "operations" in v.fields)
  }

  /** Re-entry on a parsed string leaves the serialized mode, so that the recursion ends. */
  function Normalize(codec: Codec, v: Json, mode: Mode): Json
    decreases mode.serialized, v, 1
  {
    match v
    case Obj(fields) => Obj(map k | k in fields && !Removed(fields, k, mode) :: NormalizeField(codec, v, k, mode))
    case Arr(items) => Arr(NormalizeItems(codec, items, mode, false))
    case _ => v
  }

  function NormalizeItems(codec: Codec, items: seq<Json>, mode: Mode, dropNames: bool): seq<Json>
    decreases mode.serialized, items, 0
  {
    if items == [] then []
    else if dropNames && IsFieldName(items[0]) then NormalizeItems(codec, items[1..], mode, dropNames)
    else [Normalize(codec, items[0], mode)] + NormalizeItems(codec, items[1..], mode, dropNames)
  }

  function NormalizeField(codec: Codec, v: Json, key: string, mode: Mode): Json
    requires v.Obj? && key in v.fields
    decreases mode.serialized, v, 0
  {
    var item := v.fields[key];
    if mode.schema then
      if key in OPAQUE_KEYS then item
      else if key == "required" && item.Arr? then Arr(NormalizeItems(codec, item.items, SCHEMA, true))
      else Normalize(codec, item, SCHEMA)
    else if key == "schema" then Normalize(codec, item, SCHEMA)
    else if key in RECORD_KEYS then Normalize(codec, item, Mode(true, false, mode.serialized))
    else if key in PLAIN_KEYS then Normalize(codec, item, Mode(false, false, mode.serialized))
    else if key == "result" && mode.serialized && item.Str? then
      var parsed := codec.parse(item.s);
      if parsed.Some? && IsEnvelope(parsed.value) then
        var normalized := Normalize(codec, parsed.value, PLAIN);
        if normalized != parsed.value then Str(codec.dump(normalized)) else item
      else item
    else item
  }

  // ----- what a normalized value looks like -----

  lemma NormalizeKeys(codec: Codec, v: Json, mode: Mode, key: string)
    requires v.Obj?
    ensures Normalize(codec, v, mode).Obj?
    ensures key in Normalize(codec, v, mode).fields <==> key in v.fields && !Removed(v.fields, key, mode)
    ensures key in Normalize(codec, v, mode).fields
            ==> Normalize(codec, v, mode).fields[key] == NormalizeField(codec, v, key, mode)
  {
  }

  /** Normalization keeps the kind of a value, and strings as they are. */
  lemma NormalizeKind(codec: Codec, v: Json, mode: Mode)
    ensures var w := Normalize(codec, v, mode);
            && (w.Obj? <==> v.Obj?) && (w.Arr? <==> v.Arr?) && (!v.Obj? && !v.Arr? ==> w == v)
            && (IsFieldName(w) <==> IsFieldName(v)) && (IsLabel(w) <==> IsLabel(v))
  {
  }

  lemma HitKeysStay(codec: Codec, v: Json, mode: Mode)
    requires v.Obj?
    ensures MemoryHit(Normalize(codec, v, mode).fields, mode) <==> MemoryHit(v.fields, mode)
  {
    var w := Normalize(codec, v, mode);
    forall k | k in HIT_KEYS
      ensures k in w.fields <==> k in v.fields
    {
      NormalizeKeys(codec, v, mode, k);
      assert k !in FIELDS && k != "type";
    }
  }

  lemma TypeFieldStays(codec: Codec, v: Json, mode: Mode)
    requires v.Obj? && "type" in v.fields
    ensures IsLabel(NormalizeField(codec, v, "type", mode)) <==> IsLabel(v.fields["type"])
  {
    NormalizeKind(codec, v.fields["type"], SCHEMA);
  }

  /** What a first pass kept, a second pass keeps. */
  lemma NothingMoreRemoved(codec: Codec, v: Json, mode: Mode, key: string)
    requires v.Obj? && key in Normalize(codec, v, mode).fields
    ensures !Removed(Normalize(codec, v, mode).fields, key, mode)
  {
    NormalizeKeys(codec, v, mode, key);
    HitKeysStay(codec, v, mode);
    if key == "type" {
      TypeFieldStays(codec, v, mode);
    }
  }

  // ----- idempotence -----

  lemma {:induction false} NormalizeIdempotent(codec: Codec, v: Json, mode: Mode)
    requires RoundTrips(codec)
    ensures Normalize(codec, Normalize(codec, v, mode), mode) == Normalize(codec, v, mode)
    decreases mode.serialized, v, 2
  {
    match v
    case Obj(fields) =>
      var w := Normalize(codec, v, mode);
      var x := Normalize(codec, w, mode);
      forall key
        ensures key in x.fields <==> key in w.fields
        ensures key in w.fields ==> x.fields[key] == w.fields[key]
      {
        NormalizeKeys(codec, w, mode, key);
        if key in w.fields {
          NothingMoreRemoved(codec, v, mode, key);
          NormalizeKeys(codec, v, mode, key);
          FieldIdempotent(codec, v, w, key, mode);
        }
      }
      assert x.fields == w.fields;
    case Arr(items) =>
      ItemsIdempotent(codec, items, mode, false);
    case _ =>
  }

  lemma {:induction false} ItemsIdempotent(codec: Codec, items: seq<Json>, mode: Mode, dropNames: bool)
    requires RoundTrips(codec)
    ensures var once := NormalizeItems(codec, items, mode, dropNames);
            NormalizeItems(codec, once, mode, dropNames) == once
    decreases mode.serialized, items, 0
  {
    if items != [] {
      ItemsIdempotent(codec, items[1..], mode, dropNames);
      if !(dropNames && IsFieldName(items[0])) {
        NormalizeIdempotent(codec, items[0], mode);
        NormalizeKind(codec, items[0], mode);
        var rest := NormalizeItems(codec, items[1..], mode, dropNames);
        var head := Normalize(codec, items[0], mode);
        assert ([head] + rest)[1..] == rest;
      }
    }
  }

  lemma {:induction false} FieldIdempotent(codec: Codec, v: Json, w: Json, key: string, mode: Mode)
    requires RoundTrips(codec) && v.Obj? && key in v.fields
    requires w.Obj? && key in w.fields && w.fields[key] == NormalizeField(codec, v, key, mode)
    ensures NormalizeField(codec, w, key, mode) == w.fields[key]
    decreases mode.serialized, v, 0
  {
    var item := v.fields[key];
    if mode.schema {
      if key !in OPAQUE_KEYS {
        if key == "required" && item.Arr? {
          ItemsIdempotent(codec, item.items, SCHEMA, true);
        } else {
          NormalizeKind(codec, item, SCHEMA);
          NormalizeIdempotent(codec, item, SCHEMA);
        }
      }
    } else if key == "schema" {
      NormalizeIdempotent(codec, item, SCHEMA);
    } else if key in RECORD_KEYS {
      NormalizeIdempotent(codec, item, Mode(true, false, mode.serialized));
    } else if key in PLAIN_KEYS {
      NormalizeIdempotent(codec, item, Mode(false, false, mode.serialized));
    } else if key == "result" && mode.serialized && item.Str? {
      var parsed := codec.parse(item.s);
      if parsed.Some? && IsEnvelope(parsed.value) {
        EnvelopeStays(codec, parsed.value);
        NormalizeIdempotent(codec, parsed.value, PLAIN);
        var normalized := Normalize(codec, parsed.value, PLAIN);
        assert codec.parse(codec.dump(normalized)) == Some(normalized);
      }
    }
  }

  lemma EnvelopeStays(codec: Codec, v: Json)
    requires IsEnvelope(v)
    ensures IsEnvelope(Normalize(codec, v, PLAIN))
  {
    NormalizeKeys(codec, v, PLAIN, "memories");
    NormalizeKeys(codec, v, PLAIN, "operations");
  }

  // ----- only contract-owned parts are deleted -----

  /** `w` is `v` with nothing changed but deletions: fields of the contract, `type` labels of
      memory hits, and contract names in lists; a string may hold a printed value to which
      the same applies. */
  ghost predicate Pruned(codec: Codec, serialized: bool, v: Json, w: Json)
    decreases serialized, v, 1
  {
    match v
    case Obj(fields) =>
      && w.Obj? && w.fields.Keys <= fields.Keys
      && forall k :: k in fields ==>
           if k in w.fields then
             Pruned(codec, serialized, fields[k], w.fields[k]) || Reprinted(codec, serialized, fields[k], w.fields[k])
           else
             k in FIELDS || (k == "type" && IsLabel(fields[k]) && exists h :: h in HIT_KEYS && h in fields)
    case Arr(items) => w.Arr? && PrunedItems(codec, serialized, items, w.items)
    case _ => w == v
  }

  ghost predicate PrunedItems(codec: Codec, serialized: bool, items: seq<Json>, ws: seq<Json>)
    decreases serialized, items, 0
  {
    if items == [] then ws == []
    else
      || (IsFieldName(items[0]) && PrunedItems(codec, serialized, items[1..], ws))
      || (ws != [] && Pruned(codec, serialized, items[0], ws[0]) && PrunedItems(codec, serialized, items[1..], ws[1..]))
  }

  ghost predicate Reprinted(codec: Codec, serialized: bool, v: Json, w: Json)
    decreases serialized, v, 0
  {
    && serialized && v.Str? && w.Str?
    && codec.parse(v.s).Some? && codec.parse(w.s).Some?
    && Pruned(codec, false, codec.parse(v.s).value, codec.parse(w.s).value)
  }

  lemma {:induction false} NormalizeOnlyDeletes(codec: Codec, v: Json, mode: Mode, serialized: bool)
    requires RoundTrips(codec) && (mode.serialized ==> serialized)
    ensures Pruned(codec, serialized, v, Normalize(codec, v, mode))
    decreases serialized, v, 2
  {
    match v
    case Obj(fields) =>
      var w := Normalize(codec, v, mode);
      forall k | k in fields
        ensures k in w.fields ==>
                  || Pruned(codec, serialized, fields[k], w.fields[k])
                  || Reprinted(codec, serialized, fields[k], w.fields[k])
        ensures k !in w.fields ==>
                  || k in FIELDS
                  || (k == "type" && IsLabel(fields[k]) && exists h :: h in HIT_KEYS && h in fields)
      {
        NormalizeKeys(codec, v, mode, k);
        if k in w.fields {
          FieldOnlyDeletes(codec, v, k, mode, serialized);
        }
      }
    case Arr(items) =>
      ItemsOnlyDelete(codec, items, mode, false, serialized);
    case _ =>
  }

  lemma {:induction false} ItemsOnlyDelete(codec: Codec, items: seq<Json>, mode: Mode, dropNames: bool,
                                           serialized: bool)
    requires RoundTrips(codec) && (mode.serialized ==> serialized)
    ensures PrunedItems(codec, serialized, items, NormalizeItems(codec, items, mode, dropNames))
    decreases serialized, items, 0
  {
    if items != [] {
      ItemsOnlyDelete(codec, items[1..], mode, dropNames, serialized);
      if !(dropNames && IsFieldName(items[0])) {
        NormalizeOnlyDeletes(codec, items[0], mode, serialized);
        var rest := NormalizeItems(codec, items[1..], mode, dropNames);
        assert ([Normalize(codec, items[0], mode)] + rest)[1..] == rest;
      }
    }
  }

  lemma {:induction false} Unpruned(codec: Codec, v: Json, serialized: bool)
    ensures Pruned(codec, serialized, v, v)
    decreases v
  {
    match v
    case Obj(fields) => forall k | k in fields { Unpruned(codec, fields[k], serialized); }
    case Arr(items) => UnprunedItems(codec, items, serialized);
    case _ =>
  }

  lemma {:induction false} UnprunedItems(codec: Codec, items: seq<Json>, serialized: bool)
    ensures PrunedItems(codec, serialized, items, items)
    decreases items
  {
    if items != [] {
      Unpruned(codec, items[0], serialized);
      UnprunedItems(codec, items[1..], serialized);
    }
  }

  lemma {:induction false} FieldOnlyDeletes(codec: Codec, v: Json, key: string, mode: Mode, serialized: bool)
    requires RoundTrips(codec) && v.Obj? && key in v.fields && (mode.serialized ==> serialized)
    ensures var item, out := v.fields[key], NormalizeField(codec, v, key, mode);
            Pruned(codec, serialized, item, out) || Reprinted(codec, serialized, item, out)
    decreases serialized, v, 0
  {
    var item := v.fields[key];
    Unpruned(codec, item, serialized);
    if mode.schema {
      if key !in OPAQUE_KEYS {
        if key == "required" && item.Arr? {
          ItemsOnlyDelete(codec, item.items, SCHEMA, true, serialized);
        } else {
          NormalizeOnlyDeletes(codec, item, SCHEMA, serialized);
        }
      }
    } else if key == "schema" {
      NormalizeOnlyDeletes(codec, item, SCHEMA, serialized);
    } else if key in RECORD_KEYS {
      NormalizeOnlyDeletes(codec, item, Mode(true, false, mode.serialized), serialized);
    } else if key in PLAIN_KEYS {
      NormalizeOnlyDeletes(codec, item, Mode(false, false, mode.serialized), serialized);
    } else if key == "result" && mode.serialized && item.Str? {
      var parsed := codec.parse(item.s);
      if parsed.Some? && IsEnvelope(parsed.value) {
        var normalized := Normalize(codec, parsed.value, PLAIN);
        NormalizeOnlyDeletes(codec, parsed.value, PLAIN, false);
        assert codec.parse(codec.dump(normalized)) == Some(normalized);
      }
    }
  }
}
