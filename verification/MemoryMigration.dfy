/** The migration handler and its checker. */
module MemoryMigration {
  import opened Wrappers
  import opened MemorySnapshot

  // ----- what is left after normalization -----

  /** No contract-owned part is left on any machine path. */
  ghost predicate Clean(codec: Codec, v: Json, mode: Mode)
    decreases mode.serialized, v, 1
  {
    match v
    case Obj(fields) => forall k :: k in fields ==>
        && (mode.record || mode.schema ==> k !in FIELDS)
        && (mode.record && k == "type" && IsLabel(fields[k]) ==> forall h :: h in HIT_KEYS ==> h !in fields)
        && CleanField(codec, v, k, mode)
    case Arr(items) => forall i :: 0 <= i < |items| ==> Clean(codec, items[i], mode)
    case _ => true
  }

  ghost predicate CleanField(codec: Codec, v: Json, key: string, mode: Mode)
    requires v.Obj? && key in v.fields
    decreases mode.serialized, v, 0
  {
    var item := v.fields[key];
    if mode.schema then
      key !in OPAQUE_KEYS ==>
        && Clean(codec, item, SCHEMA)
        && (key == "required" && item.Arr? ==> forall i :: 0 <= i < |item.items| ==> !IsFieldName(item.items[i]))
    else if key == "schema" then Clean(codec, item, SCHEMA)
    else if key in RECORD_KEYS then Clean(codec, item, Mode(true, false, mode.serialized))
    else if key in PLAIN_KEYS then Clean(codec, item, Mode(false, false, mode.serialized))
    else
      key == "result" && mode.serialized && item.Str?
      && codec.parse(item.s).Some? && IsEnvelope(codec.parse(item.s).value) ==>
        Clean(codec, codec.parse(item.s).value, PLAIN)
  }

  lemma NormalizeItemsLength(codec: Codec, items: seq<Json>, mode: Mode, dropNames: bool)
    ensures |NormalizeItems(codec, items, mode, dropNames)| <= |items|
    ensures !dropNames ==> |NormalizeItems(codec, items, mode, dropNames)| == |items|
  {
  }

  /** Normalization leaves a value alone exactly when the value is clean. */
  lemma {:induction false} FixpointIffClean(codec: Codec, v: Json, mode: Mode)
    requires RoundTrips(codec)
    ensures Normalize(codec, v, mode) == v <==> Clean(codec, v, mode)
    decreases mode.serialized, v, 2
  {
    match v
    case Obj(fields) =>
      var w := Normalize(codec, v, mode);
      forall k | k in fields
        ensures k in w.fields <==> !Removed(fields, k, mode)
        ensures k in w.fields ==> (w.fields[k] == fields[k] <==> CleanField(codec, v, k, mode))
      {
        NormalizeKeys(codec, v, mode, k);
        FieldIffClean(codec, v, k, mode);
      }
      if Clean(codec, v, mode) {
        assert w.fields == fields;
      }
    case Arr(items) =>
      ItemsIffClean(codec, items, mode, false);
    case _ =>
  }

  lemma {:induction false} ItemsIffClean(codec: Codec, items: seq<Json>, mode: Mode, dropNames: bool)
    requires RoundTrips(codec)
    ensures NormalizeItems(codec, items, mode, dropNames) == items <==>
              && (forall i :: 0 <= i < |items| ==> Clean(codec, items[i], mode))
              && (dropNames ==> forall i :: 0 <= i < |items| ==> !IsFieldName(items[i]))
    decreases mode.serialized, items, 0
  {
    if items != [] {
      ItemsIffClean(codec, items[1..], mode, dropNames);
      FixpointIffClean(codec, items[0], mode);
      NormalizeItemsLength(codec, items[1..], mode, dropNames);
      assert items == [items[0]] + items[1..];
      var head, rest := Normalize(codec, items[0], mode), NormalizeItems(codec, items[1..], mode, dropNames);
      if !(dropNames && IsFieldName(items[0])) {
        assert ([head] + rest)[0] == head && ([head] + rest)[1..] == rest;
        assert [head] + rest == items <==> head == items[0] && rest == items[1..];
      }
      assert (forall i :: 0 <= i < |items| ==> Clean(codec, items[i], mode))
        <==> Clean(codec, items[0], mode) && forall i :: 0 <= i < |items[1..]| ==> Clean(codec, items[1..][i], mode);
      assert (forall i :: 0 <= i < |items| ==> !IsFieldName(items[i]))
        <==> !IsFieldName(items[0]) && forall i :: 0 <= i < |items[1..]| ==> !IsFieldName(items[1..][i]);
    }
  }

  lemma {:induction false} FieldIffClean(codec: Codec, v: Json, key: string, mode: Mode)
    requires RoundTrips(codec) && v.Obj? && key in v.fields
    ensures NormalizeField(codec, v, key, mode) == v.fields[key] <==> CleanField(codec, v, key, mode)
    decreases mode.serialized, v, 0
  {
    var item := v.fields[key];
    if mode.schema {
      FixpointIffClean(codec, item, SCHEMA);
      if key == "required" && item.Arr? {
        ItemsIffClean(codec, item.items, SCHEMA, true);
      }
    } else if key == "schema" {
      FixpointIffClean(codec, item, SCHEMA);
    } else if key in RECORD_KEYS {
      FixpointIffClean(codec, item, Mode(true, false, mode.serialized));
    } else if key in PLAIN_KEYS {
      FixpointIffClean(codec, item, Mode(false, false, mode.serialized));
    } else if key == "result" && mode.serialized && item.Str? {
      var parsed := codec.parse(item.s);
      if parsed.Some? && IsEnvelope(parsed.value) {
        FixpointIffClean(codec, parsed.value, PLAIN);
        var normalized := Normalize(codec, parsed.value, PLAIN);
        if normalized != parsed.value {
          assert codec.parse(codec.dump(normalized)) == Some(normalized);
        }
      }
    }
  }

  lemma NormalizedIsClean(codec: Codec, v: Json, mode: Mode)
    requires RoundTrips(codec)
    ensures Clean(codec, Normalize(codec, v, mode), mode)
  {
    NormalizeIdempotent(codec, v, mode);
    FixpointIffClean(codec, Normalize(codec, v, mode), mode);
  }

  /** Which fields go, and that a field with nothing to delete in it stays as it is. */
  lemma FieldsKept(codec: Codec, v: Json, mode: Mode, k: string)
    requires RoundTrips(codec) && v.Obj? && k in v.fields
    ensures Normalize(codec, v, mode).Obj?
    ensures k !in Normalize(codec, v, mode).fields <==>
              || ((mode.record || mode.schema) && k in FIELDS)
              || (mode.record && k == "type" && IsLabel(v.fields[k])
                  && ("memory_id" in v.fields || "memory_item_id" in v.fields || "excerpt" in v.fields))
    ensures k in Normalize(codec, v, mode).fields && CleanField(codec, v, k, mode) ==>
              Normalize(codec, v, mode).fields[k] == v.fields[k]
  {
    NormalizeKeys(codec, v, mode, k);
    FieldIffClean(codec, v, k, mode);
  }

  // ----- columns -----

  function NormalizeColumn(codec: Codec, v: Json, column: string): Json {
    if column == "metadata" && v.Obj? then
      Obj(map k | k in v.fields && k !in FIELDS :: v.fields[k])
    else
      Normalize(codec, v, Mode(column == "payload", false, column == "prepared_payload"))
  }

  lemma ColumnIdempotent(codec: Codec, v: Json, column: string)
    requires RoundTrips(codec)
    ensures NormalizeColumn(codec, NormalizeColumn(codec, v, column), column) == NormalizeColumn(codec, v, column)
  {
    var mode := Mode(column == "payload", false, column == "prepared_payload");
    if column == "metadata" && v.Obj? {
      var w := NormalizeColumn(codec, v, column);
      assert NormalizeColumn(codec, w, column).fields == w.fields;
    } else {
      NormalizeIdempotent(codec, v, mode);
      NormalizeKind(codec, v, mode);
    }
  }

  /** What each column is freed of: metadata of its own top-level fields, a payload of what its
      memory records hold, a prepared payload of what serialized results hold as well. */
  ghost predicate CleanColumn(codec: Codec, v: Json, column: string) {
    if column == "metadata" && v.Obj? then forall k :: k in FIELDS ==> k !in v.fields
    else if column == "payload" then Clean(codec, v, Mode(true, false, false))
    else if column == "prepared_payload" then Clean(codec, v, Mode(false, false, true))
    else Clean(codec, v, PLAIN)
  }

  /** The object without its contract-owned fields, and otherwise as it was. */
  ghost predicate WithoutFields(v: Json, w: Json)
    requires v.Obj?
  {
    && w.Obj? && (forall k :: k in w.fields <==> k in v.fields && k !in FIELDS)
    && (forall k :: k in w.fields && k in v.fields ==> w.fields[k] == v.fields[k])
  }

  lemma ColumnMeaning(codec: Codec, v: Json, column: string)
    requires RoundTrips(codec)
    ensures CleanColumn(codec, NormalizeColumn(codec, v, column), column)
    ensures NormalizeColumn(codec, v, column) == v <==> CleanColumn(codec, v, column)
    ensures column == "metadata" && v.Obj? ==> WithoutFields(v, NormalizeColumn(codec, v, column))
  {
    var mode := Mode(column == "payload", false, column == "prepared_payload");
    if column == "metadata" && v.Obj? {
      var w := NormalizeColumn(codec, v, column);
      if forall k :: k in FIELDS ==> k !in v.fields {
        assert w.fields == v.fields;
      }
    } else {
      NormalizedIsClean(codec, v, mode);
      FixpointIffClean(codec, v, mode);
      NormalizeKind(codec, v, mode);
    }
  }

  // ----- the handler and its checker -----

  /** The values of one column, row by row. `selects` is the fixed row filter together with
      the text pattern, which looks at the stored value. */
  class Column {
    const name: string
    const codec: Codec
    const selects: (nat, Json) -> bool
    var rows: seq<Json>

    constructor (name: string, codec: Codec, selects: (nat, Json) -> bool, rows: seq<Json>)
      ensures this.name == name && this.codec == codec && this.selects == selects && this.rows == rows
    {
      this.name, this.codec, this.selects, this.rows := name, codec, selects, rows;
    }

    /** The migration's own postcondition: no selected row would still change. */
    ghost predicate Normalized()
      reads this
    {
      forall i :: 0 <= i < |rows| && selects(i, rows[i]) ==> NormalizeColumn(codec, rows[i], name) == rows[i]
    }

    /** Rewrites the selected rows that change; no other row is touched. */
    method NormalizeRows()
      requires RoundTrips(codec)
      modifies this
      ensures Normalized()
      ensures |rows| == |old(rows)|
      ensures forall i :: 0 <= i < |rows| && selects(i, old(rows)[i]) ==> CleanColumn(codec, rows[i], name)
      ensures forall i :: 0 <= i < |rows| ==>
                rows[i] == if selects(i, old(rows)[i]) then NormalizeColumn(codec, old(rows)[i], name) else old(rows)[i]
    {
      for k := 0 to |rows|
        invariant |rows| == |old(rows)|
        invariant forall i :: 0 <= i < k ==>
                    rows[i]
                    == if selects(i, old(rows)[i]) then NormalizeColumn(codec, old(rows)[i], name) else old(rows)[i]
        invariant forall i :: k <= i < |rows| ==> rows[i] == old(rows)[i]
      {
        if selects(k, rows[k]) {
          var original := rows[k];
          var cleaned := NormalizeColumn(codec, original, name);
          if cleaned != original {
            rows := rows[k := cleaned];
          }
        }
      }
      forall i | 0 <= i < |rows| && selects(i, rows[i])
        ensures NormalizeColumn(codec, rows[i], name) == rows[i]
      {
        ColumnIdempotent(codec, old(rows)[i], name);
      }
      forall i | 0 <= i < |rows| && selects(i, old(rows)[i])
        ensures CleanColumn(codec, rows[i], name)
      {
        ColumnMeaning(codec, old(rows)[i], name);
      }
    }

    method IsNormalized() returns (ok: bool)
      ensures ok <==> Normalized()
    {
      for k := 0 to |rows|
        invariant forall i :: 0 <= i < k && selects(i, rows[i]) ==> NormalizeColumn(codec, rows[i], name) == rows[i]
      {
        if selects(k, rows[k]) && NormalizeColumn(codec, rows[k], name) != rows[k] { return false; }
      }
      ok := true;
    }
  }
}
