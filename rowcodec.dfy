/**
 * The custom JSON codec of a table row (types/encoding.go:25-85). A row
 * travels either as an array of strings, whose positions become the keys
 * "0", "1", ..., or as a flat object whose reserved keys carry the row
 * metadata and whose other keys are the column data. Bytes are out of scope:
 * decoding starts from a parsed JSON value, and encoding stops at the map that
 * is handed to json.Marshal, with `PrintedAs` relating it to the printed object.
 */
module RowCodec {
  import opened Wrappers
  import opened Decimal
  import opened Types
  import opened Json

  // ---------------------------------------------------------------- decode

  /** `make(map)` + `r.Data[strconv.Itoa(i)] = v` over the array. */
  function Positional(a: seq<string>): map<string, string>
  {
    if |a| == 0 then map[]
    else Positional(a[..|a| - 1])[Itoa(|a| - 1) := a[|a| - 1]]
  }

  /** The local rowCopy struct: the four metadata fields with their JSON names. */
  datatype Meta = Meta(rowId: string, rowClass: string, rowData: map<string, string>, rowAttr: map<string, string>)

  const ZeroMeta := Meta("", "", map[], map[])

  /** A member aimed at a string field: null changes nothing, a string replaces the value. */
  function StringField(before: string, v: Json): Option<string>
  {
    match v
    case JNull => Some(before)
    case JString(s) => Some(s)
    case _ => None
  }

  /** A member aimed at a map field: null resets it, an object merges into it. */
  function MapField(before: map<string, string>, v: Json): Option<map<string, string>>
  {
    match v
    case JNull => Some(map[])
    case JObject(ms) => MergeStrings(before, ms)
    case _ => None
  }

  /** Whether an object key selects one of the four rowCopy fields. */
  predicate MetaName(k: string)
  {
    Matches(k, "DT_RowId") || Matches(k, "DT_RowClass") || Matches(k, "DT_RowData") || Matches(k, "DT_RowAttr")
  }

  /** One object member decoded into the struct; keys naming no field are ignored. */
  function MetaMember(c: Meta, k: string, v: Json): Option<Meta>
  {
    if Matches(k, "DT_RowId") then
      match StringField(c.rowId, v) case None => None case Some(s) => Some(c.(rowId := s))
    else if Matches(k, "DT_RowClass") then
      match StringField(c.rowClass, v) case None => None case Some(s) => Some(c.(rowClass := s))
    else if Matches(k, "DT_RowData") then
      match MapField(c.rowData, v) case None => None case Some(m) => Some(c.(rowData := m))
    else if Matches(k, "DT_RowAttr") then
      match MapField(c.rowAttr, v) case None => None case Some(m) => Some(c.(rowAttr := m))
    else Some(c)
  }

  /** The members decoded into the struct in document order. */
  function MetaFold(c: Meta, ms: seq<(string, Json)>): Option<Meta>
    decreases |ms|
  {
    if |ms| == 0 then Some(c)
    else
      match MetaMember(c, ms[0].0, ms[0].1)
      case None => None
      case Some(c1) => MetaFold(c1, ms[1..])
  }

  /** json.Unmarshal into a fresh rowCopy: only an object (or null, a no-op) decodes. */
  function UnmarshalMeta(j: Json): Option<Meta>
  {
    match j
    case JNull => Some(ZeroMeta)
    case JObject(ms) => MetaFold(ZeroMeta, ms)
    case _ => None
  }

  /** The data map with the four reserved keys deleted. */
  function WithoutReserved(m: map<string, string>): map<string, string>
  {
    m - {"DT_RowId", "DT_RowClass", "DT_RowData", "DT_RowAttr"}
  }

  /**
   * UnmarshalJSON on the row `r`: an array of strings (or null) replaces only
   * the data; otherwise the value must decode both as the metadata struct and
   * as a string map, and the whole row is replaced.
   */
  function DecodeRow(r: Row, j: Json): Option<Row>
  {
    match UnmarshalStrings(j)
    case Some(a) => Some(r.(data := Positional(a)))
    case None =>
      match UnmarshalMeta(j)
      case None => None
      case Some(c) =>
        match UnmarshalStringMap(j)
        case None => None
        case Some(m) => Some(Row(WithoutReserved(m), c.rowId, c.rowClass, c.rowData, c.rowAttr))
  }

  /** UnmarshalJSON, with the fill loop of the array case and the delete loop of the object case. */
  method UnmarshalRow(r: Row, j: Json) returns (res: Option<Row>)
    ensures res == DecodeRow(r, j)
  {
    var rowData := UnmarshalStrings(j);
    if rowData.Some? {
      var a := rowData.value;
      var data: map<string, string> := map[];
      for i := 0 to |a|
        invariant data == Positional(a[..i])
      {
        assert a[..i + 1][..i] == a[..i];
        data := data[Itoa(i) := a[i]];
      }
      assert a[..|a|] == a;
      return Some(r.(data := data));
    }
    var c := UnmarshalMeta(j);
    if c.None? {
      return None;
    }
    var m := UnmarshalStringMap(j);
    if m.None? {
      return None;
    }
    var data := m.value;
    for i := 0 to |ReservedKeys|
      invariant data == m.value - (set n | 0 <= n < i :: ReservedKeys[n])
    {
      assert (set n | 0 <= n < i + 1 :: ReservedKeys[n]) == (set n | 0 <= n < i :: ReservedKeys[n]) + {ReservedKeys[i]};
      data := data - {ReservedKeys[i]};
    }
    assert (set n | 0 <= n < |ReservedKeys| :: ReservedKeys[n]) == {"DT_RowId", "DT_RowClass", "DT_RowData", "DT_RowAttr"} by {
      assert ReservedKeys[0] == "DT_RowId" && ReservedKeys[1] == "DT_RowClass";
      assert ReservedKeys[2] == "DT_RowData" && ReservedKeys[3] == "DT_RowAttr";
    }
    return Some(Row(data, c.value.rowId, c.value.rowClass, c.value.rowData, c.value.rowAttr));
  }

  // ---------------------------------------------------------------- encode

  /** A value of the map handed to json.Marshal: a string, or a map of strings. */
  datatype Field = Str(s: string) | StrMap(m: map<string, string>)

  /** The data entries as JSON values. */
  function DataFields(data: map<string, string>): map<string, Field>
  {
    map k | k in data :: Str(data[k])
  }

  /** A non-empty metadata field of r is emitted under the reserved key k. */
  predicate Overwritten(r: Row, k: string)
  {
    || (k == "DT_RowId" && r.rowId != "")
    || (k == "DT_RowClass" && r.rowClass != "")
    || (k == "DT_RowData" && |r.rowData| > 0)
    || (k == "DT_RowAttr" && |r.rowAttr| > 0)
  }

  /**
   * MarshalJSON up to json.Marshal: the data entries, overwritten by each
   * metadata field that is not empty, under its reserved key.
   */
  function EncodeRow(r: Row): (c: map<string, Field>)
    ensures forall k :: k in c <==> k in r.data || Overwritten(r, k)
    ensures r.rowId != "" ==> "DT_RowId" in c && c["DT_RowId"] == Str(r.rowId)
    ensures r.rowClass != "" ==> "DT_RowClass" in c && c["DT_RowClass"] == Str(r.rowClass)
    ensures |r.rowData| > 0 ==> "DT_RowData" in c && c["DT_RowData"] == StrMap(r.rowData)
    ensures |r.rowAttr| > 0 ==> "DT_RowAttr" in c && c["DT_RowAttr"] == StrMap(r.rowAttr)
    ensures forall k :: k in r.data && !Overwritten(r, k) ==> c[k] == Str(r.data[k])
  {
    var c0 := DataFields(r.data);
    var c1 := if r.rowId != "" then c0["DT_RowId" := Str(r.rowId)] else c0;
    var c2 := if r.rowClass != "" then c1["DT_RowClass" := Str(r.rowClass)] else c1;
    var c3 := if |r.rowData| > 0 then c2["DT_RowData" := StrMap(r.rowData)] else c2;
    if |r.rowAttr| > 0 then c3["DT_RowAttr" := StrMap(r.rowAttr)] else c3
  }

  /** MarshalJSON: copy the data map entry by entry, then add the non-empty metadata. */
  method MarshalRow(r: Row) returns (c: map<string, Field>)
    ensures c == EncodeRow(r)
  {
    c := map[];
    var rest := r.data.Keys;
    while rest != {}
      invariant rest <= r.data.Keys
      invariant c == map k | k in r.data.Keys - rest :: Str(r.data[k])
      decreases rest
    {
      var k :| k in rest;
      c := c[k := Str(r.data[k])];
      rest := rest - {k};
    }
    assert c == DataFields(r.data);
    if r.rowId != "" {
      c := c["DT_RowId" := Str(r.rowId)];
    }
    if r.rowClass != "" {
      c := c["DT_RowClass" := Str(r.rowClass)];
    }
    if |r.rowData| > 0 {
      c := c["DT_RowData" := StrMap(r.rowData)];
    }
    if |r.rowAttr| > 0 {
      c := c["DT_RowAttr" := StrMap(r.rowAttr)];
    }
  }

  /** How json.Marshal prints a field value: a string, or an object listing the map once per key. */
  ghost predicate FieldPrinted(f: Field, v: Json)
  {
    match f
    case Str(s) => v == JString(s)
    case StrMap(m) =>
      && v.JObject? && DistinctKeys(v.members) && MemberKeys(v.members) == m.Keys
      && forall i :: 0 <= i < |v.members| ==> v.members[i].1 == JString(m[v.members[i].0])
  }

  /** `j` is how json.Marshal prints the map `c`: an object listing every entry once, in some order. */
  ghost predicate PrintedAs(c: map<string, Field>, j: Json)
  {
    && j.JObject? && DistinctKeys(j.members) && MemberKeys(j.members) == c.Keys
    && forall i :: 0 <= i < |j.members| ==> FieldPrinted(c[j.members[i].0], j.members[i].1)
  }
}
