/**
 * Properties of the row codec: what each decoding shape yields, what the
 * encoder emits, the round trip, and the rows that cannot travel.
 */
module RowCodecProps {
  import opened Wrappers
  import opened Decimal
  import opened Types
  import opened Json
  import opened RowCodec

  /** The positional map has exactly the keys Itoa(0) .. Itoa(n-1), key Itoa(i) holding a[i]. */
  lemma {:induction false} PositionalSpec(a: seq<string>)
    ensures Positional(a).Keys == set i | 0 <= i < |a| :: Itoa(i)
    ensures forall i :: 0 <= i < |a| ==> Positional(a)[Itoa(i)] == a[i]
  {
    if |a| > 0 {
      var n := |a| - 1;
      var front := a[..n];
      PositionalSpec(front);
      assert (set i | 0 <= i < |a| :: Itoa(i)) == (set i | 0 <= i < n :: Itoa(i)) + {Itoa(n)};
      forall i | 0 <= i < |a|
        ensures Itoa(i) in Positional(a) && Positional(a)[Itoa(i)] == a[i]
      {
        assert Itoa(i) in (set j | 0 <= j < |a| :: Itoa(j));
        if i < n {
          assert Itoa(i) in (set j | 0 <= j < n :: Itoa(j));
          ItoaInjective(i, n);
          assert front[i] == a[i];
        }
      }
    }
  }

  /**
   * An array decodes iff every element is a string or null, and then only the
   * data changes: key Itoa(i) holds element i ("" for null), and no other key.
   */
  lemma DecodeArray(r: Row, items: seq<Json>)
    ensures DecodeRow(r, JArray(items)).Some? <==>
      forall i :: 0 <= i < |items| ==> items[i].JString? || items[i].JNull?
    ensures DecodeRow(r, JArray(items)).Some? ==>
      var d := DecodeRow(r, JArray(items)).value;
      && d == r.(data := d.data)
      && d.data.Keys == (set i | 0 <= i < |items| :: Itoa(i))
      && forall i :: 0 <= i < |items| ==> d.data[Itoa(i)] == (if items[i].JString? then items[i].s else "")
  {
    var a := StringElems(items);
    if a.Some? {
      PositionalSpec(a.value);
      assert DecodeRow(r, JArray(items)) == Some(r.(data := Positional(a.value)));
    }
  }

  /** null decodes through the array shape: the data becomes empty and nothing else changes. */
  lemma DecodeNull(r: Row)
    ensures DecodeRow(r, JNull) == Some(r.(data := map[]))
  {
  }

  /** With all values strings and only exact aliases of the two string fields, the struct pass picks those values. */
  lemma {:induction false} MetaFoldStrings(c: Meta, ms: seq<(string, Json)>, id: string, cls: string)
    requires forall i :: 0 <= i < |ms| ==> ms[i].1.JString?
    requires forall i :: 0 <= i < |ms| && Matches(ms[i].0, "DT_RowId") ==> ms[i] == ("DT_RowId", JString(id))
    requires forall i :: 0 <= i < |ms| && Matches(ms[i].0, "DT_RowClass") ==> ms[i] == ("DT_RowClass", JString(cls))
    requires forall i :: 0 <= i < |ms| ==> !Matches(ms[i].0, "DT_RowData") && !Matches(ms[i].0, "DT_RowAttr")
    decreases |ms|
    ensures MetaFold(c, ms) == Some(c.(
      rowId := if "DT_RowId" in MemberKeys(ms) then id else c.rowId,
      rowClass := if "DT_RowClass" in MemberKeys(ms) then cls else c.rowClass))
  {
    if |ms| > 0 {
      var tail := ms[1..];
      assert forall i :: 0 <= i < |tail| ==> tail[i] == ms[i + 1];
      MemberKeysCons(ms);
      MatchesItself("DT_RowId");
      MatchesItself("DT_RowClass");
      var c1 := MetaMember(c, ms[0].0, ms[0].1).value;
      MetaFoldStrings(c1, tail, id, cls);
    }
  }

  /** When every member value is a string or null, the struct pass never fills the two map fields. */
  lemma {:induction false} MetaFoldScalars(c: Meta, ms: seq<(string, Json)>)
    requires c.rowData == map[] && c.rowAttr == map[]
    requires forall i :: 0 <= i < |ms| ==> ms[i].1.JString? || ms[i].1.JNull?
    decreases |ms|
    ensures MetaFold(c, ms).Some? ==> MetaFold(c, ms).value.rowData == map[] && MetaFold(c, ms).value.rowAttr == map[]
  {
    if |ms| > 0 && MetaMember(c, ms[0].0, ms[0].1).Some? {
      var tail := ms[1..];
      assert forall i :: 0 <= i < |tail| ==> tail[i] == ms[i + 1];
      MetaFoldScalars(MetaMember(c, ms[0].0, ms[0].1).value, tail);
    }
  }

  /**
   * Every row decoded from an object has empty RowData and RowAttr (a nested
   * object fails the string-map pass) and no exact reserved key in its data.
   */
  lemma DecodedObjectShape(r: Row, ms: seq<(string, Json)>)
    requires DecodeRow(r, JObject(ms)).Some?
    ensures DecodeRow(r, JObject(ms)).value.rowData == map[]
    ensures DecodeRow(r, JObject(ms)).value.rowAttr == map[]
    ensures forall k :: k in ReservedKeys ==> k !in DecodeRow(r, JObject(ms)).value.data
  {
    MergeStringsFails(map[], ms);
    MetaFoldScalars(ZeroMeta, ms);
  }

  /** With every value a string, the struct pass fails exactly on a member aimed at one of the two map fields. */
  lemma {:induction false} MetaFoldStringsFails(c: Meta, ms: seq<(string, Json)>)
    requires forall i :: 0 <= i < |ms| ==> ms[i].1.JString?
    decreases |ms|
    ensures MetaFold(c, ms).None? <==>
      exists i :: 0 <= i < |ms| && (Matches(ms[i].0, "DT_RowData") || Matches(ms[i].0, "DT_RowAttr"))
  {
    if |ms| > 0 {
      var tail := ms[1..];
      assert forall i :: 0 <= i < |tail| ==> tail[i] == ms[i + 1];
      if MetaMember(c, ms[0].0, ms[0].1).Some? {
        MetaFoldStringsFails(MetaMember(c, ms[0].0, ms[0].1).value, tail);
        assert !Matches(ms[0].0, "DT_RowData") && !Matches(ms[0].0, "DT_RowAttr");
        if exists i :: 0 <= i < |ms| && (Matches(ms[i].0, "DT_RowData") || Matches(ms[i].0, "DT_RowAttr")) {
          var i :| 0 <= i < |ms| && (Matches(ms[i].0, "DT_RowData") || Matches(ms[i].0, "DT_RowAttr"));
          assert tail[i - 1] == ms[i];
        }
      }
    }
  }

  /**
   * Decoding a general object with distinct keys, string values and the two
   * string metadata keys spelled exactly: it fails exactly when a member is
   * aimed at DT_RowData or DT_RowAttr; otherwise the data is the object less
   * the four reserved keys, and RowId and RowClass come from their members.
   */
  lemma DecodeObject(prev: Row, ms: seq<(string, Json)>)
    requires DistinctKeys(ms)
    requires forall i :: 0 <= i < |ms| ==> ms[i].1.JString?
    requires forall i :: 0 <= i < |ms| && Matches(ms[i].0, "DT_RowId") ==> ms[i].0 == "DT_RowId"
    requires forall i :: 0 <= i < |ms| && Matches(ms[i].0, "DT_RowClass") ==> ms[i].0 == "DT_RowClass"
    ensures DecodeRow(prev, JObject(ms)).None? <==>
      exists i :: 0 <= i < |ms| && (Matches(ms[i].0, "DT_RowData") || Matches(ms[i].0, "DT_RowAttr"))
    ensures DecodeRow(prev, JObject(ms)).Some? ==>
      var d := DecodeRow(prev, JObject(ms)).value;
      && d.data.Keys == MemberKeys(ms) - {"DT_RowId", "DT_RowClass", "DT_RowData", "DT_RowAttr"}
      && (forall i :: 0 <= i < |ms| && ms[i].0 in d.data ==> d.data[ms[i].0] == ms[i].1.s)
      && (forall i :: 0 <= i < |ms| && ms[i].0 == "DT_RowId" ==> d.rowId == ms[i].1.s)
      && ("DT_RowId" !in MemberKeys(ms) ==> d.rowId == "")
      && (forall i :: 0 <= i < |ms| && ms[i].0 == "DT_RowClass" ==> d.rowClass == ms[i].1.s)
      && ("DT_RowClass" !in MemberKeys(ms) ==> d.rowClass == "")
      && d.rowData == map[] && d.rowAttr == map[]
  {
    assert UnmarshalStrings(JObject(ms)) == None;
    MetaFoldStringsFails(ZeroMeta, ms);
    var data := ObjectData(ms);
    if !exists i :: 0 <= i < |ms| && (Matches(ms[i].0, "DT_RowData") || Matches(ms[i].0, "DT_RowAttr")) {
      var id, cls := ObjectMeta(ms);
      assert DecodeRow(prev, JObject(ms)) == Some(Row(data, id, cls, map[], map[]));
    }
  }

  /** The string-map pass over such an object, less the reserved keys. */
  lemma ObjectData(ms: seq<(string, Json)>) returns (data: map<string, string>)
    requires DistinctKeys(ms)
    requires forall i :: 0 <= i < |ms| ==> ms[i].1.JString?
    ensures UnmarshalStringMap(JObject(ms)).Some?
    ensures data == WithoutReserved(UnmarshalStringMap(JObject(ms)).value)
    ensures data.Keys == MemberKeys(ms) - {"DT_RowId", "DT_RowClass", "DT_RowData", "DT_RowAttr"}
    ensures forall i :: 0 <= i < |ms| && ms[i].0 in data ==> data[ms[i].0] == ms[i].1.s
  {
    MergeStringsDistinct(map[], ms);
    data := WithoutReserved(MergeStrings(map[], ms).value);
  }

  /** The struct pass over such an object, when no member is aimed at a map field. */
  lemma ObjectMeta(ms: seq<(string, Json)>) returns (id: string, cls: string)
    requires DistinctKeys(ms)
    requires forall i :: 0 <= i < |ms| ==> ms[i].1.JString?
    requires forall i :: 0 <= i < |ms| && Matches(ms[i].0, "DT_RowId") ==> ms[i].0 == "DT_RowId"
    requires forall i :: 0 <= i < |ms| && Matches(ms[i].0, "DT_RowClass") ==> ms[i].0 == "DT_RowClass"
    requires forall i :: 0 <= i < |ms| ==> !Matches(ms[i].0, "DT_RowData") && !Matches(ms[i].0, "DT_RowAttr")
    ensures UnmarshalMeta(JObject(ms)) == Some(Meta(id, cls, map[], map[]))
    ensures forall i :: 0 <= i < |ms| && ms[i].0 == "DT_RowId" ==> id == ms[i].1.s
    ensures "DT_RowId" !in MemberKeys(ms) ==> id == ""
    ensures forall i :: 0 <= i < |ms| && ms[i].0 == "DT_RowClass" ==> cls == ms[i].1.s
    ensures "DT_RowClass" !in MemberKeys(ms) ==> cls == ""
  {
    id := if "DT_RowId" in MemberKeys(ms) then ValueOf(ms, "DT_RowId") else "";
    cls := if "DT_RowClass" in MemberKeys(ms) then ValueOf(ms, "DT_RowClass") else "";
    MetaFoldStrings(ZeroMeta, ms, id, cls);
  }

  /** The string value of the member with key k (keys being distinct, there is one). */
  ghost function ValueOf(ms: seq<(string, Json)>, k: string): (v: string)
    requires DistinctKeys(ms) && k in MemberKeys(ms)
    requires forall i :: 0 <= i < |ms| ==> ms[i].1.JString?
    ensures forall i :: 0 <= i < |ms| && ms[i].0 == k ==> ms[i].1 == JString(v)
  {
    var i :| 0 <= i < |ms| && ms[i].0 == k;
    ms[i].1.s
  }

  /** An object that fails the string-map pass does not decode, whatever the struct pass does. */
  lemma ObjectNeedsStringMap(prev: Row, ms: seq<(string, Json)>, i: nat)
    requires i < |ms| && StringValue(ms[i].1).None?
    ensures DecodeRow(prev, JObject(ms)) == None
  {
    MergeStringsFails(map[], ms);
    assert UnmarshalStringMap(JObject(ms)) == None;
  }

  /** A row with a non-empty RowData or RowAttr cannot be decoded from its own encoding. */
  lemma NestedMetaDoesNotDecode(r: Row, prev: Row, j: Json)
    requires |r.rowData| > 0 || |r.rowAttr| > 0
    requires PrintedAs(EncodeRow(r), j)
    ensures DecodeRow(prev, j) == None
  {
    var i := NestedMember(r, j);
    ObjectNeedsStringMap(prev, j.members, i);
  }

  /** Some member of a printing of such a row is an object, under DT_RowData or DT_RowAttr. */
  lemma NestedMember(r: Row, j: Json) returns (i: nat)
    requires |r.rowData| > 0 || |r.rowAttr| > 0
    requires PrintedAs(EncodeRow(r), j)
    ensures j.JObject? && i < |j.members| && StringValue(j.members[i].1).None?
  {
    var k := NestedField(r);
    i := PrintedMember(EncodeRow(r), j, k);
    assert j.members[i].1.JObject?;
  }

  /** A non-empty metadata map is encoded as a map entry. */
  lemma NestedField(r: Row) returns (k: string)
    requires |r.rowData| > 0 || |r.rowAttr| > 0
    ensures k in EncodeRow(r) && EncodeRow(r)[k].StrMap?
  {
    k := if |r.rowData| > 0 then "DT_RowData" else "DT_RowAttr";
  }

  /** Every entry of a printed map is printed as some member. */
  lemma PrintedMember(c: map<string, Field>, j: Json, k: string) returns (i: nat)
    requires PrintedAs(c, j) && k in c
    ensures i < |j.members| && j.members[i].0 == k && FieldPrinted(c[k], j.members[i].1)
  {
    assert k in MemberKeys(j.members);
    i :| 0 <= i < |j.members| && j.members[i].0 == k;
  }

  /** The rows the round trip covers: empty metadata maps, and no data key that names a metadata field. */
  ghost predicate Plain(r: Row)
  {
    r.rowData == map[] && r.rowAttr == map[] && forall k :: k in r.data ==> !MetaName(k)
  }

  /** What each printed member of a plain row is: a string, and an exact reserved key only for its own field. */
  lemma PlainMembers(r: Row, ms: seq<(string, Json)>)
    requires Plain(r)
    requires PrintedAs(EncodeRow(r), JObject(ms))
    ensures forall i :: 0 <= i < |ms| ==> ms[i].1 == JString(EncodeRow(r)[ms[i].0].s)
    ensures forall i :: 0 <= i < |ms| && Matches(ms[i].0, "DT_RowId") ==> ms[i] == ("DT_RowId", JString(r.rowId))
    ensures forall i :: 0 <= i < |ms| && Matches(ms[i].0, "DT_RowClass") ==> ms[i] == ("DT_RowClass", JString(r.rowClass))
    ensures forall i :: 0 <= i < |ms| ==> !Matches(ms[i].0, "DT_RowData") && !Matches(ms[i].0, "DT_RowAttr")
  {
    var c := EncodeRow(r);
    MatchesItself("DT_RowId");
    MatchesItself("DT_RowClass");
    MatchesItself("DT_RowData");
    MatchesItself("DT_RowAttr");
    assert "DT_RowId" !in r.data && "DT_RowClass" !in r.data;
    forall i | 0 <= i < |ms|
      ensures ms[i].1 == JString(c[ms[i].0].s)
      ensures Matches(ms[i].0, "DT_RowId") ==> ms[i] == ("DT_RowId", JString(r.rowId))
      ensures Matches(ms[i].0, "DT_RowClass") ==> ms[i] == ("DT_RowClass", JString(r.rowClass))
      ensures !Matches(ms[i].0, "DT_RowData") && !Matches(ms[i].0, "DT_RowAttr")
    {
      var k := ms[i].0;
      assert k in MemberKeys(ms);
      assert k in c;
      assert k in r.data || k == "DT_RowId" || k == "DT_RowClass";
      assert FieldPrinted(c[k], ms[i].1);
    }
  }

  /** The struct pass over a printed plain row recovers its two string fields. */
  lemma PlainMeta(r: Row, ms: seq<(string, Json)>)
    requires Plain(r)
    requires PrintedAs(EncodeRow(r), JObject(ms))
    ensures UnmarshalMeta(JObject(ms)) == Some(Meta(r.rowId, r.rowClass, map[], map[]))
  {
    PlainMembers(r, ms);
    MetaFoldStrings(ZeroMeta, ms, r.rowId, r.rowClass);
    assert "DT_RowId" in MemberKeys(ms) <==> r.rowId != "";
    assert "DT_RowClass" in MemberKeys(ms) <==> r.rowClass != "";
  }

  /** A printed map of strings decodes as a string map back to those strings. */
  lemma PrintedStrings(c: map<string, Field>, ms: seq<(string, Json)>)
    requires PrintedAs(c, JObject(ms))
    requires forall k :: k in c ==> c[k].Str?
    ensures MergeStrings(map[], ms).Some?
    ensures MergeStrings(map[], ms).value == map k | k in c :: c[k].s
  {
    forall i | 0 <= i < |ms|
      ensures StringValue(ms[i].1) == Some(c[ms[i].0].s)
    {
      assert FieldPrinted(c[ms[i].0], ms[i].1);
    }
    MergeStringsDistinct(map[], ms);
    var m := MergeStrings(map[], ms).value;
    forall k | k in c
      ensures m[k] == c[k].s
    {
      assert k in MemberKeys(ms);
      var i :| 0 <= i < |ms| && ms[i].0 == k;
    }
  }

  /** A plain row's data keys are not reserved keys. */
  lemma PlainNotReserved(r: Row)
    requires Plain(r)
    ensures forall k :: k in r.data ==> k !in ReservedKeys
  {
    MatchesItself("DT_RowId");
    MatchesItself("DT_RowClass");
    MatchesItself("DT_RowData");
    MatchesItself("DT_RowAttr");
  }

  /** The string-map pass over a printed plain row, less the reserved keys, recovers its data. */
  lemma PlainData(r: Row, ms: seq<(string, Json)>)
    requires Plain(r)
    requires PrintedAs(EncodeRow(r), JObject(ms))
    ensures UnmarshalStringMap(JObject(ms)).Some?
    ensures WithoutReserved(UnmarshalStringMap(JObject(ms)).value) == r.data
  {
    PlainNotReserved(r);
    DataRecovered(r, ms);
  }

  /** The encoding of a row with empty metadata maps holds only strings. */
  lemma EncodedStrings(r: Row)
    requires r.rowData == map[] && r.rowAttr == map[]
    ensures forall k :: k in EncodeRow(r) ==> EncodeRow(r)[k].Str?
  {
  }

  /** Dropping the reserved keys from such an encoding leaves the data. */
  lemma StripEncoded(r: Row)
    requires r.rowData == map[] && r.rowAttr == map[]
    requires forall k :: k in r.data ==> k !in ReservedKeys
    ensures WithoutReserved(map k | k in EncodeRow(r) :: EncodeRow(r)[k].s) == r.data
  {
    var c := EncodeRow(r);
    var data := WithoutReserved(map k | k in c :: c[k].s);
    forall k | k in r.data
      ensures k in data && data[k] == r.data[k]
    {
      assert k !in ReservedKeys;
      assert !Overwritten(r, k);
    }
    forall k | k in data
      ensures k in r.data
    {
      assert k in c && !Overwritten(r, k);
    }
  }

  lemma DataRecovered(r: Row, ms: seq<(string, Json)>)
    requires r.rowData == map[] && r.rowAttr == map[]
    requires forall k :: k in r.data ==> k !in ReservedKeys
    requires PrintedAs(EncodeRow(r), JObject(ms))
    ensures UnmarshalStringMap(JObject(ms)).Some?
    ensures WithoutReserved(UnmarshalStringMap(JObject(ms)).value) == r.data
  {
    EncodedStrings(r);
    PrintedStrings(EncodeRow(r), ms);
    StripEncoded(r);
  }

  /**
   * Round trip: a plain row decodes from any printing of its encoding, into
   * any previous row, back to itself.
   */
  lemma RoundTrip(r: Row, prev: Row, j: Json)
    requires Plain(r)
    requires PrintedAs(EncodeRow(r), j)
    ensures DecodeRow(prev, j) == Some(r)
  {
    PlainMeta(r, j.members);
    PlainData(r, j.members);
  }
}
