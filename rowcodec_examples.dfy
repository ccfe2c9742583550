/** Rows from the codec's documented cases, decoded and encoded. */
module RowCodecExamples {
  import opened Wrappers
  import opened Decimal
  import opened Types
  import opened Json
  import opened RowCodec
  import opened RowCodecProps

  /** An array row: positions become the keys "0" and "1". */
  lemma ArrayRow()
    ensures DecodeRow(ZeroRow, JArray([JString("Airi"), JString("Satou")]))
         == Some(ZeroRow.(data := map["0" := "Airi", "1" := "Satou"]))
  {
    var items := [JString("Airi"), JString("Satou")];
    DecodeArray(ZeroRow, items);
    assert Itoa(0) == "0" && Itoa(1) == "1";
    assert (set i | 0 <= i < 2 :: Itoa(i)) == {"0", "1"} by {
      assert Itoa(0) in (set i | 0 <= i < 2 :: Itoa(i));
      assert Itoa(1) in (set i | 0 <= i < 2 :: Itoa(i));
    }
    var d := DecodeRow(ZeroRow, JArray(items)).value;
    assert d.data["0"] == "Airi" && d.data["1"] == "Satou";
    assert d.data == map["0" := "Airi", "1" := "Satou"];
  }

  lemma CaseVariantMatches()
    ensures Matches("dt_rowid", "DT_RowId")
  {
    forall i | 0 <= i < 8
      ensures FoldChar("dt_rowid"[i]) == FoldChar("DT_RowId"[i])
    {
      if i == 0 {} else if i == 1 {} else if i == 2 {} else if i == 3 {}
      else if i == 4 {} else if i == 5 {} else if i == 6 {} else {}
    }
  }

  /**
   * A data key that names a metadata field up to case is read into the
   * metadata by the struct pass but kept in the data by the exact-case
   * delete, so such a row does not survive encoding and decoding.
   */
  lemma CaseVariantReservedKey(prev: Row)
    ensures DecodeRow(prev, JObject([("dt_rowid", JString("x"))]))
         == Some(Row(map["dt_rowid" := "x"], "x", "", map[], map[]))
  {
    var ms := [("dt_rowid", JString("x"))];
    assert ms[1..] == [];
    CaseVariantMatches();
    assert MetaMember(ZeroMeta, "dt_rowid", JString("x")) == Some(ZeroMeta.(rowId := "x"));
    assert MetaFold(ZeroMeta, ms) == Some(ZeroMeta.(rowId := "x"));
    assert MergeStrings(map[], ms) == Some(map["dt_rowid" := "x"]);
    assert "dt_rowid" != "DT_RowId";
    assert WithoutReserved(map["dt_rowid" := "x"]) == map["dt_rowid" := "x"];
  }

  const AiriRow := Row(map["first_name" := "Airi", "last_name" := "Satou"], "row_1", "rowclass", map[], map[])

  const AiriMembers := [
    ("DT_RowId", JString("row_1")), ("DT_RowClass", JString("rowclass")),
    ("first_name", JString("Airi")), ("last_name", JString("Satou"))]

  lemma AiriRowIsPlain()
    ensures Plain(AiriRow)
  {
    assert FoldChar("first_name"[0]) != FoldChar("DT_RowData"[0]);
    assert FoldChar("first_name"[0]) != FoldChar("DT_RowAttr"[0]);
    assert !MetaName("first_name") && !MetaName("last_name");
  }

  lemma AiriRowEncoding()
    ensures EncodeRow(AiriRow) == map[
      "first_name" := Str("Airi"), "last_name" := Str("Satou"),
      "DT_RowId" := Str("row_1"), "DT_RowClass" := Str("rowclass")]
  {
  }

  lemma AiriRowPrinted()
    ensures PrintedAs(EncodeRow(AiriRow), JObject(AiriMembers))
  {
    AiriRowEncoding();
    var ms := AiriMembers;
    assert ms[0].0 == "DT_RowId" && ms[1].0 == "DT_RowClass";
    assert ms[2].0 == "first_name" && ms[3].0 == "last_name";
    assert MemberKeys(ms) == {"DT_RowId", "DT_RowClass", "first_name", "last_name"};
  }

  /**
   * An object row with id and class, which is also the object the encoder
   * prints for that row: the two reserved keys become metadata and leave the
   * data.
   */
  lemma ObjectRowWithIdAndClass(prev: Row)
    ensures DecodeRow(prev, JObject(AiriMembers)) == Some(AiriRow)
  {
    AiriRowIsPlain();
    AiriRowPrinted();
    RoundTrip(AiriRow, prev, JObject(AiriMembers));
  }
}
