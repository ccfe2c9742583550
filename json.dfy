/**
 * Parsed JSON values and the parts of Go's encoding/json decoder that the row
 * codec relies on: decoding into []string, into map[string]string, and the
 * case-insensitive matching of object keys against struct field names.
 * Objects keep their members in document order, duplicates included, because
 * the decoder visits them in that order and a later member overwrites an
 * earlier one.
 */
module Json {
  import opened Wrappers

  datatype Json =
    | JNull
    | JBool(b: bool)
    | JNumber(literal: string)
    | JString(s: string)
    | JArray(items: seq<Json>)
    | JObject(members: seq<(string, Json)>)

  /** The keys of an object's members. */
  function MemberKeys(ms: seq<(string, Json)>): set<string>
  {
    set i | 0 <= i < |ms| :: ms[i].0
  }

  /** No key occurs twice among the members (true of everything json.Marshal prints). */
  ghost predicate DistinctKeys(ms: seq<(string, Json)>)
  {
    forall i, j :: 0 <= i < j < |ms| ==> ms[i].0 != ms[j].0
  }

  // ---------------------------------------------------------------- key matching

  /**
   * The decoder's case folding for the ASCII field names used here: ASCII
   * letters fold to upper case, and the two non-ASCII runes that the Go
   * decoder equates with ASCII letters of such names, U+017F (long s) and
   * U+212A (Kelvin sign), fold to S and K.
   */
  function FoldChar(c: char): char
  {
    if 'a' <= c <= 'z' then (c as int - 32) as char
    else if c == '\U{017F}' then 'S'
    else if c == '\U{212A}' then 'K'
    else c
  }

  /** An object key selects a struct field when it equals the field's name up to case folding. */
  predicate Matches(key: string, name: string)
  {
    |key| == |name| && forall i :: 0 <= i < |key| ==> FoldChar(key[i]) == FoldChar(name[i])
  }

  // ---------------------------------------------------------------- into []string

  /** A slice or map element: null leaves the zero value "", a string is taken, anything else fails. */
  function StringValue(v: Json): Option<string>
  {
    match v
    case JNull => Some("")
    case JString(s) => Some(s)
    case _ => None
  }

  /** Array elements decoded as strings: null leaves the zero value "", any other non-string fails. */
  function StringElems(items: seq<Json>): (r: Option<seq<string>>)
    ensures r.Some? ==> |r.value| == |items|
    ensures r.Some? <==> forall i :: 0 <= i < |items| ==> StringValue(items[i]).Some?
    ensures r.Some? ==> forall i :: 0 <= i < |items| ==> StringValue(items[i]) == Some(r.value[i])
  {
    if |items| == 0 then Some([])
    else
      var last := items[|items| - 1];
      match StringElems(items[..|items| - 1])
      case None => None
      case Some(front) =>
        match StringValue(last)
        case None => None
        case Some(s) => Some(front + [s])
  }

  /** json.Unmarshal into a fresh []string: null gives the nil (empty) slice; only arrays decode. */
  function UnmarshalStrings(j: Json): (r: Option<seq<string>>)
    ensures r.Some? <==> j.JNull? || (j.JArray? && StringElems(j.items).Some?)
    ensures j.JNull? ==> r == Some([])
  {
    match j
    case JNull => Some([])
    case JArray(items) => StringElems(items)
    case _ => None
  }

  // ---------------------------------------------------------------- into map[string]string

  /**
   * Decode the members of an object into the existing map `acc`, one after
   * another: each member sets its key, so a later duplicate wins, and keys of
   * `acc` that no member names are kept.
   */
  function MergeStrings(acc: map<string, string>, ms: seq<(string, Json)>): Option<map<string, string>>
    decreases |ms|
  {
    if |ms| == 0 then Some(acc)
    else
      match StringValue(ms[0].1)
      case None => None
      case Some(s) => MergeStrings(acc[ms[0].0 := s], ms[1..])
  }

  /** json.Unmarshal into a fresh map[string]string: null gives the nil (empty) map; only objects decode. */
  function UnmarshalStringMap(j: Json): Option<map<string, string>>
  {
    match j
    case JNull => Some(map[])
    case JObject(ms) => MergeStrings(map[], ms)
    case _ => None
  }

  // ---------------------------------------------------------------- properties

  lemma MatchesItself(s: string)
    ensures Matches(s, s)
  {
  }

  lemma MemberKeysCons(ms: seq<(string, Json)>)
    requires |ms| > 0
    ensures MemberKeys(ms) == {ms[0].0} + MemberKeys(ms[1..])
  {
    forall k | k in MemberKeys(ms)
      ensures k in {ms[0].0} + MemberKeys(ms[1..])
    {
      var i :| 0 <= i < |ms| && ms[i].0 == k;
      if i > 0 {
        assert ms[1..][i - 1] == ms[i];
      }
    }
    forall k | k in MemberKeys(ms[1..])
      ensures k in MemberKeys(ms)
    {
      var i :| 0 <= i < |ms[1..]| && ms[1..][i].0 == k;
      assert ms[i + 1] == ms[1..][i];
    }
  }

  /** Decoding a string map fails exactly when some member value is neither a string nor null. */
  lemma {:induction false} MergeStringsFails(acc: map<string, string>, ms: seq<(string, Json)>)
    decreases |ms|
    ensures MergeStrings(acc, ms).None? <==> exists i :: 0 <= i < |ms| && StringValue(ms[i].1).None?
  {
    if |ms| > 0 {
      if StringValue(ms[0].1).Some? {
        MergeStringsFails(acc[ms[0].0 := StringValue(ms[0].1).value], ms[1..]);
        if exists i :: 0 <= i < |ms| && StringValue(ms[i].1).None? {
          var i :| 0 <= i < |ms| && StringValue(ms[i].1).None?;
          assert ms[1..][i - 1] == ms[i];
        }
        if exists i :: 0 <= i < |ms[1..]| && StringValue(ms[1..][i].1).None? {
          var i :| 0 <= i < |ms[1..]| && StringValue(ms[1..][i].1).None?;
          assert ms[i + 1] == ms[1..][i];
        }
      }
    }
  }

  /**
   * With distinct keys, decoding a string map adds exactly the members' keys to
   * `acc`, each with its member's value, and keeps the other entries of `acc`.
   */
  lemma {:induction false} MergeStringsDistinct(acc: map<string, string>, ms: seq<(string, Json)>)
    requires DistinctKeys(ms)
    requires forall i :: 0 <= i < |ms| ==> StringValue(ms[i].1).Some?
    decreases |ms|
    ensures MergeStrings(acc, ms).Some?
    ensures MergeStrings(acc, ms).value.Keys == acc.Keys + MemberKeys(ms)
    ensures forall i :: 0 <= i < |ms| ==> MergeStrings(acc, ms).value[ms[i].0] == StringValue(ms[i].1).value
    ensures forall k :: k in acc && k !in MemberKeys(ms) ==> MergeStrings(acc, ms).value[k] == acc[k]
  {
    if |ms| > 0 {
      var tail := ms[1..];
      var acc1 := acc[ms[0].0 := StringValue(ms[0].1).value];
      assert forall i :: 0 <= i < |tail| ==> tail[i] == ms[i + 1];
      MergeStringsDistinct(acc1, tail);
      MemberKeysCons(ms);
      var res := MergeStrings(acc1, tail).value;
      assert MergeStrings(acc, ms).value == res;
      assert ms[0].0 !in MemberKeys(tail);
      forall i | 0 <= i < |ms|
        ensures res[ms[i].0] == StringValue(ms[i].1).value
      {
        if i > 0 {
          assert ms[i] == tail[i - 1];
        }
      }
    }
  }
}
