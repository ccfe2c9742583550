/**
 * The grammar of bracket-indexed form keys (types/encoding.go:14-18), written
 * as matchers over strings instead of regular expressions. Each matcher comes
 * with a declarative predicate describing the match the Go regexp engine
 * reports, and a lemma that the two agree in both directions.
 *
 * Regexp facts the predicates encode: `^`/`$` anchor at the ends of the whole
 * key; `.` does not match a newline; `(?U)` makes every quantifier lazy, so in
 * the column pattern the field is the SHORTEST non-empty text followed by `]`,
 * while in the search and order patterns the trailing `\]$` forces the field
 * to run to the final `]`. `[0-9]+` followed by `\]` is always the whole run
 * of digits.
 */
module FormKeys {
  import opened Wrappers
  import opened Decimal

  predicate HasPrefix(s: string, p: string)
  {
    |p| <= |s| && s[..|p|] == p
  }

  /** Length of the longest all-digit prefix of s. */
  function DigitRun(s: string): (n: nat)
    ensures n <= |s| && IsDigits(s[..n])
    ensures n < |s| ==> !IsDigit(s[n])
  {
    if |s| == 0 || !IsDigit(s[0]) then 0
    else
      var m := DigitRun(s[1..]);
      assert s[..1 + m] == [s[0]] + s[1..][..m];
      1 + m
  }

  /** Position of the first `]` in t at or after `from`. */
  function FindClose(t: string, from: nat): (j: Option<nat>)
    decreases |t| - from
    ensures j.Some? ==> from <= j.value < |t| && t[j.value] == ']'
    ensures j.Some? ==> forall i :: from <= i < j.value ==> t[i] != ']'
    ensures j.None? ==> forall i :: from <= i < |t| ==> t[i] != ']'
  {
    if from >= |t| then None
    else if t[from] == ']' then Some(from)
    else FindClose(t, from + 1)
  }

  // ---------------------------------------------------------------- search

  /** `(?U)^search\[(.+)\]$`: the field between `search[` and the final `]`. */
  function MatchSearch(k: string): Option<string>
  {
    if |k| >= 9 && k[..7] == "search[" && k[|k| - 1] == ']' && '\n' !in k[7..|k| - 1]
    then Some(k[7..|k| - 1])
    else None
  }

  ghost predicate SearchKey(k: string, field: string)
  {
    |field| > 0 && '\n' !in field && k == "search[" + field + "]"
  }

  lemma MatchSearchIff(k: string, field: string)
    ensures MatchSearch(k) == Some(field) <==> SearchKey(k, field)
  {
    if SearchKey(k, field) {
      assert k[..7] == "search[";
      assert k[7..|k| - 1] == field;
    }
    if MatchSearch(k) == Some(field) {
      assert k == k[..7] + k[7..|k| - 1] + [k[|k| - 1]];
    }
  }

  // ---------------------------------------------------------------- order

  /** `(?U)^order\[([0-9]+)\]\[(.+)\]$`: the index digits and the field. */
  function MatchOrder(k: string): (m: Option<(string, string)>)
    ensures m.Some? ==> |m.value.0| > 0 && IsDigits(m.value.0)
  {
    if |k| < 6 || k[..6] != "order[" then None
    else
      var t := k[6..];
      var n := DigitRun(t);
      var rest := t[n..];
      if n > 0 && |rest| >= 4 && rest[..2] == "][" && rest[|rest| - 1] == ']'
         && '\n' !in rest[2..|rest| - 1]
      then Some((t[..n], rest[2..|rest| - 1]))
      else None
  }

  ghost predicate OrderKey(k: string, id: string, field: string)
  {
    && |id| > 0 && IsDigits(id)
    && |field| > 0 && '\n' !in field
    && k == "order[" + id + "][" + field + "]"
  }

  /** The digit run of `id + rest` is `id` when rest starts with a non-digit. */
  lemma DigitRunOf(id: string, rest: string)
    requires IsDigits(id) && |rest| > 0 && !IsDigit(rest[0])
    ensures DigitRun(id + rest) == |id|
    ensures (id + rest)[..|id|] == id && (id + rest)[|id|..] == rest
  {
    var s := id + rest;
    assert s[..|id|] == id;
  }

  /** The matcher finds every key the order pattern describes. */
  lemma OrderKeyMatches(k: string, id: string, field: string)
    requires OrderKey(k, id, field)
    ensures MatchOrder(k) == Some((id, field))
  {
    assert k[..6] == "order[";
    var t := k[6..];
    var tail := "][" + field + "]";
    assert t == id + tail;
    DigitRunOf(id, tail);
    assert t[|id|..][2..|tail| - 1] == field;
  }

  /** Every match the matcher reports is described by the order pattern. */
  lemma MatchOrderSound(k: string)
    requires MatchOrder(k).Some?
    ensures OrderKey(k, MatchOrder(k).value.0, MatchOrder(k).value.1)
  {
    var (id, field) := MatchOrder(k).value;
    var t := k[6..];
    var n := DigitRun(t);
    var rest := t[n..];
    assert id == t[..n] && field == rest[2..|rest| - 1];
    assert rest == "][" + field + "]" by {
      assert rest == rest[..2] + rest[2..|rest| - 1] + [rest[|rest| - 1]];
    }
    assert t == id + rest;
    assert k == "order[" + t by {
      assert k == k[..6] + t;
    }
    Assoc("order[", id, rest);
    Assoc("order[" + id, "][" + field, "]");
    Assoc("order[" + id, "][", field);
  }

  lemma Assoc(a: string, b: string, c: string)
    ensures a + (b + c) == a + b + c
  {
  }

  lemma MatchOrderIff(k: string, id: string, field: string)
    ensures MatchOrder(k) == Some((id, field)) <==> OrderKey(k, id, field)
  {
    if OrderKey(k, id, field) {
      OrderKeyMatches(k, id, field);
    }
    if MatchOrder(k) == Some((id, field)) {
      MatchOrderSound(k);
    }
  }

  // ---------------------------------------------------------------- columns

  /**
   * `(?U)^columns\[([0-9]+)\]\[(.+)\](.*)$`: the index digits, the field (the
   * shortest non-empty text followed by `]`) and the rest of the key.
   */
  function MatchColumn(k: string): (m: Option<(string, string, string)>)
    ensures m.Some? ==> |m.value.0| > 0 && IsDigits(m.value.0)
  {
    if |k| < 8 || k[..8] != "columns[" then None
    else
      var t := k[8..];
      var n := DigitRun(t);
      var rest := t[n..];
      if n == 0 || |rest| < 2 || rest[..2] != "][" then None
      else
        var tail := rest[2..];
        if '\n' in tail then None
        else
          match FindClose(tail, 1)
          case None => None
          case Some(j) => Some((t[..n], tail[..j], tail[j + 1..]))
  }

  ghost predicate ColumnKey(k: string, id: string, field: string, rest: string)
  {
    && |id| > 0 && IsDigits(id)
    && |field| > 0 && '\n' !in field && '\n' !in rest
    && (forall i :: 1 <= i < |field| ==> field[i] != ']')
    && k == "columns[" + id + "][" + field + "]" + rest
  }

  /** The matcher finds every key the column pattern describes. */
  lemma ColumnKeyMatches(k: string, id: string, field: string, rest: string)
    requires ColumnKey(k, id, field, rest)
    ensures MatchColumn(k) == Some((id, field, rest))
  {
    assert k[..8] == "columns[";
    var t := k[8..];
    var after := "][" + field + "]" + rest;
    assert t == id + after;
    DigitRunOf(id, after);
    var tail := after[2..];
    assert tail == field + "]" + rest;
    assert tail[|field|] == ']';
    assert forall i :: 1 <= i < |field| ==> tail[i] == field[i];
    assert FindClose(tail, 1) == Some(|field|);
    assert tail[..|field|] == field;
    assert tail[|field| + 1..] == rest;
  }

  /** Every match the matcher reports is described by the column pattern. */
  lemma MatchColumnSound(k: string)
    requires MatchColumn(k).Some?
    ensures ColumnKey(k, MatchColumn(k).value.0, MatchColumn(k).value.1, MatchColumn(k).value.2)
  {
    var t := k[8..];
    var n := DigitRun(t);
    var tail := t[n..][2..];
    var j := FindClose(tail, 1).value;
    assert MatchColumn(k) == Some((t[..n], tail[..j], tail[j + 1..]));
    ColumnKeyOfParts(k, n, j);
  }

  /** The pieces the column matcher cuts a key into make up a column key. */
  lemma ColumnKeyOfParts(k: string, n: nat, j: nat)
    requires |k| >= 8 && k[..8] == "columns["
    requires 0 < n <= |k[8..]| && IsDigits(k[8..][..n])
    requires |k[8..][n..]| >= 2 && k[8..][n..][..2] == "]["
    requires '\n' !in k[8..][n..][2..]
    requires 1 <= j < |k[8..][n..][2..]| && k[8..][n..][2..][j] == ']'
    requires forall i :: 1 <= i < j ==> k[8..][n..][2..][i] != ']'
    ensures ColumnKey(k, k[8..][..n], k[8..][n..][2..][..j], k[8..][n..][2..][j + 1..])
  {
    var t := k[8..];
    var id := t[..n];
    var after := t[n..];
    var tail := after[2..];
    var field := tail[..j];
    var rest := tail[j + 1..];
    assert tail == field + "]" + rest by {
      assert tail == tail[..j] + [tail[j]] + tail[j + 1..];
    }
    assert after == "][" + tail by {
      assert after == after[..2] + after[2..];
    }
    assert t == id + after by {
      assert t == t[..n] + t[n..];
    }
    assert k == "columns[" + t by {
      assert k == k[..8] + t;
    }
    NotInSlices(tail, '\n', j);
    assert forall i :: 1 <= i < |field| ==> field[i] != ']' by {
      forall i | 1 <= i < |field| ensures field[i] != ']' {
        assert field[i] == tail[i];
      }
    }
    Assoc("columns[", id, after);
    Assoc("columns[" + id, "][", tail);
    Assoc("columns[" + id + "][", field + "]", rest);
    Assoc("columns[" + id + "][", field, "]");
  }

  /** A character absent from s is absent from both sides of position j. */
  lemma NotInSlices(s: string, c: char, j: nat)
    requires j < |s| && c !in s
    ensures c !in s[..j] && c !in s[j + 1..]
  {
  }

  lemma MatchColumnIff(k: string, id: string, field: string, rest: string)
    ensures MatchColumn(k) == Some((id, field, rest)) <==> ColumnKey(k, id, field, rest)
  {
    if ColumnKey(k, id, field, rest) {
      ColumnKeyMatches(k, id, field, rest);
    }
    if MatchColumn(k) == Some((id, field, rest)) {
      MatchColumnSound(k);
    }
  }
}
