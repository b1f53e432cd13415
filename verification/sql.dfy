/** The upsert statement builder (main.py, `generate_insert_sql`): a
    column list, one `%s` placeholder per column, and an
    `ON DUPLICATE KEY UPDATE` clause assigning every column that is not in
    the ignore list from the inserted row. */
module Sql {

  /** Python's `sep.join(xs)`. */
  function Join(xs: seq<string>, sep: string): string {
    if |xs| == 0 then ""
    else if |xs| == 1 then xs[0]
    else xs[0] + sep + Join(xs[1..], sep)
  }

  /** Python's `s.split(c)` for a one-character separator: the pieces
      between separators, always at least one. */
  function Split(s: string, c: char): (r: seq<string>)
    ensures |r| > 0
  {
    if |s| == 0 then [""]
    else if s[0] == c then [""] + Split(s[1..], c)
    else
      var rest := Split(s[1..], c);
      [[s[0]] + rest[0]] + rest[1..]
  }

  /** A piece without the separator is read back whole, and the separator
      after it starts the next piece. */
  lemma {:induction false} SplitPiece(a: string, b: string, c: char)
    requires c !in a
    ensures Split(a, c) == [a]
    ensures Split(a + [c] + b, c) == [a] + Split(b, c)
  {
    if |a| > 0 {
      SplitPiece(a[1..], b, c);
      assert a == [a[0]] + a[1..];
      assert (a + [c] + b)[1..] == a[1..] + [c] + b;
    } else {
      assert a + [c] + b == [c] + b;
      assert ([c] + b)[1..] == b;
    }
  }

  /** Splitting a joined list at the separator gives the list back,
      provided no element contains the separator. */
  lemma {:induction false} SplitJoin(xs: seq<string>, c: char)
    requires |xs| > 0
    requires forall i :: 0 <= i < |xs| ==> c !in xs[i]
    ensures Split(Join(xs, [c]), c) == xs
  {
    if |xs| == 1 {
      SplitPiece(xs[0], "", c);
    } else {
      SplitJoin(xs[1..], c);
      SplitPiece(xs[0], Join(xs[1..], [c]), c);
      assert [xs[0]] + xs[1..] == xs;
    }
  }

  /** `['%s'] * n`. */
  function Placeholders(n: nat): (r: seq<string>)
    ensures |r| == n
    ensures forall i :: 0 <= i < n ==> r[i] == "%s"
  {
    if n == 0 then [] else ["%s"] + Placeholders(n - 1)
  }

  /** `'{0}=VALUES({0})'.format(key)`. */
  function Assignment(key: string): string {
    key + "=VALUES(" + key + ")"
  }

  /** The assignments of the update clause, for the keys not ignored, in
      key order. */
  function Assignments(keys: seq<string>, ignore: seq<string>): seq<string> {
    if |keys| == 0 then []
    else if keys[|keys| - 1] in ignore then Assignments(keys[..|keys| - 1], ignore)
    else Assignments(keys[..|keys| - 1], ignore) + [Assignment(keys[|keys| - 1])]
  }

  /** A key is assigned exactly when it is one of the keys and not ignored. */
  lemma {:induction false} AssignmentsMembers(keys: seq<string>, ignore: seq<string>, k: string)
    ensures Assignment(k) in Assignments(keys, ignore) <==> k in keys && k !in ignore
  {
    if |keys| > 0 {
      var init := keys[..|keys| - 1];
      AssignmentsMembers(init, ignore, k);
      assert keys == init + [keys[|keys| - 1]];
      AssignmentInjective(k, keys[|keys| - 1]);
    }
  }

  /** Different keys give different assignments. */
  lemma AssignmentInjective(k: string, j: string)
    ensures Assignment(k) == Assignment(j) ==> k == j
  {
    if Assignment(k) == Assignment(j) {
      assert |k| == |j|;
      assert k == Assignment(k)[..|k|];
      assert j == Assignment(j)[..|j|];
    }
  }

  /** Every key ignored: no assignment at all. */
  lemma {:induction false} AssignmentsAllIgnored(keys: seq<string>, ignore: seq<string>)
    requires forall i :: 0 <= i < |keys| ==> keys[i] in ignore
    ensures Assignments(keys, ignore) == []
  {
    if |keys| > 0 {
      AssignmentsAllIgnored(keys[..|keys| - 1], ignore);
    }
  }

  /** Each element followed by the separator, as the source's loop builds
      the update clause before it cuts off the last character. */
  function Terminated(xs: seq<string>, sep: string): string {
    if |xs| == 0 then "" else Terminated(xs[..|xs| - 1], sep) + xs[|xs| - 1] + sep
  }

  /** Dropping the final separator of the terminated form gives the joined
      form: no trailing comma. */
  lemma {:induction false} TerminatedIsJoinPlusSep(xs: seq<string>, sep: string)
    requires |xs| > 0
    ensures Terminated(xs, sep) == Join(xs, sep) + sep
  {
    if |xs| > 1 {
      var init := xs[..|xs| - 1];
      TerminatedIsJoinPlusSep(init, sep);
      JoinSnoc(init, xs[|xs| - 1], sep);
      assert init + [xs[|xs| - 1]] == xs;
    }
  }

  lemma {:induction false} JoinSnoc(xs: seq<string>, x: string, sep: string)
    requires |xs| > 0
    ensures Join(xs + [x], sep) == Join(xs, sep) + sep + x
  {
    if |xs| == 1 {
      assert (xs + [x])[1..] == [x];
    } else {
      JoinSnoc(xs[1..], x, sep);
      assert (xs + [x])[1..] == xs[1..] + [x];
    }
  }

  /** The statement for a table, its column list, values list and update
      clause. */
  function Statement(table: string, columns: string, values: string, updates: string): string {
    "INSERT INTO " + table + " (" + columns + ") VALUES (" + values + ")  ON DUPLICATE KEY UPDATE " + updates + "; "
  }

  /** `generate_insert_sql(target_dict, table_name, ignore_list)`, with the
      dictionary given by its keys in insertion order. The update clause is
      built as the source builds it, one `key=VALUES(key),` at a time, and
      cut before its last character. */
  method GenerateInsertSql(keys: seq<string>, table: string, ignore: seq<string>) returns (sql: string)
    ensures sql == Statement(table, Join(keys, ","), Join(Placeholders(|keys|), ","), Join(Assignments(keys, ignore), ","))
  {
    var columns := Join(keys, ",");
    var values := Join(Placeholders(|keys|), ",");
    var updateValues := "";
    for i := 0 to |keys|
      invariant updateValues == Terminated(Assignments(keys[..i], ignore), ",")
    {
      assert keys[..i + 1][..i] == keys[..i];
      if keys[i] in ignore {
        continue;
      }
      updateValues := updateValues + Assignment(keys[i]) + ",";
    }
    assert keys[..|keys|] == keys;
    var all := Assignments(keys, ignore);
    if |all| > 0 {
      TerminatedIsJoinPlusSep(all, ",");
    }
    var updates := if |updateValues| == 0 then "" else updateValues[..|updateValues| - 1];
    sql := Statement(table, columns, values, updates);
  }

  /** No key contains the separator, as holds for column names. */
  predicate CommaFree(keys: seq<string>) {
    forall i :: 0 <= i < |keys| ==> ',' !in keys[i]
  }

  /** The column list names every key once, in key order. */
  lemma ColumnsReadBack(keys: seq<string>)
    requires |keys| > 0 && CommaFree(keys)
    ensures Split(Join(keys, ","), ',') == keys
  {
    SplitJoin(keys, ',');
  }

  /** The values list is exactly one `%s` per key. */
  lemma PlaceholdersReadBack(n: nat)
    requires n > 0
    ensures Split(Join(Placeholders(n), ","), ',') == Placeholders(n)
    ensures |Join(Placeholders(n), ",")| == 3 * n - 1
  {
    SplitJoin(Placeholders(n), ',');
    PlaceholdersLength(n);
  }

  lemma {:induction false} PlaceholdersLength(n: nat)
    requires n > 0
    ensures |Join(Placeholders(n), ",")| == 3 * n - 1
  {
    if n > 1 {
      PlaceholdersLength(n - 1);
    }
  }

  /** The update clause splits back into its assignments, with no trailing
      comma; it assigns exactly the keys that are not ignored, and it is
      empty exactly when every key is ignored. */
  lemma UpdateClauseReadBack(keys: seq<string>, ignore: seq<string>)
    requires CommaFree(keys)
    ensures var upd := Join(Assignments(keys, ignore), ",");
      && (|Assignments(keys, ignore)| > 0 ==> Split(upd, ',') == Assignments(keys, ignore))
      && (forall k :: Assignment(k) in Assignments(keys, ignore) <==> k in keys && k !in ignore)
      && (upd == "" <==> forall i :: 0 <= i < |keys| ==> keys[i] in ignore)
  {
    var all := Assignments(keys, ignore);
    AssignmentsCommaFree(keys, ignore);
    if |all| > 0 {
      SplitJoin(all, ',');
    }
    forall k
      ensures Assignment(k) in all <==> k in keys && k !in ignore
    {
      AssignmentsMembers(keys, ignore, k);
    }
    if forall i :: 0 <= i < |keys| ==> keys[i] in ignore {
      AssignmentsAllIgnored(keys, ignore);
    } else {
      var i :| 0 <= i < |keys| && keys[i] !in ignore;
      assert Assignment(keys[i]) in all;
      JoinNonEmpty(all, ",");
    }
  }

  lemma {:induction false} AssignmentsCommaFree(keys: seq<string>, ignore: seq<string>)
    requires CommaFree(keys)
    ensures CommaFree(Assignments(keys, ignore))
  {
    if |keys| > 0 {
      AssignmentsCommaFree(keys[..|keys| - 1], ignore);
    }
  }

  /** Joining a list that holds a non-empty element gives a non-empty text. */
  lemma {:induction false} JoinNonEmpty(xs: seq<string>, sep: string)
    requires exists i :: 0 <= i < |xs| && xs[i] != ""
    ensures Join(xs, sep) != ""
  {
    if |xs| > 1 && xs[0] == "" {
      var i :| 0 <= i < |xs| && xs[i] != "";
      assert xs[1..][i - 1] == xs[i];
      JoinNonEmpty(xs[1..], sep);
    }
  }
}
