/**
 * The SQL text the router sends to a shard (`_execute_insert`,
 * `_execute_select`, `_execute_update`, `_execute_delete`,
 * `_execute_aggregate` and the MAX/MIN column query of `router.py`).
 * A statement is its text and its positional parameters; each `?` in
 * the text binds the parameter of the same rank.
 */
module Sql {
  import opened Values
  import opened Text
  import Helpers

  /** A statement as issued to one shard. */
  datatype Statement = Statement(shard: int, sql: string, params: seq<Value>)

  /** `['?' for _ in columns]`. */
  function Marks(n: nat): (r: seq<string>)
    ensures |r| == n
    ensures forall i :: 0 <= i < n ==> r[i] == "?"
  {
    seq(n, _ => "?")
  }

  /** `" WHERE " + " AND ".join(f"{c} = ?" ...)`, present only for a non-empty condition dict. */
  function WhereSuffix(where: Entries): string
  {
    if where == [] then "" else " WHERE " + Join(" AND ", Helpers.Assignments(where))
  }

  function InsertStatement(shard: int, table: string, row: Entries): Statement
  {
    Statement(shard,
      "INSERT INTO " + table + " (" + Join(", ", KeysOf(row)) + ") VALUES (" + Join(", ", Marks(|row|)) + ")",
      ValuesOf(row))
  }

  function SelectStatement(shard: int, table: string, where: Entries): Statement
  {
    Statement(shard, "SELECT * FROM " + table + WhereSuffix(where), ValuesOf(where))
  }

  /** `UPDATE t SET c = ?, ...`: the part that binds the new values. */
  function UpdateHead(table: string, setValues: Entries): string
  {
    "UPDATE " + table + " SET " + Join(", ", Helpers.Assignments(setValues))
  }

  function UpdateStatement(shard: int, table: string, setValues: Entries, where: Entries): Statement
  {
    Statement(shard, UpdateHead(table, setValues) + WhereSuffix(where), ValuesOf(setValues) + ValuesOf(where))
  }

  function DeleteStatement(shard: int, table: string, where: Entries): Statement
  {
    Statement(shard, "DELETE FROM " + table + WhereSuffix(where), ValuesOf(where))
  }

  function AggregateStatement(shard: int, table: string, aggExpr: string): Statement
  {
    Statement(shard, "SELECT " + aggExpr + " FROM " + table, [])
  }

  /** The per-shard query of the MAX/MIN path. */
  function NonNullStatement(shard: int, table: string, column: string): Statement
  {
    Statement(shard, "SELECT " + column + " FROM " + table + " WHERE " + column + " IS NOT NULL", [])
  }

  /** No column name of the dict contains a `?`. */
  predicate Unmarked(d: Entries)
  {
    forall i :: 0 <= i < |d| ==> '?' !in d[i].0
  }

  /** A statement binds as many parameters as its text has placeholders. */
  predicate Balanced(s: Statement)
  {
    CountChar(s.sql, '?') == |s.params|
  }

  lemma {:induction false} NoMarksInParts(parts: seq<string>)
    requires forall i :: 0 <= i < |parts| ==> '?' !in parts[i]
    ensures SumCounts(parts, '?') == 0
  {
    if parts != [] {
      CountCharAbsent(parts[0], '?');
      NoMarksInParts(parts[1..]);
    }
  }

  lemma {:induction false} MarksCount(n: nat)
    ensures SumCounts(Marks(n), '?') == n
  {
    if n > 0 {
      assert Marks(n)[1..] == Marks(n - 1);
      MarksCount(n - 1);
    }
  }

  /** Text without a `?` in front of a string adds no placeholder. */
  lemma Unmarked2(a: string, b: string)
    requires '?' !in a
    ensures CountChar(a + b, '?') == CountChar(b, '?')
  {
    CountCharAppend(a, b, '?');
    CountCharAbsent(a, '?');
  }

  /** The same behind a fixed keyword and a table name. */
  lemma Unmarked3(keyword: string, table: string, b: string)
    requires '?' !in keyword && '?' !in table
    ensures CountChar(keyword + table + b, '?') == CountChar(b, '?')
  {
    assert keyword + table + b == keyword + (table + b);
    Unmarked2(table, b);
    Unmarked2(keyword, table + b);
  }

  /** The condition part holds one placeholder per condition. */
  lemma WhereSuffixCount(where: Entries)
    requires Unmarked(where)
    ensures CountChar(WhereSuffix(where), '?') == |where|
  {
    if where != [] {
      CountCharJoin(" AND ", Helpers.Assignments(where), '?');
      Helpers.AssignmentPlaceholders(where);
      Unmarked2(" WHERE ", Join(" AND ", Helpers.Assignments(where)));
    } else {
      CountCharAbsent("", '?');
    }
  }

  /** The `SET` part holds one placeholder per clause column. */
  lemma UpdateHeadCount(table: string, setValues: Entries)
    requires '?' !in table && Unmarked(setValues)
    ensures CountChar(UpdateHead(table, setValues), '?') == |setValues|
  {
    var clause := Join(", ", Helpers.Assignments(setValues));
    CountCharJoin(", ", Helpers.Assignments(setValues), '?');
    Helpers.AssignmentPlaceholders(setValues);
    assert UpdateHead(table, setValues) == "UPDATE " + table + (" SET " + clause);
    Unmarked2(" SET ", clause);
    Unmarked3("UPDATE ", table, " SET " + clause);
  }

  /** An insert binds the row's values, one placeholder each, in column order. */
  lemma InsertBalanced(shard: int, table: string, row: Entries)
    requires '?' !in table && Unmarked(row)
    ensures Balanced(InsertStatement(shard, table, row))
    ensures InsertStatement(shard, table, row).params == ValuesOf(row)
  {
    var cols := Join(", ", KeysOf(row));
    var marks := Join(", ", Marks(|row|));
    assert CountChar(cols, '?') == 0 by {
      CountCharJoin(", ", KeysOf(row), '?');
      NoMarksInParts(KeysOf(row));
    }
    assert CountChar(marks, '?') == |row| by {
      CountCharJoin(", ", Marks(|row|), '?');
      MarksCount(|row|);
    }
    var tail := " (" + (cols + (") VALUES (" + (marks + ")")));
    assert InsertStatement(shard, table, row).sql == "INSERT INTO " + table + tail;
    assert CountChar(tail, '?') == |row| by {
      CountCharAppend(marks, ")", '?');
      CountCharAbsent(")", '?');
      Unmarked2(") VALUES (", marks + ")");
      CountCharAppend(cols, ") VALUES (" + (marks + ")"), '?');
      Unmarked2(" (", cols + (") VALUES (" + (marks + ")")));
    }
    Unmarked3("INSERT INTO ", table, tail);
  }

  lemma SelectBalanced(shard: int, table: string, where: Entries)
    requires '?' !in table && Unmarked(where)
    ensures Balanced(SelectStatement(shard, table, where))
  {
    WhereSuffixCount(where);
    Unmarked3("SELECT * FROM ", table, WhereSuffix(where));
  }

  /**
   * An update binds the new values first and the condition values after
   * them: the head carries exactly the first `|setValues|` placeholders.
   */
  lemma UpdateBalanced(shard: int, table: string, setValues: Entries, where: Entries)
    requires '?' !in table && Unmarked(setValues) && Unmarked(where)
    ensures Balanced(UpdateStatement(shard, table, setValues, where))
    ensures UpdateStatement(shard, table, setValues, where).sql == UpdateHead(table, setValues) + WhereSuffix(where)
    ensures CountChar(UpdateHead(table, setValues), '?') == |setValues|
    ensures UpdateStatement(shard, table, setValues, where).params[..|setValues|] == ValuesOf(setValues)
    ensures UpdateStatement(shard, table, setValues, where).params[|setValues|..] == ValuesOf(where)
  {
    UpdateHeadCount(table, setValues);
    WhereSuffixCount(where);
    CountCharAppend(UpdateHead(table, setValues), WhereSuffix(where), '?');
    var p := ValuesOf(setValues) + ValuesOf(where);
    assert p[..|setValues|] == ValuesOf(setValues);
    assert p[|setValues|..] == ValuesOf(where);
  }

  lemma DeleteBalanced(shard: int, table: string, where: Entries)
    requires '?' !in table && Unmarked(where)
    ensures Balanced(DeleteStatement(shard, table, where))
  {
    WhereSuffixCount(where);
    Unmarked3("DELETE FROM ", table, WhereSuffix(where));
  }

  /**
   * The router puts table and column names into the text unchecked, so a
   * name holding a `?` gives a statement with more placeholders than
   * parameters: a delete on table `t?` binds nothing but carries one `?`.
   */
  lemma MarkInTableUnbalances()
    ensures DeleteStatement(0, "t?", []).sql == "DELETE FROM t?"
    ensures !Balanced(DeleteStatement(0, "t?", []))
  {
    assert DeleteStatement(0, "t?", []).sql == "DELETE FROM " + "t?";
    Unmarked2("DELETE FROM ", "t?");
    assert "t?"[1..] == "?" && "?"[1..] == "";
  }

  /** Aggregate and MAX/MIN queries bind nothing; they carry no placeholder when their parts carry none. */
  lemma AggregateBalanced(shard: int, table: string, aggExpr: string)
    requires '?' !in table && '?' !in aggExpr
    ensures Balanced(AggregateStatement(shard, table, aggExpr))
  {
    assert AggregateStatement(shard, table, aggExpr).sql == "SELECT " + aggExpr + (" FROM " + table);
    Unmarked2(" FROM ", table);
    CountCharAbsent(table, '?');
    Unmarked3("SELECT ", aggExpr, " FROM " + table);
  }

}
