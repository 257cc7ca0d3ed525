/**
 * The pure helpers of `utils/helpers.py`: shard file names, SQL identifier
 * validation, table-name sanitising, WHERE/SET clause building, row
 * validation, merging of per-shard results and the expected key distribution.
 */
module Helpers {
  import opened Wrappers
  import opened Values
  import opened Text
  import opened Seqs
  import Strategy

  datatype HelperError =
    | InvalidShardId(id: int)
    | EmptyDbDir
    | EmptyTableName
    | NoValidCharacters
    | InvalidColumn(column: string)
    | EmptySetClause
    | TypeError

  // ---------------------------------------------------------------- file names

  /** `f"shard_{shard_id}.db"`. */
  function ShardFileName(shardId: nat): string
  {
    "shard_" + NatToString(shardId) + ".db"
  }

  /** `os.path.join(db_dir, f"shard_{shard_id}.db")`. */
  function ShardPath(dbDir: string, shardId: nat): string
  {
    PathJoin(dbDir, ShardFileName(shardId))
  }

  /** `get_shard_filename`: raises for a negative id or an empty directory. */
  function GetShardFilename(shardId: int, dbDir: string): (r: Result<string, HelperError>)
    ensures r.Ok? <==> shardId >= 0 && dbDir != []
    ensures shardId < 0 ==> r == Err(InvalidShardId(shardId))
    ensures shardId >= 0 && dbDir == [] ==> r == Err(EmptyDbDir)
    ensures r.Ok? ==> dbDir <= r.value && r.value == ShardPath(dbDir, shardId)
  {
    if shardId < 0 then Err(InvalidShardId(shardId))
    else if dbDir == [] then Err(EmptyDbDir)
    else Ok(ShardPath(dbDir, shardId))
  }

  /** `ShardPath(dir, i)` is `dir`, then a separator that depends on `dir` alone, then the file name. */
  lemma ShardPathShape(dbDir: string, shardId: nat)
    ensures var sep := if dbDir == [] || dbDir[|dbDir| - 1] == '/' then "" else "/";
      ShardPath(dbDir, shardId) == dbDir + sep + "shard_" + NatToString(shardId) + ".db"
  {
  }

  /** Distinct shard ids get distinct file paths in the same directory. */
  lemma {:induction false} ShardPathInjective(dbDir: string, a: nat, b: nat)
    requires ShardPath(dbDir, a) == ShardPath(dbDir, b)
    ensures a == b
  {
    ShardPathShape(dbDir, a);
    ShardPathShape(dbDir, b);
    var sep := if dbDir == [] || dbDir[|dbDir| - 1] == '/' then "" else "/";
    var head := dbDir + sep + "shard_";
    var sa, sb := NatToString(a), NatToString(b);
    var pa := head + sa + ".db";
    var pb := head + sb + ".db";
    assert pa == pb;
    assert |sa| == |sb|;
    assert sa == pa[|head|..|head| + |sa|];
    assert sb == pb[|head|..|head| + |sb|];
    NatToStringInjective(a, b);
  }

  // ------------------------------------------------------- identifier checking

  const SqlKeywords: set<string> := {
    "SELECT", "FROM", "WHERE", "INSERT", "UPDATE", "DELETE", "CREATE",
    "DROP", "TABLE", "INDEX", "PRIMARY", "KEY", "FOREIGN", "REFERENCES",
    "UNIQUE", "NOT", "NULL", "DEFAULT", "CHECK", "CONSTRAINT", "ORDER",
    "BY", "GROUP", "HAVING", "LIMIT", "OFFSET", "JOIN", "LEFT", "RIGHT",
    "INNER", "OUTER", "ON", "AS", "AND", "OR", "IN", "EXISTS", "BETWEEN",
    "LIKE", "IS", "DISTINCT", "COUNT", "SUM", "AVG", "MAX", "MIN"
  }

  predicate IdentChar(c: char) { IsAlnum(c) || c == '_' }

  /** `validate_sql_identifier`, written as its chain of checks in `helpers.py`. */
  predicate ValidateSqlIdentifier(identifier: string)
  {
    if identifier == [] then false
    else if Upper(identifier) in SqlKeywords then false
    else if !AllAlnum(Remove(identifier, '_')) then false
    else if !(IsAlpha(identifier[0]) || identifier[0] == '_') then false
    else true
  }

  /** Identifier characters none of which is a letter or digit are all underscores: removing them leaves nothing. */
  lemma {:induction false} UnderscoresOnly(s: string)
    requires forall i :: 0 <= i < |s| ==> IdentChar(s[i]) && !IsAlnum(s[i])
    ensures Remove(s, '_') == []
  {
    if s != [] {
      UnderscoresOnly(s[1..]);
    }
  }

  /**
   * What a valid identifier is, stated independently: non-empty, not a
   * keyword in any letter case, only letters, digits and underscores, at
   * least one letter or digit, and a letter or underscore first.
   */
  lemma {:induction false} ValidateSqlIdentifierExact(s: string)
    ensures ValidateSqlIdentifier(s) <==>
      && s != []
      && Upper(s) !in SqlKeywords
      && (forall i :: 0 <= i < |s| ==> IdentChar(s[i]))
      && (exists i :: 0 <= i < |s| && IsAlnum(s[i]))
      && (IsAlpha(s[0]) || s[0] == '_')
  {
    if s != [] {
      var t := Remove(s, '_');
      if forall i :: 0 <= i < |s| ==> IdentChar(s[i]) {
        if exists i :: 0 <= i < |s| && IsAlnum(s[i]) {
          var i :| 0 <= i < |s| && IsAlnum(s[i]);
          assert s[i] in t;
          forall j | 0 <= j < |t| ensures IsAlnum(t[j]) {
            assert t[j] in s;
          }
        } else {
          UnderscoresOnly(s);
        }
      } else {
        var i :| 0 <= i < |s| && !IdentChar(s[i]);
        assert s[i] in t;
      }
    }
  }

  /** An identifier made only of underscores is rejected: nothing alphanumeric is left. */
  lemma AllUnderscoresRejected(s: string)
    requires forall i :: 0 <= i < |s| ==> s[i] == '_'
    ensures !ValidateSqlIdentifier(s)
  {
    ValidateSqlIdentifierExact(s);
  }

  /** Keywords are rejected in every letter case. */
  lemma KeywordRejected(s: string)
    requires Upper(s) in SqlKeywords
    ensures !ValidateSqlIdentifier(s)
  {
  }

  /** A valid identifier holds no placeholder, space or quote. */
  lemma ValidIdentifierPlain(s: string)
    requires ValidateSqlIdentifier(s)
    ensures '?' !in s && ' ' !in s && '\'' !in s
  {
    ValidateSqlIdentifierExact(s);
  }

  // ---------------------------------------------------------- table sanitising

  /** `''.join(c for c in s if c.isalnum() or c == '_')`. */
  function KeepIdentChars(s: string): (r: string)
    ensures forall i :: 0 <= i < |r| ==> IdentChar(r[i])
    ensures (forall i :: 0 <= i < |s| ==> IdentChar(s[i])) ==> r == s
  {
    if s == [] then [] else (if IdentChar(s[0]) then [s[0]] else []) + KeepIdentChars(s[1..])
  }

  /** The filter works character by character: filtering `a + b` is filtering `a`, then `b`. */
  lemma {:induction false} KeepIdentCharsAppend(a: string, b: string)
    ensures KeepIdentChars(a + b) == KeepIdentChars(a) + KeepIdentChars(b)
  {
    if a != [] {
      assert (a + b)[1..] == a[1..] + b;
      KeepIdentCharsAppend(a[1..], b);
    } else {
      assert a + b == b;
    }
  }

  /** One character is kept exactly when it is a letter, a digit or `_`. */
  lemma KeepIdentCharsOne(c: char)
    ensures KeepIdentChars([c]) == if IdentChar(c) then [c] else []
  {
    assert [c][1..] == [];
  }

  /** `sanitize_table_name`. */
  function SanitizeTableName(tableName: string): (r: Result<string, HelperError>)
    ensures tableName == [] ==> r == Err(EmptyTableName)
    ensures tableName != [] && KeepIdentChars(tableName) == [] ==> r == Err(NoValidCharacters)
    ensures r.Ok? <==> KeepIdentChars(tableName) != []
    ensures r.Ok? ==> |r.value| > 0 && !IsDigit(r.value[0])
    ensures r.Ok? ==> forall i :: 0 <= i < |r.value| ==> IdentChar(r.value[i])
    ensures r.Ok? ==> var kept := KeepIdentChars(tableName);
      r.value == (if IsDigit(kept[0]) then "t_" else "") + kept
  {
    if tableName == [] then Err(EmptyTableName)
    else
      var sanitized := KeepIdentChars(tableName);
      if sanitized == [] then Err(NoValidCharacters)
      else if IsDigit(sanitized[0]) then Ok("t_" + sanitized)
      else Ok(sanitized)
  }

  /** Sanitising a sanitised name changes nothing. */
  lemma SanitizeIdempotent(tableName: string)
    requires SanitizeTableName(tableName).Ok?
    ensures SanitizeTableName(SanitizeTableName(tableName).value) == SanitizeTableName(tableName)
  {
  }

  // ---------------------------------------------------------- clause building

  /** `[f"{column} = ?" for column in d]`. */
  function Assignments(d: Entries): (r: seq<string>)
    ensures |r| == |d|
    ensures forall i :: 0 <= i < |d| ==> r[i] == d[i].0 + " = ?"
  {
    if d == [] then [] else [d[0].0 + " = ?"] + Assignments(d[1..])
  }

  /** The first column name (in dict order) that is not a valid identifier. */
  function FirstInvalidColumn(d: Entries): (r: Option<string>)
    ensures r.None? <==> forall i :: 0 <= i < |d| ==> ValidateSqlIdentifier(d[i].0)
    ensures r.Some? ==> exists i :: 0 <= i < |d| && d[i].0 == r.value && !ValidateSqlIdentifier(r.value)
  {
    if d == [] then None
    else if !ValidateSqlIdentifier(d[0].0) then Some(d[0].0)
    else
      var t := FirstInvalidColumn(d[1..]);
      assert t.Some? ==> exists i :: 0 <= i < |d| && d[i].0 == t.value && !ValidateSqlIdentifier(t.value) by {
        if t.Some? {
          var i :| 0 <= i < |d[1..]| && d[1..][i].0 == t.value && !ValidateSqlIdentifier(t.value);
          assert d[i + 1].0 == t.value;
        }
      }
      t
  }

  /** A clause of `col = ?` items carries exactly one placeholder per item. */
  lemma {:induction false} AssignmentPlaceholders(d: Entries)
    requires forall i :: 0 <= i < |d| ==> '?' !in d[i].0
    ensures SumCounts(Assignments(d), '?') == |d|
  {
    if d != [] {
      AssignmentPlaceholders(d[1..]);
      assert Assignments(d)[1..] == Assignments(d[1..]);
      CountCharAppend(d[0].0, " = ?", '?');
      CountCharAbsent(d[0].0, '?');
    }
  }

  /** The loop shared by `build_where_clause` and `build_set_clause`. */
  method JoinAssignments(d: Entries, sep: string) returns (r: Result<(string, seq<Value>), HelperError>)
    requires '?' !in sep
    ensures FirstInvalidColumn(d).Some? ==> r == Err(InvalidColumn(FirstInvalidColumn(d).value))
    ensures FirstInvalidColumn(d).None? ==> r == Ok((Join(sep, Assignments(d)), ValuesOf(d)))
    ensures r.Ok? ==> CountChar(r.value.0, '?') == |r.value.1| == |d|
  {
    var conditions: seq<string> := [];
    var params: seq<Value> := [];
    var i := 0;
    while i < |d|
      invariant 0 <= i <= |d|
      invariant forall j :: 0 <= j < i ==> ValidateSqlIdentifier(d[j].0)
      invariant |conditions| == |params| == i
      invariant forall j :: 0 <= j < i ==> conditions[j] == d[j].0 + " = ?" && params[j] == d[j].1
    {
      var column := d[i].0;
      if !ValidateSqlIdentifier(column) {
        FirstInvalidAfterValidPrefix(d, i);
        return Err(InvalidColumn(column));
      }
      conditions := conditions + [column + " = ?"];
      params := params + [d[i].1];
      i := i + 1;
    }
    assert conditions == Assignments(d);
    assert params == ValuesOf(d);
    ValidJoinPlaceholders(d, sep);
    return Ok((Join(sep, conditions), params));
  }

  /** A clause of valid columns joined by a separator without `?` carries one placeholder per column. */
  lemma ValidJoinPlaceholders(d: Entries, sep: string)
    requires '?' !in sep
    requires forall j :: 0 <= j < |d| ==> ValidateSqlIdentifier(d[j].0)
    ensures CountChar(Join(sep, Assignments(d)), '?') == |d|
  {
    forall j | 0 <= j < |d| ensures '?' !in d[j].0 {
      ValidIdentifierPlain(d[j].0);
    }
    AssignmentPlaceholders(d);
    CountCharJoin(sep, Assignments(d), '?');
  }

  lemma {:induction false} AssignmentsAppend(d: Entries, e: (string, Value))
    ensures Assignments(d + [e]) == Assignments(d) + [e.0 + " = ?"]
    ensures ValuesOf(d + [e]) == ValuesOf(d) + [e.1]
  {
  }

  lemma {:induction false} FirstInvalidAfterValidPrefix(d: Entries, i: nat)
    requires i < |d| && !ValidateSqlIdentifier(d[i].0)
    requires forall j :: 0 <= j < i ==> ValidateSqlIdentifier(d[j].0)
    ensures FirstInvalidColumn(d) == Some(d[i].0)
    decreases i
  {
    if i > 0 {
      FirstInvalidAfterValidPrefix(d[1..], i - 1);
    }
  }

  /** `build_where_clause`: `("", [])` for no conditions, else `col = ?` items joined by " AND ". */
  method BuildWhereClause(whereDict: Entries) returns (r: Result<(string, seq<Value>), HelperError>)
    ensures whereDict == [] ==> r == Ok(("", []))
    ensures r.Err? <==> FirstInvalidColumn(whereDict).Some?
    ensures r.Err? ==> r.error == InvalidColumn(FirstInvalidColumn(whereDict).value)
    ensures r.Ok? ==> r.value == (Join(" AND ", Assignments(whereDict)), ValuesOf(whereDict))
    ensures r.Ok? ==> CountChar(r.value.0, '?') == |r.value.1| == |whereDict|
  {
    if whereDict == [] {
      return Ok(("", []));
    }
    r := JoinAssignments(whereDict, " AND ");
  }

  /** `build_set_clause`: raises on no values, else `col = ?` items joined by ", ". */
  method BuildSetClause(setDict: Entries) returns (r: Result<(string, seq<Value>), HelperError>)
    ensures setDict == [] ==> r == Err(EmptySetClause)
    ensures setDict != [] && FirstInvalidColumn(setDict).Some? ==>
      r == Err(InvalidColumn(FirstInvalidColumn(setDict).value))
    ensures setDict != [] && FirstInvalidColumn(setDict).None? ==>
      r == Ok((Join(", ", Assignments(setDict)), ValuesOf(setDict)))
    ensures r.Ok? ==> CountChar(r.value.0, '?') == |r.value.1| == |setDict|
  {
    if setDict == [] {
      return Err(EmptySetClause);
    }
    r := JoinAssignments(setDict, ", ");
  }

  // ------------------------------------------------------------ row validation

  /** The value types `validate_row_data` admits: None, str, int, float and bool. */
  predicate AdmissibleValue(v: Value)
  {
    v.Null? || v.Str? || v.Int? || v.Float? || v.Bool?
  }

  /** The loop of `validate_row_data` over the row's items. */
  predicate ValidEntries(d: Entries)
  {
    d == [] || (ValidateSqlIdentifier(d[0].0) && AdmissibleValue(d[0].1) && ValidEntries(d[1..]))
  }

  /** `validate_row_data`. */
  predicate ValidateRowData(row: Value)
  {
    row.Dict? && row.entries != [] && ValidEntries(row.entries)
  }

  /** A row is valid iff it is a non-empty dict of valid columns to admissible values. */
  lemma {:induction false} ValidateRowDataExact(row: Value)
    ensures ValidateRowData(row) <==>
      && row.Dict?
      && |row.entries| > 0
      && forall i :: 0 <= i < |row.entries| ==>
           ValidateSqlIdentifier(row.entries[i].0) && AdmissibleValue(row.entries[i].1)
  {
    if row.Dict? {
      ValidEntriesExact(row.entries);
    }
  }

  lemma {:induction false} ValidEntriesExact(d: Entries)
    ensures ValidEntries(d) <==>
      forall i :: 0 <= i < |d| ==> ValidateSqlIdentifier(d[i].0) && AdmissibleValue(d[i].1)
  {
    if d != [] {
      ValidEntriesExact(d[1..]);
      assert forall i :: 1 <= i < |d| ==> d[i] == d[1..][i - 1];
    }
  }

  // ------------------------------------------------------------ result merging

  /** The concatenation of the list entries of `rs`, skipping entries that are not lists. */
  function ListsConcat(rs: seq<Value>): seq<Value>
  {
    if rs == [] then [] else (if rs[0].List? then rs[0].items else []) + ListsConcat(rs[1..])
  }

  lemma {:induction false} ListsConcatAppend(a: seq<Value>, b: seq<Value>)
    ensures ListsConcat(a + b) == ListsConcat(a) + ListsConcat(b)
  {
    if a == [] {
      assert a + b == b;
    } else {
      assert (a + b)[1..] == a[1..] + b;
      ListsConcatAppend(a[1..], b);
    }
  }

  /** `merge_results`. */
  method MergeResults(resultsList: seq<Value>) returns (merged: seq<Value>)
    ensures merged == ListsConcat(resultsList)
  {
    merged := [];
    var i := 0;
    while i < |resultsList|
      invariant 0 <= i <= |resultsList|
      invariant merged == ListsConcat(resultsList[..i])
    {
      assert resultsList[..i + 1] == resultsList[..i] + [resultsList[i]];
      ListsConcatAppend(resultsList[..i], [resultsList[i]]);
      if resultsList[i].List? {
        merged := merged + resultsList[i].items;
      }
      i := i + 1;
    }
    assert resultsList[..i] == resultsList;
  }

  function TotalListLength(rs: seq<Value>): nat
  {
    if rs == [] then 0 else (if rs[0].List? then |rs[0].items| else 0) + TotalListLength(rs[1..])
  }

  /** Merging keeps every row of every list: nothing is dropped or duplicated. */
  lemma {:induction false} ListsConcatLength(rs: seq<Value>)
    ensures |ListsConcat(rs)| == TotalListLength(rs)
  {
    if rs != [] {
      ListsConcatLength(rs[1..]);
    }
  }

  /** A value is in the merge iff it is in one of the lists. */
  lemma {:induction false} ListsConcatMembers(rs: seq<Value>, v: Value)
    ensures v in ListsConcat(rs) <==> exists i :: 0 <= i < |rs| && rs[i].List? && v in rs[i].items
  {
    if rs != [] {
      ListsConcatMembers(rs[1..], v);
      if v in ListsConcat(rs[1..]) {
        var i :| 0 <= i < |rs[1..]| && rs[1..][i].List? && v in rs[1..][i].items;
        assert rs[i + 1] == rs[1..][i];
      }
      if exists i :: 0 <= i < |rs| && rs[i].List? && v in rs[i].items {
        var i :| 0 <= i < |rs| && rs[i].List? && v in rs[i].items;
        if i > 0 {
          assert rs[1..][i - 1] == rs[i];
        }
      }
    }
  }

  // ------------------------------------------------------- result aggregation

  /** The kinds `aggregate_results` combines; anything else keeps the first value. */
  predicate Combines(aggType: string)
  {
    aggType == "sum" || aggType == "count" || aggType == "max" || aggType == "min"
  }

  /**
   * One repeat of a key: `acc` is the value held so far and `v` the new one.
   * A numeric `v` meeting a non-numeric `acc` makes Python raise `TypeError`.
   */
  function Combine(aggType: string, acc: Value, v: Value): Result<Value, HelperError>
  {
    if !Combines(aggType) || !IsNumber(v) then Ok(acc)
    else if !IsNumber(acc) then Err(TypeError)
    else if aggType == "sum" || aggType == "count" then Ok(Add(acc, v))
    else if aggType == "max" then Ok(Max2(acc, v))
    else Ok(Min2(acc, v))
  }

  /** One `(key, value)` item folded into the aggregated dict. */
  function AggStep(aggType: string, acc: Entries, key: string, v: Value): Result<Entries, HelperError>
  {
    match Lookup(acc, key)
    case None => Ok(Store(acc, key, v))
    case Some(prev) =>
      match Combine(aggType, prev, v)
      case Err(e) => Err(e)
      case Ok(nv) => Ok(Store(acc, key, nv))
  }

  /** Folds a sequence of `(key, value)` items into `acc`, stopping at the first error. */
  function AggItems(aggType: string, acc: Entries, items: Entries): Result<Entries, HelperError>
    decreases items
  {
    if items == [] then Ok(acc)
    else
      match AggStep(aggType, acc, items[0].0, items[0].1)
      case Err(e) => Err(e)
      case Ok(acc') => AggItems(aggType, acc', items[1..])
  }

  /** All items of the dict entries of `rs`, in order, skipping entries that are not dicts. */
  function DictItems(rs: seq<Value>): Entries
  {
    if rs == [] then [] else (if rs[0].Dict? then rs[0].entries else []) + DictItems(rs[1..])
  }

  lemma {:induction false} DictItemsAppend(a: seq<Value>, b: seq<Value>)
    ensures DictItems(a + b) == DictItems(a) + DictItems(b)
  {
    if a == [] {
      assert a + b == b;
    } else {
      assert (a + b)[1..] == a[1..] + b;
      DictItemsAppend(a[1..], b);
    }
  }

  lemma {:induction false} AggItemsAppend(aggType: string, acc: Entries, a: Entries, b: Entries)
    ensures AggItems(aggType, acc, a + b) ==
      match AggItems(aggType, acc, a)
      case Err(e) => Err(e)
      case Ok(acc') => AggItems(aggType, acc', b)
    decreases a
  {
    if a == [] {
      assert a + b == b;
    } else {
      assert (a + b)[1..] == a[1..] + b;
      assert (a + b)[0] == a[0];
      match AggStep(aggType, acc, a[0].0, a[0].1)
      case Err(e) =>
      case Ok(acc') => AggItemsAppend(aggType, acc', a[1..], b);
    }
  }

  /** The specification of `aggregate_results`. */
  function AggregateSpec(resultsList: seq<Value>, aggType: string): Result<Entries, HelperError>
  {
    AggItems(aggType, [], DictItems(resultsList))
  }

  /** The inner loop of `aggregate_results`: one shard's dict folded into the running result. */
  method AggregateInto(aggType: string, aggregated: Entries, entries: Entries) returns (r: Result<Entries, HelperError>)
    ensures r == AggItems(aggType, aggregated, entries)
  {
    var acc := aggregated;
    var j := 0;
    while j < |entries|
      invariant 0 <= j <= |entries|
      invariant AggItems(aggType, aggregated, entries) == AggItems(aggType, acc, entries[j..])
    {
      var key, value := entries[j].0, entries[j].1;
      assert entries[j..][1..] == entries[j + 1..];
      match Lookup(acc, key) {
        case None =>
          acc := Store(acc, key, value);
        case Some(prev) =>
          var c := Combine(aggType, prev, value);
          if c.Err? {
            return Err(c.error);
          }
          acc := Store(acc, key, c.value);
      }
      j := j + 1;
    }
    return Ok(acc);
  }

  /** Folding the items of `rs[i..]` is folding those of `rs[i]`, then those of `rs[i + 1..]`. */
  lemma AggItemsStep(aggType: string, acc: Entries, rs: seq<Value>, i: nat)
    requires i < |rs|
    ensures AggItems(aggType, acc, DictItems(rs[i..])) ==
      if !rs[i].Dict? then AggItems(aggType, acc, DictItems(rs[i + 1..]))
      else match AggItems(aggType, acc, rs[i].entries)
        case Err(e) => Err(e)
        case Ok(acc') => AggItems(aggType, acc', DictItems(rs[i + 1..]))
  {
    assert rs[i..] == [rs[i]] + rs[i + 1..];
    DictItemsAppend([rs[i]], rs[i + 1..]);
    var entries := if rs[i].Dict? then rs[i].entries else [];
    assert DictItems([rs[i]]) == entries;
    AggItemsAppend(aggType, acc, entries, DictItems(rs[i + 1..]));
  }

  /** `aggregate_results`. */
  method AggregateResults(resultsList: seq<Value>, aggType: string) returns (r: Result<Entries, HelperError>)
    ensures r == AggregateSpec(resultsList, aggType)
  {
    var aggregated: Entries := [];
    var i := 0;
    while i < |resultsList|
      invariant 0 <= i <= |resultsList|
      invariant AggregateSpec(resultsList, aggType) ==
        AggItems(aggType, aggregated, DictItems(resultsList[i..]))
    {
      var result := resultsList[i];
      AggItemsStep(aggType, aggregated, resultsList, i);
      if result.Dict? {
        var step := AggregateInto(aggType, aggregated, result.entries);
        if step.Err? {
          return step;
        }
        aggregated := step.value;
      }
      i := i + 1;
    }
    assert resultsList[i..] == [];
    return Ok(aggregated);
  }

  // ---- per-key view of aggregation

  /** The values that `items` carries for `key`, in order. */
  function ValuesFor(items: Entries, key: string): seq<Value>
  {
    if items == [] then []
    else (if items[0].0 == key then [items[0].1] else []) + ValuesFor(items[1..], key)
  }

  /** Folding one key's values, starting from what the dict already holds for it. */
  function FoldFrom(aggType: string, init: Option<Value>, vs: seq<Value>): Result<Option<Value>, HelperError>
    decreases vs
  {
    if vs == [] then Ok(init)
    else
      var next: Result<Value, HelperError> :=
        if init.None? then Ok(vs[0]) else Combine(aggType, init.value, vs[0]);
      match next
      case Err(e) => Err(e)
      case Ok(v) => FoldFrom(aggType, Some(v), vs[1..])
  }

  /** One item seen from its own key: the step fails iff that key's fold fails at its first value. */
  lemma StepOwnKey(aggType: string, acc: Entries, k0: string, v0: Value, vs: seq<Value>)
    ensures AggStep(aggType, acc, k0, v0).Err? ==> FoldFrom(aggType, Lookup(acc, k0), [v0] + vs).Err?
    ensures AggStep(aggType, acc, k0, v0).Ok? ==>
      FoldFrom(aggType, Lookup(acc, k0), [v0] + vs) ==
      FoldFrom(aggType, Lookup(AggStep(aggType, acc, k0, v0).value, k0), vs)
  {
    assert ([v0] + vs)[1..] == vs;
  }

  /** One item seen from any other key: nothing changes. */
  lemma StepOtherKey(aggType: string, acc: Entries, k0: string, v0: Value, k: string)
    requires k != k0 && AggStep(aggType, acc, k0, v0).Ok?
    ensures Lookup(AggStep(aggType, acc, k0, v0).value, k) == Lookup(acc, k)
  {
    if Lookup(acc, k0).None? {
      StoreOther(acc, k0, v0, k);
    } else {
      StoreOther(acc, k0, Combine(aggType, Lookup(acc, k0).value, v0).value, k);
    }
  }

  /** A successful aggregation holds, for every key, that key's own fold. */
  lemma {:induction false} AggItemsKey(aggType: string, acc: Entries, items: Entries, k: string)
    requires AggItems(aggType, acc, items).Ok?
    ensures FoldFrom(aggType, Lookup(acc, k), ValuesFor(items, k)).Ok?
    ensures Lookup(AggItems(aggType, acc, items).value, k) ==
      FoldFrom(aggType, Lookup(acc, k), ValuesFor(items, k)).value
    decreases items
  {
    if items != [] {
      var acc' := AggStep(aggType, acc, items[0].0, items[0].1).value;
      assert AggItems(aggType, acc, items) == AggItems(aggType, acc', items[1..]);
      AggItemsKey(aggType, acc', items[1..], k);
      PerKeyAfterStep(aggType, acc, items, acc');
    }
  }

  /** A failed aggregation has a key whose own fold fails. */
  lemma {:induction false} AggItemsErrKey(aggType: string, acc: Entries, items: Entries)
    requires AggItems(aggType, acc, items).Err?
    ensures exists k :: FoldFrom(aggType, Lookup(acc, k), ValuesFor(items, k)).Err?
    decreases items
  {
    var k0, v0 := items[0].0, items[0].1;
    var step := AggStep(aggType, acc, k0, v0);
    if step.Ok? {
      var acc' := step.value;
      assert AggItems(aggType, acc, items) == AggItems(aggType, acc', items[1..]);
      AggItemsErrKey(aggType, acc', items[1..]);
      var k :| FoldFrom(aggType, Lookup(acc', k), ValuesFor(items[1..], k)).Err?;
      PerKeyAfterStep(aggType, acc, items, acc');
      assert FoldFrom(aggType, Lookup(acc, k), ValuesFor(items, k)).Err?;
    } else {
      assert ValuesFor(items, k0) == [v0] + ValuesFor(items[1..], k0);
      StepOwnKey(aggType, acc, k0, v0, ValuesFor(items[1..], k0));
      assert FoldFrom(aggType, Lookup(acc, k0), ValuesFor(items, k0)).Err?;
    }
  }

  /**
   * `aggregate_results` works key by key: it succeeds iff every key's fold of
   * its values (in shard order) succeeds, and then each key holds its own fold.
   */
  lemma AggregatePerKey(resultsList: seq<Value>, aggType: string)
    ensures AggregateSpec(resultsList, aggType).Ok? ==>
      forall k :: FoldFrom(aggType, None, ValuesFor(DictItems(resultsList), k)).Ok?
    ensures (forall k :: FoldFrom(aggType, None, ValuesFor(DictItems(resultsList), k)).Ok?) ==>
      AggregateSpec(resultsList, aggType).Ok?
    ensures AggregateSpec(resultsList, aggType).Ok? ==>
      forall k :: Lookup(AggregateSpec(resultsList, aggType).value, k) ==
        FoldFrom(aggType, None, ValuesFor(DictItems(resultsList), k)).value
  {
    var items := DictItems(resultsList);
    if AggregateSpec(resultsList, aggType).Ok? {
      forall k ensures FoldFrom(aggType, None, ValuesFor(items, k)).Ok?
        && Lookup(AggregateSpec(resultsList, aggType).value, k) == FoldFrom(aggType, None, ValuesFor(items, k)).value
      {
        var empty: Entries := [];
        AggItemsKey(aggType, empty, items, k);
        assert Lookup(empty, k) == None;
      }
    } else {
      var empty: Entries := [];
      AggItemsErrKey(aggType, empty, items);
      var k :| FoldFrom(aggType, Lookup(empty, k), ValuesFor(items, k)).Err?;
      assert Lookup(empty, k) == None;
    }
  }

  /** After a successful first step, every key's fold over the items is its fold over the rest. */
  lemma PerKeyAfterStep(aggType: string, acc: Entries, items: Entries, acc': Entries)
    requires items != [] && AggStep(aggType, acc, items[0].0, items[0].1) == Ok(acc')
    ensures forall k ::
      FoldFrom(aggType, Lookup(acc, k), ValuesFor(items, k)) ==
      FoldFrom(aggType, Lookup(acc', k), ValuesFor(items[1..], k))
  {
    var k0, v0 := items[0].0, items[0].1;
    forall k
      ensures FoldFrom(aggType, Lookup(acc, k), ValuesFor(items, k)) ==
              FoldFrom(aggType, Lookup(acc', k), ValuesFor(items[1..], k))
    {
      if k == k0 {
        assert ValuesFor(items, k0) == [v0] + ValuesFor(items[1..], k0);
        StepOwnKey(aggType, acc, k0, v0, ValuesFor(items[1..], k0));
      } else {
        assert ValuesFor(items, k) == ValuesFor(items[1..], k);
        StepOtherKey(aggType, acc, k0, v0, k);
      }
    }
  }

  /** With a kind the helper does not combine, every key keeps its first value and nothing raises. */
  lemma {:induction false} FoldKeepsFirst(aggType: string, init: Value, vs: seq<Value>)
    requires !Combines(aggType)
    ensures FoldFrom(aggType, Some(init), vs) == Ok(Some(init))
    decreases vs
  {
    if vs != [] {
      FoldKeepsFirst(aggType, init, vs[1..]);
    }
  }

  function IntSum(vs: seq<Value>): int
    requires forall i :: 0 <= i < |vs| ==> vs[i].Int?
  {
    if vs == [] then 0 else vs[0].i + IntSum(vs[1..])
  }

  /** For "sum" and "count" over integers, a key ends up with the sum of its values. */
  lemma {:induction false} FoldSumsInts(aggType: string, init: int, vs: seq<Value>)
    requires aggType == "sum" || aggType == "count"
    requires forall i :: 0 <= i < |vs| ==> vs[i].Int?
    ensures FoldFrom(aggType, Some(Int(init)), vs) == Ok(Some(Int(init + IntSum(vs))))
    decreases vs
  {
    if vs != [] {
      FoldSumsInts(aggType, init + vs[0].i, vs[1..]);
    }
  }

  /** For "max" over integers, a key ends up with one of its values, at least as large as all of them. */
  lemma {:induction false} FoldMaxInts(init: int, vs: seq<Value>)
    requires forall i :: 0 <= i < |vs| ==> vs[i].Int?
    ensures FoldFrom("max", Some(Int(init)), vs).Ok?
    ensures var m := FoldFrom("max", Some(Int(init)), vs).value;
      && m.Some? && m.value.Int?
      && (m.value.i == init || exists i :: 0 <= i < |vs| && m.value == vs[i])
      && m.value.i >= init
      && forall i :: 0 <= i < |vs| ==> m.value.i >= vs[i].i
    decreases vs
  {
    if vs != [] {
      var next := Max2(Int(init), vs[0]);
      FoldMaxInts(next.i, vs[1..]);
      var m := FoldFrom("max", Some(Int(init)), vs).value;
      assert m == FoldFrom("max", Some(next), vs[1..]).value;
      if m.value.i != next.i {
        var i :| 0 <= i < |vs[1..]| && m.value == vs[1..][i];
        assert m.value == vs[i + 1];
      } else if next == vs[0] {
        assert m.value == vs[0];
      }
      forall i | 0 <= i < |vs| ensures m.value.i >= vs[i].i {
        if i > 0 { assert vs[i] == vs[1..][i - 1]; }
      }
    }
  }

  /** For "min" over integers, a key ends up with one of its values, no larger than any of them. */
  lemma {:induction false} FoldMinInts(init: int, vs: seq<Value>)
    requires forall i :: 0 <= i < |vs| ==> vs[i].Int?
    ensures FoldFrom("min", Some(Int(init)), vs).Ok?
    ensures var m := FoldFrom("min", Some(Int(init)), vs).value;
      && m.Some? && m.value.Int?
      && (m.value.i == init || exists i :: 0 <= i < |vs| && m.value == vs[i])
      && m.value.i <= init
      && forall i :: 0 <= i < |vs| ==> m.value.i <= vs[i].i
    decreases vs
  {
    if vs != [] {
      var next := Min2(Int(init), vs[0]);
      FoldMinInts(next.i, vs[1..]);
      var m := FoldFrom("min", Some(Int(init)), vs).value;
      assert m == FoldFrom("min", Some(next), vs[1..]).value;
      if m.value.i != next.i {
        var i :| 0 <= i < |vs[1..]| && m.value == vs[1..][i];
        assert m.value == vs[i + 1];
      } else if next == vs[0] {
        assert m.value == vs[0];
      }
      forall i | 0 <= i < |vs| ensures m.value.i <= vs[i].i {
        if i > 0 { assert vs[i] == vs[1..][i - 1]; }
      }
    }
  }

  /** A numeric value after a non-numeric one makes "sum" raise, as `None + 1` does in Python. */
  lemma NumberAfterNonNumberRaises(acc: Value, v: Value)
    requires !IsNumber(acc) && IsNumber(v)
    ensures Combine("sum", acc, v) == Err(TypeError)
    ensures Combine("max", acc, v) == Err(TypeError)
    ensures Combine("avg", acc, v) == Ok(acc)
  {
  }

  // ------------------------------------------------------- shard distribution

  /** `calculate_shard_distribution`. */
  method CalculateShardDistribution(numKeys: int, numShards: int) returns (distribution: seq<int>)
    ensures numKeys <= 0 || numShards <= 0 ==> distribution == []
    ensures numKeys > 0 && numShards > 0 ==>
      && |distribution| == numShards
      && forall j :: 0 <= j < numShards ==>
           distribution[j] == numKeys / numShards + (if j < numKeys % numShards then 1 else 0)
  {
    if numKeys <= 0 || numShards <= 0 {
      return [];
    }
    var baseCount := numKeys / numShards;
    var remainder := numKeys % numShards;
    distribution := seq(numShards, _ => baseCount);
    var i := 0;
    while i < remainder
      invariant 0 <= i <= remainder
      invariant |distribution| == numShards
      invariant forall j :: 0 <= j < numShards ==>
        distribution[j] == baseCount + (if j < i then 1 else 0)
    {
      distribution := distribution[i := distribution[i] + 1];
      i := i + 1;
    }
  }

  /** The closed form is exactly the hash strategy's sample distribution of the keys `0 .. m - 1`. */
  lemma ExpectedMatchesHashDistribution(m: nat, n: Strategy.Pos)
    ensures Strategy.DistributionSpec(m, n) ==
      seq(n, j => m / n + (if j < m % n then 1 else 0))
  {
    forall j | 0 <= j < n
      ensures Strategy.DistributionSpec(m, n)[j] == m / n + (if j < m % n then 1 else 0)
    {
      Strategy.KeysOnShardClosedForm(m, n, j);
    }
  }

  /** The expected distribution accounts for every key exactly once. */
  lemma ExpectedDistributionSum(m: nat, n: Strategy.Pos)
    ensures Sum(seq(n, j => m / n + (if j < m % n then 1 else 0))) == m
  {
    ExpectedMatchesHashDistribution(m, n);
    Strategy.DistributionSum(m, n);
  }
}
