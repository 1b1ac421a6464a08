/**
 * The SQL text the MySQL query builder renders: bound values, the operator
 * table, the WHERE clause, and the SELECT, INSERT and UPDATE statements as
 * functions of the builder's fields.
 */
module Sql {
  import opened Wrappers
  import opened Text
  import opened Dictionary
  import opened Placeholders

  /** A PHP scalar handed to the builder (is_null tells Null apart). */
  datatype Value = Null | Bool(b: bool) | Int(i: int) | Str(s: string)

  /** The placeholder => value table ($bindings). */
  type Bindings = Entries<Value>

  /** A PHP array of column => value. */
  type Row = Entries<Value>

  /** The exceptions the builder throws. TypeError is PHP's own, raised by the
      earlier draft when its operator parameter receives null, and by the
      later all() when toSql mode makes it return a string. */
  datatype Error =
    | NullComparison      // "If value is NULL, use null-related methods ..."
    | UnknownOperator     // "Operator doesn't exist."
    | NotAString          // "must be string"
    | MissingUpdateData   // "update() argument must be filled"
    | UninitializedTable  // typed property $table read before assignment
    | TypeError

  /** What a fetch or write hands back: the SQL itself in toSql mode, or the
      SQL prepared with the values bound to it, or the SQL sent unprepared
      (the rows PDO returns are not modelled). */
  datatype Outcome = SqlText(sql: string) | Prepared(sql: string, bound: Bindings) | Queried(sql: string)

  /** "{$value}": how PHP interpolates a value into SQL text. */
  function ValueText(v: Value): string
  {
    match v
    case Null => ""
    case Bool(b) => if b then "1" else ""
    case Int(i) => IntToString(i)
    case Str(s) => s
  }

  /** getOperator of the later draft: the case-insensitive operator table.
      Its declared return type is string, so the `false` of an unknown or
      null operator reaches the caller as "", which is falsy. */
  function ResolveOperator(op: Option<string>): (r: string)
    ensures r in {"", "=", "!=", ">", ">=", "<", "<=", "LIKE", "IS", "IS NOT"}
    ensures op.None? ==> r == ""
  {
    if op.None? then "" else LowerOperator(ToLower(op.value))
  }

  /** The operator table on the lower-cased spelling. */
  function LowerOperator(o: string): string
  {
    if o == "=" || o == "eq" then "="
    else if o == "<>" || o == "neq" then "!="
    else if o == ">" || o == "gt" then ">"
    else if o == ">=" || o == "gt-eq" then ">="
    else if o == "<" || o == "lt" then "<"
    else if o == "<=" || o == "lt-eq" then "<="
    else if o == "like" then "LIKE"
    else if o == "is" then "IS"
    else if o == "is not" then "IS NOT"
    else ""
  }

  predicate IsOperator(op: string)
  {
    ResolveOperator(Some(op)) != ""
  }

  /** The operator table does not care about letter case. */
  lemma OperatorCaseInsensitive(op: string)
    ensures ResolveOperator(Some(ToUpper(op))) == ResolveOperator(Some(op))
    ensures ResolveOperator(Some(ToLower(op))) == ResolveOperator(Some(op))
  {
    LowerOfUpper(op);
    LowerIdempotent(op);
  }

  /** buildWhereClause: the AND fragments joined by " AND ", a lone "OR" when
      both lists are non-empty, then the OR fragments joined by " OR "; the
      "WHERE" keyword only when asked for and some fragment exists. */
  function WhereClause(ands: seq<string>, ors: seq<string>, keyword: bool): string
  {
    var head := if keyword && (ands != [] || ors != []) then ["WHERE"] else [];
    var conj := if ands != [] then [Join(" AND ", ands)] else [];
    var disj := if ors != [] then (if ands != [] then ["OR"] else []) + [Join(" OR ", ors)] else [];
    Join(" ", head + conj + disj)
  }

  /** The text of the condition part of a WHERE clause. */
  function ConditionText(ands: seq<string>, ors: seq<string>): string
  {
    if ands == [] then Join(" OR ", ors)
    else if ors == [] then Join(" AND ", ands)
    else Join(" AND ", ands) + " OR " + Join(" OR ", ors)
  }

  lemma WhereClauseShape(ands: seq<string>, ors: seq<string>, keyword: bool)
    ensures ands == [] && ors == [] ==> WhereClause(ands, ors, keyword) == ""
    ensures ands != [] || ors != [] ==>
      WhereClause(ands, ors, keyword) == (if keyword then "WHERE " else "") + ConditionText(ands, ors)
  {
    var a, o := Join(" AND ", ands), Join(" OR ", ors);
    var head := if keyword && (ands != [] || ors != []) then ["WHERE"] else [];
    var conj := if ands != [] then [a] else [];
    var disj := if ors != [] then (if ands != [] then ["OR"] else []) + [o] else [];
    var body := conj + disj;
    if ands != [] && ors != [] {
      assert body == [a] + (["OR"] + [o]);
      JoinCons(" ", "OR", [o]);
      JoinCons(" ", a, ["OR"] + [o]);
    } else if ands != [] {
      assert body == [a];
    } else if ors != [] {
      assert body == [o];
    }
    if ands != [] || ors != [] {
      assert Join(" ", body) == ConditionText(ands, ors);
      if keyword {
        assert head + conj + disj == ["WHERE"] + body;
        JoinCons(" ", "WHERE", body);
      } else {
        assert head + conj + disj == body;
      }
    } else {
      assert head + conj + disj == [];
    }
  }

  datatype JoinSpec = JoinSpec(table: string, from: string, operator: string, to: string)

  /** The fields of a builder the SELECT and UPDATE renderers read. */
  datatype Query = Query(
    table: string,
    selects: seq<string>,
    ands: seq<string>,
    ors: seq<string>,
    groupBys: seq<string>,
    orderBys: seq<(string, string)>,
    limit: int,
    offset: int,
    distinct: bool,
    join: Option<JoinSpec>,
    updates: Row)

  /** A freshly constructed builder's fields, with a table set. */
  function EmptyQuery(table: string): Query
  {
    Query(table, [], [], [], [], [], 0, 0, false, None, [])
  }

  function SelectBase(q: Query): seq<string>
  {
    ["SELECT"] + (if q.distinct then ["DISTINCT"] else [])
    + [if q.selects == [] then "*" else Join(", ", q.selects)]
    + ["FROM " + q.table]
  }

  function GroupByParts(groupBys: seq<string>): seq<string>
  {
    if groupBys != [] then ["GROUP BY " + Join(", ", groupBys)] else []
  }

  function OrderByParts(orderBys: seq<(string, string)>): seq<string>
  {
    if orderBys != [] then
      ["Order BY " + Join(",", seq(|orderBys|, i requires 0 <= i < |orderBys| =>
                                   orderBys[i].0 + " " + ToUpper(orderBys[i].1)))]
    else []
  }

  /** LIMIT and OFFSET are emitted only when truthy, so 0 and unset agree. */
  function LimitParts(limit: int): seq<string>
  {
    if limit != 0 then ["LIMIT " + IntToString(limit)] else []
  }

  function OffsetParts(offset: int): seq<string>
  {
    if offset != 0 then ["OFFSET " + IntToString(offset)] else []
  }

  /** The modifiers that follow the WHERE clause of a SELECT. */
  function SelectTail(q: Query): seq<string>
  {
    GroupByParts(q.groupBys) + OrderByParts(q.orderBys) + LimitParts(q.limit) + OffsetParts(q.offset)
  }

  /** buildSelect, joined with spaces by buildSql. The WHERE clause is always
      one of the parts, even when it renders empty. */
  function SelectSql(q: Query): string
  {
    Join(" ", SelectBase(q) + [WhereClause(q.ands, q.ors, true)] + SelectTail(q))
  }

  /** The base of a SELECT: "SELECT [DISTINCT ]<columns or *> FROM <table>". */
  lemma SelectBaseText(q: Query)
    ensures Join(" ", SelectBase(q)) ==
      "SELECT " + (if q.distinct then "DISTINCT " else "")
      + (if q.selects == [] then "*" else Join(", ", q.selects))
      + " FROM " + q.table
  {
    var cols := if q.selects == [] then "*" else Join(", ", q.selects);
    var from := "FROM " + q.table;
    if q.distinct {
      assert SelectBase(q) == ["SELECT", "DISTINCT", cols, from];
      Join4(" ", "SELECT", "DISTINCT", cols, from);
      SelectDistinctText(cols, q.table);
    } else {
      assert SelectBase(q) == ["SELECT", cols, from];
      Join3(" ", "SELECT", cols, from);
      SelectText(cols, q.table);
    }
  }

  lemma SelectText(cols: string, table: string)
    ensures "SELECT" + " " + cols + " " + ("FROM " + table) == "SELECT " + "" + cols + " FROM " + table
  {
    assert "SELECT" + " " == "SELECT " + "";
    assert " " + ("FROM " + table) == " FROM " + table;
  }

  lemma SelectDistinctText(cols: string, table: string)
    ensures "SELECT" + " " + "DISTINCT" + " " + cols + " " + ("FROM " + table) == "SELECT " + "DISTINCT " + cols + " FROM " + table
  {
    assert "SELECT" + " " + "DISTINCT" + " " == "SELECT " + "DISTINCT ";
    assert " " + ("FROM " + table) == " FROM " + table;
  }

  /** The order of the parts of a SELECT: base, WHERE clause (a trailing space
      after the base when there is no condition), then GROUP BY, ORDER BY,
      LIMIT, OFFSET. */
  lemma SelectShape(q: Query)
    ensures SelectSql(q) ==
      Join(" ", SelectBase(q)) + " " + WhereClause(q.ands, q.ors, true)
      + (if SelectTail(q) == [] then "" else " " + Join(" ", SelectTail(q)))
  {
    var w := WhereClause(q.ands, q.ors, true);
    var tail := SelectTail(q);
    var front := SelectBase(q) + [w];
    JoinAppend(" ", SelectBase(q), [w]);
    if tail != [] {
      JoinAppend(" ", front, tail);
    } else {
      assert front + tail == front;
    }
  }

  /** The statement that table('users')->where('id', '>', 63)->get() renders. */
  lemma SelectWithOneCondition(table: string, fragment: string)
    ensures SelectSql(EmptyQuery(table).(ands := [fragment])) ==
      "SELECT * FROM " + table + " WHERE " + fragment
  {
    var q := EmptyQuery(table).(ands := [fragment]);
    SelectShape(q);
    SelectBaseText(q);
    WhereClauseShape([fragment], [], true);
    assert SelectTail(q) == [];
  }

  /** Without any condition the base is followed by a lone space. */
  lemma SelectWithoutConditions(q: Query)
    requires q.ands == [] && q.ors == [] && SelectTail(q) == []
    ensures SelectSql(q) == Join(" ", SelectBase(q)) + " "
  {
    SelectShape(q);
    WhereClauseShape(q.ands, q.ors, true);
  }

  // INSERT

  function InsertBase(table: string, ignore: bool): string
  {
    Join(" ", ["INSERT"] + (if ignore then ["IGNORE"] else []) + ["INTO " + table])
  }

  /** buildInsertColumns of the later draft: the row's keys, padded. */
  function InsertColumns(row: Row): string
  {
    "( " + Join(",", Keys(row)) + " )"
  }

  /** buildInsertColumns of the earlier draft: the row's keys, unpadded. */
  function EarlyInsertColumns(row: Row): string
  {
    "(" + Join(",", Keys(row)) + ")"
  }

  /** The column list of either draft. */
  function ColumnsText(padded: bool, row: Row): string
  {
    if padded then InsertColumns(row) else EarlyInsertColumns(row)
  }

  function ValuePlaceholder(i: nat, column: string): string
  {
    ValueBinder + NatToString(i) + "_" + column
  }

  function UpdatePlaceholder(i: nat, column: string): string
  {
    UpdateBinder + NatToString(i) + "_" + column
  }

  /** The :value_<i>_<column> => value entries that row i binds. */
  function ValueEntries(i: nat, row: Row): Bindings
  {
    seq(|row|, j requires 0 <= j < |row| => (ValuePlaceholder(i, row[j].0), row[j].1))
  }

  /** The :update_<i>_<column> => value entries of row i's upsert. */
  function UpdateEntries(i: nat, dup: Row): Bindings
  {
    seq(|dup|, j requires 0 <= j < |dup| => (UpdatePlaceholder(i, dup[j].0), dup[j].1))
  }

  /** The ON DUPLICATE KEY UPDATE data of row i, when it is set and non-empty. */
  function DuplicateFor(dups: seq<Option<Row>>, i: nat): (d: Option<Row>)
    ensures d.Some? ==> d.value != []
  {
    if i < |dups| && dups[i].Some? && dups[i].value != [] then dups[i] else None
  }

  function DuplicateText(i: nat, dup: Row): string
  {
    " ON DUPLICATE KEY UPDATE "
    + Join(", ", seq(|dup|, j requires 0 <= j < |dup| => dup[j].0 + " = " + UpdatePlaceholder(i, dup[j].0)))
  }

  /** Statement parts rendered so far, and the binding table they leave. */
  datatype Insertion = Insertion(parts: seq<string>, bindings: Bindings)

  /** The "VALUES (...)" part: every key of the binding table at that point. */
  function ValuesText(b: Bindings): string
  {
    "VALUES (" + Join(",", Keys(b)) + ")"
  }

  /** One row's statement: base, columns, values, optional upsert, ";". */
  function RowBlock(table: string, ignore: bool, padded: bool, dups: seq<Option<Row>>, i: nat, row: Row, b: Bindings): Insertion
  {
    var b1 := Merge(b, ValueEntries(i, row));
    var head := [InsertBase(table, ignore), ColumnsText(padded, row), ValuesText(b1)];
    match DuplicateFor(dups, i)
    case None => Insertion(head + [";"], b1)
    case Some(dup) => Insertion(head + [DuplicateText(i, dup), ";"], Merge(b1, UpdateEntries(i, dup)))
  }

  /** What a row's statement leaves in the binding table: its value
      placeholders, then those of its upsert, if any. */
  lemma RowBlockBindings(table: string, ignore: bool, padded: bool, dups: seq<Option<Row>>, i: nat, row: Row, b: Bindings)
    ensures var b1 := Merge(b, ValueEntries(i, row));
      var d := DuplicateFor(dups, i);
      RowBlock(table, ignore, padded, dups, i, row, b).bindings == if d.None? then b1 else Merge(b1, UpdateEntries(i, d.value))
  {
  }

  /** buildInsert over the first k rows, starting from binding table b. */
  function InsertUpTo(table: string, ignore: bool, padded: bool, rows: seq<Row>, dups: seq<Option<Row>>, b: Bindings, k: nat): Insertion
    requires k <= |rows|
  {
    if k == 0 then Insertion([], b)
    else
      var r := InsertUpTo(table, ignore, padded, rows, dups, b, k - 1);
      var blk := RowBlock(table, ignore, padded, dups, k - 1, rows[k - 1], r.bindings);
      Insertion(r.parts + blk.parts, blk.bindings)
  }

  /** q is the unpadded column list whose padded form is p. */
  predicate Repadded(q: string, p: string)
  {
    |q| >= 2 && p == "( " + q[1..|q| - 1] + " )"
  }

  /** Two part lists alike part for part, except where the first holds the
      padded form of the second's column list. */
  predicate PartsAgree(ps: seq<string>, qs: seq<string>)
  {
    |ps| == |qs| && forall j :: 0 <= j < |ps| ==> ps[j] == qs[j] || Repadded(qs[j], ps[j])
  }

  lemma PartsAgreeAppend(ps: seq<string>, qs: seq<string>, ps': seq<string>, qs': seq<string>)
    requires PartsAgree(ps, qs) && PartsAgree(ps', qs')
    ensures PartsAgree(ps + ps', qs + qs')
  {
    forall j | 0 <= j < |ps + ps'| ensures (ps + ps')[j] == (qs + qs')[j] || Repadded((qs + qs')[j], (ps + ps')[j]) {
      if j >= |ps| {
        assert (ps + ps')[j] == ps'[j - |ps|] && (qs + qs')[j] == qs'[j - |ps|];
      }
    }
  }

  /** The same row rendered by both drafts: the same binding table, and the
      same parts except the column list, which only the padding tells apart. */
  lemma RowBlockDraftsAgree(table: string, ignore: bool, dups: seq<Option<Row>>, i: nat, row: Row, b: Bindings)
    ensures var p := RowBlock(table, ignore, true, dups, i, row, b);
      var q := RowBlock(table, ignore, false, dups, i, row, b);
      && p.bindings == q.bindings && PartsAgree(p.parts, q.parts)
      && (forall j :: 0 <= j < |p.parts| ==> if j == 1 then Repadded(q.parts[j], p.parts[j]) else p.parts[j] == q.parts[j])
  {
    var ks := Join(",", Keys(row));
    assert EarlyInsertColumns(row)[1..|EarlyInsertColumns(row)| - 1] == ks;
  }

  /** The whole INSERT of either draft over the same rows: the same binding
      table, as many parts, and every part alike except the column lists,
      which differ only in their padding. */
  lemma {:induction false} InsertDraftsAgree(table: string, ignore: bool, rows: seq<Row>, dups: seq<Option<Row>>, b: Bindings, k: nat)
    requires k <= |rows|
    ensures var p := InsertUpTo(table, ignore, true, rows, dups, b, k);
      var q := InsertUpTo(table, ignore, false, rows, dups, b, k);
      p.bindings == q.bindings && PartsAgree(p.parts, q.parts)
  {
    if k > 0 {
      InsertDraftsAgree(table, ignore, rows, dups, b, k - 1);
      var r := InsertUpTo(table, ignore, true, rows, dups, b, k - 1);
      var r' := InsertUpTo(table, ignore, false, rows, dups, b, k - 1);
      var blk := RowBlock(table, ignore, true, dups, k - 1, rows[k - 1], r.bindings);
      var blk' := RowBlock(table, ignore, false, dups, k - 1, rows[k - 1], r.bindings);
      RowBlockDraftsAgree(table, ignore, dups, k - 1, rows[k - 1], r.bindings);
      PartsAgreeAppend(r.parts, r'.parts, blk.parts, blk'.parts);
    }
  }

  /** Rendering a row never drops or reorders a binding: the VALUES list of the
      row is the earlier binding keys followed by any new ones, and it holds
      the row's own value placeholders. */
  lemma RowValuesListEarlierKeys(table: string, ignore: bool, padded: bool, dups: seq<Option<Row>>, i: nat, row: Row, b: Bindings)
    ensures var b1 := Merge(b, ValueEntries(i, row));
      && Extends(b, b1)
      && (forall j :: 0 <= j < |row| ==> ValuePlaceholder(i, row[j].0) in Keys(b1))
      && RowBlock(table, ignore, padded, dups, i, row, b).parts[2] == ValuesText(b1)
  {
    var e := ValueEntries(i, row);
    MergeExtends(b, e);
    forall j | 0 <= j < |row| ensures ValuePlaceholder(i, row[j].0) in Keys(Merge(b, e)) {
      assert Keys(e)[j] == ValuePlaceholder(i, row[j].0);
    }
  }

  /** A row's statement keeps the binding table it started from at its front
      and leaves every value placeholder of the row in it. */
  lemma RowBlockExtends(table: string, ignore: bool, padded: bool, dups: seq<Option<Row>>, i: nat, row: Row, b: Bindings)
    ensures var last := RowBlock(table, ignore, padded, dups, i, row, b).bindings;
      && Extends(b, last)
      && forall j :: 0 <= j < |row| ==> ValuePlaceholder(i, row[j].0) in Keys(last)
  {
    var b1 := Merge(b, ValueEntries(i, row));
    RowValuesListEarlierKeys(table, ignore, padded, dups, i, row, b);
    RowBlockBindings(table, ignore, padded, dups, i, row, b);
    var last := RowBlock(table, ignore, padded, dups, i, row, b).bindings;
    var d := DuplicateFor(dups, i);
    if d.Some? {
      MergeExtends(b1, UpdateEntries(i, d.value));
    } else {
      assert Keys(last)[..|b1|] == Keys(b1);
    }
    ExtendsTransitive(b, b1, last);
    forall j | 0 <= j < |row| ensures ValuePlaceholder(i, row[j].0) in Keys(last) {
      ExtendsKeepsKeys(b1, last, ValuePlaceholder(i, row[j].0));
    }
  }

  /** After k rows the binding table still starts with the keys it had, and
      holds the value placeholders of every row rendered so far: so each later
      row's VALUES list repeats the earlier rows' placeholders. */
  lemma {:induction false} InsertKeepsEarlierRows(table: string, ignore: bool, padded: bool, rows: seq<Row>, dups: seq<Option<Row>>, b: Bindings, k: nat)
    requires k <= |rows|
    ensures var r := InsertUpTo(table, ignore, padded, rows, dups, b, k);
      && Extends(b, r.bindings)
      && forall i, j :: 0 <= i < k && 0 <= j < |rows[i]| ==> ValuePlaceholder(i, rows[i][j].0) in Keys(r.bindings)
  {
    if k == 0 {
      assert Keys(b)[..|b|] == Keys(b);
    } else {
      var r := InsertUpTo(table, ignore, padded, rows, dups, b, k - 1);
      var last := RowBlock(table, ignore, padded, dups, k - 1, rows[k - 1], r.bindings).bindings;
      assert InsertUpTo(table, ignore, padded, rows, dups, b, k).bindings == last;
      InsertKeepsEarlierRows(table, ignore, padded, rows, dups, b, k - 1);
      RowBlockExtends(table, ignore, padded, dups, k - 1, rows[k - 1], r.bindings);
      assert Extends(b, last) by {
        ExtendsTransitive(b, r.bindings, last);
      }
      forall i, j | 0 <= i < k && 0 <= j < |rows[i]| ensures ValuePlaceholder(i, rows[i][j].0) in Keys(last) {
        if i < k - 1 {
          ExtendsKeepsKeys(r.bindings, last, ValuePlaceholder(i, rows[i][j].0));
        }
      }
    }
  }

  lemma ValueEntriesUnique(i: nat, row: Row)
    requires UniqueKeys(row)
    ensures UniqueKeys(ValueEntries(i, row))
    ensures Keys(ValueEntries(i, row)) == seq(|row|, j requires 0 <= j < |row| => ValuePlaceholder(i, row[j].0))
  {
    var e := ValueEntries(i, row);
    var p := ValueBinder + NatToString(i) + "_";
    forall a, c | 0 <= a < c < |e| ensures e[a].0 != e[c].0 {
      assert e[a].0[|p|..] == row[a].0;
      assert e[c].0[|p|..] == row[c].0;
    }
  }

  /** The head of an INSERT: "INSERT [IGNORE] INTO <table>". */
  lemma InsertBaseText(table: string, ignore: bool)
    ensures InsertBase(table, ignore) == (if ignore then "INSERT IGNORE INTO " else "INSERT INTO ") + table
  {
    if ignore {
      assert ["INSERT"] + ["IGNORE"] + ["INTO " + table] == ["INSERT"] + (["IGNORE"] + ["INTO " + table]);
      JoinCons(" ", "IGNORE", ["INTO " + table]);
      JoinCons(" ", "INSERT", ["IGNORE"] + ["INTO " + table]);
    } else {
      assert ["INSERT"] + [] + ["INTO " + table] == ["INSERT"] + ["INTO " + table];
      JoinCons(" ", "INSERT", ["INTO " + table]);
    }
  }

  lemma TerminatorText(pre: string)
    ensures pre + " " + ";" == pre + " ;"
  {
    assert " " + ";" == " ;";
  }

  /** A single row inserted into a builder with no pending bindings and no
      upsert renders INSERT [IGNORE] INTO t ( k1,k2 ) VALUES (:value_0_k1,:value_0_k2) ;
      and binds exactly the row's value placeholders. */
  lemma SingleRowInsert(table: string, ignore: bool, padded: bool, row: Row)
    requires UniqueKeys(row)
    ensures var r := InsertUpTo(table, ignore, padded, [row], [], [], 1);
      && r.bindings == ValueEntries(0, row)
      && Join(" ", r.parts) ==
        InsertBase(table, ignore) + " " + ColumnsText(padded, row) + " " + ValuesText(ValueEntries(0, row)) + " ;"
  {
    var e := ValueEntries(0, row);
    var base := InsertBase(table, ignore);
    var cols := ColumnsText(padded, row);
    var vals := ValuesText(e);
    var blk := RowBlock(table, ignore, padded, [], 0, row, []);
    assert Merge([], e) == e by {
      ValueEntriesUnique(0, row);
      MergeDisjoint([], e);
      assert [] + e == e;
    }
    assert blk == Insertion([base, cols, vals, ";"], e) by {
      assert DuplicateFor([], 0) == None;
      RowBlockBindings(table, ignore, padded, [], 0, row, []);
      assert [base, cols, vals] + [";"] == [base, cols, vals, ";"];
    }
    var r := InsertUpTo(table, ignore, padded, [row], [], [], 1);
    assert r == blk by {
      assert InsertUpTo(table, ignore, padded, [row], [], [], 0) == Insertion([], []);
      assert [row][0] == row;
      assert [] + blk.parts == blk.parts;
    }
    assert Join(" ", r.parts) == base + " " + cols + " " + vals + " ;" by {
      Join4(" ", base, cols, vals, ";");
      TerminatorText(base + " " + cols + " " + vals);
    }
  }

  // UPDATE

  /** SET entries: the value is interpolated raw, never bound. */
  function SetParts(updates: Row): seq<string>
  {
    seq(|updates|, i requires 0 <= i < |updates| => updates[i].0 + " = " + ValueText(updates[i].1))
  }

  function SetClause(updates: Row): string
  {
    "SET " + Join(", ", SetParts(updates))
  }

  /** One update entry renders as "c = <its interpolation>": false and null
      leave nothing after the "=", true is written as 1. */
  lemma SingleSetClause(column: string, v: Value)
    ensures SetClause([(column, v)]) == "SET " + column + " = " + ValueText(v)
    ensures v == Bool(false) || v == Null ==> SetClause([(column, v)]) == "SET " + column + " = "
    ensures v == Bool(true) ==> SetClause([(column, v)]) == "SET " + column + " = 1"
  {
    assert SetParts([(column, v)]) == [column + " = " + ValueText(v)];
  }

  function JoinText(j: JoinSpec): string
  {
    "JOIN " + j.table + " ON " + j.from + " " + j.operator + " " + j.to
  }

  /** buildUpdate of the later draft, as joined by buildSql. */
  function UpdateSql(q: Query): Result<string, Error>
  {
    if q.updates == [] then Err(MissingUpdateData)
    else
      Ok(Join(" ", ["UPDATE " + q.table]
                   + (if q.join.Some? then [JoinText(q.join.value)] else [])
                   + [SetClause(q.updates), WhereClause(q.ands, q.ors, true)]
                   + LimitParts(q.limit)))
  }

  /** An update with data, no join and no limit, and some condition, renders
      UPDATE t SET c = v, ... WHERE <conditions>. */
  lemma UpdateShape(q: Query)
    requires q.updates != [] && q.join.None? && q.limit == 0
    requires q.ands != [] || q.ors != []
    ensures UpdateSql(q) == Ok("UPDATE " + q.table + " " + SetClause(q.updates) + " WHERE " + ConditionText(q.ands, q.ors))
  {
    WhereClauseShape(q.ands, q.ors, true);
    var w := WhereClause(q.ands, q.ors, true);
    var parts := ["UPDATE " + q.table] + [] + [SetClause(q.updates), w] + [];
    assert parts == ["UPDATE " + q.table] + ([SetClause(q.updates)] + [w]);
    JoinCons(" ", SetClause(q.updates), [w]);
    JoinCons(" ", "UPDATE " + q.table, [SetClause(q.updates)] + [w]);
    assert w == "WHERE " + ConditionText(q.ands, q.ors);
    assert Join(" ", parts) == "UPDATE " + q.table + " " + (SetClause(q.updates) + " " + w);
    assert LimitParts(q.limit) == [];
    assert UpdateSql(q) == Ok(Join(" ", parts));
    var st, c := SetClause(q.updates), ConditionText(q.ands, q.ors);
    assert " " + "WHERE " == " WHERE ";
    assert st + " " + ("WHERE " + c) == st + " WHERE " + c;
    assert "UPDATE " + q.table + " " + (st + " WHERE " + c) == "UPDATE " + q.table + " " + st + " WHERE " + c;
  }
}
