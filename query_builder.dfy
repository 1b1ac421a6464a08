/**
 * The fluent MySQL query builder of the later draft: an object whose fields
 * collect the table, columns, conditions, bindings and statement data, and
 * whose fetch and write methods render them to SQL, hand the bindings to
 * the statement and clear them.
 */
module QueryBuilder {
  import opened Wrappers
  import opened Text
  import opened Dictionary
  import opened Placeholders
  import opened Sql
  import opened Conditions

  /** The first argument of where(): a column, or a callback receiving a new
      builder (the calls it makes). */
  datatype Column = Name(name: string) | Callback(body: seq<Where>)

  /** The argument of whereExists(): raw SQL, or a callback. */
  datatype ExistsArg = Literal(sql: string) | Subquery(body: seq<Where>, returned: Returned)

  /** The argument of groupBy(): an array of columns or a ", "-separated string. */
  datatype ColumnList = Names(names: seq<string>) | Csv(text: string)

  function ColumnSize(c: Column): nat
  {
    match c
    case Name(_) => 0
    case Callback(body) => SizeAll(body) + 1
  }

  function ArgSize(a: ExistsArg): nat
  {
    match a
    case Literal(_) => 0
    case Subquery(body, _) => SizeAll(body) + 1
  }

  /** The call processWhere makes for a column argument. */
  function WhereOf(column: Column, op: Option<string>, value: Value, not: bool, or: bool, bind: bool): Where
  {
    match column
    case Name(n) => Basic(n, op, value, not, or, bind)
    case Callback(body) => Group(body, not, or)
  }

  function ExistsOf(arg: ExistsArg, not: bool, or: bool): Where
  {
    match arg
    case Literal(sql) => ExistsText(sql, not, or)
    case Subquery(body, returned) => ExistsQuery(body, returned, not, or)
  }

  class Builder {
    /** The source of placeholder tokens, shared with nested builders. */
    const supply: Supply
    var table: string
    var selects: seq<string>
    var andWheres: seq<string>
    var orWheres: seq<string>
    var bindings: Bindings
    var groupBys: seq<string>
    var orderBys: seq<(string, string)>
    var limit: int
    var offset: int
    var distinct: bool
    var toSqlStatus: bool
    var action: string
    var insertArrays: seq<Row>
    var updateArrays: Row
    var insertUpdateOnDuplicate: seq<Option<Row>>
    var insertIgnore: bool
    var join: Option<JoinSpec>

    constructor (supply: Supply)
      ensures this.supply == supply
      ensures table == "" && selects == [] && andWheres == [] && orWheres == [] && bindings == []
      ensures groupBys == [] && orderBys == [] && limit == 0 && offset == 0 && !distinct
      ensures !toSqlStatus && action == "select"
      ensures insertArrays == [] && updateArrays == [] && insertUpdateOnDuplicate == []
      ensures !insertIgnore && join.None?
      ensures Valid()
    {
      this.supply := supply;
      table := "";
      selects := [];
      andWheres := [];
      orWheres := [];
      bindings := [];
      groupBys := [];
      orderBys := [];
      limit := 0;
      offset := 0;
      distinct := false;
      toSqlStatus := false;
      action := "select";
      insertArrays := [];
      updateArrays := [];
      insertUpdateOnDuplicate := [];
      insertIgnore := false;
      join := None;
    }

    function Conditions(): Conds
      reads this
    {
      Conds(andWheres, orWheres, bindings)
    }

    /** The fields the SELECT and UPDATE renderers read. */
    function Query(): Query
      reads this
    {
      Sql.Query(table, selects, andWheres, orWheres, groupBys, orderBys, limit, offset, distinct, join, updateArrays)
    }

    /** The bindings hold distinct keys, and every WHERE placeholder among
        them was drawn from the supply already. */
    predicate Valid()
      reads this, supply
    {
      UniqueKeys(bindings) && Below(bindings, supply.next)
    }

    /** The call did what Step says, with `error` the exception it threw. */
    twostate predicate Performed(w: Where, new error: Option<Error>)
      reads this, supply
    {
      Stepped(Conditions(), supply.next, error) == Step(w, old(Conditions()), old(supply.next), table)
    }

    // Setters

    method Table(table: string)
      modifies this`table
      ensures this.table == table
    {
      this.table := table;
    }

    method Select(columns: seq<string> := ["*"])
      modifies this`selects
      ensures selects == columns
    {
      selects := columns;
    }

    method GroupBy(columns: ColumnList)
      modifies this`groupBys
      ensures groupBys == match columns case Names(ns) => ns case Csv(t) => Explode(", ", t)
      ensures columns.Csv? ==> Join(", ", groupBys) == columns.text
    {
      match columns
      case Names(ns) => groupBys := ns;
      case Csv(t) => {
        groupBys := Explode(", ", t);
        JoinExplode(", ", t);
      }
    }

    method OrderBy(orders: seq<(string, string)>)
      modifies this`orderBys
      ensures orderBys == orders
    {
      orderBys := orders;
    }

    method Limit(limit: int)
      modifies this`limit
      ensures this.limit == limit
    {
      this.limit := limit;
    }

    method Offset(offset: int)
      modifies this`offset
      ensures this.offset == offset
    {
      this.offset := offset;
    }

    /** unique(): replaces the selected columns by "DISTINCT <column>". */
    method Unique(column: string)
      modifies this`selects
      ensures selects == ["DISTINCT " + column]
    {
      selects := ["DISTINCT " + column];
    }

    method ToSql(state: bool := true)
      modifies this`toSqlStatus
      ensures toSqlStatus == state
    {
      toSqlStatus := state;
    }

    method InsertIgnore()
      modifies this`insertIgnore
      ensures insertIgnore
    {
      insertIgnore := true;
    }

    /** One optional array of upsert data per inserted row, by position. */
    method OnDuplicateKeyUpdate(duplicateOn: seq<Option<Row>>)
      modifies this`insertUpdateOnDuplicate
      ensures insertUpdateOnDuplicate == duplicateOn
    {
      insertUpdateOnDuplicate := duplicateOn;
    }

    /** join(table, column1, operator, column2) */
    method JoinOn(table: string, column1: string, operator: string, column2: string)
      modifies this`join
      ensures join == Some(JoinSpec(table, column1, operator, column2))
    {
      join := Some(JoinSpec(table, column1, operator, column2));
    }

    method SetAction(action: string)
      modifies this`action
      ensures this.action == action
    {
      this.action := action;
    }

    // Conditions

    /** randomPlaceholder: the next token of the shared supply. */
    method RandomPlaceholder() returns (token: string)
      modifies supply`next
      ensures supply.next == old(supply.next) + 1 && token == Token(old(supply.next))
    {
      token := supply.Fresh();
    }

    /** handleWherePlaceholder */
    method HandleWherePlaceholder(column: string, bind: bool, value: Value) returns (placeholder: string)
      modifies this`bindings, supply`next
      ensures var cond := Placed(column, "", value, bind, old(supply.next));
        && supply.next == cond.next
        && bindings == Merge(old(bindings), cond.bound)
        && placeholder == (if bind then WherePlaceholder(old(supply.next), column) else ValueText(value))
    {
      var token := RandomPlaceholder();
      placeholder := WhereBinder + token + "_" + column;
      if bind {
        bindings := Put(bindings, placeholder, value);
      } else {
        placeholder := ValueText(value);
      }
    }

    /** addOperatorConditionToWhere: an operator that is not one is the value. */
    method AddOperatorConditionToWhere(sql: seq<string>, operator: string, column: string, bind: bool)
      returns (parts: seq<string>, error: Option<Error>)
      modifies this`bindings, supply`next
      ensures !IsOperator(operator) ==>
        var cond := Placed(column, "=", Str(operator), bind, old(supply.next));
        && error.None? && supply.next == cond.next && bindings == Merge(old(bindings), cond.bound)
        && parts == sql + ["=", if bind then WherePlaceholder(old(supply.next), column) else operator]
      ensures IsOperator(operator) ==>
        error == Some(NullComparison) && supply.next == old(supply.next) && bindings == old(bindings)
    {
      if !IsOperator(operator) {
        var placeholder := HandleWherePlaceholder(column, bind, Str(operator));
        parts, error := sql + ["=", placeholder], None;
      } else {
        parts, error := sql, Some(NullComparison);
      }
    }

    /** addValueConditionToWhere: the operator is rendered as written. */
    method AddValueConditionToWhere(sql: seq<string>, operator: string, value: Value, column: string, bind: bool)
      returns (parts: seq<string>, error: Option<Error>)
      modifies this`bindings, supply`next
      ensures IsOperator(operator) ==>
        var cond := Placed(column, operator, value, bind, old(supply.next));
        && error.None? && supply.next == cond.next && bindings == Merge(old(bindings), cond.bound)
        && parts == sql + [operator, if bind then WherePlaceholder(old(supply.next), column) else ValueText(value)]
      ensures !IsOperator(operator) ==>
        error == Some(UnknownOperator) && supply.next == old(supply.next) && bindings == old(bindings)
    {
      if IsOperator(operator) {
        var placeholder := HandleWherePlaceholder(column, bind, value);
        parts, error := sql + [operator, placeholder], None;
      } else {
        parts, error := sql, Some(UnknownOperator);
      }
    }

    /** handleWhereConditions, with addNullConditionToWhere inlined. */
    method HandleWhereConditions(column: string, op: Option<string>, value: Value, bind: bool)
      returns (sql: string, error: Option<Error>)
      modifies this`bindings, supply`next
      ensures var h := HandleWhere(column, op, value, bind, old(supply.next));
        if h.Err? then error == Some(h.error) && bindings == old(bindings) && supply.next == old(supply.next)
        else error.None? && sql == h.value.text && bindings == Merge(old(bindings), h.value.bound)
             && supply.next == h.value.next
    {
      var parts := [column];
      if op.None? && value.Null? {
        parts := parts + ["IS NULL"];
        error := None;
        Join2(" ", column, "IS NULL");
        assert Merge(bindings, []) == bindings;
      } else if op.Some? && value.Null? {
        parts, error := AddOperatorConditionToWhere(parts, op.value, column, bind);
        if error.None? {
          Join3(" ", parts[0], parts[1], parts[2]);
        }
      } else if op.Some? {
        parts, error := AddValueConditionToWhere(parts, op.value, value, column, bind);
        if error.None? {
          Join3(" ", parts[0], parts[1], parts[2]);
        }
      } else {
        error := Some(NullComparison);
      }
      sql := Join(" ", parts);
    }

    /** processWhere */
    method ProcessWhere(column: Column, op: Option<string>, value: Value, not: bool, or: bool, bind: bool)
      returns (error: Option<Error>)
      modifies this`andWheres, this`orWheres, this`bindings, supply`next
      ensures Performed(WhereOf(column, op, value, not, or, bind), error)
      decreases ColumnSize(column), 1
    {
      match column
      case Callback(body) => {
        var query := new Builder(supply);
        error := query.RunCallback(body);
        if error.None? {
          var sql := "( " + WhereClause(query.andWheres, query.orWheres, false) + " )";
          if not {
            sql := "NOT " + sql;
          }
          if !or {
            andWheres := andWheres + [sql];
          } else {
            orWheres := orWheres + [sql];
          }
          bindings := Merge(bindings, query.bindings);
        }
      }
      case Name(name) => {
        var sql;
        sql, error := HandleWhereConditions(name, op, value, bind);
        if error.None? {
          if not {
            sql := "NOT (" + sql + ")";
          }
          if !or {
            andWheres := andWheres + [sql];
          } else {
            orWheres := orWheres + [sql];
          }
        }
      }
    }

    /** Runs a callback's calls on this (new) builder, stopping at the first
        exception. */
    method RunCallback(body: seq<Where>) returns (error: Option<Error>)
      modifies this`andWheres, this`orWheres, this`bindings, supply`next
      ensures Stepped(Conditions(), supply.next, error) == StepAll(body, old(Conditions()), old(supply.next), table)
      decreases SizeAll(body), 2
    {
      error := None;
      var i := 0;
      while i < |body| && error.None?
        invariant 0 <= i <= |body|
        invariant error.None? ==>
          StepAll(body, old(Conditions()), old(supply.next), table) == StepAll(body[i..], Conditions(), supply.next, table)
        invariant error.Some? ==>
          StepAll(body, old(Conditions()), old(supply.next), table) == Stepped(Conditions(), supply.next, error)
        decreases |body| - i
      {
        SizeAllBound(body, i);
        assert body[i..][0] == body[i] && body[i..][1..] == body[i + 1..];
        error := Apply(body[i]);
        i := i + 1;
      }
    }

    /** A call a callback makes on the builder it receives. */
    method Apply(w: Where) returns (error: Option<Error>)
      modifies this`andWheres, this`orWheres, this`bindings, supply`next
      ensures Performed(w, error)
      decreases Size(w), 0
    {
      match w
      case Basic(column, op, value, not, or, bind) =>
        error := ProcessWhere(Name(column), op, value, not, or, bind);
      case Group(body, not, or) =>
        error := ProcessWhere(Callback(body), None, Null, not, or, true);
      case In(column, values, not) =>
        ProcessWhereIn(column, values, not);
        error := None;
      case Between(column, low, high, not, bind) =>
        ProcessWhereBetween(column, low, high, not, bind);
        error := None;
      case ExistsText(sql, not, or) =>
        error := ProcessWhereExists(Literal(sql), not, or);
      case ExistsQuery(body, returned, not, or) =>
        error := ProcessWhereExists(Subquery(body, returned), not, or);
    }

    /** processWhereIn: one draw and one binding per value. */
    method ProcessWhereIn(column: string, values: seq<Value>, not: bool)
      modifies this`andWheres, this`bindings, supply`next
      ensures Performed(In(column, values, not), None)
    {
      var placeholders := BindEach(column, values);
      andWheres := andWheres + [column + (if not then " NOT" else "") + " IN (" + Join(", ", placeholders) + ")"];
    }

    /** The loop of processWhereIn: draws a token per value and assigns the
        value under its placeholder, in order. */
    method BindEach(column: string, values: seq<Value>) returns (placeholders: seq<string>)
      modifies this`bindings, supply`next
      ensures var e := InEntries(old(supply.next), column, values);
        && placeholders == Keys(e)
        && bindings == Merge(old(bindings), e)
        && supply.next == old(supply.next) + |values|
    {
      ghost var e := InEntries(supply.next, column, values);
      ghost var n := supply.next;
      placeholders := [];
      var i := 0;
      while i < |values|
        invariant 0 <= i <= |values|
        invariant supply.next == n + i
        invariant placeholders == Keys(e[..i])
        invariant bindings == Merge(old(bindings), e[..i])
      {
        var token := RandomPlaceholder();
        var placeholder := WhereBinder + token + "_" + (column + "_" + NatToString(i));
        assert e[i] == (placeholder, values[i]) by {
          InEntryAt(n, column, values, i);
        }
        MergeSnoc(old(bindings), e, i);
        placeholders := placeholders + [placeholder];
        bindings := Put(bindings, placeholder, values[i]);
        i := i + 1;
      }
      assert e[..|values|] == e;
    }

    /** The two draws of a bound whereBetween: the low value under "_1",
        the high value under "_2". */
    method BindPair(column: string, low: Value, high: Value) returns (placeholders: seq<string>)
      modifies this`bindings, supply`next
      ensures var e := BetweenEntries(old(supply.next), column, low, high);
        && placeholders == [e[0].0, e[1].0]
        && bindings == Merge(old(bindings), e)
        && supply.next == old(supply.next) + 2
    {
      ghost var e := BetweenEntries(supply.next, column, low, high);
      MergeSnoc(old(bindings), e, 0);
      MergeSnoc(old(bindings), e, 1);
      assert e[..0] == [] && e[..2] == e;
      var token := RandomPlaceholder();
      var placeholder := WhereBinder + token + "_" + (column + "_1");
      placeholders := [placeholder];
      bindings := Put(bindings, placeholder, low);
      token := RandomPlaceholder();
      placeholder := WhereBinder + token + "_" + (column + "_2");
      placeholders := placeholders + [placeholder];
      bindings := Put(bindings, placeholder, high);
    }

    /** processWhereBetween: two draws when binding, none otherwise. */
    method ProcessWhereBetween(column: string, low: Value, high: Value, not: bool, bind: bool)
      modifies this`andWheres, this`bindings, supply`next
      ensures Performed(Between(column, low, high, not, bind), None)
    {
      ghost var r := Step(Between(column, low, high, not, bind), Conditions(), supply.next, table);
      assert r == StepBetween(column, low, high, not, bind, Conditions(), supply.next);
      var values: seq<string>;
      if bind {
        values := BindPair(column, low, high);
      } else {
        values := [ValueText(low), ValueText(high)];
      }
      var keyword := column + (if not then " NOT" else "") + " BETWEEN ";
      assert values == [values[0], values[1]];
      PrefixedJoin2(keyword, " AND ", values[0], values[1]);
      andWheres := andWheres + [keyword + Join(" AND ", values)];
      assert Stepped(Conditions(), supply.next, None) == r;
    }

    /** Files a rendered condition under AND, or under OR. */
    method FileCondition(sql: string, or: bool)
      modifies this`andWheres, this`orWheres
      ensures Conditions() == File(old(Conditions()), or, sql)
    {
      if !or {
        andWheres := andWheres + [sql];
      } else {
        orWheres := orWheres + [sql];
      }
    }

    /** processWhereExists */
    method ProcessWhereExists(arg: ExistsArg, not: bool, or: bool) returns (error: Option<Error>)
      modifies this`andWheres, this`orWheres, this`bindings, supply`next
      ensures Performed(ExistsOf(arg, not, or), error)
      decreases ArgSize(arg), 1
    {
      ghost var c0 := Conditions();
      ghost var n0 := supply.next;
      match arg
      case Literal(text) => {
        var sql := text;
        if not {
          sql := "NOT (" + sql + ")";
        }
        assert sql == Negated(not, text);
        FileCondition(sql, or);
        FileExists(sql, not, or);
        error := None;
        assert Step(ExistsOf(arg, not, or), c0, n0, table) == StepLiteral(text, not, or, c0, n0);
      }
      case Subquery(body, returned) => {
        var sql, bound;
        sql, bound, error := RunSubquery(body, returned);
        assert Step(ExistsOf(arg, not, or), c0, n0, table) == StepExists(StepAll(body, NoConds, n0, table), returned, not, or, c0, table);
        if error.None? {
          bindings := Merge(bindings, bound);
          FileExists(sql, not, or);
        }
      }
    }

    /** Files "EXISTS (sql)", or "NOT EXISTS (sql)" when negated. */
    method FileExists(sql: string, not: bool, or: bool)
      modifies this`andWheres, this`orWheres
      ensures Conditions() == File(old(Conditions()), or, ExistsFragment(not, sql))
    {
      var fragment := "EXISTS (" + sql + ")";
      if not {
        fragment := "NOT " + fragment;
      } else {
        assert "" + fragment == fragment;
      }
      assert fragment == ExistsFragment(not, sql);
      FileCondition(fragment, or);
    }

    /** The callback of whereExists on a new builder in toSql mode, over the
        same table, selecting 1: the SQL it stands for and what it bound. */
    method RunSubquery(body: seq<Where>, returned: Returned) returns (sql: string, bound: Bindings, error: Option<Error>)
      modifies supply`next
      ensures var s := StepAll(body, NoConds, old(supply.next), table);
        && supply.next == s.next
        && error == (if s.error.Some? then s.error else if returned.ReturnsNonString? then Some(NotAString) else None)
        && (error.None? ==>
              bound == s.conds.bindings
              && sql == if returned.ReturnsSql? then SubquerySql(table, s.conds) else returned.text)
      decreases SizeAll(body) + 1, 0, 1
    {
      var query;
      query, error := SubqueryBuilder(body);
      sql, bound := "", [];
      if error.Some? {
        return;
      }
      match returned
      case ReturnsNonString => {
        error := Some(NotAString);
      }
      case ReturnsText(text) => {
        sql, bound := text, query.bindings;
      }
      case ReturnsSql => {
        var outcome := query.Get();
        sql, bound := outcome.sql, query.bindings;
      }
    }

    /** A new builder in toSql mode over the same table, selecting 1, that
        the callback has run on. */
    method SubqueryBuilder(body: seq<Where>) returns (query: Builder, error: Option<Error>)
      modifies supply`next
      ensures fresh(query) && query.supply == supply && query.toSqlStatus
      ensures query.Query() == EmptyQuery(table).(selects := ["1"], ands := query.andWheres, ors := query.orWheres)
      ensures Stepped(query.Conditions(), supply.next, error) == StepAll(body, NoConds, old(supply.next), table)
      decreases SizeAll(body) + 1, 0, 0
    {
      query := new Builder(supply);
      query.ToSql();
      query.Table(table);
      query.Select(["1"]);
      assert query.Conditions() == NoConds;
      error := query.RunCallback(body);
    }

    // The public where family

    method Where(column: Column, op: Option<string> := None, value: Value := Null) returns (error: Option<Error>)
      modifies this`andWheres, this`orWheres, this`bindings, supply`next
      ensures Performed(WhereOf(column, op, value, false, false, true), error)
      ensures old(Valid()) ==> Valid()
    {
      error := ProcessWhere(column, op, value, false, false, true);
      if old(Valid()) {
        StepKeepsBelow(WhereOf(column, op, value, false, false, true), old(Conditions()), old(supply.next), table);
      }
    }

    method WhereNot(column: Column, op: Option<string> := None, value: Value := Null) returns (error: Option<Error>)
      modifies this`andWheres, this`orWheres, this`bindings, supply`next
      ensures Performed(WhereOf(column, op, value, true, false, true), error)
      ensures old(Valid()) ==> Valid()
    {
      error := ProcessWhere(column, op, value, true, false, true);
      if old(Valid()) {
        StepKeepsBelow(WhereOf(column, op, value, true, false, true), old(Conditions()), old(supply.next), table);
      }
    }

    method OrWhere(column: Column, op: Option<string> := None, value: Value := Null) returns (error: Option<Error>)
      modifies this`andWheres, this`orWheres, this`bindings, supply`next
      ensures Performed(WhereOf(column, op, value, false, true, true), error)
      ensures old(Valid()) ==> Valid()
    {
      error := ProcessWhere(column, op, value, false, true, true);
      if old(Valid()) {
        StepKeepsBelow(WhereOf(column, op, value, false, true, true), old(Conditions()), old(supply.next), table);
      }
    }

    method OrWhereNot(column: Column, op: Option<string> := None, value: Value := Null) returns (error: Option<Error>)
      modifies this`andWheres, this`orWheres, this`bindings, supply`next
      ensures Performed(WhereOf(column, op, value, true, true, true), error)
      ensures old(Valid()) ==> Valid()
    {
      error := ProcessWhere(column, op, value, true, true, true);
      if old(Valid()) {
        StepKeepsBelow(WhereOf(column, op, value, true, true, true), old(Conditions()), old(supply.next), table);
      }
    }

    /** whereColumn('a', 'b') or whereColumn('a', '>', 'b'): nothing is bound. */
    method WhereColumn(column1: string, op: Option<string> := None, column2: Value := Null) returns (error: Option<Error>)
      modifies this`andWheres, this`orWheres, this`bindings, supply`next
      ensures Performed(Basic(column1, op, column2, false, false, false), error)
      ensures bindings == old(bindings)
      ensures old(Valid()) ==> Valid()
    {
      error := ProcessWhere(Name(column1), op, column2, false, false, false);
      if old(Valid()) {
        StepKeepsBelow(Basic(column1, op, column2, false, false, false), old(Conditions()), old(supply.next), table);
      }
    }

    method OrWhereColumn(column1: string, op: Option<string> := None, column2: Value := Null) returns (error: Option<Error>)
      modifies this`andWheres, this`orWheres, this`bindings, supply`next
      ensures Performed(Basic(column1, op, column2, false, true, false), error)
      ensures bindings == old(bindings)
      ensures old(Valid()) ==> Valid()
    {
      error := ProcessWhere(Name(column1), op, column2, false, true, false);
      if old(Valid()) {
        StepKeepsBelow(Basic(column1, op, column2, false, true, false), old(Conditions()), old(supply.next), table);
      }
    }

    /** The whereAny family: a callback calling orWhere for every column. */
    method WhereAnyFamily(columns: seq<string>, op: Option<string>, value: Value, any: bool, not: bool, or: bool)
      returns (error: Option<Error>)
      modifies this`andWheres, this`orWheres, this`bindings, supply`next
      ensures Performed(Group(ColumnCalls(columns, op, value, any), not, or), error)
    {
      var body := ColumnCalls(columns, op, value, any);
      error := ProcessWhere(Callback(body), None, Null, not, or, true);
    }

    method WhereAny(columns: seq<string>, op: Option<string> := None, value: Value := Null) returns (error: Option<Error>)
      modifies this`andWheres, this`orWheres, this`bindings, supply`next
      ensures Performed(Group(ColumnCalls(columns, op, value, true), false, false), error)
      ensures old(Valid()) ==> Valid()
    {
      error := WhereAnyFamily(columns, op, value, true, false, false);
      if old(Valid()) {
        StepKeepsBelow(Group(ColumnCalls(columns, op, value, true), false, false), old(Conditions()), old(supply.next), table);
      }
    }

    method WhereNotAny(columns: seq<string>, op: Option<string> := None, value: Value := Null) returns (error: Option<Error>)
      modifies this`andWheres, this`orWheres, this`bindings, supply`next
      ensures Performed(Group(ColumnCalls(columns, op, value, true), true, false), error)
      ensures old(Valid()) ==> Valid()
    {
      error := WhereAnyFamily(columns, op, value, true, true, false);
      if old(Valid()) {
        StepKeepsBelow(Group(ColumnCalls(columns, op, value, true), true, false), old(Conditions()), old(supply.next), table);
      }
    }

    method OrWhereAny(columns: seq<string>, op: Option<string> := None, value: Value := Null) returns (error: Option<Error>)
      modifies this`andWheres, this`orWheres, this`bindings, supply`next
      ensures Performed(Group(ColumnCalls(columns, op, value, true), false, true), error)
      ensures old(Valid()) ==> Valid()
    {
      error := WhereAnyFamily(columns, op, value, true, false, true);
      if old(Valid()) {
        StepKeepsBelow(Group(ColumnCalls(columns, op, value, true), false, true), old(Conditions()), old(supply.next), table);
      }
    }

    method OrWhereNotAny(columns: seq<string>, op: Option<string> := None, value: Value := Null) returns (error: Option<Error>)
      modifies this`andWheres, this`orWheres, this`bindings, supply`next
      ensures Performed(Group(ColumnCalls(columns, op, value, true), true, true), error)
      ensures old(Valid()) ==> Valid()
    {
      error := WhereAnyFamily(columns, op, value, true, true, true);
      if old(Valid()) {
        StepKeepsBelow(Group(ColumnCalls(columns, op, value, true), true, true), old(Conditions()), old(supply.next), table);
      }
    }

    method WhereAll(columns: seq<string>, op: Option<string> := None, value: Value := Null) returns (error: Option<Error>)
      modifies this`andWheres, this`orWheres, this`bindings, supply`next
      ensures Performed(Group(ColumnCalls(columns, op, value, false), false, false), error)
      ensures old(Valid()) ==> Valid()
    {
      error := WhereAnyFamily(columns, op, value, false, false, false);
      if old(Valid()) {
        StepKeepsBelow(Group(ColumnCalls(columns, op, value, false), false, false), old(Conditions()), old(supply.next), table);
      }
    }

    method WhereNone(columns: seq<string>, op: Option<string> := None, value: Value := Null) returns (error: Option<Error>)
      modifies this`andWheres, this`orWheres, this`bindings, supply`next
      ensures Performed(Group(ColumnCalls(columns, op, value, false), true, false), error)
      ensures old(Valid()) ==> Valid()
    {
      error := WhereAnyFamily(columns, op, value, false, true, false);
      if old(Valid()) {
        StepKeepsBelow(Group(ColumnCalls(columns, op, value, false), true, false), old(Conditions()), old(supply.next), table);
      }
    }

    method OrWhereAll(columns: seq<string>, op: Option<string> := None, value: Value := Null) returns (error: Option<Error>)
      modifies this`andWheres, this`orWheres, this`bindings, supply`next
      ensures Performed(Group(ColumnCalls(columns, op, value, false), false, true), error)
      ensures old(Valid()) ==> Valid()
    {
      error := WhereAnyFamily(columns, op, value, false, false, true);
      if old(Valid()) {
        StepKeepsBelow(Group(ColumnCalls(columns, op, value, false), false, true), old(Conditions()), old(supply.next), table);
      }
    }

    method OrWhereNone(columns: seq<string>, op: Option<string> := None, value: Value := Null) returns (error: Option<Error>)
      modifies this`andWheres, this`orWheres, this`bindings, supply`next
      ensures Performed(Group(ColumnCalls(columns, op, value, false), true, true), error)
      ensures old(Valid()) ==> Valid()
    {
      error := WhereAnyFamily(columns, op, value, false, true, true);
      if old(Valid()) {
        StepKeepsBelow(Group(ColumnCalls(columns, op, value, false), true, true), old(Conditions()), old(supply.next), table);
      }
    }

    /** whereNull: "<column> IS NULL", no draw. */
    method WhereNull(column: string)
      modifies this`andWheres, this`orWheres, this`bindings, supply`next
      ensures andWheres == old(andWheres) + [column + " IS NULL"] && orWheres == old(orWheres)
      ensures bindings == old(bindings) && supply.next == old(supply.next)
      ensures old(Valid()) ==> Valid()
    {
      var error := ProcessWhere(Name(column), None, Null, false, false, false);
      NullCases(column, None, Null, false, false, false, old(Conditions()), old(supply.next), table);
    }

    method OrWhereNull(column: string)
      modifies this`andWheres, this`orWheres, this`bindings, supply`next
      ensures orWheres == old(orWheres) + [column + " IS NULL"] && andWheres == old(andWheres)
      ensures bindings == old(bindings) && supply.next == old(supply.next)
      ensures old(Valid()) ==> Valid()
    {
      var error := ProcessWhere(Name(column), None, Null, false, true, false);
      NullCases(column, None, Null, false, true, false, old(Conditions()), old(supply.next), table);
    }

    /** whereNotNull: "NOT (<column> IS NULL)". */
    method WhereNotNull(column: string)
      modifies this`andWheres, this`orWheres, this`bindings, supply`next
      ensures andWheres == old(andWheres) + ["NOT (" + column + " IS NULL)"] && orWheres == old(orWheres)
      ensures bindings == old(bindings) && supply.next == old(supply.next)
      ensures old(Valid()) ==> Valid()
    {
      var error := ProcessWhere(Name(column), None, Null, true, false, true);
      NullCases(column, None, Null, true, false, true, old(Conditions()), old(supply.next), table);
      assert Negated(true, column + " IS NULL") == "NOT (" + column + " IS NULL)";
    }

    method OrWhereNotNull(column: string)
      modifies this`andWheres, this`orWheres, this`bindings, supply`next
      ensures orWheres == old(orWheres) + ["NOT (" + column + " IS NULL)"] && andWheres == old(andWheres)
      ensures bindings == old(bindings) && supply.next == old(supply.next)
      ensures old(Valid()) ==> Valid()
    {
      var error := ProcessWhere(Name(column), None, Null, true, true, true);
      NullCases(column, None, Null, true, true, true, old(Conditions()), old(supply.next), table);
      assert Negated(true, column + " IS NULL") == "NOT (" + column + " IS NULL)";
    }

    method WhereIn(column: string, values: seq<Value>)
      modifies this`andWheres, this`bindings, supply`next
      ensures Performed(In(column, values, false), None)
      ensures old(Valid()) ==> Valid()
    {
      ProcessWhereIn(column, values, false);
      if old(Valid()) {
        StepKeepsBelow(In(column, values, false), old(Conditions()), old(supply.next), table);
      }
    }

    method WhereNotIn(column: string, values: seq<Value>)
      modifies this`andWheres, this`bindings, supply`next
      ensures Performed(In(column, values, true), None)
      ensures old(Valid()) ==> Valid()
    {
      ProcessWhereIn(column, values, true);
      if old(Valid()) {
        StepKeepsBelow(In(column, values, true), old(Conditions()), old(supply.next), table);
      }
    }

    method WhereBetween(column: string, value1: int, value2: int)
      modifies this`andWheres, this`bindings, supply`next
      ensures Performed(Between(column, Int(value1), Int(value2), false, true), None)
      ensures old(Valid()) ==> Valid()
    {
      ProcessWhereBetween(column, Int(value1), Int(value2), false, true);
      if old(Valid()) {
        StepKeepsBelow(Between(column, Int(value1), Int(value2), false, true), old(Conditions()), old(supply.next), table);
      }
    }

    method WhereNotBetween(column: string, value1: int, value2: int)
      modifies this`andWheres, this`bindings, supply`next
      ensures Performed(Between(column, Int(value1), Int(value2), true, true), None)
      ensures old(Valid()) ==> Valid()
    {
      ProcessWhereBetween(column, Int(value1), Int(value2), true, true);
      if old(Valid()) {
        StepKeepsBelow(Between(column, Int(value1), Int(value2), true, true), old(Conditions()), old(supply.next), table);
      }
    }

    method WhereBetweenColumn(column: string, value1: string, value2: string)
      modifies this`andWheres, this`bindings, supply`next
      ensures Performed(Between(column, Str(value1), Str(value2), false, false), None)
      ensures old(Valid()) ==> Valid()
    {
      ProcessWhereBetween(column, Str(value1), Str(value2), false, false);
      if old(Valid()) {
        StepKeepsBelow(Between(column, Str(value1), Str(value2), false, false), old(Conditions()), old(supply.next), table);
      }
    }

    method WhereNotBetweenColumn(column: string, value1: string, value2: string)
      modifies this`andWheres, this`bindings, supply`next
      ensures Performed(Between(column, Str(value1), Str(value2), true, false), None)
      ensures old(Valid()) ==> Valid()
    {
      ProcessWhereBetween(column, Str(value1), Str(value2), true, false);
      if old(Valid()) {
        StepKeepsBelow(Between(column, Str(value1), Str(value2), true, false), old(Conditions()), old(supply.next), table);
      }
    }

    method WhereExists(sql: ExistsArg) returns (error: Option<Error>)
      modifies this`andWheres, this`orWheres, this`bindings, supply`next
      ensures Performed(ExistsOf(sql, false, false), error)
      ensures old(Valid()) ==> Valid()
    {
      error := ProcessWhereExists(sql, false, false);
      if old(Valid()) {
        StepKeepsBelow(ExistsOf(sql, false, false), old(Conditions()), old(supply.next), table);
      }
    }

    method WhereNotExists(sql: ExistsArg) returns (error: Option<Error>)
      modifies this`andWheres, this`orWheres, this`bindings, supply`next
      ensures Performed(ExistsOf(sql, true, false), error)
      ensures old(Valid()) ==> Valid()
    {
      error := ProcessWhereExists(sql, true, false);
      if old(Valid()) {
        StepKeepsBelow(ExistsOf(sql, true, false), old(Conditions()), old(supply.next), table);
      }
    }

    method OrWhereExists(sql: ExistsArg) returns (error: Option<Error>)
      modifies this`andWheres, this`orWheres, this`bindings, supply`next
      ensures Performed(ExistsOf(sql, false, true), error)
      ensures old(Valid()) ==> Valid()
    {
      error := ProcessWhereExists(sql, false, true);
      if old(Valid()) {
        StepKeepsBelow(ExistsOf(sql, false, true), old(Conditions()), old(supply.next), table);
      }
    }

    method OrWhereNotExists(sql: ExistsArg) returns (error: Option<Error>)
      modifies this`andWheres, this`orWheres, this`bindings, supply`next
      ensures Performed(ExistsOf(sql, true, true), error)
      ensures old(Valid()) ==> Valid()
    {
      error := ProcessWhereExists(sql, true, true);
      if old(Valid()) {
        StepKeepsBelow(ExistsOf(sql, true, true), old(Conditions()), old(supply.next), table);
      }
    }

    // Rendering

    /** buildOrderBy: "<column> <DIRECTION>" per entry, joined by ",". */
    method BuildOrderBy() returns (parts: seq<string>)
      ensures parts == OrderByParts(orderBys)
    {
      var orders := orderBys;
      var sql := [];
      var i := 0;
      while i < |orders|
        invariant 0 <= i <= |orders|
        invariant sql == seq(i, k requires 0 <= k < i => orders[k].0 + " " + ToUpper(orders[k].1))
      {
        sql := sql + [orders[i].0 + " " + ToUpper(orders[i].1)];
        i := i + 1;
      }
      if orderBys != [] {
        parts := ["Order BY " + Join(",", sql)];
      } else {
        parts := [];
      }
    }

    /** buildSelect */
    method BuildSelect() returns (parts: seq<string>)
      ensures Join(" ", parts) == SelectSql(Query())
    {
      var q := Query();
      var orderBy := BuildOrderBy();
      var tail := GroupByParts(groupBys) + orderBy + LimitParts(limit) + OffsetParts(offset);
      assert tail == SelectTail(q);
      parts := SelectBase(q) + [WhereClause(andWheres, orWheres, true)] + tail;
    }

    /** buildInsertValues: binds row i under :value_<i>_<column> and lists
        every key of the binding table. */
    method BuildInsertValues(i: nat, valueSet: Row) returns (values: string)
      modifies this`bindings
      ensures bindings == Merge(old(bindings), ValueEntries(i, valueSet))
      ensures values == ValuesText(bindings)
    {
      ghost var e := ValueEntries(i, valueSet);
      var j := 0;
      while j < |valueSet|
        invariant 0 <= j <= |valueSet|
        invariant bindings == Merge(old(bindings), e[..j])
      {
        var placeholder := ValueBinder + NatToString(i) + "_" + valueSet[j].0;
        MergeSnoc(old(bindings), e, j);
        bindings := Put(bindings, placeholder, valueSet[j].1);
        j := j + 1;
      }
      assert e[..|valueSet|] == e;
      values := "VALUES (" + Join(",", Keys(bindings)) + ")";
    }

    /** buildOnDuplicateKeyUpdate: binds the upsert data of row `index`. */
    method BuildOnDuplicateKeyUpdate(index: nat) returns (duplicate: Option<string>)
      modifies this`bindings
      ensures var d := DuplicateFor(insertUpdateOnDuplicate, index);
        if d.None? then duplicate.None? && bindings == old(bindings)
        else duplicate == Some(DuplicateText(index, d.value)) && bindings == Merge(old(bindings), UpdateEntries(index, d.value))
    {
      var d := DuplicateFor(insertUpdateOnDuplicate, index);
      if d.None? {
        return None;
      }
      var updateParts := BindUpdates(index, d.value);
      duplicate := Some(" ON DUPLICATE KEY UPDATE " + Join(", ", updateParts));
    }

    /** The loop of buildOnDuplicateKeyUpdate: "<column> = <placeholder>" per
        column, each value bound under :update_<index>_<column>. */
    method BindUpdates(index: nat, dup: Row) returns (updateParts: seq<string>)
      modifies this`bindings
      ensures updateParts == seq(|dup|, k requires 0 <= k < |dup| => dup[k].0 + " = " + UpdatePlaceholder(index, dup[k].0))
      ensures bindings == Merge(old(bindings), UpdateEntries(index, dup))
    {
      ghost var e := UpdateEntries(index, dup);
      ghost var goal := seq(|dup|, k requires 0 <= k < |dup| => dup[k].0 + " = " + UpdatePlaceholder(index, dup[k].0));
      updateParts := [];
      var j := 0;
      while j < |dup|
        invariant 0 <= j <= |dup|
        invariant updateParts == goal[..j]
        invariant bindings == Merge(old(bindings), e[..j])
      {
        var placeholder := UpdateBinder + NatToString(index) + "_" + dup[j].0;
        assert e[j] == (placeholder, dup[j].1);
        assert goal[..j + 1] == goal[..j] + [dup[j].0 + " = " + placeholder];
        updateParts := updateParts + [dup[j].0 + " = " + placeholder];
        MergeSnoc(old(bindings), e, j);
        bindings := Put(bindings, placeholder, dup[j].1);
        j := j + 1;
      }
      assert e[..|dup|] == e && goal[..|dup|] == goal;
    }

    /** buildInsert: one statement per row, every row's placeholders bound. */
    method BuildInsert() returns (parts: seq<string>)
      modifies this`bindings
      ensures var r := InsertUpTo(table, insertIgnore, true, insertArrays, insertUpdateOnDuplicate, old(bindings), |insertArrays|);
        parts == r.parts && bindings == r.bindings
    {
      parts := [];
      var i := 0;
      while i < |insertArrays|
        invariant 0 <= i <= |insertArrays|
        invariant var r := InsertUpTo(table, insertIgnore, true, insertArrays, insertUpdateOnDuplicate, old(bindings), i);
          parts == r.parts && bindings == r.bindings
      {
        var block := BuildInsertRow(i, insertArrays[i]);
        parts := parts + block;
        i := i + 1;
      }
    }

    /** The body of buildInsert's loop for row i. */
    method BuildInsertRow(i: nat, valueSet: Row) returns (block: seq<string>)
      modifies this`bindings
      ensures Insertion(block, bindings) == RowBlock(table, insertIgnore, true, insertUpdateOnDuplicate, i, valueSet, old(bindings))
    {
      block := [InsertBase(table, insertIgnore), InsertColumns(valueSet)];
      var values := BuildInsertValues(i, valueSet);
      block := block + [values];
      var duplicate := BuildOnDuplicateKeyUpdate(i);
      if duplicate.Some? {
        block := block + [duplicate.value];
      }
      block := block + [";"];
    }

    /** buildSet: the new values are interpolated, not bound. */
    method BuildSet() returns (clause: string)
      ensures clause == SetClause(updateArrays)
    {
      var sql := [];
      var i := 0;
      while i < |updateArrays|
        invariant 0 <= i <= |updateArrays|
        invariant sql == SetParts(updateArrays[..i])
      {
        assert updateArrays[..i + 1][..i] == updateArrays[..i];
        sql := sql + [updateArrays[i].0 + " = " + ValueText(updateArrays[i].1)];
        i := i + 1;
      }
      assert updateArrays[..|updateArrays|] == updateArrays;
      clause := "SET " + Join(", ", sql);
    }

    /** buildUpdate: throws when there is nothing to set. */
    method BuildUpdate() returns (parts: seq<string>, error: Option<Error>)
      ensures error.None? <==> updateArrays != []
      ensures UpdateSql(Query()) == if error.None? then Ok(Join(" ", parts)) else Err(error.value)
    {
      if updateArrays == [] {
        return [], Some(MissingUpdateData);
      }
      parts := ["UPDATE " + table];
      if join.Some? {
        parts := parts + [JoinText(join.value)];
      }
      var setClause := BuildSet();
      parts := parts + [setClause];
      parts := parts + [WhereClause(andWheres, orWheres, true)];
      var limitPart := LimitParts(limit);
      if limitPart != [] {
        parts := parts + [limitPart[0]];
      }
      assert limitPart == [] || limitPart == [limitPart[0]];
      assert parts == ["UPDATE " + table] + (if join.Some? then [JoinText(join.value)] else [])
        + [SetClause(updateArrays), WhereClause(andWheres, orWheres, true)] + LimitParts(limit);
      error := None;
    }

    /** buildSql: the statement the current action renders; delete and
        unknown actions render "". */
    method BuildSql() returns (sql: string, error: Option<Error>)
      modifies this`bindings
      ensures action == "select" ==> error.None? && sql == SelectSql(Query()) && bindings == old(bindings)
      ensures action == "insert" ==>
        var r := InsertUpTo(table, insertIgnore, true, insertArrays, insertUpdateOnDuplicate, old(bindings), |insertArrays|);
        error.None? && sql == Join(" ", r.parts) && bindings == r.bindings
      ensures action == "update" ==>
        bindings == old(bindings) && UpdateSql(Query()) == if error.None? then Ok(sql) else Err(error.value)
      ensures action != "select" && action != "insert" && action != "update" ==>
        error.None? && sql == "" && bindings == old(bindings)
    {
      var parts := [];
      error := None;
      if action == "select" {
        parts := BuildSelect();
      } else if action == "insert" {
        parts := BuildInsert();
      } else if action == "update" {
        parts, error := BuildUpdate();
        if error.Some? {
          return "", error;
        }
      }
      sql := Join(" ", parts);
    }

    /** bind: every binding goes to the statement, then the table is cleared. */
    method Bind() returns (bound: Bindings)
      modifies this`bindings
      ensures bound == old(bindings) && bindings == []
    {
      bound := [];
      var i := 0;
      while i < |bindings|
        invariant 0 <= i <= |bindings|
        invariant bound == bindings[..i]
      {
        bound := bound + [bindings[i]];
        i := i + 1;
      }
      assert bindings[..|bindings|] == bindings;
      bindings := [];
    }

    // Fetching and writing

    /** get(): the SQL in toSql mode; otherwise prepared, bound and cleared. */
    method Get() returns (r: Outcome)
      modifies this`action, this`bindings
      ensures action == "select"
      ensures toSqlStatus ==> r == SqlText(SelectSql(Query())) && bindings == old(bindings)
      ensures !toSqlStatus ==> r == Prepared(SelectSql(Query()), old(bindings)) && bindings == []
    {
      SetAction("select");
      var sql, _ := BuildSql();
      if toSqlStatus {
        return SqlText(sql);
      }
      var bound := Bind();
      r := Prepared(sql, bound);
    }

    /** first(): get() with LIMIT 1. */
    method First() returns (r: Outcome)
      modifies this`limit, this`action, this`bindings
      ensures limit == 1 && action == "select"
      ensures toSqlStatus ==> r == SqlText(SelectSql(Query())) && bindings == old(bindings)
      ensures !toSqlStatus ==> r == Prepared(SelectSql(Query()), old(bindings)) && bindings == []
    {
      Limit(1);
      r := Get();
    }

    /** all(): the SELECT is sent unprepared and no binding is passed. The
        declared return type false|array admits neither the SQL text nor any
        other string, so returning the SQL in toSql mode is a TypeError. */
    method All() returns (r: Result<Outcome, Error>)
      modifies this`action, this`bindings
      ensures action == "select" && bindings == old(bindings)
      ensures r == if toSqlStatus then Err(TypeError) else Ok(Queried(SelectSql(Query())))
    {
      SetAction("select");
      var sql, _ := BuildSql();
      if toSqlStatus {
        return Err(TypeError);
      }
      r := Ok(Queried(sql));
    }

    /** count(): replaces the selected columns by COUNT(*) AS count. */
    method Count() returns (r: Outcome)
      modifies this`selects, this`action, this`bindings
      ensures selects == ["COUNT(*) AS count"] && action == "select"
      ensures toSqlStatus ==> r == SqlText(SelectSql(Query())) && bindings == old(bindings)
      ensures !toSqlStatus ==> r == Prepared(SelectSql(Query()), old(bindings)) && bindings == []
    {
      SetAction("select");
      Select(["COUNT(*) AS count"]);
      var sql, _ := BuildSql();
      if toSqlStatus {
        return SqlText(sql);
      }
      var bound := Bind();
      r := Prepared(sql, bound);
    }

    /** insert(...rows): always prepared and bound, whatever the toSql mode;
        earlier rows stay and are rendered again. */
    method Insert(dataArrays: seq<Row>) returns (r: Outcome)
      modifies this`insertArrays, this`action, this`bindings
      ensures insertArrays == old(insertArrays) + dataArrays && action == "insert"
      ensures var ins := InsertUpTo(table, insertIgnore, true, insertArrays, insertUpdateOnDuplicate, old(bindings), |insertArrays|);
        r == Prepared(Join(" ", ins.parts), ins.bindings)
      ensures bindings == []
    {
      insertArrays := insertArrays + dataArrays;
      SetAction("insert");
      var sql, _ := BuildSql();
      var bound := Bind();
      r := Prepared(sql, bound);
    }

    /** update(data): merges the data, then renders; throws when there is
        nothing to set. */
    method Update(dataArrays: Row) returns (r: Result<Outcome, Error>)
      modifies this`updateArrays, this`action, this`bindings
      ensures updateArrays == Merge(old(updateArrays), dataArrays) && action == "update"
      ensures UpdateSql(Query()).Err? ==> r == Err(UpdateSql(Query()).error) && bindings == old(bindings)
      ensures UpdateSql(Query()).Ok? && toSqlStatus ==>
        r == Ok(SqlText(UpdateSql(Query()).value)) && bindings == old(bindings)
      ensures UpdateSql(Query()).Ok? && !toSqlStatus ==>
        r == Ok(Prepared(UpdateSql(Query()).value, old(bindings))) && bindings == []
    {
      updateArrays := Merge(updateArrays, dataArrays);
      SetAction("update");
      var sql, error := BuildSql();
      if error.Some? {
        return Err(error.value);
      }
      if toSqlStatus {
        return Ok(SqlText(sql));
      }
      var bound := Bind();
      r := Ok(Prepared(sql, bound));
    }
  }
}
