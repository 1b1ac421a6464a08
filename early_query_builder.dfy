/**
 * The earlier draft of the query builder, in the members where it departs
 * from the later draft: the operator table, processWhere (callbacks and
 * plain conditions), whereExists, count, all, buildUpdate and the INSERT
 * column list, with the select and get that an EXISTS callback uses.
 * whereIn and whereBetween render as in the later draft, always bound.
 */
module EarlyQueryBuilder {
  import opened Wrappers
  import opened Text
  import opened Dictionary
  import opened Placeholders
  import opened Sql
  import opened Conditions

  /** The operators the earlier getOperator knows, spelled exactly so. */
  const EarlyOperators: set<string> :=
    {"=", "eq", "<>", "neq", ">", "gt", ">=", "gt-eq", "<", "lt", "<=", "lt-eq", "like"}

  /** getOperator of the earlier draft: exact-case aliases and no IS / IS NOT.
      Its `false` for an unknown operator is turned into "" by the declared
      string return type. */
  function EarlyOperator(op: string): (r: string)
    ensures r != "" <==> op in EarlyOperators
    ensures r in {"", "=", "!=", ">", ">=", "<", "<=", "LIKE"}
  {
    match op
    case "=" => "="
    case "eq" => "="
    case "<>" => "!="
    case "neq" => "!="
    case ">" => ">"
    case "gt" => ">"
    case ">=" => ">="
    case "gt-eq" => ">="
    case "<" => "<"
    case "lt" => "<"
    case "<=" => "<="
    case "lt-eq" => "<="
    case "like" => "LIKE"
    case _ => ""
  }

  /** Every operator the earlier draft knows, the later one knows too, with
      the same meaning; the later one adds letter case and IS / IS NOT. */
  lemma EarlyOperatorSubsumed(op: string)
    ensures op in EarlyOperators ==> ResolveOperator(Some(op)) == EarlyOperator(op)
    ensures EarlyOperator("is") == "" && EarlyOperator("is not") == "" && EarlyOperator("EQ") == ""
    ensures IsOperator("is") && IsOperator("is not") && IsOperator("EQ")
  {
    assert ToLower("is") == "is";
    assert ToLower("is not") == "is not";
    assert ToLower("EQ") == "eq";
    if op in EarlyOperators {
      assert ToLower(op) == op;
    }
  }

  /** One where-family call of the earlier draft. */
  datatype EarlyWhere =
    | EBasic(column: string, op: Option<string>, value: Value, not: bool, or: bool)
    | EGroup(body: seq<EarlyWhere>, not: bool, or: bool)
    | EIn(column: string, values: seq<Value>, not: bool)
    | EBetween(column: string, low: int, high: int, not: bool)
    | EExistsText(sql: string, not: bool, or: bool)
    | EExistsQuery(body: seq<EarlyWhere>, returned: Returned, not: bool, or: bool)

  /** The argument of the earlier whereExists family: SQL text or a callback. */
  datatype EarlyExistsArg = ELiteral(sql: string) | ESubquery(body: seq<EarlyWhere>, returned: Returned)

  function EExistsOf(arg: EarlyExistsArg, not: bool, or: bool): (w: EarlyWhere)
    ensures w.EExistsText? || w.EExistsQuery?
    ensures w.not == not && w.or == or
  {
    match arg
    case ELiteral(sql) => EExistsText(sql, not, or)
    case ESubquery(body, returned) => EExistsQuery(body, returned, not, or)
  }

  function ESize(w: EarlyWhere): (n: nat)
    ensures n >= 1
    decreases w
  {
    match w
    case EGroup(body, _, _) => ESizeAll(body) + 2
    case EExistsQuery(body, _, _, _) => ESizeAll(body) + 2
    case _ => 1
  }

  function ESizeAll(ws: seq<EarlyWhere>): nat
    decreases ws
  {
    if ws == [] then 0 else ESize(ws[0]) + ESizeAll(ws[1..])
  }

  lemma {:induction false} ESizeAllBound(ws: seq<EarlyWhere>, i: int)
    requires 0 <= i < |ws|
    ensures ESize(ws[i]) <= ESizeAll(ws)
  {
    if i > 0 {
      ESizeAllBound(ws[1..], i - 1);
    }
  }

  /** A plain condition: the token is drawn first; a null operator then
      fails the string parameter of getOperator. A known operator is written
      as given, any other is the value compared with "=". The value is bound
      in every case, null included. */
  function EarlyStepBasic(column: string, op: Option<string>, value: Value, not: bool, or: bool, c: Conds, next: nat): Stepped
  {
    var ph := WherePlaceholder(next, column);
    if op.None? then Stepped(c, next + 1, Some(TypeError))
    else
      var known := EarlyOperator(op.value) != "";
      var o := if known then op.value else "=";
      var v := if known then value else Str(op.value);
      Stepped(File(c.(bindings := Put(c.bindings, ph, v)), or, Negated(not, column + " " + o + " " + ph)), next + 1, None)
  }

  /** A callback: the child's clause without the WHERE keyword and without
      parentheses, unless negated. */
  function EarlyStepGroup(r: Stepped, not: bool, or: bool, c: Conds): Stepped
  {
    if r.error.Some? then Stepped(c, r.next, r.error)
    else
      var sql := WhereClause(r.conds.ands, r.conds.ors, false);
      Stepped(File(c.(bindings := Merge(c.bindings, r.conds.bindings)), or, Negated(not, sql)), r.next, None)
  }

  /** A subquery callback of the earlier whereExists. Its builder is never
      given a table, so a callback that renders its own query fails there;
      otherwise the returned text is filed as in the later draft. */
  function EarlyStepExists(r: Stepped, returned: Returned, not: bool, or: bool, c: Conds): Stepped
  {
    if r.error.Some? then Stepped(c, r.next, r.error)
    else if returned.ReturnsNonString? then Stepped(c, r.next, Some(NotAString))
    else if returned.ReturnsSql? then Stepped(c, r.next, Some(UninitializedTable))
    else Stepped(File(c.(bindings := Merge(c.bindings, r.conds.bindings)), or, ExistsFragment(not, returned.text)), r.next, None)
  }

  function EarlyStep(w: EarlyWhere, c: Conds, next: nat): Stepped
    decreases ESize(w), 0
  {
    match w
    case EBasic(column, op, value, not, or) => EarlyStepBasic(column, op, value, not, or, c, next)
    case EGroup(body, not, or) => EarlyStepGroup(EarlyStepAll(body, NoConds, next), not, or, c)
    case EIn(column, values, not) => StepIn(column, values, not, c, next)
    case EBetween(column, low, high, not) => StepBetween(column, Int(low), Int(high), not, true, c, next)
    case EExistsText(sql, not, or) => StepLiteral(sql, not, or, c, next)
    case EExistsQuery(body, returned, not, or) => EarlyStepExists(EarlyStepAll(body, NoConds, next), returned, not, or, c)
  }

  function EarlyStepAll(ws: seq<EarlyWhere>, c: Conds, next: nat): Stepped
    decreases ESizeAll(ws), 1
  {
    if ws == [] then Stepped(c, next, None)
    else
      var r := EarlyStep(ws[0], c, next);
      if r.error.Some? then r else EarlyStepAll(ws[1..], r.conds, r.next)
  }

  /** A plain condition with an operator always creates exactly one binding,
      under a fresh placeholder: known operators keep the value, any other
      operator becomes it. */
  lemma EarlyWhereAlwaysBinds(column: string, op: string, value: Value, not: bool, or: bool, c: Conds, next: nat)
    requires UniqueKeys(c.bindings) && Below(c.bindings, next)
    ensures var r := EarlyStep(EBasic(column, Some(op), value, not, or), c, next);
      var ph := WherePlaceholder(next, column);
      && r.error.None? && r.next == next + 1
      && r.conds.bindings == c.bindings + [(ph, if op in EarlyOperators then value else Str(op))]
      && var fragment := Negated(not, column + " " + (if op in EarlyOperators then op else "=") + " " + ph);
         if or then r.conds.ands == c.ands && r.conds.ors == c.ors + [fragment]
         else r.conds.ands == c.ands + [fragment] && r.conds.ors == c.ors
  {
    var ph := WherePlaceholder(next, column);
    var v := if op in EarlyOperators then value else Str(op);
    WhereTokenOfPlaceholder(next, column);
    assert Drawn([(ph, v)], next, next + 1);
    MergeFresh(c.bindings, [(ph, v)], next, next + 1);
    assert Merge(c.bindings, [(ph, v)]) == Put(c.bindings, ph, v);
  }

  /** where('c') without an operator throws before anything is filed, but
      the token is spent; the later draft renders c IS NULL instead. */
  lemma EarlyMissingOperatorThrows(column: string, value: Value, not: bool, or: bool, c: Conds, next: nat, table: string)
    ensures EarlyStep(EBasic(column, None, value, not, or), c, next) == Stepped(c, next + 1, Some(TypeError))
    ensures value.Null? ==>
      Step(Basic(column, None, value, not, or, true), c, next, table) == Stepped(File(c, or, Negated(not, column + " IS NULL")), next, None)
  {
    NullCases(column, None, value, not, or, true, c, next, table);
  }

  /** where('c', '=', null) binds null in the earlier draft; the later draft
      throws and leaves the conditions alone. */
  lemma DraftsDisagreeOnNullValue(column: string, op: string, not: bool, or: bool, c: Conds, next: nat, table: string)
    requires op in EarlyOperators
    ensures var r := EarlyStep(EBasic(column, Some(op), Null, not, or), c, next);
      r.error.None? && Get(r.conds.bindings, WherePlaceholder(next, column)) == Some(Null)
    ensures Step(Basic(column, Some(op), Null, not, or, true), c, next, table) == Stepped(c, next, Some(NullComparison))
  {
    EarlyOperatorSubsumed(op);
    NullCases(column, Some(op), Null, not, or, true, c, next, table);
    PutThenGet(c.bindings, WherePlaceholder(next, column), Null);
  }

  /** A callback's conditions are filed as one fragment with no parentheses:
      with one AND condition inside, the bare condition itself; negated,
      NOT (...). The later draft wraps it as "( ... )". */
  lemma EarlyGroupUnparenthesized(fragment: string, not: bool, or: bool, c: Conds, next: nat, bindings: Bindings)
    ensures var r := EarlyStepGroup(Stepped(Conds([fragment], [], bindings), next, None), not, or, c);
      r.conds == File(c.(bindings := Merge(c.bindings, bindings)), or, Negated(not, fragment))
    ensures var r := StepGroup(Stepped(Conds([fragment], [], bindings), next, None), not, or, c);
      r.conds == File(c.(bindings := Merge(c.bindings, bindings)), or, (if not then "NOT " else "") + "( " + fragment + " )")
  {
    WhereClauseShape([fragment], [], false);
    assert Join(" AND ", [fragment]) == fragment;
    assert "" + fragment == fragment;
    assert WhereClause([fragment], [], false) == fragment;
    assert "" + "( " + fragment + " )" == "( " + fragment + " )";
    assert "NOT " + ("( " + fragment + " )") == "NOT " + "( " + fragment + " )";
  }

  /** An empty callback files an empty fragment (the later draft: "(  )"). */
  lemma EarlyEmptyGroup(not: bool, or: bool, c: Conds, next: nat)
    ensures EarlyStep(EGroup([], not, or), c, next)
         == Stepped(File(c, or, if not then "NOT ()" else ""), next, None)
  {
    WhereClauseShape([], [], false);
    assert Merge(c.bindings, []) == c.bindings;
    assert "NOT (" + "" + ")" == "NOT ()";
  }

  /** whereIn and whereBetween of the earlier draft are those of the later
      draft with binding on. */
  lemma EarlyInAndBetweenAgree(column: string, values: seq<Value>, low: int, high: int, not: bool, c: Conds, next: nat, table: string)
    ensures EarlyStep(EIn(column, values, not), c, next) == Step(In(column, values, not), c, next, table)
    ensures EarlyStep(EBetween(column, low, high, not), c, next) == Step(Between(column, Int(low), Int(high), not, true), c, next, table)
    ensures var r := EarlyStep(EIn(column, values, not), c, next);
      r.conds.ors == c.ors && r.conds.ands == c.ands + [r.conds.ands[|c.ands|]] && r.next == next + |values|
    ensures var r := EarlyStep(EBetween(column, low, high, not), c, next);
      r.conds.ors == c.ors && r.conds.ands == c.ands + [r.conds.ands[|c.ands|]] && r.next == next + 2
  {
  }

  /** The earlier whereExists files a literal as the later one does, but a
      subquery that renders itself fails for want of a table, even where the
      later draft renders the same callback. */
  lemma DraftsDisagreeOnSubquery(body: seq<EarlyWhere>, sql: string, not: bool, or: bool, c: Conds, next: nat, table: string)
    ensures EarlyStep(EExistsText(sql, not, or), c, next) == Step(ExistsText(sql, not, or), c, next, table)
    ensures var r := EarlyStep(EExistsQuery(body, ReturnsSql, not, or), c, next);
      r.error.Some? && r.conds == c
    ensures EarlyStepAll(body, NoConds, next).error.None? ==>
      EarlyStep(EExistsQuery(body, ReturnsSql, not, or), c, next).error == Some(UninitializedTable)
    ensures EarlyStep(EExistsQuery([], ReturnsSql, not, or), c, next).error == Some(UninitializedTable)
    ensures Step(ExistsQuery([], ReturnsSql, not, or), c, next, table).error.None?
  {
  }

  lemma EarlyBasicFresh(column: string, op: Option<string>, value: Value, not: bool, or: bool, c: Conds, next: nat)
    requires UniqueKeys(c.bindings) && Below(c.bindings, next)
    ensures var r := EarlyStepBasic(column, op, value, not, or, c, next);
      && r.next >= next
      && (r.error.Some? ==> r.conds == c)
      && Grows(c.bindings, r.conds.bindings, next, r.next)
  {
    if op.None? {
      GrowsNothing(c.bindings, next, next + 1);
    } else {
      EarlyWhereAlwaysBinds(column, op.value, value, not, or, c, next);
      var ph := WherePlaceholder(next, column);
      var v := if op.value in EarlyOperators then value else Str(op.value);
      WhereTokenOfPlaceholder(next, column);
      assert Drawn([(ph, v)], next, next + 1);
      MergeFresh(c.bindings, [(ph, v)], next, next + 1);
    }
  }

  /** Every call only appends bindings under placeholders it drew itself, so
      the table keeps distinct keys, and an exception files nothing. */
  lemma {:induction false} EarlyStepFresh(w: EarlyWhere, c: Conds, next: nat)
    requires UniqueKeys(c.bindings) && Below(c.bindings, next)
    ensures var r := EarlyStep(w, c, next);
      && r.next >= next
      && (r.error.Some? ==> r.conds == c)
      && Grows(c.bindings, r.conds.bindings, next, r.next)
    decreases ESize(w), 0
  {
    match w
    case EBasic(column, op, value, not, or) => {
      EarlyBasicFresh(column, op, value, not, or, c, next);
    }
    case EGroup(body, not, or) => {
      GrowsNothing([], next, next);
      EarlyStepAllFresh(body, NoConds, next);
      ChildMergeFresh(c.bindings, EarlyStepAll(body, NoConds, next), next);
    }
    case EIn(column, values, not) => {
      InFresh(column, values, not, c, next);
    }
    case EBetween(column, low, high, not) => {
      BetweenFresh(column, Int(low), Int(high), not, true, c, next);
    }
    case EExistsText(_, _, _) => {
      GrowsNothing(c.bindings, next, next);
    }
    case EExistsQuery(body, returned, not, or) => {
      GrowsNothing([], next, next);
      EarlyStepAllFresh(body, NoConds, next);
      ChildMergeFresh(c.bindings, EarlyStepAll(body, NoConds, next), next);
    }
  }

  lemma {:induction false} EarlyStepAllFresh(ws: seq<EarlyWhere>, c: Conds, next: nat)
    requires UniqueKeys(c.bindings) && Below(c.bindings, next)
    ensures var r := EarlyStepAll(ws, c, next);
      && r.next >= next
      && Grows(c.bindings, r.conds.bindings, next, r.next)
    decreases ESizeAll(ws), 1
  {
    if ws == [] {
      GrowsNothing(c.bindings, next, next);
    } else {
      EarlyStepFresh(ws[0], c, next);
      var r := EarlyStep(ws[0], c, next);
      if r.error.None? {
        GrowsBelow(c.bindings, r.conds.bindings, next, r.next);
        EarlyStepAllFresh(ws[1..], r.conds, r.next);
        var s := EarlyStepAll(ws[1..], r.conds, r.next);
        GrowsTransitive(c.bindings, r.conds.bindings, s.conds.bindings, next, r.next, s.next);
      }
    }
  }

  // Statements

  /** The column list count() selects. */
  const CountColumn := "COUNT(*) AS count"

  /** count() of the earlier draft: only the AND fragments, joined by " AND "
      after " WHERE "; the OR fragments are not rendered. */
  function EarlyCountSql(table: string, ands: seq<string>): (sql: string)
  {
    "SELECT " + CountColumn + " FROM " + table + (if ands != [] then " WHERE " + Join(" AND ", ands) else "")
  }

  /** The later draft's count: SELECT COUNT(*) AS count FROM t, a space and
      the WHERE clause. */
  lemma CountQueryText(table: string, ands: seq<string>, ors: seq<string>)
    ensures SelectSql(EmptyQuery(table).(selects := [CountColumn], ands := ands, ors := ors))
         == "SELECT " + CountColumn + " FROM " + table + " " + WhereClause(ands, ors, true)
  {
    var q := EmptyQuery(table).(selects := [CountColumn], ands := ands, ors := ors);
    SelectShape(q);
    SelectBaseText(q);
    assert SelectTail(q) == [];
    assert Join(", ", [CountColumn]) == CountColumn;
    var w := WhereClause(ands, ors, true);
    var base := Join(" ", SelectBase(q));
    assert SelectSql(q) == base + " " + w + "";
    assert base == "SELECT " + "" + CountColumn + " FROM " + table;
    assert "SELECT " + "" == "SELECT ";
    assert base + " " + w + "" == base + " " + w;
  }

  /** With AND conditions only, both drafts count the same way. */
  lemma DraftsAgreeOnCount(table: string, ands: seq<string>)
    requires ands != []
    ensures EarlyCountSql(table, ands) == SelectSql(EmptyQuery(table).(selects := [CountColumn], ands := ands))
  {
    CountQueryText(table, ands, []);
    WhereClauseShape(ands, [], true);
    var a := Join(" AND ", ands);
    var base := "SELECT " + CountColumn + " FROM " + table;
    assert EmptyQuery(table).(selects := [CountColumn], ands := ands)
        == EmptyQuery(table).(selects := [CountColumn], ands := ands, ors := []);
    assert base + " " + ("WHERE " + a) == base + " WHERE " + a;
  }

  /** The OR fragments never reach the earlier count, while the later draft
      renders them after the AND fragments. */
  lemma EarlyCountIgnoresOr(table: string, ands: seq<string>, ors: seq<string>)
    requires ands != [] && ors != []
    ensures SelectSql(EmptyQuery(table).(selects := [CountColumn], ands := ands, ors := ors))
         == EarlyCountSql(table, ands) + " OR " + Join(" OR ", ors)
  {
    CountQueryText(table, ands, ors);
    WhereClauseShape(ands, ors, true);
    var a, o := Join(" AND ", ands), Join(" OR ", ors);
    var base := "SELECT " + CountColumn + " FROM " + table;
    assert EarlyCountSql(table, ands) == base + (" WHERE " + a);
    OrAfterAnd(base, a, o);
  }

  lemma OrAfterAnd(base: string, a: string, o: string)
    ensures base + " " + ("WHERE " + (a + " OR " + o)) == base + (" WHERE " + a) + " OR " + o
  {
    var x := a + " OR " + o;
    assert " " + ("WHERE " + x) == " WHERE " + x;
    assert " WHERE " + x == (" WHERE " + a) + " OR " + o;
    assert base + " " + ("WHERE " + x) == base + (" " + ("WHERE " + x));
  }

  /** buildLimit()[0]: the LIMIT part, or the null of a missing array key,
      which implode renders as the empty string. */
  function EarlyLimitText(limit: int): string
  {
    if limit != 0 then "LIMIT " + IntToString(limit) else ""
  }

  /** buildUpdate of the earlier draft, joined by buildSql: the conditions
      without the WHERE keyword, and always a final limit part. */
  function EarlyUpdateSql(q: Query): Result<string, Error>
  {
    if q.updates == [] then Err(MissingUpdateData)
    else
      Ok(Join(" ", ["UPDATE " + q.table]
                   + (if q.join.Some? then [JoinText(q.join.value)] else [])
                   + [SetClause(q.updates), WhereClause(q.ands, q.ors, false), EarlyLimitText(q.limit)]))
  }

  /** Both drafts reject an empty update the same way; otherwise the earlier
      one renders the same parts but drops the WHERE keyword, and without a
      limit it ends in a lone space. */
  lemma EarlyUpdateOmitsWhereKeyword(q: Query)
    requires q.ands != [] || q.ors != []
    ensures q.updates == [] <==> EarlyUpdateSql(q).Err?
    ensures q.updates == [] ==> EarlyUpdateSql(q) == UpdateSql(q) == Err(MissingUpdateData)
    ensures q.updates != [] ==>
      var front := ["UPDATE " + q.table] + (if q.join.Some? then [JoinText(q.join.value)] else []) + [SetClause(q.updates)];
      var cond := ConditionText(q.ands, q.ors);
      && UpdateSql(q) == Ok(Join(" ", front + ["WHERE " + cond] + LimitParts(q.limit)))
      && EarlyUpdateSql(q) == Ok(Join(" ", front + [cond, EarlyLimitText(q.limit)]))
  {
    WhereClauseShape(q.ands, q.ors, true);
    WhereClauseShape(q.ands, q.ors, false);
    assert "" + ConditionText(q.ands, q.ors) == ConditionText(q.ands, q.ors);
    if q.updates != [] {
      var front := ["UPDATE " + q.table] + (if q.join.Some? then [JoinText(q.join.value)] else []) + [SetClause(q.updates)];
      var cond := ConditionText(q.ands, q.ors);
      assert front + [cond, EarlyLimitText(q.limit)]
        == ["UPDATE " + q.table] + (if q.join.Some? then [JoinText(q.join.value)] else [])
           + [SetClause(q.updates), WhereClause(q.ands, q.ors, false), EarlyLimitText(q.limit)];
      assert front + ["WHERE " + cond] + LimitParts(q.limit)
        == ["UPDATE " + q.table] + (if q.join.Some? then [JoinText(q.join.value)] else [])
           + [SetClause(q.updates), WhereClause(q.ands, q.ors, true)] + LimitParts(q.limit);
    }
  }

  /** Without a limit the earlier UPDATE ends in a space. */
  lemma EarlyUpdateTrailingSpace(q: Query)
    requires q.updates != [] && q.limit == 0
    ensures EarlyUpdateSql(q).Ok?
    ensures var s := EarlyUpdateSql(q).value; |s| > 0 && s[|s| - 1] == ' '
  {
    var front := ["UPDATE " + q.table] + (if q.join.Some? then [JoinText(q.join.value)] else [])
      + [SetClause(q.updates), WhereClause(q.ands, q.ors, false)];
    assert front + [""] == ["UPDATE " + q.table] + (if q.join.Some? then [JoinText(q.join.value)] else [])
      + [SetClause(q.updates), WhereClause(q.ands, q.ors, false), EarlyLimitText(q.limit)];
    JoinAppend(" ", front, [""]);
    assert Join(" ", [""]) == "";
  }

  /** The builder of the earlier draft. Its table is a typed property with no
      default: reading it before table() is called is an error. */
  class EarlyBuilder {
    const supply: Supply
    var table: Option<string>
    var selects: seq<string>
    var andWheres: seq<string>
    var orWheres: seq<string>
    var bindings: Bindings
    var groupBys: seq<string>
    var orderBys: seq<(string, string)>
    var limit: int
    var offset: int
    var distinct: bool
    var toSqlStatus: bool
    var action: string
    var insertArrays: seq<Row>
    var updateArrays: Row
    var insertUpdateOnDuplicate: seq<Option<Row>>
    var insertIgnore: bool
    var join: Option<JoinSpec>

    constructor (supply: Supply)
      ensures this.supply == supply
      ensures table.None? && selects == [] && andWheres == [] && orWheres == [] && bindings == []
      ensures groupBys == [] && orderBys == [] && limit == 0 && offset == 0 && !distinct
      ensures !toSqlStatus && action == "select"
      ensures insertArrays == [] && updateArrays == [] && insertUpdateOnDuplicate == []
      ensures !insertIgnore && join.None?
      ensures Valid()
    {
      this.supply := supply;
      table := None;
      selects := [];
      andWheres := [];
      orWheres := [];
      bindings := [];
      groupBys := [];
      orderBys := [];
      limit := 0;
      offset := 0;
      distinct := false;
      toSqlStatus := false;
      action := "select";
      insertArrays := [];
      updateArrays := [];
      insertUpdateOnDuplicate := [];
      insertIgnore := false;
      join := None;
    }

    function Conditions(): Conds
      reads this
    {
      Conds(andWheres, orWheres, bindings)
    }

    /** The fields the renderers read, once the table is set. */
    function Query(): Query
      requires table.Some?
      reads this
    {
      Sql.Query(table.value, selects, andWheres, orWheres, groupBys, orderBys, limit, offset, distinct, join, updateArrays)
    }

    predicate Valid()
      reads this, supply
    {
      UniqueKeys(bindings) && Below(bindings, supply.next)
    }

    twostate predicate Performed(w: EarlyWhere, new error: Option<Error>)
      reads this, supply
    {
      Stepped(Conditions(), supply.next, error) == EarlyStep(w, old(Conditions()), old(supply.next))
    }

    method Table(table: string)
      modifies this`table
      ensures this.table == Some(table)
    {
      this.table := Some(table);
    }

    method Limit(limit: int)
      modifies this`limit
      ensures this.limit == limit
    {
      this.limit := limit;
    }

    method ToSql(state: bool := true)
      modifies this`toSqlStatus
      ensures toSqlStatus == state
    {
      toSqlStatus := state;
    }

    method JoinOn(table: string, column1: string, operator: string, column2: string)
      modifies this`join
      ensures join == Some(JoinSpec(table, column1, operator, column2))
    {
      join := Some(JoinSpec(table, column1, operator, column2));
    }

    method Select(columns: seq<string> := ["*"])
      modifies this`selects
      ensures selects == columns
    {
      selects := columns;
    }

    method SetAction(action: string)
      modifies this`action
      ensures this.action == action
    {
      this.action := action;
    }

    // Conditions

    method FileCondition(sql: string, or: bool)
      modifies this`andWheres, this`orWheres
      ensures Conditions() == File(old(Conditions()), or, sql)
    {
      if !or {
        andWheres := andWheres + [sql];
      } else {
        orWheres := orWheres + [sql];
      }
    }

    /** processWhere of the earlier draft. */
    method ProcessWhere(w: EarlyWhere) returns (error: Option<Error>)
      requires w.EBasic? || w.EGroup?
      modifies this`andWheres, this`orWheres, this`bindings, supply`next
      ensures Performed(w, error)
      decreases if w.EGroup? then ESizeAll(w.body) + 1 else 0, 1
    {
      match w
      case EGroup(body, not, or) => {
        var query := new EarlyBuilder(supply);
        assert query.Conditions() == NoConds;
        error := query.RunCallback(body);
        if error.None? {
          var sql := WhereClause(query.andWheres, query.orWheres, false);
          if not {
            sql := "NOT (" + sql + ")";
          }
          FileCondition(sql, or);
          bindings := Merge(bindings, query.bindings);
        }
      }
      case EBasic(column, op, value, not, or) => {
        var token := supply.Fresh();
        var placeholder := WhereBinder + token + "_" + column;
        if op.None? {
          return Some(TypeError);
        }
        var parts := [column];
        var v := value;
        if EarlyOperator(op.value) != "" {
          parts := parts + [op.value];
        } else {
          parts := parts + ["="];
          v := Str(op.value);
        }
        parts := parts + [placeholder];
        assert placeholder == WherePlaceholder(old(supply.next), column);
        assert parts == [parts[0], parts[1], parts[2]];
        Join3(" ", parts[0], parts[1], parts[2]);
        var sql := Join(" ", parts);
        if not {
          sql := "NOT (" + sql + ")";
        }
        FileCondition(sql, or);
        bindings := Put(bindings, placeholder, v);
        error := None;
      }
    }

    /** processWhereExists of the earlier draft. */
    method ProcessWhereExists(w: EarlyWhere) returns (error: Option<Error>)
      requires w.EExistsText? || w.EExistsQuery?
      modifies this`andWheres, this`orWheres, this`bindings, supply`next
      ensures Performed(w, error)
      decreases if w.EExistsQuery? then ESizeAll(w.body) + 1 else 0, 1
    {
      ghost var c0 := Conditions();
      ghost var n0 := supply.next;
      var sql := "";
      match w {
        case EExistsText(text, not, or) => {
          sql := text;
          if not {
            sql := "NOT (" + sql + ")";
          }
          assert sql == Negated(not, text);
          FileCondition(sql, or);
          assert EarlyStep(w, c0, n0) == StepLiteral(text, not, or, c0, n0);
        }
        case EExistsQuery(body, returned, not, or) => {
          var bound;
          sql, bound, error := RunSubquery(body, returned);
          assert EarlyStep(w, c0, n0) == EarlyStepExists(EarlyStepAll(body, NoConds, n0), returned, not, or, c0);
          if error.Some? {
            return;
          }
          bindings := Merge(bindings, bound);
        }
      }
      FileExists(sql, w.not, w.or);
      error := None;
    }

    /** Files "EXISTS (sql)", or "NOT EXISTS (sql)" when negated. */
    method FileExists(sql: string, not: bool, or: bool)
      modifies this`andWheres, this`orWheres
      ensures Conditions() == File(old(Conditions()), or, ExistsFragment(not, sql))
    {
      var fragment := "EXISTS (" + sql + ")";
      if not {
        fragment := "NOT " + fragment;
      } else {
        assert "" + fragment == fragment;
      }
      assert fragment == ExistsFragment(not, sql);
      FileCondition(fragment, or);
    }

    /** The callback of whereExists on a new builder in toSql mode, selecting
        1 but with no table: the text it returned and what it bound. */
    method RunSubquery(body: seq<EarlyWhere>, returned: Returned) returns (sql: string, bound: Bindings, error: Option<Error>)
      modifies supply`next
      ensures var s := EarlyStepAll(body, NoConds, old(supply.next));
        && supply.next == s.next
        && error == (if s.error.Some? then s.error
                     else if returned.ReturnsNonString? then Some(NotAString)
                     else if returned.ReturnsSql? then Some(UninitializedTable)
                     else None)
        && (error.None? ==> bound == s.conds.bindings && sql == returned.text)
      decreases ESizeAll(body) + 1, 0, 1
    {
      var query;
      query, error := SubqueryBuilder(body);
      sql, bound := "", [];
      if error.Some? {
        return;
      }
      match returned
      case ReturnsNonString => {
        error := Some(NotAString);
      }
      case ReturnsText(text) => {
        sql, bound := text, query.bindings;
      }
      case ReturnsSql => {
        var outcome := query.Get();
        assert outcome == Err(UninitializedTable);
        error := Some(outcome.error);
      }
    }

    /** A new builder in toSql mode with no table, selecting 1, that the
        callback has run on. */
    method SubqueryBuilder(body: seq<EarlyWhere>) returns (query: EarlyBuilder, error: Option<Error>)
      modifies supply`next
      ensures fresh(query) && query.supply == supply && query.table.None?
      ensures Stepped(query.Conditions(), supply.next, error) == EarlyStepAll(body, NoConds, old(supply.next))
      decreases ESizeAll(body) + 1, 0, 0
    {
      query := new EarlyBuilder(supply);
      query.ToSql();
      query.Select(["1"]);
      assert query.Conditions() == NoConds;
      error := query.RunCallback(body);
    }

    method RunCallback(body: seq<EarlyWhere>) returns (error: Option<Error>)
      modifies this`andWheres, this`orWheres, this`bindings, supply`next
      ensures Stepped(Conditions(), supply.next, error) == EarlyStepAll(body, old(Conditions()), old(supply.next))
      decreases ESizeAll(body), 2
    {
      error := None;
      var i := 0;
      while i < |body| && error.None?
        invariant 0 <= i <= |body|
        invariant error.None? ==>
          EarlyStepAll(body, old(Conditions()), old(supply.next)) == EarlyStepAll(body[i..], Conditions(), supply.next)
        invariant error.Some? ==>
          EarlyStepAll(body, old(Conditions()), old(supply.next)) == Stepped(Conditions(), supply.next, error)
        decreases |body| - i
      {
        ESizeAllBound(body, i);
        assert body[i..][0] == body[i] && body[i..][1..] == body[i + 1..];
        error := Apply(body[i]);
        i := i + 1;
      }
    }

    method Apply(w: EarlyWhere) returns (error: Option<Error>)
      modifies this`andWheres, this`orWheres, this`bindings, supply`next
      ensures Performed(w, error)
      decreases ESize(w), 0
    {
      match w
      case EBasic(_, _, _, _, _) =>
        error := ProcessWhere(w);
      case EGroup(_, _, _) =>
        error := ProcessWhere(w);
      case EIn(column, values, not) =>
        ProcessWhereIn(column, values, not);
        error := None;
      case EBetween(column, low, high, not) =>
        ProcessWhereBetween(column, low, high, not);
        error := None;
      case EExistsText(_, _, _) =>
        error := ProcessWhereExists(w);
      case EExistsQuery(_, _, _, _) =>
        error := ProcessWhereExists(w);
    }

    /** processWhereIn: one draw and one binding per value. */
    method ProcessWhereIn(column: string, values: seq<Value>, not: bool)
      modifies this`andWheres, this`bindings, supply`next
      ensures Performed(EIn(column, values, not), None)
    {
      var placeholders := BindEach(column, values);
      andWheres := andWheres + [column + (if not then " NOT" else "") + " IN (" + Join(", ", placeholders) + ")"];
    }

    /** The loop of processWhereIn: draws a token per value and assigns the
        value under its placeholder, in order. */
    method BindEach(column: string, values: seq<Value>) returns (placeholders: seq<string>)
      modifies this`bindings, supply`next
      ensures var e := InEntries(old(supply.next), column, values);
        && placeholders == Keys(e)
        && bindings == Merge(old(bindings), e)
        && supply.next == old(supply.next) + |values|
    {
      ghost var e := InEntries(supply.next, column, values);
      ghost var n := supply.next;
      placeholders := [];
      var i := 0;
      while i < |values|
        invariant 0 <= i <= |values|
        invariant supply.next == n + i
        invariant placeholders == Keys(e[..i])
        invariant bindings == Merge(old(bindings), e[..i])
      {
        var token := supply.Fresh();
        var placeholder := WhereBinder + token + "_" + (column + "_" + NatToString(i));
        assert e[i] == (placeholder, values[i]) by {
          InEntryAt(n, column, values, i);
        }
        MergeSnoc(old(bindings), e, i);
        placeholders := placeholders + [placeholder];
        bindings := Put(bindings, placeholder, values[i]);
        i := i + 1;
      }
      assert e[..|values|] == e;
    }

    /** The two draws of a bound whereBetween: the low value under "_1",
        the high value under "_2". */
    method BindPair(column: string, low: Value, high: Value) returns (placeholders: seq<string>)
      modifies this`bindings, supply`next
      ensures var e := BetweenEntries(old(supply.next), column, low, high);
        && placeholders == [e[0].0, e[1].0]
        && bindings == Merge(old(bindings), e)
        && supply.next == old(supply.next) + 2
    {
      ghost var e := BetweenEntries(supply.next, column, low, high);
      MergeSnoc(old(bindings), e, 0);
      MergeSnoc(old(bindings), e, 1);
      assert e[..0] == [] && e[..2] == e;
      var token := supply.Fresh();
      var placeholder := WhereBinder + token + "_" + (column + "_1");
      placeholders := [placeholder];
      bindings := Put(bindings, placeholder, low);
      token := supply.Fresh();
      placeholder := WhereBinder + token + "_" + (column + "_2");
      placeholders := placeholders + [placeholder];
      bindings := Put(bindings, placeholder, high);
    }

    /** processWhereBetween: always two draws and two bindings. */
    method ProcessWhereBetween(column: string, value1: int, value2: int, not: bool)
      modifies this`andWheres, this`bindings, supply`next
      ensures Performed(EBetween(column, value1, value2, not), None)
    {
      ghost var e := BetweenEntries(supply.next, column, Int(value1), Int(value2));
      var placeholders := BindPair(column, Int(value1), Int(value2));
      Join2(" AND ", placeholders[0], placeholders[1]);
      var keyword := column + (if not then " NOT" else "") + " BETWEEN ";
      assert keyword + Join(" AND ", placeholders) == keyword + e[0].0 + " AND " + e[1].0;
      andWheres := andWheres + [keyword + Join(" AND ", placeholders)];
    }

    method Where(column: string, op: Option<string> := None, value: Value := Null) returns (error: Option<Error>)
      modifies this`andWheres, this`orWheres, this`bindings, supply`next
      ensures Performed(EBasic(column, op, value, false, false), error)
      ensures old(Valid()) ==> Valid()
    {
      error := ProcessWhere(EBasic(column, op, value, false, false));
      if old(Valid()) {
        EarlyStepFresh(EBasic(column, op, value, false, false), old(Conditions()), old(supply.next));
        GrowsBelow(old(bindings), bindings, old(supply.next), supply.next);
      }
    }

    /** where(callback) */
    method WhereGroup(body: seq<EarlyWhere>) returns (error: Option<Error>)
      modifies this`andWheres, this`orWheres, this`bindings, supply`next
      ensures Performed(EGroup(body, false, false), error)
      ensures old(Valid()) ==> Valid()
    {
      error := ProcessWhere(EGroup(body, false, false));
      if old(Valid()) {
        EarlyStepFresh(EGroup(body, false, false), old(Conditions()), old(supply.next));
        GrowsBelow(old(bindings), bindings, old(supply.next), supply.next);
      }
    }

    /** whereNot(callback) */
    method WhereNotGroup(body: seq<EarlyWhere>) returns (error: Option<Error>)
      modifies this`andWheres, this`orWheres, this`bindings, supply`next
      ensures Performed(EGroup(body, true, false), error)
      ensures old(Valid()) ==> Valid()
    {
      error := ProcessWhere(EGroup(body, true, false));
      if old(Valid()) {
        EarlyStepFresh(EGroup(body, true, false), old(Conditions()), old(supply.next));
        GrowsBelow(old(bindings), bindings, old(supply.next), supply.next);
      }
    }

    /** orWhere(callback) */
    method OrWhereGroup(body: seq<EarlyWhere>) returns (error: Option<Error>)
      modifies this`andWheres, this`orWheres, this`bindings, supply`next
      ensures Performed(EGroup(body, false, true), error)
      ensures old(Valid()) ==> Valid()
    {
      error := ProcessWhere(EGroup(body, false, true));
      if old(Valid()) {
        EarlyStepFresh(EGroup(body, false, true), old(Conditions()), old(supply.next));
        GrowsBelow(old(bindings), bindings, old(supply.next), supply.next);
      }
    }

    /** orWhereNot(callback) */
    method OrWhereNotGroup(body: seq<EarlyWhere>) returns (error: Option<Error>)
      modifies this`andWheres, this`orWheres, this`bindings, supply`next
      ensures Performed(EGroup(body, true, true), error)
      ensures old(Valid()) ==> Valid()
    {
      error := ProcessWhere(EGroup(body, true, true));
      if old(Valid()) {
        EarlyStepFresh(EGroup(body, true, true), old(Conditions()), old(supply.next));
        GrowsBelow(old(bindings), bindings, old(supply.next), supply.next);
      }
    }

    method WhereNot(column: string, op: Option<string> := None, value: Value := Null) returns (error: Option<Error>)
      modifies this`andWheres, this`orWheres, this`bindings, supply`next
      ensures Performed(EBasic(column, op, value, true, false), error)
      ensures old(Valid()) ==> Valid()
    {
      error := ProcessWhere(EBasic(column, op, value, true, false));
      if old(Valid()) {
        EarlyStepFresh(EBasic(column, op, value, true, false), old(Conditions()), old(supply.next));
        GrowsBelow(old(bindings), bindings, old(supply.next), supply.next);
      }
    }

    method OrWhere(column: string, op: Option<string> := None, value: Value := Null) returns (error: Option<Error>)
      modifies this`andWheres, this`orWheres, this`bindings, supply`next
      ensures Performed(EBasic(column, op, value, false, true), error)
      ensures old(Valid()) ==> Valid()
    {
      error := ProcessWhere(EBasic(column, op, value, false, true));
      if old(Valid()) {
        EarlyStepFresh(EBasic(column, op, value, false, true), old(Conditions()), old(supply.next));
        GrowsBelow(old(bindings), bindings, old(supply.next), supply.next);
      }
    }

    method OrWhereNot(column: string, op: Option<string> := None, value: Value := Null) returns (error: Option<Error>)
      modifies this`andWheres, this`orWheres, this`bindings, supply`next
      ensures Performed(EBasic(column, op, value, true, true), error)
      ensures old(Valid()) ==> Valid()
    {
      error := ProcessWhere(EBasic(column, op, value, true, true));
      if old(Valid()) {
        EarlyStepFresh(EBasic(column, op, value, true, true), old(Conditions()), old(supply.next));
        GrowsBelow(old(bindings), bindings, old(supply.next), supply.next);
      }
    }

    method WhereExists(sql: EarlyExistsArg) returns (error: Option<Error>)
      modifies this`andWheres, this`orWheres, this`bindings, supply`next
      ensures Performed(EExistsOf(sql, false, false), error)
      ensures old(Valid()) ==> Valid()
    {
      error := ProcessWhereExists(EExistsOf(sql, false, false));
      if old(Valid()) {
        EarlyStepFresh(EExistsOf(sql, false, false), old(Conditions()), old(supply.next));
        GrowsBelow(old(bindings), bindings, old(supply.next), supply.next);
      }
    }

    method WhereNotExists(sql: EarlyExistsArg) returns (error: Option<Error>)
      modifies this`andWheres, this`orWheres, this`bindings, supply`next
      ensures Performed(EExistsOf(sql, true, false), error)
      ensures old(Valid()) ==> Valid()
    {
      error := ProcessWhereExists(EExistsOf(sql, true, false));
      if old(Valid()) {
        EarlyStepFresh(EExistsOf(sql, true, false), old(Conditions()), old(supply.next));
        GrowsBelow(old(bindings), bindings, old(supply.next), supply.next);
      }
    }

    method OrWhereExists(sql: EarlyExistsArg) returns (error: Option<Error>)
      modifies this`andWheres, this`orWheres, this`bindings, supply`next
      ensures Performed(EExistsOf(sql, false, true), error)
      ensures old(Valid()) ==> Valid()
    {
      error := ProcessWhereExists(EExistsOf(sql, false, true));
      if old(Valid()) {
        EarlyStepFresh(EExistsOf(sql, false, true), old(Conditions()), old(supply.next));
        GrowsBelow(old(bindings), bindings, old(supply.next), supply.next);
      }
    }

    method OrWhereNotExists(sql: EarlyExistsArg) returns (error: Option<Error>)
      modifies this`andWheres, this`orWheres, this`bindings, supply`next
      ensures Performed(EExistsOf(sql, true, true), error)
      ensures old(Valid()) ==> Valid()
    {
      error := ProcessWhereExists(EExistsOf(sql, true, true));
      if old(Valid()) {
        EarlyStepFresh(EExistsOf(sql, true, true), old(Conditions()), old(supply.next));
        GrowsBelow(old(bindings), bindings, old(supply.next), supply.next);
      }
    }

    method WhereIn(column: string, values: seq<Value>)
      modifies this`andWheres, this`bindings, supply`next
      ensures Performed(EIn(column, values, false), None)
      ensures old(Valid()) ==> Valid()
    {
      ProcessWhereIn(column, values, false);
      if old(Valid()) {
        EarlyStepFresh(EIn(column, values, false), old(Conditions()), old(supply.next));
        GrowsBelow(old(bindings), bindings, old(supply.next), supply.next);
      }
    }

    method WhereNotIn(column: string, values: seq<Value>)
      modifies this`andWheres, this`bindings, supply`next
      ensures Performed(EIn(column, values, true), None)
      ensures old(Valid()) ==> Valid()
    {
      ProcessWhereIn(column, values, true);
      if old(Valid()) {
        EarlyStepFresh(EIn(column, values, true), old(Conditions()), old(supply.next));
        GrowsBelow(old(bindings), bindings, old(supply.next), supply.next);
      }
    }

    method WhereBetween(column: string, value1: int, value2: int)
      modifies this`andWheres, this`bindings, supply`next
      ensures Performed(EBetween(column, value1, value2, false), None)
      ensures old(Valid()) ==> Valid()
    {
      ProcessWhereBetween(column, value1, value2, false);
      if old(Valid()) {
        EarlyStepFresh(EBetween(column, value1, value2, false), old(Conditions()), old(supply.next));
        GrowsBelow(old(bindings), bindings, old(supply.next), supply.next);
      }
    }

    method WhereNotBetween(column: string, value1: int, value2: int)
      modifies this`andWheres, this`bindings, supply`next
      ensures Performed(EBetween(column, value1, value2, true), None)
      ensures old(Valid()) ==> Valid()
    {
      ProcessWhereBetween(column, value1, value2, true);
      if old(Valid()) {
        EarlyStepFresh(EBetween(column, value1, value2, true), old(Conditions()), old(supply.next));
        GrowsBelow(old(bindings), bindings, old(supply.next), supply.next);
      }
    }

    // Rendering and sending

    /** bind: every binding goes to the statement, then the table is cleared. */
    method Bind() returns (bound: Bindings)
      modifies this`bindings
      ensures bound == old(bindings) && bindings == []
    {
      bound := [];
      var i := 0;
      while i < |bindings|
        invariant 0 <= i <= |bindings|
        invariant bound == bindings[..i]
      {
        bound := bound + [bindings[i]];
        i := i + 1;
      }
      assert bindings[..|bindings|] == bindings;
      bindings := [];
    }

    /** get(): the SELECT statement, returned in toSql mode, otherwise
        prepared with every binding; without a table it throws. */
    method Get() returns (r: Result<Outcome, Error>)
      modifies this`action, this`bindings
      ensures action == "select"
      ensures table.None? ==> r == Err(UninitializedTable) && bindings == old(bindings)
      ensures table.Some? && toSqlStatus ==> r == Ok(SqlText(SelectSql(Query()))) && bindings == old(bindings)
      ensures table.Some? && !toSqlStatus ==> r == Ok(Prepared(SelectSql(Query()), old(bindings))) && bindings == []
    {
      SetAction("select");
      var sql, error := BuildSql();
      if error.Some? {
        return Err(error.value);
      }
      if toSqlStatus {
        return Ok(SqlText(sql));
      }
      var bound := Bind();
      r := Ok(Prepared(sql, bound));
    }

    /** first() of the earlier draft: get() with LIMIT 1, through the early
        buildSql, so an uninitialized table is still an error. */
    method First() returns (r: Result<Outcome, Error>)
      modifies this`limit, this`action, this`bindings
      ensures limit == 1 && action == "select"
      ensures table.None? ==> r == Err(UninitializedTable) && bindings == old(bindings)
      ensures table.Some? && toSqlStatus ==> r == Ok(SqlText(SelectSql(Query()))) && bindings == old(bindings)
      ensures table.Some? && !toSqlStatus ==> r == Ok(Prepared(SelectSql(Query()), old(bindings))) && bindings == []
    {
      Limit(1);
      r := Get();
    }

    /** count(): no toSql check, always prepared, bound and cleared. */
    method Count() returns (r: Result<Outcome, Error>)
      modifies this`bindings
      ensures table.None? ==> r == Err(UninitializedTable) && bindings == old(bindings)
      ensures table.Some? ==> r == Ok(Prepared(EarlyCountSql(table.value, andWheres), old(bindings))) && bindings == []
    {
      if table.None? {
        return Err(UninitializedTable);
      }
      var sql := "SELECT " + CountColumn + " FROM " + table.value;
      if andWheres != [] {
        sql := sql + " WHERE " + Join(" AND ", andWheres);
        assert sql == "SELECT " + CountColumn + " FROM " + table.value + (" WHERE " + Join(" AND ", andWheres));
      } else {
        assert sql == "SELECT " + CountColumn + " FROM " + table.value + "";
      }
      var bound := Bind();
      r := Ok(Prepared(sql, bound));
    }

    /** all(): every row of the table, whatever the conditions and the toSql
        mode. */
    method All() returns (r: Result<Outcome, Error>)
      ensures r == if table.None? then Err(UninitializedTable) else Ok(Queried("SELECT * FROM " + table.value))
    {
      if table.None? {
        return Err(UninitializedTable);
      }
      r := Ok(Queried("SELECT * FROM " + table.value));
    }

    /** buildUpdate: throws on empty data before the table is read. */
    method BuildUpdate() returns (parts: seq<string>, error: Option<Error>)
      ensures updateArrays == [] ==> error == Some(MissingUpdateData)
      ensures updateArrays != [] && table.None? ==> error == Some(UninitializedTable)
      ensures updateArrays != [] && table.Some? ==> error.None? && EarlyUpdateSql(Query()) == Ok(Join(" ", parts))
    {
      if updateArrays == [] {
        return [], Some(MissingUpdateData);
      }
      if table.None? {
        return [], Some(UninitializedTable);
      }
      parts := ["UPDATE " + table.value];
      if join.Some? {
        parts := parts + [JoinText(join.value)];
      }
      parts := parts + [SetClause(updateArrays)];
      parts := parts + [WhereClause(andWheres, orWheres, false)];
      parts := parts + [EarlyLimitText(limit)];
      assert parts == ["UPDATE " + table.value] + (if join.Some? then [JoinText(join.value)] else [])
        + [SetClause(updateArrays), WhereClause(andWheres, orWheres, false), EarlyLimitText(limit)];
      error := None;
    }

    /** buildSql of the earlier draft: SELECT and INSERT render as in the
        later draft (except the INSERT column list), UPDATE as EarlyUpdateSql,
        delete and unknown actions as "". */
    method BuildSql() returns (sql: string, error: Option<Error>)
      modifies this`bindings
      ensures action == "select" ==> bindings == old(bindings)
      ensures action == "select" && table.None? ==> error == Some(UninitializedTable)
      ensures action == "select" && table.Some? ==> error.None? && sql == SelectSql(Query())
      ensures action == "insert" ==>
        if table.None? && insertArrays != [] then error == Some(UninitializedTable) && bindings == old(bindings)
        else
          var r := InsertUpTo(if table.Some? then table.value else "", insertIgnore, false, insertArrays, insertUpdateOnDuplicate, old(bindings), |insertArrays|);
          error.None? && sql == Join(" ", r.parts) && bindings == r.bindings
      ensures action == "update" ==> bindings == old(bindings)
      ensures action == "update" && table.None? ==>
        error == Some(if updateArrays == [] then MissingUpdateData else UninitializedTable)
      ensures action == "update" && table.Some? ==>
        EarlyUpdateSql(Query()) == if error.None? then Ok(sql) else Err(error.value)
      ensures action != "select" && action != "insert" && action != "update" ==>
        error.None? && sql == "" && bindings == old(bindings)
    {
      var parts := [];
      error := None;
      if action == "select" {
        if table.None? {
          return "", Some(UninitializedTable);
        }
        parts := SelectBase(Query()) + [WhereClause(andWheres, orWheres, true)] + SelectTail(Query());
      } else if action == "insert" {
        if table.None? && insertArrays != [] {
          return "", Some(UninitializedTable);
        }
        var r := InsertUpTo(if table.Some? then table.value else "", insertIgnore, false, insertArrays, insertUpdateOnDuplicate, bindings, |insertArrays|);
        parts, bindings := r.parts, r.bindings;
      } else if action == "update" {
        parts, error := BuildUpdate();
        if error.Some? {
          return "", error;
        }
      }
      sql := Join(" ", parts);
    }

    /** update(data): merges the data, then renders; the toSql mode returns
        the SQL, otherwise it is prepared with every binding. */
    method Update(dataArrays: Row) returns (r: Result<Outcome, Error>)
      modifies this`updateArrays, this`action, this`bindings
      ensures updateArrays == Merge(old(updateArrays), dataArrays) && action == "update"
      ensures table.None? ==>
        r == Err(if updateArrays == [] then MissingUpdateData else UninitializedTable) && bindings == old(bindings)
      ensures table.Some? && EarlyUpdateSql(Query()).Err? ==> r == Err(EarlyUpdateSql(Query()).error) && bindings == old(bindings)
      ensures table.Some? && EarlyUpdateSql(Query()).Ok? ==>
        if toSqlStatus then r == Ok(SqlText(EarlyUpdateSql(Query()).value)) && bindings == old(bindings)
        else r == Ok(Prepared(EarlyUpdateSql(Query()).value, old(bindings))) && bindings == []
    {
      updateArrays := Merge(updateArrays, dataArrays);
      SetAction("update");
      var sql, error := BuildSql();
      if error.Some? {
        return Err(error.value);
      }
      if toSqlStatus {
        return Ok(SqlText(sql));
      }
      var bound := Bind();
      r := Ok(Prepared(sql, bound));
    }

    /** insert(...rows): always prepared and bound; the rows accumulate. */
    method Insert(dataArrays: seq<Row>) returns (r: Result<Outcome, Error>)
      modifies this`insertArrays, this`action, this`bindings
      ensures insertArrays == old(insertArrays) + dataArrays && action == "insert"
      ensures table.None? && insertArrays != [] ==> r == Err(UninitializedTable) && bindings == old(bindings)
      ensures table.Some? || insertArrays == [] ==>
        var ins := InsertUpTo(if table.Some? then table.value else "", insertIgnore, false, insertArrays, insertUpdateOnDuplicate, old(bindings), |insertArrays|);
        r == Ok(Prepared(Join(" ", ins.parts), ins.bindings)) && bindings == []
    {
      insertArrays := insertArrays + dataArrays;
      SetAction("insert");
      var sql, error := BuildSql();
      if error.Some? {
        return Err(error.value);
      }
      var bound := Bind();
      r := Ok(Prepared(sql, bound));
    }
  }
}
