/**
 * What the where-family calls of the later draft do to a builder's
 * conditions, as a pure reference semantics: the AND and OR fragment lists,
 * the binding table and the supply of placeholder tokens. The Builder class
 * is proved to act as Step does.
 */
module Conditions {
  import opened Wrappers
  import opened Text
  import opened Dictionary
  import opened Placeholders
  import opened Sql

  /** One where-family call, made on a builder or inside a callback.
      A callback is the sequence of calls it makes on the builder it receives. */
  datatype Where =
    | Basic(column: string, op: Option<string>, value: Value, not: bool, or: bool, bind: bool)
    | Group(body: seq<Where>, not: bool, or: bool)
    | In(column: string, values: seq<Value>, not: bool)
    | Between(column: string, low: Value, high: Value, not: bool, bind: bool)
    | ExistsText(sql: string, not: bool, or: bool)
    | ExistsQuery(body: seq<Where>, returned: Returned, not: bool, or: bool)

  /** What an EXISTS callback returns: the SQL of its own query (the
      `->get()` of a builder in toSql mode), some other string, or a value
      that is not a string. */
  datatype Returned = ReturnsSql | ReturnsText(text: string) | ReturnsNonString

  datatype Conds = Conds(ands: seq<string>, ors: seq<string>, bindings: Bindings)

  /** The conditions of a freshly constructed builder. */
  const NoConds := Conds([], [], [])

  /** The state after a call: the new conditions, the next token, and the
      exception thrown, if any. */
  datatype Stepped = Stepped(conds: Conds, next: nat, error: Option<Error>)

  function Size(w: Where): (n: nat)
    ensures n >= 1
    decreases w
  {
    match w
    case Group(body, _, _) => SizeAll(body) + 2
    case ExistsQuery(body, _, _, _) => SizeAll(body) + 2
    case _ => 1
  }

  function SizeAll(ws: seq<Where>): nat
    decreases ws
  {
    if ws == [] then 0 else Size(ws[0]) + SizeAll(ws[1..])
  }

  lemma {:induction false} SizeAllBound(ws: seq<Where>, i: int)
    requires 0 <= i < |ws|
    ensures Size(ws[i]) <= SizeAll(ws)
  {
    if i > 0 {
      SizeAllBound(ws[1..], i - 1);
    }
  }

  /** Appends a fragment to the AND list, or to the OR list. */
  function File(c: Conds, or: bool, fragment: string): (r: Conds)
    ensures r.bindings == c.bindings
  {
    if or then c.(ors := c.ors + [fragment]) else c.(ands := c.ands + [fragment])
  }

  /** "NOT (<sql>)" when negated. */
  function Negated(not: bool, sql: string): string
  {
    if not then "NOT (" + sql + ")" else sql
  }

  /** A rendered condition, with what it binds and the next token. */
  datatype Condition = Condition(text: string, bound: Bindings, next: nat)

  /** handleWherePlaceholder: a token is drawn whether or not the value is
      bound; unbound, the value itself is interpolated. */
  function Placed(column: string, op: string, value: Value, bind: bool, next: nat): Condition
  {
    var ph := WherePlaceholder(next, column);
    if bind then Condition(column + " " + op + " " + ph, [(ph, value)], next + 1)
    else Condition(column + " " + op + " " + ValueText(value), [], next + 1)
  }

  /** handleWhereConditions with addNull-, addOperator- and
      addValueConditionToWhere. */
  function HandleWhere(column: string, op: Option<string>, value: Value, bind: bool, next: nat): Result<Condition, Error>
  {
    if op.None? && value.Null? then Ok(Condition(column + " IS NULL", [], next))
    else if op.Some? && value.Null? then
      if !IsOperator(op.value) then Ok(Placed(column, "=", Str(op.value), bind, next))
      else Err(NullComparison)
    else if op.Some? then
      if IsOperator(op.value) then Ok(Placed(column, op.value, value, bind, next))
      else Err(UnknownOperator)
    else Err(NullComparison)
  }

  /** The placeholder => value entries of whereIn: one token per value, the
      value's index in the suffix. */
  function InEntries(next: nat, column: string, values: seq<Value>): Bindings
  {
    seq(|values|, k requires 0 <= k < |values| =>
      (WherePlaceholder(next + k, column + "_" + NatToString(k)), values[k]))
  }

  /** The i-th entry of whereIn: the i-th draw, suffixed with the column and i. */
  lemma InEntryAt(next: nat, column: string, values: seq<Value>, i: nat)
    requires i < |values|
    ensures InEntries(next, column, values)[i] == (WhereBinder + Token(next + i) + "_" + (column + "_" + NatToString(i)), values[i])
  {
  }

  function BetweenEntries(next: nat, column: string, low: Value, high: Value): Bindings
  {
    [(WherePlaceholder(next, column + "_1"), low), (WherePlaceholder(next + 1, column + "_2"), high)]
  }

  /** What the callback of an EXISTS call renders: its query is
      toSql()->table(<parent's table>)->select(1) plus its own conditions. */
  function SubquerySql(table: string, child: Conds): string
  {
    SelectSql(EmptyQuery(table).(selects := ["1"], ands := child.ands, ors := child.ors))
  }

  function ExistsFragment(not: bool, sql: string): string
  {
    (if not then "NOT " else "") + "EXISTS (" + sql + ")"
  }

  function StepBasic(column: string, op: Option<string>, value: Value, not: bool, or: bool, bind: bool, c: Conds, next: nat): Stepped
  {
    var h := HandleWhere(column, op, value, bind, next);
    if h.Err? then Stepped(c, next, Some(h.error))
    else Stepped(File(c.(bindings := Merge(c.bindings, h.value.bound)), or, Negated(not, h.value.text)), h.value.next, None)
  }

  /** A callback's outcome r filed as "( <its conditions> )"; its exception,
      if any, propagates and leaves c as it was. */
  function StepGroup(r: Stepped, not: bool, or: bool, c: Conds): Stepped
  {
    if r.error.Some? then Stepped(c, r.next, r.error)
    else
      var sql := "( " + WhereClause(r.conds.ands, r.conds.ors, false) + " )";
      Stepped(File(c.(bindings := Merge(c.bindings, r.conds.bindings)), or, if not then "NOT " + sql else sql), r.next, None)
  }

  function StepIn(column: string, values: seq<Value>, not: bool, c: Conds, next: nat): Stepped
  {
    var e := InEntries(next, column, values);
    var sql := column + (if not then " NOT" else "") + " IN (" + Join(", ", Keys(e)) + ")";
    Stepped(File(c.(bindings := Merge(c.bindings, e)), false, sql), next + |values|, None)
  }

  function StepBetween(column: string, low: Value, high: Value, not: bool, bind: bool, c: Conds, next: nat): Stepped
  {
    var keyword := column + (if not then " NOT" else "") + " BETWEEN ";
    if bind then
      var e := BetweenEntries(next, column, low, high);
      Stepped(File(c.(bindings := Merge(c.bindings, e)), false, keyword + e[0].0 + " AND " + e[1].0), next + 2, None)
    else
      Stepped(File(c, false, keyword + ValueText(low) + " AND " + ValueText(high)), next, None)
  }

  function StepLiteral(sql: string, not: bool, or: bool, c: Conds, next: nat): Stepped
  {
    var literal := Negated(not, sql);
    Stepped(File(File(c, or, literal), or, ExistsFragment(not, literal)), next, None)
  }

  /** A subquery callback's outcome r filed as "EXISTS (...)". */
  function StepExists(r: Stepped, returned: Returned, not: bool, or: bool, c: Conds, table: string): Stepped
  {
    if r.error.Some? then Stepped(c, r.next, r.error)
    else if returned.ReturnsNonString? then Stepped(c, r.next, Some(NotAString))
    else
      var sql := if returned.ReturnsSql? then SubquerySql(table, r.conds) else returned.text;
      Stepped(File(c.(bindings := Merge(c.bindings, r.conds.bindings)), or, ExistsFragment(not, sql)), r.next, None)
  }

  /** One where-family call on a builder whose table is `table`. A group's
      callback runs on a new builder, whose table is unset. */
  function Step(w: Where, c: Conds, next: nat, table: string): Stepped
    decreases Size(w), 0
  {
    match w
    case Basic(column, op, value, not, or, bind) => StepBasic(column, op, value, not, or, bind, c, next)
    case Group(body, not, or) => StepGroup(StepAll(body, NoConds, next, ""), not, or, c)
    case In(column, values, not) => StepIn(column, values, not, c, next)
    case Between(column, low, high, not, bind) => StepBetween(column, low, high, not, bind, c, next)
    case ExistsText(sql, not, or) => StepLiteral(sql, not, or, c, next)
    case ExistsQuery(body, returned, not, or) => StepExists(StepAll(body, NoConds, next, table), returned, not, or, c, table)
  }

  /** The calls in order; the first exception stops the rest. */
  function StepAll(ws: seq<Where>, c: Conds, next: nat, table: string): Stepped
    decreases SizeAll(ws), 1
  {
    if ws == [] then Stepped(c, next, None)
    else
      var r := Step(ws[0], c, next, table);
      if r.error.Some? then r else StepAll(ws[1..], r.conds, r.next, table)
  }

  // Placeholder freshness

  /** Every WHERE placeholder in b was drawn before token `next`. */
  predicate Below(b: Bindings, next: nat)
  {
    forall i :: 0 <= i < |b| ==> WhereToken(b[i].0) < next
  }

  /** Every key of b is a WHERE placeholder drawn in [lo, hi). */
  predicate Drawn(b: Bindings, lo: nat, hi: nat)
  {
    forall i :: 0 <= i < |b| ==> lo <= WhereToken(b[i].0) < hi
  }

  /** b2 is b followed by new, distinct placeholders drawn in [lo, hi). */
  predicate Grows(b: Bindings, b2: Bindings, lo: nat, hi: nat)
  {
    |b2| >= |b| && b2[..|b|] == b && UniqueKeys(b2) && Drawn(b2[|b|..], lo, hi)
  }

  lemma GrowsBelow(b: Bindings, b2: Bindings, lo: nat, hi: nat)
    requires Below(b, lo) && lo <= hi && Grows(b, b2, lo, hi)
    ensures Below(b2, hi)
  {
    forall i | 0 <= i < |b2| ensures WhereToken(b2[i].0) < hi {
      if i < |b| {
        assert b2[i] == b[i];
      } else {
        assert b2[|b|..][i - |b|] == b2[i];
      }
    }
  }

  lemma GrowsTransitive(b: Bindings, b1: Bindings, b2: Bindings, lo: nat, mid: nat, hi: nat)
    requires Grows(b, b1, lo, mid) && Grows(b1, b2, mid, hi) && lo <= mid <= hi
    ensures Grows(b, b2, lo, hi)
  {
    assert b2[..|b|] == b2[..|b1|][..|b|];
    forall i | 0 <= i < |b2| - |b| ensures lo <= WhereToken(b2[|b|..][i].0) < hi {
      if i < |b1| - |b| {
        assert b2[|b|..][i] == b1[|b|..][i];
      } else {
        assert b2[|b|..][i] == b2[|b1|..][i - (|b1| - |b|)];
      }
    }
  }

  lemma GrowsNothing(b: Bindings, lo: nat, hi: nat)
    requires UniqueKeys(b)
    ensures Grows(b, b, lo, hi)
  {
    assert b[..|b|] == b;
  }

  /** Merging fresh placeholders into a table that holds only older ones
      appends them, and overwrites nothing. */
  lemma MergeFresh(b: Bindings, e: Bindings, lo: nat, hi: nat)
    requires UniqueKeys(b) && Below(b, lo) && UniqueKeys(e) && Drawn(e, lo, hi)
    ensures Merge(b, e) == b + e
    ensures Grows(b, b + e, lo, hi)
  {
    assert Disjoint(b, e) by {
      forall i, j | 0 <= i < |b| && 0 <= j < |e| ensures b[i].0 != e[j].0 {
        assert WhereToken(b[i].0) < lo <= WhereToken(e[j].0);
      }
    }
    MergeDisjoint(b, e);
    var m := b + e;
    assert m[..|b|] == b && m[|b|..] == e;
    forall i, j | 0 <= i < j < |m| ensures m[i].0 != m[j].0 {
      if j < |b| {
        assert m[i] == b[i] && m[j] == b[j];
      } else if i >= |b| {
        assert m[i] == e[i - |b|] && m[j] == e[j - |b|];
      } else {
        assert m[i] == b[i] && m[j] == e[j - |b|];
      }
    }
  }

  lemma PlacedFresh(column: string, op: string, value: Value, bind: bool, next: nat)
    ensures var cond := Placed(column, op, value, bind, next);
      cond.next == next + 1 && UniqueKeys(cond.bound) && Drawn(cond.bound, next, next + 1)
  {
    WhereTokenOfPlaceholder(next, column);
  }

  lemma InEntriesFresh(next: nat, column: string, values: seq<Value>)
    ensures UniqueKeys(InEntries(next, column, values))
    ensures Drawn(InEntries(next, column, values), next, next + |values|)
  {
    var e := InEntries(next, column, values);
    forall k | 0 <= k < |e| ensures WhereToken(e[k].0) == next + k {
      WhereTokenOfPlaceholder(next + k, column + "_" + NatToString(k));
    }
  }

  lemma BetweenEntriesFresh(next: nat, column: string, low: Value, high: Value)
    ensures UniqueKeys(BetweenEntries(next, column, low, high))
    ensures Drawn(BetweenEntries(next, column, low, high), next, next + 2)
  {
    WhereTokenOfPlaceholder(next, column + "_1");
    WhereTokenOfPlaceholder(next + 1, column + "_2");
  }

  /** Every call, nested callbacks included, only appends bindings under
      placeholders drawn during the call, so no binding is ever overwritten
      and the table keeps distinct keys; an exception leaves the conditions
      as they were. */
  /** A child builder's bindings, all drawn after next, merge into the
      parent's as fresh entries; an exception leaves the parent's as they are. */
  lemma ChildMergeFresh(b: Bindings, s: Stepped, next: nat)
    requires UniqueKeys(b) && Below(b, next) && s.next >= next && Grows([], s.conds.bindings, next, s.next)
    ensures Grows(b, b, next, s.next)
    ensures Grows(b, Merge(b, s.conds.bindings), next, s.next)
  {
    GrowsNothing(b, next, s.next);
    assert s.conds.bindings[0..] == s.conds.bindings;
    MergeFresh(b, s.conds.bindings, next, s.next);
  }

  lemma InFresh(column: string, values: seq<Value>, not: bool, c: Conds, next: nat)
    requires UniqueKeys(c.bindings) && Below(c.bindings, next)
    ensures var r := StepIn(column, values, not, c, next);
      r.next >= next && r.error.None? && Grows(c.bindings, r.conds.bindings, next, r.next)
  {
    InEntriesFresh(next, column, values);
    MergeFresh(c.bindings, InEntries(next, column, values), next, next + |values|);
  }

  lemma BetweenFresh(column: string, low: Value, high: Value, not: bool, bind: bool, c: Conds, next: nat)
    requires UniqueKeys(c.bindings) && Below(c.bindings, next)
    ensures var r := StepBetween(column, low, high, not, bind, c, next);
      r.next >= next && r.error.None? && Grows(c.bindings, r.conds.bindings, next, r.next)
  {
    if bind {
      BetweenEntriesFresh(next, column, low, high);
      MergeFresh(c.bindings, BetweenEntries(next, column, low, high), next, next + 2);
    } else {
      GrowsNothing(c.bindings, next, next);
    }
  }

  lemma {:induction false} StepFresh(w: Where, c: Conds, next: nat, table: string)
    requires UniqueKeys(c.bindings) && Below(c.bindings, next)
    ensures var r := Step(w, c, next, table);
      && r.next >= next
      && (r.error.Some? ==> r.conds == c)
      && Grows(c.bindings, r.conds.bindings, next, r.next)
    decreases Size(w), 0
  {
    var r := Step(w, c, next, table);
    match w
    case Basic(column, op, value, not, or, bind) => {
      var h := HandleWhere(column, op, value, bind, next);
      if h.Err? {
        GrowsNothing(c.bindings, next, next);
      } else if h.value.bound == [] && h.value.next == next {
        assert Merge(c.bindings, h.value.bound) == c.bindings;
        GrowsNothing(c.bindings, next, next);
      } else {
        var v := if op.Some? && value.Null? then Str(op.value) else value;
        var o := if op.Some? && value.Null? then "=" else op.value;
        assert h.value == Placed(column, o, v, bind, next);
        PlacedFresh(column, o, v, bind, next);
        MergeFresh(c.bindings, h.value.bound, next, next + 1);
      }
    }
    case Group(body, not, or) => {
      GrowsNothing([], next, next);
      StepAllFresh(body, NoConds, next, "");
      ChildMergeFresh(c.bindings, StepAll(body, NoConds, next, ""), next);
    }
    case In(column, values, not) => {
      InFresh(column, values, not, c, next);
    }
    case Between(column, low, high, not, bind) => {
      BetweenFresh(column, low, high, not, bind, c, next);
    }
    case ExistsText(sql, not, or) => {
      GrowsNothing(c.bindings, next, next);
    }
    case ExistsQuery(body, returned, not, or) => {
      GrowsNothing([], next, next);
      StepAllFresh(body, NoConds, next, table);
      ChildMergeFresh(c.bindings, StepAll(body, NoConds, next, table), next);
    }
  }

  lemma {:induction false} StepAllFresh(ws: seq<Where>, c: Conds, next: nat, table: string)
    requires UniqueKeys(c.bindings) && Below(c.bindings, next)
    ensures var r := StepAll(ws, c, next, table);
      && r.next >= next
      && Grows(c.bindings, r.conds.bindings, next, r.next)
    decreases SizeAll(ws), 1
  {
    if ws == [] {
      GrowsNothing(c.bindings, next, next);
    } else {
      StepFresh(ws[0], c, next, table);
      var r := Step(ws[0], c, next, table);
      if r.error.None? {
        GrowsBelow(c.bindings, r.conds.bindings, next, r.next);
        StepAllFresh(ws[1..], r.conds, r.next, table);
        var s := StepAll(ws[1..], r.conds, r.next, table);
        GrowsTransitive(c.bindings, r.conds.bindings, s.conds.bindings, next, r.next, s.next);
      }
    }
  }

  /** Freshness is preserved: the table after a call again holds only
      placeholders drawn before the new token. */
  lemma StepKeepsBelow(w: Where, c: Conds, next: nat, table: string)
    requires UniqueKeys(c.bindings) && Below(c.bindings, next)
    ensures var r := Step(w, c, next, table);
      UniqueKeys(r.conds.bindings) && Below(r.conds.bindings, r.next)
  {
    StepFresh(w, c, next, table);
    var r := Step(w, c, next, table);
    GrowsBelow(c.bindings, r.conds.bindings, next, r.next);
  }

  /** Where a successful call files its fragments: one fragment, two for a
      literal EXISTS; whereIn and whereBetween always to the AND list; nothing
      already filed changes. */
  lemma StepFiles(w: Where, c: Conds, next: nat, table: string)
    ensures var r := Step(w, c, next, table);
      r.error.None? ==>
        && c.ands <= r.conds.ands && c.ors <= r.conds.ors
        && |r.conds.ands| + |r.conds.ors| == |c.ands| + |c.ors| + (if w.ExistsText? then 2 else 1)
        && (w.In? || w.Between? || !w.or ==> r.conds.ors == c.ors)
        && (!w.In? && !w.Between? && w.or ==> r.conds.ands == c.ands)
  {
  }

  // The basic calls

  /** where('name', 'John'): a second argument that is not an operator is the
      value, compared with "=". */
  lemma TwoArgumentsMeanEquals(column: string, s: string, not: bool, or: bool, bind: bool, c: Conds, next: nat, table: string)
    requires !IsOperator(s)
    ensures Step(Basic(column, Some(s), Null, not, or, bind), c, next, table)
         == Step(Basic(column, Some("="), Str(s), not, or, bind), c, next, table)
  {
    assert IsOperator("=");
  }

  /** A known operator with a value: the operator is rendered as the caller
      wrote it, and the value bound under a fresh placeholder of the column. */
  lemma ExplicitOperator(column: string, op: string, value: Value, not: bool, or: bool, c: Conds, next: nat, table: string)
    requires IsOperator(op) && !value.Null?
    requires UniqueKeys(c.bindings) && Below(c.bindings, next)
    ensures var ph := WherePlaceholder(next, column);
      Step(Basic(column, Some(op), value, not, or, true), c, next, table)
      == Stepped(File(c.(bindings := c.bindings + [(ph, value)]), or, Negated(not, column + " " + op + " " + ph)), next + 1, None)
  {
    PlacedFresh(column, op, value, true, next);
    MergeFresh(c.bindings, Placed(column, op, value, true, next).bound, next, next + 1);
  }

  /** whereColumn('a', 'b') compares two columns: nothing is bound, but a
      token is still drawn. */
  lemma ColumnComparison(column1: string, column2: string, or: bool, c: Conds, next: nat, table: string)
    requires !IsOperator(column2)
    ensures Step(Basic(column1, Some(column2), Null, false, or, false), c, next, table)
         == Stepped(File(c, or, column1 + " = " + column2), next + 1, None)
  {
    assert Merge(c.bindings, []) == c.bindings;
    assert column1 + " " + "=" + " " + column2 == column1 + " = " + column2;
  }

  /** Null handling: no operator and no value is IS NULL (no token drawn); an
      operator with a null value, or a value without an operator, throws. */
  lemma NullCases(column: string, op: Option<string>, value: Value, not: bool, or: bool, bind: bool, c: Conds, next: nat, table: string)
    ensures op.None? && value.Null? ==>
      Step(Basic(column, op, value, not, or, bind), c, next, table)
      == Stepped(File(c, or, Negated(not, column + " IS NULL")), next, None)
    ensures op.None? && !value.Null? ==>
      Step(Basic(column, op, value, not, or, bind), c, next, table) == Stepped(c, next, Some(NullComparison))
    ensures op.Some? && IsOperator(op.value) && value.Null? ==>
      Step(Basic(column, op, value, not, or, bind), c, next, table) == Stepped(c, next, Some(NullComparison))
  {
    assert Merge(c.bindings, []) == c.bindings;
  }

  lemma UnknownOperatorThrows(column: string, op: string, value: Value, not: bool, or: bool, bind: bool, c: Conds, next: nat, table: string)
    requires !IsOperator(op) && !value.Null?
    ensures Step(Basic(column, Some(op), value, not, or, bind), c, next, table) == Stepped(c, next, Some(UnknownOperator))
  {
  }

  // Callbacks

  /** $query->orWhere($c, ...) (or ->where) for every column, as the
      whereAny (whereAll) family's callbacks do. */
  function EachColumn(columns: seq<string>, op: string, value: Value, or: bool): seq<Where>
  {
    seq(|columns|, i requires 0 <= i < |columns| => Basic(columns[i], Some(op), value, false, or, true))
  }

  /** The callback of the whereAny (whereAll) family, with the operator and
      value exactly as the caller passed them: orWhere (where) per column. */
  function ColumnCalls(columns: seq<string>, op: Option<string>, value: Value, or: bool): seq<Where>
  {
    seq(|columns|, i requires 0 <= i < |columns| => Basic(columns[i], op, value, false, or, true))
  }

  /** "<column> IS NULL" per column. */
  function NullTexts(columns: seq<string>): seq<string>
  {
    seq(|columns|, i requires 0 <= i < |columns| => columns[i] + " IS NULL")
  }

  function EachText(columns: seq<string>, op: string, next: nat): seq<string>
  {
    seq(|columns|, i requires 0 <= i < |columns| => columns[i] + " " + op + " " + WherePlaceholder(next + i, columns[i]))
  }

  function EachBound(columns: seq<string>, value: Value, next: nat): Bindings
  {
    seq(|columns|, i requires 0 <= i < |columns| => (WherePlaceholder(next + i, columns[i]), value))
  }

  /** One comparison per column, each with its own draw, filed in order. */
  lemma EachTextCons(columns: seq<string>, op: string, next: nat)
    requires |columns| > 0
    ensures EachText(columns, op, next)
      == [columns[0] + " " + op + " " + WherePlaceholder(next, columns[0])] + EachText(columns[1..], op, next + 1)
  {
  }

  lemma EachBoundCons(columns: seq<string>, value: Value, next: nat)
    requires |columns| > 0
    ensures EachBound(columns, value, next)
      == [(WherePlaceholder(next, columns[0]), value)] + EachBound(columns[1..], value, next + 1)
  {
  }

  lemma StepAllHead(ws: seq<Where>, c: Conds, next: nat, table: string)
    requires ws != [] && Step(ws[0], c, next, table).error.None?
    ensures var r := Step(ws[0], c, next, table);
      StepAll(ws, c, next, table) == StepAll(ws[1..], r.conds, r.next, table)
  {
  }

  /** The first column's comparison, filed and bound, then the rest. */
  lemma EachColumnHead(columns: seq<string>, op: string, value: Value, or: bool, c: Conds, next: nat, table: string)
    requires |columns| > 0 && IsOperator(op) && !value.Null?
    requires UniqueKeys(c.bindings) && Below(c.bindings, next)
    ensures var ph := WherePlaceholder(next, columns[0]);
      var c1 := File(c.(bindings := c.bindings + [(ph, value)]), or, columns[0] + " " + op + " " + ph);
      && StepAll(EachColumn(columns, op, value, or), c, next, table) == StepAll(EachColumn(columns[1..], op, value, or), c1, next + 1, table)
      && UniqueKeys(c1.bindings) && Below(c1.bindings, next + 1)
  {
    var ws := EachColumn(columns, op, value, or);
    assert ws[0] == Basic(columns[0], Some(op), value, false, or, true);
    assert ws[1..] == EachColumn(columns[1..], op, value, or);
    ExplicitOperator(columns[0], op, value, false, or, c, next, table);
    StepAllHead(ws, c, next, table);
    StepKeepsBelow(ws[0], c, next, table);
  }

  /** Filing the first comparison, then the rest, files them all in order. */
  lemma EachFiledCons(columns: seq<string>, op: string, value: Value, or: bool, c: Conds, next: nat)
    requires |columns| > 0
    ensures var ph := WherePlaceholder(next, columns[0]);
      var c1 := File(c.(bindings := c.bindings + [(ph, value)]), or, columns[0] + " " + op + " " + ph);
      var t := EachText(columns[1..], op, next + 1);
      && c1.bindings + EachBound(columns[1..], value, next + 1) == c.bindings + EachBound(columns, value, next)
      && (if or then c1.ands else c1.ands + t) == (if or then c.ands else c.ands + EachText(columns, op, next))
      && (if or then c1.ors + t else c1.ors) == (if or then c.ors + EachText(columns, op, next) else c.ors)
  {
    EachBoundCons(columns, value, next);
    EachTextCons(columns, op, next);
    var ph := WherePlaceholder(next, columns[0]);
    var text := columns[0] + " " + op + " " + ph;
    var t := EachText(columns[1..], op, next + 1);
    assert (c.bindings + [(ph, value)]) + EachBound(columns[1..], value, next + 1)
      == c.bindings + ([(ph, value)] + EachBound(columns[1..], value, next + 1));
    if or {
      assert (c.ors + [text]) + t == c.ors + ([text] + t);
    } else {
      assert (c.ands + [text]) + t == c.ands + ([text] + t);
    }
  }

  /** One comparison per column, each with its own draw, filed in order. */
  lemma {:induction false} EachColumnSteps(columns: seq<string>, op: string, value: Value, or: bool, c: Conds, next: nat, table: string)
    requires IsOperator(op) && !value.Null?
    requires UniqueKeys(c.bindings) && Below(c.bindings, next)
    ensures StepAll(EachColumn(columns, op, value, or), c, next, table)
      == Stepped(Conds(if or then c.ands else c.ands + EachText(columns, op, next),
                       if or then c.ors + EachText(columns, op, next) else c.ors,
                       c.bindings + EachBound(columns, value, next)),
                 next + |columns|, None)
    decreases |columns|
  {
    if columns == [] {
      assert EachColumn(columns, op, value, or) == [];
      assert EachText(columns, op, next) == [] && EachBound(columns, value, next) == [];
      assert c.ands + [] == c.ands && c.ors + [] == c.ors && c.bindings + [] == c.bindings;
    } else {
      var rest := columns[1..];
      var ph := WherePlaceholder(next, columns[0]);
      var c1 := File(c.(bindings := c.bindings + [(ph, value)]), or, columns[0] + " " + op + " " + ph);
      EachColumnHead(columns, op, value, or, c, next, table);
      EachColumnSteps(rest, op, value, or, c1, next + 1, table);
      EachFiledCons(columns, op, value, or, c, next);
    }
  }

  /** whereAny(columns, op, value): "( c1 op p1 OR c2 op p2 ... )", each
      value bound under its own placeholder; whereAll joins with AND. */
  lemma WhereAnyAll(columns: seq<string>, op: string, value: Value, any: bool, not: bool, or: bool, c: Conds, next: nat, table: string)
    requires |columns| > 0 && IsOperator(op) && !value.Null?
    requires UniqueKeys(c.bindings) && Below(c.bindings, next)
    ensures var sql := "( " + Join(if any then " OR " else " AND ", EachText(columns, op, next)) + " )";
      Step(Group(ColumnCalls(columns, Some(op), value, any), not, or), c, next, table)
      == Stepped(File(c.(bindings := c.bindings + EachBound(columns, value, next)), or,
                      if not then "NOT " + sql else sql),
                 next + |columns|, None)
  {
    var ws := EachColumn(columns, op, value, any);
    assert ws == ColumnCalls(columns, Some(op), value, any);
    var t := EachText(columns, op, next);
    var e := EachBound(columns, value, next);
    var s := StepAll(ws, NoConds, next, "");
    assert s == Stepped(Conds(if any then [] else t, if any then t else [], e), next + |columns|, None) by {
      EachColumnSteps(columns, op, value, any, NoConds, next, "");
      assert [] + t == t && [] + e == e;
    }
    var sep := if any then " OR " else " AND ";
    assert WhereClause(s.conds.ands, s.conds.ors, false) == Join(sep, t) by {
      WhereClauseShape(s.conds.ands, s.conds.ors, false);
    }
    ChildMergeAppends(ws, c, next, "");
    StepOfCallback(ws, ReturnsSql, not, or, c, next, table);
  }

  /** whereAny(columns, 'x'): each orWhere(c, 'x') compares with "=" and
      binds 'x', so the body runs as the explicit "=" form does. */
  lemma {:induction false} TwoArgumentBodies(columns: seq<string>, s: string, or: bool, c: Conds, next: nat, table: string)
    requires !IsOperator(s)
    ensures StepAll(ColumnCalls(columns, Some(s), Null, or), c, next, table)
         == StepAll(EachColumn(columns, "=", Str(s), or), c, next, table)
    decreases |columns|
  {
    var ws := ColumnCalls(columns, Some(s), Null, or);
    var vs := EachColumn(columns, "=", Str(s), or);
    if columns == [] {
      assert ws == [] && vs == [];
    } else {
      assert ws[0] == Basic(columns[0], Some(s), Null, false, or, true);
      assert vs[0] == Basic(columns[0], Some("="), Str(s), false, or, true);
      assert ws[1..] == ColumnCalls(columns[1..], Some(s), Null, or);
      assert vs[1..] == EachColumn(columns[1..], "=", Str(s), or);
      TwoArgumentsMeanEquals(columns[0], s, false, or, true, c, next, table);
      var r := Step(ws[0], c, next, table);
      if r.error.None? {
        TwoArgumentBodies(columns[1..], s, or, r.conds, r.next, table);
      }
    }
  }

  /** whereAny(columns, 'x') renders "( c1 = p1 OR c2 = p2 ... )" with 'x'
      bound once per column; whereAll joins with AND. */
  lemma WhereAnyAllTwoArguments(columns: seq<string>, s: string, any: bool, not: bool, or: bool, c: Conds, next: nat, table: string)
    requires |columns| > 0 && !IsOperator(s)
    requires UniqueKeys(c.bindings) && Below(c.bindings, next)
    ensures var sql := "( " + Join(if any then " OR " else " AND ", EachText(columns, "=", next)) + " )";
      Step(Group(ColumnCalls(columns, Some(s), Null, any), not, or), c, next, table)
      == Stepped(File(c.(bindings := c.bindings + EachBound(columns, Str(s), next)), or,
                      if not then "NOT " + sql else sql),
                 next + |columns|, None)
  {
    StepOfCallback(ColumnCalls(columns, Some(s), Null, any), ReturnsSql, not, or, c, next, table);
    StepOfCallback(EachColumn(columns, "=", Str(s), any), ReturnsSql, not, or, c, next, table);
    TwoArgumentBodies(columns, s, any, NoConds, next, "");
    assert IsOperator("=");
    WhereAnyAll(columns, "=", Str(s), any, not, or, c, next, table);
  }

  /** Without operator and value every column gets "IS NULL", with no draw. */
  lemma {:induction false} NullColumnsSteps(columns: seq<string>, or: bool, c: Conds, next: nat, table: string)
    ensures StepAll(ColumnCalls(columns, None, Null, or), c, next, table)
      == Stepped(if or then c.(ors := c.ors + NullTexts(columns)) else c.(ands := c.ands + NullTexts(columns)), next, None)
    decreases |columns|
  {
    var ws := ColumnCalls(columns, None, Null, or);
    if columns == [] {
      assert ws == [] && NullTexts(columns) == [];
      assert c.ors + [] == c.ors && c.ands + [] == c.ands;
    } else {
      var text := columns[0] + " IS NULL";
      var c1 := File(c, or, text);
      assert ws[0] == Basic(columns[0], None, Null, false, or, true);
      assert ws[1..] == ColumnCalls(columns[1..], None, Null, or);
      NullCases(columns[0], None, Null, false, or, true, c, next, table);
      assert Step(ws[0], c, next, table) == Stepped(c1, next, None);
      NullColumnsSteps(columns[1..], or, c1, next, table);
      assert NullTexts(columns) == [text] + NullTexts(columns[1..]);
      if or {
        assert c1.ors + NullTexts(columns[1..]) == c.ors + NullTexts(columns);
      } else {
        assert c1.ands + NullTexts(columns[1..]) == c.ands + NullTexts(columns);
      }
    }
  }

  /** whereAny(columns) with neither operator nor value renders
      "( c1 IS NULL OR c2 IS NULL ... )" and draws nothing. */
  lemma WhereAnyAllNull(columns: seq<string>, any: bool, not: bool, or: bool, c: Conds, next: nat, table: string)
    requires |columns| > 0
    ensures var sql := "( " + Join(if any then " OR " else " AND ", NullTexts(columns)) + " )";
      Step(Group(ColumnCalls(columns, None, Null, any), not, or), c, next, table)
      == Stepped(File(c, or, if not then "NOT " + sql else sql), next, None)
  {
    var ws := ColumnCalls(columns, None, Null, any);
    var s := StepAll(ws, NoConds, next, "");
    var t := NullTexts(columns);
    assert s == Stepped(Conds(if any then [] else t, if any then t else [], []), next, None) by {
      NullColumnsSteps(columns, any, NoConds, next, "");
      assert [] + t == t;
    }
    assert WhereClause(s.conds.ands, s.conds.ors, false) == Join(if any then " OR " else " AND ", t) by {
      WhereClauseShape(s.conds.ands, s.conds.ors, false);
    }
    assert Merge(c.bindings, s.conds.bindings) == c.bindings;
    StepOfCallback(ws, ReturnsSql, not, or, c, next, table);
  }

  /** The forms that throw: a known operator with a null value, an unknown
      one with a value, or a value without an operator. The first column's
      call throws before drawing, so nothing is filed and nothing drawn. */
  lemma WhereAnyAllThrows(columns: seq<string>, op: Option<string>, value: Value, any: bool, not: bool, or: bool, c: Conds, next: nat, table: string)
    requires |columns| > 0
    requires (op.None? && !value.Null?) || (op.Some? && (IsOperator(op.value) <==> value.Null?))
    ensures Step(Group(ColumnCalls(columns, op, value, any), not, or), c, next, table)
      == Stepped(c, next, Some(if op.Some? && !IsOperator(op.value) then UnknownOperator else NullComparison))
  {
    var ws := ColumnCalls(columns, op, value, any);
    assert ws[0] == Basic(columns[0], op, value, false, any, true);
    assert Step(ws[0], NoConds, next, "").error.Some?;
    StepOfCallback(ws, ReturnsSql, not, or, c, next, table);
  }

  /** A callback that adds no condition renders "(  )". */
  lemma EmptyGroup(not: bool, or: bool, c: Conds, next: nat, table: string)
    ensures Step(Group([], not, or), c, next, table)
      == Stepped(File(c, or, if not then "NOT (  )" else "(  )"), next, None)
  {
    assert Merge(c.bindings, []) == c.bindings;
    WhereClauseShape([], [], false);
    assert "( " + "" + " )" == "(  )";
    assert "NOT " + "(  )" == "NOT (  )";
  }

  // whereIn, whereBetween, whereExists

  /** whereIn(column, []) renders "column IN ()" and draws nothing. */
  lemma EmptyIn(column: string, not: bool, c: Conds, next: nat, table: string)
    ensures Step(In(column, [], not), c, next, table)
      == Stepped(File(c, false, column + (if not then " NOT" else "") + " IN ()"), next, None)
  {
    assert InEntries(next, column, []) == [];
    assert Merge(c.bindings, []) == c.bindings;
    var head := column + (if not then " NOT" else "");
    assert head + " IN (" + Join(", ", Keys(InEntries(next, column, []))) + ")" == head + " IN ()";
  }

  /** whereIn binds every value, in order, under the placeholders it lists. */
  lemma InBindsEveryValue(column: string, values: seq<Value>, not: bool, c: Conds, next: nat, table: string)
    requires UniqueKeys(c.bindings) && Below(c.bindings, next)
    ensures var r := Step(In(column, values, not), c, next, table);
      && r.next == next + |values|
      && r.conds.bindings == c.bindings + InEntries(next, column, values)
      && forall k :: 0 <= k < |values| ==> r.conds.bindings[|c.bindings| + k].1 == values[k]
  {
    var e := InEntries(next, column, values);
    assert Step(In(column, values, not), c, next, table) == StepIn(column, values, not, c, next);
    assert Merge(c.bindings, e) == c.bindings + e by {
      InEntriesFresh(next, column, values);
      MergeFresh(c.bindings, e, next, next + |values|);
    }
    var b := c.bindings + e;
    forall k | 0 <= k < |values| ensures b[|c.bindings| + k].1 == values[k] {
      assert b[|c.bindings| + k] == e[k];
    }
  }

  /** whereBetween binds both bounds under two draws; whereBetweenColumn
      interpolates both and draws nothing. */
  lemma BetweenBinding(column: string, low: Value, high: Value, not: bool, c: Conds, next: nat, table: string)
    requires UniqueKeys(c.bindings) && Below(c.bindings, next)
    ensures var p1, p2 := WherePlaceholder(next, column + "_1"), WherePlaceholder(next + 1, column + "_2");
      Step(Between(column, low, high, not, true), c, next, table)
      == Stepped(File(c.(bindings := c.bindings + [(p1, low), (p2, high)]), false,
                      column + (if not then " NOT" else "") + " BETWEEN " + p1 + " AND " + p2),
                 next + 2, None)
    ensures Step(Between(column, low, high, not, false), c, next, table)
      == Stepped(File(c, false, column + (if not then " NOT" else "") + " BETWEEN " + ValueText(low) + " AND " + ValueText(high)),
                 next, None)
  {
    var e := BetweenEntries(next, column, low, high);
    assert Merge(c.bindings, e) == c.bindings + e by {
      BetweenEntriesFresh(next, column, low, high);
      MergeFresh(c.bindings, e, next, next + 2);
    }
  }

  /** A literal EXISTS files the literal itself and then the EXISTS condition
      around it, on the same list; when negated, the literal is negated first
      and the EXISTS wraps the negated literal:
      "NOT (s)" and "NOT EXISTS (NOT (s))". */
  lemma ExistsTextFilesTwice(sql: string, not: bool, or: bool, c: Conds, next: nat, table: string)
    ensures var r := Step(ExistsText(sql, not, or), c, next, table);
      var fragments := if not then ["NOT (" + sql + ")", "NOT EXISTS (NOT (" + sql + "))"]
                       else [sql, "EXISTS (" + sql + ")"];
      && r.error.None? && r.next == next && r.conds.bindings == c.bindings
      && (if or then r.conds.ors == c.ors + fragments && r.conds.ands == c.ands
          else r.conds.ands == c.ands + fragments && r.conds.ors == c.ors)
  {
    var literal := "NOT (" + sql + ")";
    assert "NOT " + "EXISTS (" + literal + ")" == "NOT EXISTS (NOT (" + sql + "))";
    assert "" + "EXISTS (" + sql + ")" == "EXISTS (" + sql + ")";
  }

  /** A callback that returns no string throws after its calls ran: the
      conditions are untouched but the tokens it drew are spent. */
  lemma ExistsNeedsString(body: seq<Where>, not: bool, or: bool, c: Conds, next: nat, table: string)
    ensures var r := Step(ExistsQuery(body, ReturnsNonString, not, or), c, next, table);
      && r.conds == c && r.error.Some?
      && r.next == StepAll(body, NoConds, next, table).next
  {
  }

  lemma SubqueryText(table: string, child: Conds)
    ensures SubquerySql(table, child) == "SELECT 1 FROM " + table + " " + WhereClause(child.ands, child.ors, true)
  {
    var q := EmptyQuery(table).(selects := ["1"], ands := child.ands, ors := child.ors);
    SelectShape(q);
    SelectBaseText(q);
    assert Join(", ", ["1"]) == "1";
    assert SelectTail(q) == [];
    var w := WhereClause(child.ands, child.ors, true);
    assert "SELECT " + "" + "1" + " FROM " + table + " " + w + "" == "SELECT 1 FROM " + table + " " + w;
  }

  /** A subquery callback renders EXISTS (SELECT 1 FROM <parent's table> ...)
      with its own conditions, and its bindings join the parent's. */
  lemma ExistsSubquery(body: seq<Where>, not: bool, or: bool, c: Conds, next: nat, table: string)
    requires UniqueKeys(c.bindings) && Below(c.bindings, next)
    requires StepAll(body, NoConds, next, table).error.None?
    ensures var s := StepAll(body, NoConds, next, table);
      Step(ExistsQuery(body, ReturnsSql, not, or), c, next, table)
      == Stepped(File(c.(bindings := c.bindings + s.conds.bindings), or,
                      ExistsFragment(not, "SELECT 1 FROM " + table + " " + WhereClause(s.conds.ands, s.conds.ors, true))),
                 s.next, None)
  {
    var s := StepAll(body, NoConds, next, table);
    StepOfCallback(body, ReturnsSql, not, or, c, next, table);
    ChildMergeAppends(body, c, next, table);
    SubqueryText(table, s.conds);
  }

  /** A callback call runs its body on a new builder, then files the result. */
  lemma StepOfCallback(body: seq<Where>, returned: Returned, not: bool, or: bool, c: Conds, next: nat, table: string)
    ensures Step(Group(body, not, or), c, next, table) == StepGroup(StepAll(body, NoConds, next, ""), not, or, c)
    ensures Step(ExistsQuery(body, returned, not, or), c, next, table)
      == StepExists(StepAll(body, NoConds, next, table), returned, not, or, c, table)
  {
  }

  /** A callback where files exactly one fragment: the new builder's
      conditions without the WHERE keyword, in "( ... )", "NOT " before it
      when negated, on the AND or the OR list, and the new builder's
      bindings follow the parent's. When a call in the callback throws,
      nothing is filed. */
  lemma GroupFiles(body: seq<Where>, not: bool, or: bool, c: Conds, next: nat, table: string)
    requires UniqueKeys(c.bindings) && Below(c.bindings, next)
    ensures var s := StepAll(body, NoConds, next, "");
      var sql := "( " + WhereClause(s.conds.ands, s.conds.ors, false) + " )";
      Step(Group(body, not, or), c, next, table)
      == if s.error.Some? then Stepped(c, s.next, s.error)
         else Stepped(File(c.(bindings := c.bindings + s.conds.bindings), or, if not then "NOT " + sql else sql), s.next, None)
  {
    StepOfCallback(body, ReturnsSql, not, or, c, next, table);
    ChildMergeAppends(body, c, next, "");
  }

  /** What a callback binds on its new builder is fresh, so merging it into
      the parent appends it. */
  lemma ChildMergeAppends(body: seq<Where>, c: Conds, next: nat, table: string)
    requires UniqueKeys(c.bindings) && Below(c.bindings, next)
    ensures var b := StepAll(body, NoConds, next, table).conds.bindings;
      Merge(c.bindings, b) == c.bindings + b
  {
    var s := StepAll(body, NoConds, next, table);
    GrowsNothing([], next, next);
    StepAllFresh(body, NoConds, next, table);
    assert s.conds.bindings[0..] == s.conds.bindings;
    MergeFresh(c.bindings, s.conds.bindings, next, s.next);
  }
}
