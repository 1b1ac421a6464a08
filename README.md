# A verified model of a fluent MySQL query builder

This project models the query builder of a small PHP MVC framework and proves properties of the model in Dafny. The builder is one object:

- its setters collect a table, columns, conditions, grouping, ordering, limits and statement data;
- its fetch and write methods render these to one SQL string;
- they hand the bound values to a prepared statement and then clear them.

Two drafts of the builder exist, and both are modelled:

- the later draft, `app/Core/QueryBuilders/MysqlQueryBuilder.php`, in full;
- the earlier draft, `app/Core/MysqlQueryBuilder.php`, only where it behaves differently: its where-family calls (whereExists included), getOperator, count, all, buildUpdate, buildInsertColumns and buildSql. Its select and get are modelled too, because an EXISTS callback uses them.

The framework's pure helpers in `app/Core/Utils/helpers.php` are modelled too: findNested, the line parser of env, and base_path.

Modules, one per file:

| file | module | what it holds |
|---|---|---|
| wrappers.dfy | Wrappers | `Option` for PHP's null, `Result` for a thrown exception |
| text.dfy | Text | implode, explode, decimal digits, ASCII case mapping, trim, one-character str_replace |
| dictionary.dfy | Dictionary | PHP arrays with string keys (ordered entries); assignment and array_merge |
| placeholders.dfy | Placeholders | the placeholder names; the token supply, a class with a counter |
| sql.dfy | Sql | values, errors, the operator table, and the renderers of WHERE, SELECT, INSERT and UPDATE as functions |
| conditions.dfy | Conditions | the reference semantics of every where-family call of the later draft, with their lemmas |
| query_builder.dfy | QueryBuilder | class `Builder`: the later draft, with fields updated in place |
| early_query_builder.dfy | EarlyQueryBuilder | the earlier draft's semantics and class `EarlyBuilder` |
| helpers.dfy | Helpers | findNested, env and base_path |

How the model is specified:

- **Where-family methods.** Each is proved against `Conditions.Step` through the two-state predicate `Performed`. The new AND list, OR list, bindings and token counter are exactly what `Step` computes from the old ones, and the exception is the one `Step` predicts.
- **Properties of `Step`.** These are lemmas:
  - every call appends only fresh, distinct placeholders (`StepFresh`);
  - where each fragment is filed;
  - the operator and null rules;
  - the shapes of IN, BETWEEN, EXISTS and callback groups.
- **Rendering methods.** Each is proved against a rendering function of `Sql`, and lemmas state the shapes of those functions.

A callback (`function ($query) {...}`) is modelled as the sequence of where-family calls it makes on the fresh builder it receives. `Builder.RunCallback` runs them on that builder, which shares the parent's token supply.

## Model

| member | source | states |
|---|---|---|
| Placeholders.Supply.Fresh | app/Core/QueryBuilders/MysqlQueryBuilder.php:852-856 | each draw yields the token of the current count and advances the count by one |
| Placeholders.WhereTokenOfPlaceholder | app/Core/QueryBuilders/MysqlQueryBuilder.php:160-169 | the draw that made a WHERE placeholder can be read back from it, whatever the column |
| Placeholders.PlaceholdersDistinct | app/Core/QueryBuilders/MysqlQueryBuilder.php:160-169 | placeholders from distinct draws are distinct, whatever their columns |
| Placeholders.OtherBindersAreNotWhereKeys | app/Core/QueryBuilders/MysqlQueryBuilder.php:629-637 | no `:value_` or `:update_` key of an INSERT is ever read as a WHERE placeholder |
| Sql.ResolveOperator | app/Core/QueryBuilders/MysqlQueryBuilder.php:858-876 | getOperator yields one of the nine SQL operators (=, !=, >, >=, <, <=, LIKE, IS, IS NOT), or "" (false) for an unknown one or for null |
| Sql.OperatorCaseInsensitive | app/Core/QueryBuilders/MysqlQueryBuilder.php:858-876 | upper- or lower-casing the operator does not change what it resolves to |
| Sql.WhereClauseShape | app/Core/QueryBuilders/MysqlQueryBuilder.php:796-814 | no conditions give ""; otherwise an optional "WHERE ", the ANDs joined by " AND ", " OR " before the ORs only when both lists are non-empty, and the ORs joined by " OR " |
| Sql.SelectBaseText | app/Core/QueryBuilders/MysqlQueryBuilder.php:490-499 | the base is "SELECT [DISTINCT ]" + the columns joined by ", " (or "*" when there are none) + " FROM " + the table |
| Sql.SelectShape | app/Core/QueryBuilders/MysqlQueryBuilder.php:478-488 | a SELECT is its base, a space, the WHERE clause, then GROUP BY, ORDER BY, LIMIT and OFFSET, each present only when set |
| Sql.SelectWithOneCondition | app/Core/QueryBuilders/MysqlQueryBuilder.php:478-488 | one AND condition on a fresh builder renders "SELECT * FROM t WHERE <condition>" |
| Sql.SelectWithoutConditions | app/Core/QueryBuilders/MysqlQueryBuilder.php:478-488 | with no condition and no modifiers, the base is followed by a lone trailing space |
| Sql.RowBlockDraftsAgree | app/Core/MysqlQueryBuilder.php:462-465 | one row rendered by both drafts leaves the same binding table and the same parts, except that the later column list is the earlier one re-padded inside its parentheses |
| Sql.InsertDraftsAgree | app/Core/MysqlQueryBuilder.php:477-496 | the whole INSERT of both drafts over the same rows has the same bindings and as many parts, each either equal or the re-padded column list |
| Sql.RowValuesListEarlierKeys | app/Core/QueryBuilders/MysqlQueryBuilder.php:629-637 | a row's VALUES list holds every earlier binding key in place, followed by the row's own placeholders |
| Sql.RowBlockExtends | app/Core/QueryBuilders/MysqlQueryBuilder.php:639-658 | a row's statement keeps the binding table it started from at its front and adds all of the row's value placeholders |
| Sql.InsertKeepsEarlierRows | app/Core/QueryBuilders/MysqlQueryBuilder.php:639-658 | after k rows the binding table still starts with its original keys and holds the placeholders of every row so far, so later rows' VALUES lists repeat the earlier rows' placeholders |
| Sql.ValueEntriesUnique | app/Core/QueryBuilders/MysqlQueryBuilder.php:629-637 | a row with distinct columns gets distinct `:value_<i>_<column>` keys, one per column, in order |
| Sql.InsertBaseText | app/Core/QueryBuilders/MysqlQueryBuilder.php:613-622 | the head is "INSERT INTO t", or "INSERT IGNORE INTO t" |
| Sql.SingleRowInsert | app/Core/QueryBuilders/MysqlQueryBuilder.php:639-658 | one row on a fresh builder renders base, columns, "VALUES (...)" and " ;", and binds exactly the row's value entries |
| Sql.UpdateShape | app/Core/QueryBuilders/MysqlQueryBuilder.php:739-759 | an update with data, conditions, no join and no limit is "UPDATE t SET ... WHERE <conditions>" |
| Sql.SingleSetClause | app/Core/QueryBuilders/MysqlQueryBuilder.php:728-737 | one update entry renders as "SET c = " followed by the value as PHP interpolates it: nothing for false and null, 1 for true |
| Conditions.StepFresh | app/Core/QueryBuilders/MysqlQueryBuilder.php:74-114 | every where-family call, nested callbacks included, keeps the bindings and appends only distinct placeholders drawn during the call; the counter never goes back |
| Conditions.StepAllFresh | app/Core/QueryBuilders/MysqlQueryBuilder.php:82-98 | the same holds for the calls of a callback, in order |
| Conditions.StepKeepsBelow | app/Core/QueryBuilders/MysqlQueryBuilder.php:74-114 | after a call the binding keys are still unique and all drawn before the new counter |
| Conditions.StepFiles | app/Core/QueryBuilders/MysqlQueryBuilder.php:74-114 | a successful call appends one fragment to the AND list or to the OR list (two for a literal EXISTS) and leaves the other list alone; a failed call changes no condition |
| Conditions.TwoArgumentsMeanEquals | app/Core/QueryBuilders/MysqlQueryBuilder.php:137-147 | where(c, x) with x not an operator renders "c = <placeholder>" and binds x |
| Conditions.ExplicitOperator | app/Core/QueryBuilders/MysqlQueryBuilder.php:149-158 | a known operator with a value is rendered as written, and the value is bound under a new placeholder appended to the bindings |
| Conditions.ColumnComparison | app/Core/QueryBuilders/MysqlQueryBuilder.php:171-175 | whereColumn(a, b) renders "a = b", binds nothing and still spends one token |
| Conditions.NullCases | app/Core/QueryBuilders/MysqlQueryBuilder.php:117-135 | no operator and no value gives "c IS NULL" with no draw; no operator with a value throws; a known operator with a null value throws |
| Conditions.UnknownOperatorThrows | app/Core/QueryBuilders/MysqlQueryBuilder.php:149-158 | an unknown operator with a value throws and changes nothing |
| Conditions.EachColumnSteps | app/Core/QueryBuilders/MysqlQueryBuilder.php:183-191 | the callback of whereAny compares each column in turn, each with its own draw |
| Conditions.WhereAnyAll | app/Core/QueryBuilders/MysqlQueryBuilder.php:183-261 | with a known operator and a non-null value, whereAny / whereAll and their NOT and OR forms file "( c1 op p1 OR/AND c2 op p2 ... )" and bind the value once per column, each with its own draw |
| Conditions.TwoArgumentBodies | app/Core/QueryBuilders/MysqlQueryBuilder.php:137-147 | inside the callback, orWhere(c, x) / where(c, x) with x not an operator step exactly like comparing every column with "=" and the value x |
| Conditions.WhereAnyAllTwoArguments | app/Core/QueryBuilders/MysqlQueryBuilder.php:183-261 | the two-argument form whereAny(columns, x) with x not an operator files "( c1 = p1 OR/AND ... )" and binds x once per column |
| Conditions.NullColumnsSteps | app/Core/QueryBuilders/MysqlQueryBuilder.php:117-134 | a callback comparing every column with no operator and no value appends "c IS NULL" for each column, binds nothing and draws nothing |
| Conditions.WhereAnyAllNull | app/Core/QueryBuilders/MysqlQueryBuilder.php:183-261 | whereAny(columns) with neither operator nor value files "( c1 IS NULL OR/AND ... )" and binds nothing |
| Conditions.WhereAnyAllThrows | app/Core/QueryBuilders/MysqlQueryBuilder.php:117-158 | a value without an operator, or a known operator with a null value, throws "use null-related methods"; an unknown operator with a value throws "Operator doesn't exist"; the conditions and the placeholder counter are left as they were |
| Conditions.GroupFiles | app/Core/QueryBuilders/MysqlQueryBuilder.php:82-98 | any callback body runs on an empty builder: its error is passed on, otherwise "( <its WHERE clause> )" (with "NOT " when negated) is filed and its bindings appended after the outer ones |
| Conditions.EmptyGroup | app/Core/QueryBuilders/MysqlQueryBuilder.php:82-98 | a callback that adds nothing files "(  )" |
| Conditions.EmptyIn | app/Core/QueryBuilders/MysqlQueryBuilder.php:299-311 | whereIn(c, []) files "c IN ()" and draws nothing |
| Conditions.InBindsEveryValue | app/Core/QueryBuilders/MysqlQueryBuilder.php:299-311 | whereIn draws one token per value and binds every value, in order, under the placeholders it lists |
| Conditions.BetweenBinding | app/Core/QueryBuilders/MysqlQueryBuilder.php:341-360 | whereBetween binds both bounds under `_1` / `_2` placeholders; the column form renders the bounds raw and binds nothing |
| Conditions.ExistsTextFilesTwice | app/Core/QueryBuilders/MysqlQueryBuilder.php:398-431 | a literal EXISTS files the literal itself, then "EXISTS (<literal>)", each negated when asked |
| Conditions.ExistsNeedsString | app/Core/QueryBuilders/MysqlQueryBuilder.php:398-407 | a callback that returns no string throws after its calls have run |
| Conditions.SubqueryText | app/Core/QueryBuilders/MysqlQueryBuilder.php:401-402 | the subquery a callback receives renders "SELECT 1 FROM <parent table> <WHERE clause>" |
| Conditions.ExistsSubquery | app/Core/QueryBuilders/MysqlQueryBuilder.php:398-431 | a subquery callback files "EXISTS (SELECT 1 FROM ...)" and merges the subquery's bindings into the parent's |
| QueryBuilder.Builder.constructor | app/Core/QueryBuilders/MysqlQueryBuilder.php:51-54 | a new builder has every collection empty, limit and offset unset, action "select" and the given supply |
| QueryBuilder.Builder.Table | app/Core/QueryBuilders/MysqlQueryBuilder.php:56-60 | sets the table and nothing else |
| QueryBuilder.Builder.Select | app/Core/QueryBuilders/MysqlQueryBuilder.php:442-446 | sets the selected columns |
| QueryBuilder.Builder.GroupBy | app/Core/QueryBuilders/MysqlQueryBuilder.php:448-452 | an array is kept; a string is exploded at ", " and implodes back to itself |
| QueryBuilder.Builder.OrderBy | app/Core/QueryBuilders/MysqlQueryBuilder.php:454-458 | sets the column => direction list |
| QueryBuilder.Builder.Limit | app/Core/QueryBuilders/MysqlQueryBuilder.php:460-464 | sets the limit |
| QueryBuilder.Builder.Offset | app/Core/QueryBuilders/MysqlQueryBuilder.php:466-470 | sets the offset |
| QueryBuilder.Builder.Unique | app/Core/QueryBuilders/MysqlQueryBuilder.php:472-476 | the selection becomes "DISTINCT <column>" alone |
| QueryBuilder.Builder.ToSql | app/Core/QueryBuilders/MysqlQueryBuilder.php:433-437 | sets the toSql mode |
| QueryBuilder.Builder.InsertIgnore | app/Core/QueryBuilders/MysqlQueryBuilder.php:579-583 | turns on INSERT IGNORE |
| QueryBuilder.Builder.OnDuplicateKeyUpdate | app/Core/QueryBuilders/MysqlQueryBuilder.php:585-589 | stores the per-row upsert data |
| QueryBuilder.Builder.JoinOn | app/Core/QueryBuilders/MysqlQueryBuilder.php:701-710 | stores the one join of an UPDATE |
| QueryBuilder.Builder.SetAction | app/Core/QueryBuilders/MysqlQueryBuilder.php:790-794 | sets the action |
| QueryBuilder.Builder.RandomPlaceholder | app/Core/QueryBuilders/MysqlQueryBuilder.php:852-856 | returns the next token of the shared supply |
| QueryBuilder.Builder.HandleWherePlaceholder | app/Core/QueryBuilders/MysqlQueryBuilder.php:160-169 | draws a token; when binding, binds the value under the new placeholder and returns the placeholder, otherwise returns the value's text |
| QueryBuilder.Builder.AddOperatorConditionToWhere | app/Core/QueryBuilders/MysqlQueryBuilder.php:137-147 | an unknown "operator" becomes the value compared with "="; a known operator throws |
| QueryBuilder.Builder.AddValueConditionToWhere | app/Core/QueryBuilders/MysqlQueryBuilder.php:149-158 | a known operator is followed by the placeholder; an unknown one throws |
| QueryBuilder.Builder.HandleWhereConditions | app/Core/QueryBuilders/MysqlQueryBuilder.php:117-130 | the condition text, bindings and counter are exactly `HandleWhere`'s, including the null-value exception |
| QueryBuilder.Builder.ProcessWhere | app/Core/QueryBuilders/MysqlQueryBuilder.php:74-114 | performs `Step` for a column or a callback, negated and OR-filed as asked |
| QueryBuilder.Builder.RunCallback | app/Core/QueryBuilders/MysqlQueryBuilder.php:82-84 | the callback's calls, run in order on the fresh builder, leave exactly what `StepAll` computes |
| QueryBuilder.Builder.Apply | app/Core/QueryBuilders/MysqlQueryBuilder.php:74-114 | any one where-family call made inside a callback performs its `Step` |
| QueryBuilder.Builder.ProcessWhereIn | app/Core/QueryBuilders/MysqlQueryBuilder.php:299-311 | performs the IN step; it never throws |
| QueryBuilder.Builder.ProcessWhereBetween | app/Core/QueryBuilders/MysqlQueryBuilder.php:341-360 | performs the BETWEEN step, bound or raw |
| QueryBuilder.Builder.ProcessWhereExists | app/Core/QueryBuilders/MysqlQueryBuilder.php:398-431 | performs the EXISTS step for a literal or a subquery callback |
| QueryBuilder.Builder.RunSubquery | app/Core/QueryBuilders/MysqlQueryBuilder.php:400-408 | the subquery returns its own SQL and bindings, or throws when the callback returned no string |
| QueryBuilder.Builder.Where | app/Core/QueryBuilders/MysqlQueryBuilder.php:62-66 | performs a plain AND step; a valid binding table stays valid |
| QueryBuilder.Builder.WhereNot | app/Core/QueryBuilders/MysqlQueryBuilder.php:68-72 | performs the negated AND step |
| QueryBuilder.Builder.OrWhere | app/Core/QueryBuilders/MysqlQueryBuilder.php:362-366 | performs the OR step |
| QueryBuilder.Builder.OrWhereNot | app/Core/QueryBuilders/MysqlQueryBuilder.php:368-372 | performs the negated OR step |
| QueryBuilder.Builder.WhereColumn | app/Core/QueryBuilders/MysqlQueryBuilder.php:171-175 | performs an unbound step; the bindings are unchanged |
| QueryBuilder.Builder.OrWhereColumn | app/Core/QueryBuilders/MysqlQueryBuilder.php:177-181 | performs the unbound OR step; the bindings are unchanged |
| QueryBuilder.Builder.WhereAny | app/Core/QueryBuilders/MysqlQueryBuilder.php:183-191 | performs a group of per-column OR comparisons |
| QueryBuilder.Builder.WhereNotAny | app/Core/QueryBuilders/MysqlQueryBuilder.php:193-201 | the same group, negated |
| QueryBuilder.Builder.OrWhereAny | app/Core/QueryBuilders/MysqlQueryBuilder.php:203-211 | the same group, filed under OR |
| QueryBuilder.Builder.OrWhereNotAny | app/Core/QueryBuilders/MysqlQueryBuilder.php:213-221 | the same group, negated and filed under OR |
| QueryBuilder.Builder.WhereAll | app/Core/QueryBuilders/MysqlQueryBuilder.php:223-231 | performs a group of per-column AND comparisons |
| QueryBuilder.Builder.WhereNone | app/Core/QueryBuilders/MysqlQueryBuilder.php:233-241 | the AND group, negated |
| QueryBuilder.Builder.OrWhereAll | app/Core/QueryBuilders/MysqlQueryBuilder.php:243-251 | the AND group, filed under OR |
| QueryBuilder.Builder.OrWhereNone | app/Core/QueryBuilders/MysqlQueryBuilder.php:253-261 | the AND group, negated and filed under OR |
| QueryBuilder.Builder.WhereNull | app/Core/QueryBuilders/MysqlQueryBuilder.php:263-267 | appends "c IS NULL" to the ANDs; bindings and counter are unchanged |
| QueryBuilder.Builder.OrWhereNull | app/Core/QueryBuilders/MysqlQueryBuilder.php:269-273 | appends "c IS NULL" to the ORs |
| QueryBuilder.Builder.WhereNotNull | app/Core/QueryBuilders/MysqlQueryBuilder.php:275-279 | appends "NOT (c IS NULL)" to the ANDs |
| QueryBuilder.Builder.OrWhereNotNull | app/Core/QueryBuilders/MysqlQueryBuilder.php:281-285 | appends "NOT (c IS NULL)" to the ORs |
| QueryBuilder.Builder.WhereIn | app/Core/QueryBuilders/MysqlQueryBuilder.php:287-291 | performs the IN step |
| QueryBuilder.Builder.WhereNotIn | app/Core/QueryBuilders/MysqlQueryBuilder.php:293-297 | performs the NOT IN step |
| QueryBuilder.Builder.WhereBetween | app/Core/QueryBuilders/MysqlQueryBuilder.php:313-318 | performs the bound BETWEEN step on two integers |
| QueryBuilder.Builder.WhereNotBetween | app/Core/QueryBuilders/MysqlQueryBuilder.php:320-325 | performs the negated bound BETWEEN step |
| QueryBuilder.Builder.WhereBetweenColumn | app/Core/QueryBuilders/MysqlQueryBuilder.php:327-332 | performs the raw BETWEEN step on two column names |
| QueryBuilder.Builder.WhereNotBetweenColumn | app/Core/QueryBuilders/MysqlQueryBuilder.php:334-339 | performs the negated raw BETWEEN step |
| QueryBuilder.Builder.WhereExists | app/Core/QueryBuilders/MysqlQueryBuilder.php:392-396 | performs the AND EXISTS step |
| QueryBuilder.Builder.WhereNotExists | app/Core/QueryBuilders/MysqlQueryBuilder.php:386-390 | performs the negated AND EXISTS step |
| QueryBuilder.Builder.OrWhereExists | app/Core/QueryBuilders/MysqlQueryBuilder.php:374-378 | performs the OR EXISTS step |
| QueryBuilder.Builder.OrWhereNotExists | app/Core/QueryBuilders/MysqlQueryBuilder.php:380-384 | performs the negated OR EXISTS step |
| QueryBuilder.Builder.BuildOrderBy | app/Core/QueryBuilders/MysqlQueryBuilder.php:816-826 | the loop yields "Order BY c1 DIR1,c2 DIR2,..." with upper-cased directions, or nothing |
| QueryBuilder.Builder.BuildSelect | app/Core/QueryBuilders/MysqlQueryBuilder.php:478-488 | the parts join to `SelectSql` of the builder's fields |
| QueryBuilder.Builder.BuildInsertValues | app/Core/QueryBuilders/MysqlQueryBuilder.php:629-637 | binds the row's value entries over the current table and lists every key of the resulting table |
| QueryBuilder.Builder.BuildOnDuplicateKeyUpdate | app/Core/QueryBuilders/MysqlQueryBuilder.php:660-672 | for non-empty upsert data of the row, renders the clause and binds its `:update_` entries; otherwise nothing |
| QueryBuilder.Builder.BuildInsert | app/Core/QueryBuilders/MysqlQueryBuilder.php:639-658 | the loop's parts and bindings are `InsertUpTo` over all rows |
| QueryBuilder.Builder.BuildInsertRow | app/Core/QueryBuilders/MysqlQueryBuilder.php:641-656 | one iteration of the row loop renders and binds exactly `RowBlock` |
| QueryBuilder.Builder.BuildSet | app/Core/QueryBuilders/MysqlQueryBuilder.php:728-737 | the loop yields "SET c1 = v1, c2 = v2, ..." with the values interpolated |
| QueryBuilder.Builder.BuildUpdate | app/Core/QueryBuilders/MysqlQueryBuilder.php:739-759 | throws exactly when there is no update data; otherwise the parts join to `UpdateSql` |
| QueryBuilder.Builder.BuildSql | app/Core/QueryBuilders/MysqlQueryBuilder.php:768-788 | dispatches on the action to the SELECT, INSERT or UPDATE rendering, and gives "" for any other action |
| QueryBuilder.Builder.Bind | app/Core/QueryBuilders/MysqlQueryBuilder.php:844-850 | hands every binding to the statement, in order, then clears the table |
| QueryBuilder.Builder.Get | app/Core/QueryBuilders/MysqlQueryBuilder.php:515-527 | toSql mode returns the SELECT and keeps the bindings; otherwise the SELECT is prepared with all bindings, which are then cleared |
| QueryBuilder.Builder.First | app/Core/QueryBuilders/MysqlQueryBuilder.php:529-542 | as get, with the limit set to 1 first |
| QueryBuilder.Builder.All | app/Core/QueryBuilders/MysqlQueryBuilder.php:544-555 | renders the SELECT and queries it unbound; in toSql mode returning the SQL text violates the declared false|array return type, a TypeError; the bindings stay either way |
| QueryBuilder.Builder.Count | app/Core/QueryBuilders/MysqlQueryBuilder.php:557-571 | the selection becomes "COUNT(*) AS count", then as get |
| QueryBuilder.Builder.Insert | app/Core/QueryBuilders/MysqlQueryBuilder.php:591-606 | the rows accumulate; the statement of all rows is always prepared with its bindings, which are then cleared |
| QueryBuilder.Builder.Update | app/Core/QueryBuilders/MysqlQueryBuilder.php:679-699 | the data is merged with array_merge semantics; the UPDATE is returned, prepared, or its exception passed on |
| EarlyQueryBuilder.EarlyOperator | app/Core/MysqlQueryBuilder.php:123-135 | the case-sensitive table: a match exactly for the thirteen spellings listed, which name seven operators (=, !=, >, >=, <, <=, LIKE), "" (false) otherwise |
| EarlyQueryBuilder.EarlyOperatorSubsumed | app/Core/MysqlQueryBuilder.php:123-135 | every early spelling resolves alike in the later table, which also knows "is", "is not" and upper case |
| EarlyQueryBuilder.EarlyWhereAlwaysBinds | app/Core/MysqlQueryBuilder.php:96-119 | a plain condition with an operator always appends exactly one fresh binding: the value for a known operator, the operator text otherwise |
| EarlyQueryBuilder.EarlyMissingOperatorThrows | app/Core/MysqlQueryBuilder.php:96-100 | where(c) without an operator is a TypeError that spends a token and files nothing; the later draft renders "c IS NULL" |
| EarlyQueryBuilder.DraftsDisagreeOnNullValue | app/Core/MysqlQueryBuilder.php:96-119 | where(c, op, null) binds null in the earlier draft; the later draft throws |
| EarlyQueryBuilder.EarlyGroupUnparenthesized | app/Core/MysqlQueryBuilder.php:79-95 | a callback's clause is filed bare, or as "NOT (...)"; the later draft wraps it in "( ... )" |
| EarlyQueryBuilder.EarlyEmptyGroup | app/Core/MysqlQueryBuilder.php:79-95 | an empty callback files the empty string |
| EarlyQueryBuilder.EarlyInAndBetweenAgree | app/Core/MysqlQueryBuilder.php:149-191 | whereIn and whereBetween behave as in the later draft |
| EarlyQueryBuilder.EExistsOf | app/Core/MysqlQueryBuilder.php:205-226 | the four whereExists entry points all reach processWhereExists, with their own NOT and OR flags |
| EarlyQueryBuilder.DraftsDisagreeOnSubquery | app/Core/MysqlQueryBuilder.php:228-261 | a literal EXISTS is filed as in the later draft; a callback that renders its own subquery always fails, because its builder has no table, while the later draft renders it |
| EarlyQueryBuilder.EarlyStepFresh | app/Core/MysqlQueryBuilder.php:77-121 | every call of the earlier draft appends only fresh, distinct placeholders |
| EarlyQueryBuilder.EarlyStepAllFresh | app/Core/MysqlQueryBuilder.php:79-81 | the same holds for a callback's calls in order |
| EarlyQueryBuilder.CountQueryText | app/Core/QueryBuilders/MysqlQueryBuilder.php:557-571 | the later count renders "SELECT COUNT(*) AS count FROM t " + the full WHERE clause |
| EarlyQueryBuilder.DraftsAgreeOnCount | app/Core/MysqlQueryBuilder.php:332-342 | with AND conditions only, both drafts' COUNT statements are equal |
| EarlyQueryBuilder.EarlyCountIgnoresOr | app/Core/MysqlQueryBuilder.php:334-337 | the early count drops the OR conditions that the later one keeps |
| EarlyQueryBuilder.EarlyUpdateOmitsWhereKeyword | app/Core/MysqlQueryBuilder.php:577-594 | the early UPDATE throws without data, as the later one does; with data it puts the conditions after SET with no WHERE keyword |
| EarlyQueryBuilder.EarlyUpdateTrailingSpace | app/Core/MysqlQueryBuilder.php:577-594 | without a limit, the early UPDATE ends in a space |
| EarlyQueryBuilder.EarlyBuilder.constructor | app/Core/MysqlQueryBuilder.php:54-57 | a new builder has no table and empty collections |
| EarlyQueryBuilder.EarlyBuilder.Table | app/Core/MysqlQueryBuilder.php:59-63 | initializes the table |
| EarlyQueryBuilder.EarlyBuilder.Limit | app/Core/MysqlQueryBuilder.php:362-366 | sets the limit |
| EarlyQueryBuilder.EarlyBuilder.ToSql | app/Core/MysqlQueryBuilder.php:263-267 | sets the toSql mode |
| EarlyQueryBuilder.EarlyBuilder.JoinOn | app/Core/MysqlQueryBuilder.php:539-548 | stores the join |
| EarlyQueryBuilder.EarlyBuilder.Select | app/Core/MysqlQueryBuilder.php:344-348 | sets the select list |
| EarlyQueryBuilder.EarlyBuilder.SetAction | app/Core/MysqlQueryBuilder.php:603-607 | sets the action |
| EarlyQueryBuilder.EarlyBuilder.ProcessWhere | app/Core/MysqlQueryBuilder.php:77-121 | performs `EarlyStep` for a column or a callback |
| EarlyQueryBuilder.EarlyBuilder.ProcessWhereExists | app/Core/MysqlQueryBuilder.php:228-261 | performs `EarlyStep` for a literal or a callback EXISTS |
| EarlyQueryBuilder.EarlyBuilder.RunSubquery | app/Core/MysqlQueryBuilder.php:230-240 | the callback runs on a fresh builder with no table: its own error first, then NotAString, then UninitializedTable when it renders itself, else the returned text and the child's bindings |
| EarlyQueryBuilder.EarlyBuilder.RunCallback | app/Core/MysqlQueryBuilder.php:80-81 | the callback's calls leave exactly what `EarlyStepAll` computes |
| EarlyQueryBuilder.EarlyBuilder.Apply | app/Core/MysqlQueryBuilder.php:77-121 | any one call made inside a callback performs its `EarlyStep` |
| EarlyQueryBuilder.EarlyBuilder.ProcessWhereIn | app/Core/MysqlQueryBuilder.php:149-161 | performs the IN step |
| EarlyQueryBuilder.EarlyBuilder.ProcessWhereBetween | app/Core/MysqlQueryBuilder.php:177-191 | performs the bound BETWEEN step |
| EarlyQueryBuilder.EarlyBuilder.Where | app/Core/MysqlQueryBuilder.php:65-69 | performs a plain AND step; a valid binding table stays valid |
| EarlyQueryBuilder.EarlyBuilder.WhereGroup | app/Core/MysqlQueryBuilder.php:65-69 | performs a callback AND step; a valid binding table stays valid |
| EarlyQueryBuilder.EarlyBuilder.WhereNotGroup | app/Core/MysqlQueryBuilder.php:71-75 | performs the negated callback AND step, "NOT (<clause>)"; a valid binding table stays valid |
| EarlyQueryBuilder.EarlyBuilder.OrWhereGroup | app/Core/MysqlQueryBuilder.php:193-197 | performs the callback OR step; a valid binding table stays valid |
| EarlyQueryBuilder.EarlyBuilder.OrWhereNotGroup | app/Core/MysqlQueryBuilder.php:199-203 | performs the negated callback OR step; a valid binding table stays valid |
| EarlyQueryBuilder.EarlyBuilder.WhereNot | app/Core/MysqlQueryBuilder.php:71-75 | performs the negated AND step |
| EarlyQueryBuilder.EarlyBuilder.OrWhere | app/Core/MysqlQueryBuilder.php:193-197 | performs the OR step |
| EarlyQueryBuilder.EarlyBuilder.OrWhereNot | app/Core/MysqlQueryBuilder.php:199-203 | performs the negated OR step |
| EarlyQueryBuilder.EarlyBuilder.WhereExists | app/Core/MysqlQueryBuilder.php:222-226 | performs the EXISTS AND step; a valid binding table stays valid |
| EarlyQueryBuilder.EarlyBuilder.WhereNotExists | app/Core/MysqlQueryBuilder.php:217-221 | performs the NOT EXISTS AND step; a valid binding table stays valid |
| EarlyQueryBuilder.EarlyBuilder.OrWhereExists | app/Core/MysqlQueryBuilder.php:205-209 | performs the EXISTS OR step; a valid binding table stays valid |
| EarlyQueryBuilder.EarlyBuilder.OrWhereNotExists | app/Core/MysqlQueryBuilder.php:211-215 | performs the NOT EXISTS OR step; a valid binding table stays valid |
| EarlyQueryBuilder.EarlyBuilder.WhereIn | app/Core/MysqlQueryBuilder.php:137-141 | performs the IN step |
| EarlyQueryBuilder.EarlyBuilder.WhereNotIn | app/Core/MysqlQueryBuilder.php:143-147 | performs the NOT IN step |
| EarlyQueryBuilder.EarlyBuilder.WhereBetween | app/Core/MysqlQueryBuilder.php:163-168 | performs the BETWEEN step |
| EarlyQueryBuilder.EarlyBuilder.WhereNotBetween | app/Core/MysqlQueryBuilder.php:170-175 | performs the NOT BETWEEN step |
| EarlyQueryBuilder.EarlyBuilder.Bind | app/Core/MysqlQueryBuilder.php:657-663 | hands every binding over in order, then clears the table |
| EarlyQueryBuilder.EarlyBuilder.Get | app/Core/MysqlQueryBuilder.php:297-308 | without a table it throws; otherwise the SELECT text in toSql mode, or the statement prepared with every binding, which are then cleared |
| EarlyQueryBuilder.EarlyBuilder.First | app/Core/MysqlQueryBuilder.php:311-323 | as the early get, with the limit set to 1 first: an uninitialized table throws, otherwise the SELECT text or the prepared statement with every binding |
| EarlyQueryBuilder.EarlyBuilder.Count | app/Core/MysqlQueryBuilder.php:332-342 | an uninitialized table is an error; otherwise the AND-only COUNT is always prepared and bound, even in toSql mode |
| EarlyQueryBuilder.EarlyBuilder.All | app/Core/MysqlQueryBuilder.php:326-330 | queries "SELECT * FROM t" whatever the conditions and the mode; an uninitialized table is an error |
| EarlyQueryBuilder.EarlyBuilder.BuildUpdate | app/Core/MysqlQueryBuilder.php:577-594 | missing data is checked first, then the table; otherwise the parts join to `EarlyUpdateSql` |
| EarlyQueryBuilder.EarlyBuilder.BuildSql | app/Core/MysqlQueryBuilder.php:269-289 | dispatches on the action; SELECT and UPDATE need the table, and INSERT needs it only when there are rows; the rows get unpadded column lists |
| EarlyQueryBuilder.EarlyBuilder.Update | app/Core/MysqlQueryBuilder.php:517-537 | merges the data, then returns, prepares or fails as `EarlyUpdateSql` and the table decide |
| EarlyQueryBuilder.EarlyBuilder.Insert | app/Core/MysqlQueryBuilder.php:429-444 | the rows accumulate; the statement is prepared with all bindings, or the uninitialized table is an error |
| Helpers.FindNested | app/Core/Utils/helpers.php:88-104 | the loop returns what walking the dot-separated keys returns |
| Helpers.WalkCompose | app/Core/Utils/helpers.php:94-102 | walking a path in two pieces is walking the second piece from where the first stopped; null stays null |
| Helpers.NestedSingleKey | app/Core/Utils/helpers.php:95-96 | a key without a dot is one lookup, and a key holding null reads exactly like a missing one |
| Helpers.NestedDescends | app/Core/Utils/helpers.php:94-100 | "a.rest" continues in the array found under "a" |
| Helpers.NestedStopsAtLeaf | app/Core/Utils/helpers.php:95-98 | "a.rest" is null when "a" is missing, null or a scalar, whatever the rest |
| Helpers.SplitFirst | app/Core/Utils/helpers.php:38 | explode with limit 2 cuts the line at its first "=", exactly, or leaves a line without "=" whole |
| Helpers.Env | app/Core/Utils/helpers.php:29-54 | the parsing loop and lookup return `EnvValue`: null without a file, the trimmed value with line breaks removed when set, the default otherwise |
| Helpers.VariablesKeys | app/Core/Utils/helpers.php:37-42 | every stored key passes the empty test and holds no "=" |
| Helpers.EnvUnreachableKeys | app/Core/Utils/helpers.php:39 | env of "", "0", a blank key or one holding "=" gives the default, whatever the file holds |
| Helpers.EnvValueTrimmed | app/Core/Utils/helpers.php:43-49 | a value read from the file is just its trimmed text; the removal of line breaks never removes anything |
| Helpers.EnvLastLineWins | app/Core/Utils/helpers.php:40 | the last assignment of a key decides its value, whatever came before |
| Helpers.EnvSkipsLine | app/Core/Utils/helpers.php:38-39 | a line without "=", or with a rejected key, changes no lookup |
| Helpers.EnvSingleLine | app/Core/Utils/helpers.php:40 | keys are stored untrimmed: a file "k=v" defines k exactly as written and no other key |
| Helpers.BasePathShape | app/Core/Utils/helpers.php:106-112 | the result is dir + "\.." + separator + the path with every "/" turned into "\" and nothing else changed |
| Helpers.BasePathRewriteIdempotent | app/Core/Utils/helpers.php:109 | a path already written with backslashes resolves to the same place |

## Left out

- Database I/O: PDO prepare, execute, fetch and query are not modelled. A fetch or write returns an `Outcome`: the SQL text in toSql mode, the SQL together with the bindings handed to the statement, or the SQL sent unprepared. Row results are not modelled.
- randomPlaceholder draws `bin2hex(random_bytes(5))`. The model uses a shared counter, so tokens of distinct draws never collide. A collision of two random tokens, and the overwrite it would cause, is not modelled.
- Callbacks are modelled as the sequence of where-family calls they make. Arbitrary PHP code in a callback is not modelled. A string column that happens to name a callable function (`is_callable` on a string) is treated as a column.
- PHP arrays are modelled with string keys only. The conversion of integer-like string keys ("1") to integer keys is not modelled, in the bindings, in rows, in findNested's config arrays or in env's variables.
- whereIn's `$values` are taken as a list: the `_<column>_<index>` suffix of each placeholder is the value's position. An associative or gappy array would use its own keys as that suffix; this is not modelled.
- Values are PHP null, bool, int or string. Floats are not modelled: PHP's float-to-string form is not written out. It matters where a value is interpolated into SQL text (buildSet, the unbound placeholder return, whereBetweenColumn).
- limit and offset are `false|int`. The model uses an int, with false as 0; both are falsy and render nothing.
- The later draft's `?string $table = null` is modelled as "", which renders identically in every statement.
- The earlier draft's uninitialized typed `$table` is modelled as `None`. Reading it raises the `UninitializedTable` error.
- Connection setup and the singleton/facade wiring of the builder are not modelled.
- In the earlier draft, groupBy, orderBy, offset, unique, insertIgnore and onDuplicateKeyUpdate are textually the same as in the later draft. They are modelled once, in `Builder`.
- EarlyQueryBuilder.EarlyBuilder.BuildSql: the select and insert branches call the rendering functions `SelectSql` and `InsertUpTo` directly. The rendering loops themselves are proved once, in `Builder`.
- EarlyQueryBuilder.EarlyBuilder.RunSubquery: a callback may itself call table() on the builder it is given; the model's callbacks are where-family calls only, so a self-rendering early subquery always lacks a table.
- Helpers.Env: reading the file is a parameter. `None` stands for realpath finding no .env file. A file that exists but cannot be read (`@file_get_contents` returning false) should be passed as its empty contents "", which is what explode makes of false.
- The remaining helpers (vamp, generateUUID, config, view) do output, randomness or file inclusion, so they are not modelled.
