/**
 * The list handler's SQL: the statement it assembles clause by clause with a
 * running placeholder counter, the parameter array it fills alongside, and
 * the meaning the store gives to such a statement over the `tasks` rows.
 */
module ListQuery {
  import opened Schema
  import opened TaskQueries

  /** A bound parameter value. */
  datatype Param = IntParam(n: int) | TextParam(text: string)

  datatype Column = UserId | StatusColumn | PriorityColumn

  /** `column = $placeholder` */
  datatype Cond = Equals(column: Column, placeholder: nat)

  /**
   * `SELECT * FROM tasks WHERE <conds joined by AND>
   *  ORDER BY created_at DESC LIMIT $limitAt OFFSET $offsetAt`
   */
  datatype Select = Select(conds: seq<Cond>, limitAt: nat, offsetAt: nat)

  function DigitChar(d: nat): char
    requires d < 10
  {
    ('0' as int + d) as char
  }

  predicate AllDigits(s: string)
  {
    forall i :: 0 <= i < |s| ==> '0' <= s[i] <= '9'
  }

  /** Decimal text of a natural number, most significant digit first. */
  function Decimal(n: nat): (s: string)
    ensures |s| >= 1 && AllDigits(s)
  {
    if n < 10 then [DigitChar(n)] else Decimal(n / 10) + [DigitChar(n % 10)]
  }

  /** Reads decimal text back as a number. */
  function DecimalValue(s: string): nat
    requires AllDigits(s)
  {
    if |s| == 0 then 0
    else 10 * DecimalValue(s[..|s| - 1]) + (s[|s| - 1] as int - '0' as int)
  }

  /** The text `$k` of a placeholder denotes `k`. */
  lemma {:induction false} DecimalRoundTrip(n: nat)
    ensures DecimalValue(Decimal(n)) == n
  {
    var s := Decimal(n);
    if n >= 10 {
      DecimalRoundTrip(n / 10);
      assert s[..|s| - 1] == Decimal(n / 10);
    }
  }

  function ColumnName(c: Column): string
  {
    match c
    case UserId => "user_id"
    case StatusColumn => "status"
    case PriorityColumn => "priority"
  }

  function CondText(c: Cond): string
  {
    ColumnName(c.column) + " = $" + Decimal(c.placeholder)
  }

  /** ` WHERE c1 AND c2 ...`, built from the left as the handler appends. */
  function WhereText(conds: seq<Cond>): (r: string)
    ensures |conds| == 0 <==> r == ""
  {
    if |conds| == 0 then ""
    else
      WhereText(conds[..|conds| - 1])
      + (if |conds| == 1 then " WHERE " else " AND ")
      + CondText(conds[|conds| - 1])
  }

  /** However many conditions follow, the clause opens with ` WHERE `. */
  lemma {:induction false} WhereOpensClause(conds: seq<Cond>)
    requires |conds| >= 1
    ensures |WhereText(conds)| >= 7 && WhereText(conds)[..7] == " WHERE "
  {
    var front := conds[..|conds| - 1];
    var w := WhereText(front);
    var tail := (if |conds| == 1 then " WHERE " else " AND ") + CondText(conds[|conds| - 1]);
    WhereTextUnfold(conds);
    if |conds| == 1 {
      assert w == "";
      assert WhereText(conds) == tail;
      PrefixKept(" WHERE ", CondText(conds[0]), 7);
    } else {
      WhereOpensClause(front);
      PrefixKept(w, tail, 7);
    }
  }

  lemma WhereTextUnfold(conds: seq<Cond>)
    requires |conds| >= 1
    ensures WhereText(conds) == WhereText(conds[..|conds| - 1])
      + ((if |conds| == 1 then " WHERE " else " AND ") + CondText(conds[|conds| - 1]))
  {
  }

  /** Appending text keeps a prefix that is already there. */
  lemma PrefixKept(a: string, b: string, k: nat)
    requires k <= |a|
    ensures (a + b)[..k] == a[..k]
  {
  }

  /** The text ends with the decimal digits of `n`, which read back as `n`. */
  predicate EndsWithNumber(text: string, n: nat)
  {
    var k := |text| - |Decimal(n)|;
    0 <= k && AllDigits(text[k..]) && DecimalValue(text[k..]) == n
  }

  /** Text put in front keeps the number at the end. */
  lemma PrependKeepsNumber(head: string, text: string, n: nat)
    requires EndsWithNumber(text, n)
    ensures EndsWithNumber(head + text, n)
  {
    var k := |Decimal(n)|;
    assert (head + text)[|head + text| - k..] == text[|text| - k..];
  }

  /**
   * ` ORDER BY created_at DESC LIMIT $l OFFSET $o`: the digits after
   * `LIMIT $` read back as `l`, and the text ends with the digits of `o`.
   */
  function PageText(limitAt: nat, offsetAt: nat): (r: string)
    ensures var n := |LimitPrefix| + |Decimal(limitAt)|;
            n <= |r| && r[..|LimitPrefix|] == LimitPrefix
            && AllDigits(r[|LimitPrefix|..n]) && DecimalValue(r[|LimitPrefix|..n]) == limitAt
    ensures EndsWithNumber(r, offsetAt)
  {
    DecimalRoundTrip(limitAt);
    DecimalRoundTrip(offsetAt);
    var r := LimitPrefix + Decimal(limitAt) + " OFFSET $" + Decimal(offsetAt);
    assert r[|LimitPrefix|..|LimitPrefix| + |Decimal(limitAt)|] == Decimal(limitAt);
    assert r[|r| - |Decimal(offsetAt)|..] == Decimal(offsetAt);
    r
  }

  const LimitPrefix: string := " ORDER BY created_at DESC LIMIT $"

  /**
   * The SQL text of a statement. It closes with the OFFSET placeholder: the
   * digits at its end read back as `q.offsetAt`.
   */
  function Render(q: Select): (r: string)
    ensures EndsWithNumber(r, q.offsetAt)
  {
    var head := "SELECT * FROM tasks" + WhereText(q.conds);
    var page := PageText(q.limitAt, q.offsetAt);
    PrependKeepsNumber(head, page, q.offsetAt);
    head + page
  }

  /** The owner clause every list statement opens with. */
  const OwnerScope: string := "SELECT * FROM tasks WHERE user_id = $1"

  /**
   * Placeholders are numbered `$1..$n` in the order they occur, and `n` is
   * the number of parameters: the conditions first, LIMIT and OFFSET last.
   */
  predicate Numbered(q: Select, paramCount: nat)
  {
    && (forall k :: 0 <= k < |q.conds| ==> q.conds[k].placeholder == k + 1)
    && q.limitAt == |q.conds| + 1
    && q.offsetAt == |q.conds| + 2
    && paramCount == |q.conds| + 2
  }

  /** `column = param` for one row; a NULL column equals nothing. */
  predicate CondHolds(t: Task, c: Cond, params: seq<Param>)
    ensures CondHolds(t, c, params) ==> 1 <= c.placeholder <= |params|
    ensures CondHolds(t, c, params) && c.column == UserId ==> params[c.placeholder - 1] == IntParam(t.ownerId)
  {
    1 <= c.placeholder <= |params| &&
    match (c.column, params[c.placeholder - 1])
    case (UserId, IntParam(n)) => t.ownerId == n
    case (StatusColumn, TextParam(s)) => t.status.Some? && StatusName(t.status.value) == s
    case (PriorityColumn, TextParam(s)) => t.priority.Some? && PriorityName(t.priority.value) == s
    case _ => false
  }

  predicate Satisfies(t: Task, conds: seq<Cond>, params: seq<Param>)
  {
    forall k :: 0 <= k < |conds| ==> CondHolds(t, conds[k], params)
  }

  /** The bind step: every text parameter decodes, so none holds U+0000. */
  predicate Binds(params: seq<Param>)
  {
    forall i :: 0 <= i < |params| ==> params[i].TextParam? ==> NulFree(params[i].text)
  }

  /** Parameters bind one by one. */
  lemma BindsAppend(params: seq<Param>, p: Param)
    ensures Binds(params + [p]) <==> Binds(params) && (p.TextParam? ==> NulFree(p.text))
  {
    var all := params + [p];
    assert all[|params|] == p;
    if Binds(params) && (p.TextParam? ==> NulFree(p.text)) {
      forall i | 0 <= i < |all| && all[i].TextParam?
        ensures NulFree(all[i].text)
      {
        if i < |params| { assert all[i] == params[i]; }
      }
    }
    if Binds(all) {
      forall i | 0 <= i < |params| && params[i].TextParam?
        ensures NulFree(params[i].text)
      {
        assert all[i] == params[i];
      }
    }
  }

  /** The rows that pass the WHERE clause, in table order. */
  function Where(rows: seq<Task>, conds: seq<Cond>, params: seq<Param>): (r: seq<Task>)
    ensures |r| <= |rows|
    ensures forall t :: t in r <==> t in rows && Satisfies(t, conds, params)
  {
    if |rows| == 0 then []
    else
      var rest := Where(rows[1..], conds, params);
      assert rows == [rows[0]] + rows[1..];
      if Satisfies(rows[0], conds, params) then [rows[0]] + rest else rest
  }

  /**
   * Running a statement: an unbound placeholder or a negative LIMIT or
   * OFFSET is a store error (`None`); otherwise the filtered rows, newest
   * first, windowed.
   */
  function Execute(rows: seq<Task>, q: Select, params: seq<Param>): (r: Option<seq<Task>>)
    ensures r.None? <==>
              || !(1 <= q.limitAt <= |params| && 1 <= q.offsetAt <= |params|)
              || !params[q.limitAt - 1].IntParam? || !params[q.offsetAt - 1].IntParam?
              || params[q.limitAt - 1].n < 0 || params[q.offsetAt - 1].n < 0
    ensures r.Some? ==> |r.value| <= params[q.limitAt - 1].n
    ensures r.Some? ==> forall t :: t in r.value ==> t in rows && Satisfies(t, q.conds, params)
  {
    if !(1 <= q.limitAt <= |params| && 1 <= q.offsetAt <= |params|) then None
    else
      match (params[q.limitAt - 1], params[q.offsetAt - 1])
      case (IntParam(limit), IntParam(offset)) =>
        if limit < 0 || offset < 0 then None
        else Some(Window(NewestFirst(Where(rows, q.conds, params)), limit, offset))
      case _ => None
  }

  /** What a list statement for these arguments must return from any table. */
  function Expected(rows: seq<Task>, owner: int, status: Option<string>, priority: Option<string>,
                    limit: int, offset: int): Option<seq<Task>>
  {
    if limit < 0 || offset < 0 then None
    else Some(Window(NewestFirst(Matching(rows, owner, status, priority)), limit, offset))
  }

  /** The WHERE clause keeps the table's insertion order. */
  lemma {:induction false} WhereChronological(rows: seq<Task>, conds: seq<Cond>, params: seq<Param>)
    requires Chronological(rows)
    ensures Chronological(Where(rows, conds, params))
  {
    if |rows| > 0 {
      var tail := rows[1..];
      assert Chronological(tail) by {
        forall i, j | 0 <= i < j < |tail|
          ensures tail[i].id < tail[j].id && tail[i].createdAt < tail[j].createdAt
        {
          assert tail[i] == rows[i + 1] && tail[j] == rows[j + 1];
        }
      }
      WhereChronological(tail, conds, params);
      if Satisfies(rows[0], conds, params) {
        forall y | y in Where(tail, conds, params)
          ensures rows[0].id < y.id && rows[0].createdAt < y.createdAt
        {
          var k :| 0 <= k < |tail| && tail[k] == y;
          assert rows[k + 1] == y;
        }
        PrependChronological(rows[0], Where(tail, conds, params));
      }
    }
  }

  /** Filtering by conditions that agree with `Matches` row by row selects `Matching`. */
  lemma {:induction false} WhereIsMatching(
    rows: seq<Task>, conds: seq<Cond>, params: seq<Param>,
    owner: int, status: Option<string>, priority: Option<string>)
    requires forall t :: Satisfies(t, conds, params) <==> Matches(t, owner, status, priority)
    ensures Where(rows, conds, params) == Matching(rows, owner, status, priority)
  {
    if |rows| > 0 {
      WhereIsMatching(rows[1..], conds, params, owner, status, priority);
    }
  }

  /**
   * What the builder knows of a statement under construction: one
   * placeholder per parameter, numbered in order, the owner condition first,
   * and the conditions select exactly the rows matching the filters applied
   * so far.
   */
  ghost predicate Scoped(conds: seq<Cond>, params: seq<Param>,
                         owner: int, status: Option<string>, priority: Option<string>)
  {
    && |conds| == |params| >= 1
    && (forall k :: 0 <= k < |conds| ==> conds[k].placeholder == k + 1)
    && conds[0] == Equals(UserId, 1) && params[0] == IntParam(owner)
    && forall t :: Satisfies(t, conds, params) <==> Matches(t, owner, status, priority)
  }

  /** Binding more parameters than the conditions use changes no condition. */
  lemma ExtendParams(t: Task, conds: seq<Cond>, params: seq<Param>, extra: seq<Param>)
    requires forall k :: 0 <= k < |conds| ==> conds[k].placeholder <= |params|
    ensures Satisfies(t, conds, params + extra) <==> Satisfies(t, conds, params)
  {
    forall k | 0 <= k < |conds|
      ensures CondHolds(t, conds[k], params + extra) <==> CondHolds(t, conds[k], params)
    {
      if 1 <= conds[k].placeholder {
        assert (params + extra)[conds[k].placeholder - 1] == params[conds[k].placeholder - 1];
      }
    }
  }

  /** Pushing a condition with the next placeholder and its parameter. */
  lemma PushCond(t: Task, conds: seq<Cond>, params: seq<Param>, c: Cond, p: Param)
    requires forall k :: 0 <= k < |conds| ==> conds[k].placeholder <= |params|
    requires c.placeholder == |params| + 1
    ensures Satisfies(t, conds + [c], params + [p])
        <==> Satisfies(t, conds, params) && CondHolds(t, c, params + [p])
  {
    ExtendParams(t, conds, params, [p]);
    var conds' := conds + [c];
    if Satisfies(t, conds, params + [p]) && CondHolds(t, c, params + [p]) {
      forall k | 0 <= k < |conds'| ensures CondHolds(t, conds'[k], params + [p]) {
        if k < |conds| { assert conds'[k] == conds[k]; }
      }
    }
    if Satisfies(t, conds', params + [p]) {
      forall k | 0 <= k < |conds| ensures CondHolds(t, conds[k], params + [p]) {
        assert conds'[k] == conds[k];
      }
      assert CondHolds(t, conds'[|conds|], params + [p]);
    }
  }

  /** Adding the status filter to a scoped statement. */
  lemma PushStatus(conds: seq<Cond>, params: seq<Param>, owner: int,
                   status: Option<string>, priority: Option<string>)
    requires Scoped(conds, params, owner, None, priority) && Truthy(status)
    ensures Scoped(conds + [Equals(StatusColumn, |params| + 1)], params + [TextParam(status.value)],
                   owner, status, priority)
  {
    var c := Equals(StatusColumn, |params| + 1);
    var p := TextParam(status.value);
    forall t
      ensures Satisfies(t, conds + [c], params + [p]) <==> Matches(t, owner, status, priority)
    {
      PushCond(t, conds, params, c, p);
      assert (params + [p])[|params|] == p;
    }
  }

  /** Adding the priority filter to a scoped statement. */
  lemma PushPriority(conds: seq<Cond>, params: seq<Param>, owner: int,
                     status: Option<string>, priority: Option<string>)
    requires Scoped(conds, params, owner, status, None) && Truthy(priority)
    ensures Scoped(conds + [Equals(PriorityColumn, |params| + 1)], params + [TextParam(priority.value)],
                   owner, status, priority)
  {
    var c := Equals(PriorityColumn, |params| + 1);
    var p := TextParam(priority.value);
    forall t
      ensures Satisfies(t, conds + [c], params + [p]) <==> Matches(t, owner, status, priority)
    {
      PushCond(t, conds, params, c, p);
      assert (params + [p])[|params|] == p;
    }
  }

  /** The owner condition alone selects the owner's rows: no filter is truthy yet. */
  lemma OwnerScoped(owner: int, status: Option<string>, priority: Option<string>)
    requires !Truthy(status) && !Truthy(priority)
    ensures Scoped([Equals(UserId, 1)], [IntParam(owner)], owner, status, priority)
  {
  }

  /**
   * Closing a scoped statement with LIMIT and OFFSET: it then returns, from
   * any table, the expected page of matching rows.
   */
  lemma CloseScoped(conds: seq<Cond>, params: seq<Param>, owner: int,
                    status: Option<string>, priority: Option<string>, limit: int, offset: int,
                    q: Select, all: seq<Param>)
    requires Scoped(conds, params, owner, status, priority)
    requires q == Select(conds, |params| + 1, |params| + 2)
    requires all == params + [IntParam(limit), IntParam(offset)]
    ensures Numbered(q, |all|)
    ensures q.conds[0] == Equals(UserId, 1) && all[0] == IntParam(owner)
    ensures all[|all| - 2] == IntParam(limit) && all[|all| - 1] == IntParam(offset)
    ensures forall rows :: Execute(rows, q, all) == Expected(rows, owner, status, priority, limit, offset)
  {
    forall t
      ensures Satisfies(t, conds, all) <==> Matches(t, owner, status, priority)
    {
      ExtendParams(t, conds, params, [IntParam(limit), IntParam(offset)]);
    }
    forall rows
      ensures Execute(rows, q, all) == Expected(rows, owner, status, priority, limit, offset)
    {
      WhereIsMatching(rows, conds, all, owner, status, priority);
    }
  }

  /** Appending one condition to a non-empty WHERE clause appends ` AND cond`. */
  lemma AppendCondText(conds: seq<Cond>, c: Cond)
    requires |conds| >= 1
    ensures WhereText(conds + [c]) == WhereText(conds) + " AND " + CondText(c)
  {
    assert (conds + [c])[..|conds|] == conds;
  }

  /** The text the builder appends for one filter is that filter's condition. */
  lemma AppendFilterText(sql: string, conds: seq<Cond>, c: Cond, text: string)
    requires |conds| >= 1 && sql == "SELECT * FROM tasks" + WhereText(conds)
    requires text == " AND " + ColumnName(c.column) + " = $"
    ensures sql + text + Decimal(c.placeholder) == "SELECT * FROM tasks" + WhereText(conds + [c])
  {
    AppendCondText(conds, c);
    Associate("SELECT * FROM tasks", WhereText(conds), " AND ", ColumnName(c.column), " = $",
              Decimal(c.placeholder));
  }

  lemma Associate(p: string, w: string, a: string, n: string, e: string, d: string)
    ensures (p + w) + ((a + n) + e) + d == p + ((w + a) + ((n + e) + d))
  {
  }

  /** The owner clause is the text of a lone owner condition. */
  lemma OwnerScopeText()
    ensures OwnerScope == "SELECT * FROM tasks" + WhereText([Equals(UserId, 1)])
  {
    var w := [Equals(UserId, 1)];
    assert w[..0] == [] && w[0] == Equals(UserId, 1);
    assert Decimal(1) == "1";
    var cond := CondText(w[0]);
    assert cond == "user_id = $1";
    assert WhereText(w) == WhereText(w[..0]) + " WHERE " + cond;
  }

  /** Appending text never disturbs the owner clause at the front. */
  lemma KeepsOwnerScope(sql: string, more: string)
    requires |sql| >= |OwnerScope| && sql[..|OwnerScope|] == OwnerScope
    ensures |sql + more| >= |OwnerScope| && (sql + more)[..|OwnerScope|] == OwnerScope
  {
    assert (sql + more)[..|OwnerScope|] == sql[..|OwnerScope|];
  }

  /**
   * One filter block of the builder: count one more placeholder, append
   * ` AND <column> = $<count>` to the statement and push the value.
   */
  method AppendFilter(sql: string, where: seq<Cond>, params: seq<Param>, paramCount: nat,
                      column: Column, value: string)
    returns (sql': string, where': seq<Cond>, params': seq<Param>, paramCount': nat)
    requires |where| >= 1 && sql == "SELECT * FROM tasks" + WhereText(where)
    requires |sql| >= |OwnerScope| && sql[..|OwnerScope|] == OwnerScope
    ensures paramCount' == paramCount + 1
    ensures where' == where + [Equals(column, paramCount')]
    ensures params' == params + [TextParam(value)]
    ensures sql' == "SELECT * FROM tasks" + WhereText(where')
    ensures |sql'| >= |OwnerScope| && sql'[..|OwnerScope|] == OwnerScope
  {
    paramCount' := paramCount + 1;
    var clause := " AND " + ColumnName(column) + " = $";
    AppendFilterText(sql, where, Equals(column, paramCount'), clause);
    KeepsOwnerScope(sql, clause + Decimal(paramCount'));
    sql' := sql + clause + Decimal(paramCount');
    where' := where + [Equals(column, paramCount')];
    params' := params + [TextParam(value)];
  }

  /** The status block of the builder, as `Matches` sees it: the status filter is now applied. */
  method AddStatusFilter(sql: string, where: seq<Cond>, params: seq<Param>, paramCount: nat,
                         ghost owner: int, status: Option<string>, ghost priority: Option<string>)
    returns (sql': string, where': seq<Cond>, params': seq<Param>, paramCount': nat)
    requires Scoped(where, params, owner, None, priority) && Truthy(status)
    requires paramCount == |params|
    requires sql == "SELECT * FROM tasks" + WhereText(where)
    requires |sql| >= |OwnerScope| && sql[..|OwnerScope|] == OwnerScope
    ensures Scoped(where', params', owner, status, priority)
    ensures paramCount' == |params'| && |where'| == |where| + 1
    ensures where' == where + [Equals(StatusColumn, paramCount')]
    ensures params' == params + [TextParam(status.value)]
    ensures Binds(params') <==> Binds(params) && NulFree(status.value)
    ensures sql' == "SELECT * FROM tasks" + WhereText(where')
    ensures |sql'| >= |OwnerScope| && sql'[..|OwnerScope|] == OwnerScope
  {
    PushStatus(where, params, owner, status, priority);
    sql', where', params', paramCount' := AppendFilter(sql, where, params, paramCount, StatusColumn, status.value);
    BindsAppend(params, TextParam(status.value));
  }

  /** The priority block of the builder: the priority filter is now applied. */
  method AddPriorityFilter(sql: string, where: seq<Cond>, params: seq<Param>, paramCount: nat,
                           ghost owner: int, ghost status: Option<string>, priority: Option<string>)
    returns (sql': string, where': seq<Cond>, params': seq<Param>, paramCount': nat)
    requires Scoped(where, params, owner, status, None) && Truthy(priority)
    requires paramCount == |params|
    requires sql == "SELECT * FROM tasks" + WhereText(where)
    requires |sql| >= |OwnerScope| && sql[..|OwnerScope|] == OwnerScope
    ensures Scoped(where', params', owner, status, priority)
    ensures paramCount' == |params'| && |where'| == |where| + 1
    ensures where' == where + [Equals(PriorityColumn, paramCount')]
    ensures params' == params + [TextParam(priority.value)]
    ensures Binds(params') <==> Binds(params) && NulFree(priority.value)
    ensures sql' == "SELECT * FROM tasks" + WhereText(where')
    ensures |sql'| >= |OwnerScope| && sql'[..|OwnerScope|] == OwnerScope
  {
    PushPriority(where, params, owner, status, priority);
    sql', where', params', paramCount' := AppendFilter(sql, where, params, paramCount, PriorityColumn, priority.value);
    BindsAppend(params, TextParam(priority.value));
  }

  /**
   * The builder's last step: LIMIT and OFFSET take the next two placeholders,
   * and their values are pushed last. The statement is then complete and
   * returns the expected page from any table.
   */
  method AppendPage(sql: string, where: seq<Cond>, params: seq<Param>, paramCount: nat,
                    limit: int, offset: int,
                    ghost owner: int, ghost status: Option<string>, ghost priority: Option<string>)
    returns (sql': string, q: Select, params': seq<Param>)
    requires Scoped(where, params, owner, status, priority) && paramCount == |params|
    requires sql == "SELECT * FROM tasks" + WhereText(where)
    requires |sql| >= |OwnerScope| && sql[..|OwnerScope|] == OwnerScope
    ensures q.conds == where
    ensures params' == params + [IntParam(limit), IntParam(offset)]
    ensures Binds(params') <==> Binds(params)
    ensures sql' == Render(q)
    ensures |sql'| >= |OwnerScope| && sql'[..|OwnerScope|] == OwnerScope
    ensures Numbered(q, |params'|)
    ensures q.conds[0] == Equals(UserId, 1) && params'[0] == IntParam(owner)
    ensures params'[|params'| - 2] == IntParam(limit) && params'[|params'| - 1] == IntParam(offset)
    ensures forall rows :: Execute(rows, q, params') == Expected(rows, owner, status, priority, limit, offset)
  {
    q := Select(where, paramCount + 1, paramCount + 2);
    KeepsOwnerScope(sql, PageText(paramCount + 1, paramCount + 2));
    sql' := sql + PageText(paramCount + 1, paramCount + 2);
    params' := params + [IntParam(limit), IntParam(offset)];
    CloseScoped(where, params, owner, status, priority, limit, offset, q, params');
    BindsAppend(params, IntParam(limit));
    BindsAppend(params + [IntParam(limit)], IntParam(offset));
    assert params' == params + [IntParam(limit)] + [IntParam(offset)];
  }

  /**
   * `getAllTasks`' statement builder. It starts from the owner clause with
   * one parameter, appends a condition and a parameter for each truthy
   * filter while counting placeholders, and ends with LIMIT and OFFSET.
   */
  method BuildListQuery(owner: int, status: Option<string>, priority: Option<string>,
                        limit: int, offset: int)
    returns (sql: string, q: Select, params: seq<Param>)
    ensures sql == Render(q)
    ensures |sql| >= |OwnerScope| && sql[..|OwnerScope|] == OwnerScope
    ensures |q.conds| == 1 + (if Truthy(status) then 1 else 0) + (if Truthy(priority) then 1 else 0)
    ensures Numbered(q, |params|)
    ensures q.conds[0] == Equals(UserId, 1) && params[0] == IntParam(owner)
    ensures params[|params| - 2] == IntParam(limit) && params[|params| - 1] == IntParam(offset)
    ensures forall rows :: Execute(rows, q, params) == Expected(rows, owner, status, priority, limit, offset)
    ensures Binds(params) <==> Decodes(status) && Decodes(priority)
  {
    var where := [Equals(UserId, 1)];
    var text := OwnerScope;
    var filterParams := [IntParam(owner)];
    var paramCount := 1;
    // The filters applied so far, as `Matches` reads them: an untruthy
    // filter is already "applied", since it selects nothing away.
    ghost var statusSoFar: Option<string> := if Truthy(status) then None else status;
    ghost var prioritySoFar: Option<string> := if Truthy(priority) then None else priority;
    OwnerScopeText();
    OwnerScoped(owner, statusSoFar, prioritySoFar);
    assert Binds(filterParams);

    if Truthy(status) {
      text, where, filterParams, paramCount :=
        AddStatusFilter(text, where, filterParams, paramCount, owner, status, prioritySoFar);
      statusSoFar := status;
    }

    if Truthy(priority) {
      text, where, filterParams, paramCount :=
        AddPriorityFilter(text, where, filterParams, paramCount, owner, statusSoFar, priority);
      prioritySoFar := priority;
    }

    sql, q, params := AppendPage(text, where, filterParams, paramCount, limit, offset,
                                 owner, status, priority);
  }

  /**
   * Builds the list statement and runs it on the table (`pool.query`): a
   * store error when a filter text does not bind, otherwise the expected
   * page of the owner's matching rows, or a store error.
   */
  method ListRows(rows: seq<Task>, owner: int, status: Option<string>, priority: Option<string>,
                  limit: int, offset: int)
    returns (result: Option<seq<Task>>)
    ensures result == if Decodes(status) && Decodes(priority)
                      then Expected(rows, owner, status, priority, limit, offset)
                      else None
  {
    var sql, q, params := BuildListQuery(owner, status, priority, limit, offset);
    if !Binds(params) {
      result := None;
    } else {
      result := Execute(rows, q, params);
    }
  }
}
