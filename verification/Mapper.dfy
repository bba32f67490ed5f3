/** The mapper: statements put together by appending, their arguments pushed beside them. */
module OrmMapper {
  import opened Sequences
  import opened Strings
  import opened SqlText
  import opened OrmCriteria
  import opened OrmStatements

  // ---------------------------------------------------------------- replacing the holders

  lemma ReplacedAt(client: ClientType, s: string, start: nat, k: nat)
    requires start <= |s|
    ensures OccursAt(s, HOLDER, start) ==>
              Replaced(client, s[start..], k) == Holder(client, k) + Replaced(client, s[start + 2..], k + 1)
    ensures !OccursAt(s, HOLDER, start) && start < |s| ==>
              Replaced(client, s[start..], k) == [s[start]] + Replaced(client, s[start + 1..], k)
    ensures start == |s| ==> Replaced(client, s[start..], k) == s[start..]
  {
    var rest := s[start..];
    assert OccursAt(rest, HOLDER, 0) <==> OccursAt(s, HOLDER, start) by {
      if |rest| >= 2 {
        assert rest[0..2] == s[start..start + 2];
      }
    }
    if |rest| >= 2 {
      assert rest[2..] == s[start + 2..];
    }
    if rest != "" {
      assert rest[1..] == s[start + 1..];
    }
  }

  // What the text becomes up to its first holder.
  lemma {:induction false} ReplacedUpTo(client: ClientType, s: string, start: nat, pos: Option<nat>, k: nat)
    requires start <= |s| && pos == Find(s, HOLDER, start)
    ensures pos == None ==> Replaced(client, s[start..], k) == s[start..]
    ensures pos.Some? ==>
              Replaced(client, s[start..], k)
              == s[start..pos.value] + Holder(client, k) + Replaced(client, s[pos.value + 2..], k + 1)
    decreases |s| - start
  {
    hide Replaced, Holder;
    ReplacedAt(client, s, start, k);
    if OccursAt(s, HOLDER, start) {
      hide *;
      assert s[start..start] == "";
      Assoc("", Holder(client, k), Replaced(client, s[start + 2..], k + 1));
      assert "" + Holder(client, k) == Holder(client, k);
    } else if start < |s| {
      ReplacedUpTo(client, s, start + 1, pos, k);
      hide *;
      var first := [s[start]];
      assert s[start..] == first + s[start + 1..];
      if pos.Some? {
        var text := s[start + 1..pos.value];
        assert s[start..pos.value] == first + text;
        Assoc4(first, text, Holder(client, k), Replaced(client, s[pos.value + 2..], k + 1));
      }
    }
  }

  // ---------------------------------------------------------------- appending in loops

  /** What the loops over the columns have written after n of them. */
  function SetText(items: seq<Statement>, n: nat): string
    requires n <= |items|
  {
    if n == 0 then "" else Text(Joined(items[..n], ",")) + ","
  }

  lemma SetTextNone(start: string, items: seq<Statement>)
    ensures start + SetText(items, 0) == start
  {
  }

  lemma SetTextMore(items: seq<Statement>, n: nat)
    requires n < |items|
    ensures SetText(items, n + 1) == SetText(items, n) + Text(items[n]) + ","
  {
    assert items[..n + 1] == items[..n] + [items[n]];
    JoinedMore(items[..n], items[n], ",");
    assert n == 0 ==> items[..n] == [] && Text(Joined(items[..n], ",")) == "";
    assert "" + "" + Text(items[n]) == Text(items[n]) == "" + Text(items[n]);
  }

  // The last comma becomes a blank.
  lemma SetTextLast(start: string, items: seq<Statement>)
    requires start != "" && start[|start| - 1] == ' '
    ensures var s := start + SetText(items, |items|);
            s[|s| - 1 := ' '] == start + if items == [] then "" else Text(Joined(items, ",")) + " "
  {
    assert items[..|items|] == items;
  }

  lemma AssignmentAdded(colNames: seq<string>, args: seq<Arg>, n: nat)
    requires n < |args| == |colNames|
    ensures |Assignments(colNames, args)| == |args|
    ensures var items := Assignments(colNames, args);
            SetText(items, n + 1) == SetText(items, n) + colNames[n] + " = $?,"
  {
    var items := Assignments(colNames, args);
    SetTextMore(items, n);
    ComparisonText(colNames[n], EQ, args[n]);
    assert Text(items[n]) == colNames[n] + " = " + "$?";
    hide *;
    Added(SetText(items, n), colNames[n], " = ", "$?", ",", " = $?,");
  }

  lemma Added(s: string, a: string, b: string, c: string, d: string, e: string)
    requires e == b + c + d
    ensures s + (a + b + c) + d == s + a + e
  {
    Assoc4(s, a, b, c);
    Assoc4(s + a, b, c, d);
  }

  lemma IncrementAdded(colNames: seq<string>, args: seq<int>, n: nat)
    requires n < |args| == |colNames|
    ensures |Increments(colNames, args)| == |args|
    ensures var items := Increments(colNames, args);
            SetText(items, n + 1)
            == SetText(items, n) + (colNames[n] + " = " + colNames[n] + if args[n] < 0 then " - $?," else " + $?,")
  {
    var items := Increments(colNames, args);
    SetTextMore(items, n);
    IncrementText(colNames[n], args[n]);
    var front, sign := colNames[n] + " = " + colNames[n], if args[n] < 0 then " - $?" else " + $?";
    assert Text(items[n]) == front + sign;
    assert sign + "," == if args[n] < 0 then " - $?," else " + $?,";
    hide *;
    Assoc(SetText(items, n), front + sign, ",");
    Assoc(front, sign, ",");
  }

  /** What the loop has written after n columns. */
  function KeyText(columns: seq<string>, key: seq<Arg>, n: nat): string
    requires n <= |key| == |columns|
  {
    Text(KeyCondition(columns[..n], key[..n])) + if 0 < n < |columns| then " and " else ""
  }

  lemma KeyTextMore(columns: seq<string>, key: seq<Arg>, n: nat)
    requires |key| == |columns|
    ensures KeyText(columns, key, 0) == ""
    ensures n < |key| ==>
              KeyText(columns, key, n + 1)
              == KeyText(columns, key, n) + columns[n] + " = $?" + if n < |columns| - 1 then " and " else ""
  {
    assert KeyCondition(columns[..0], key[..0]) == [];
    if n < |key| {
      AssignmentsText(columns, key, n);
      JoinedMore(Assignments(columns[..n], key[..n]), Comparison(columns[n], EQ, key[n]), " and ");
      ComparisonText(columns[n], EQ, key[n]);
      var item := Text(Comparison(columns[n], EQ, key[n]));
      var now, tail := KeyText(columns, key, n), if n < |columns| - 1 then " and " else "";
      assert item == columns[n] + " = $?" by {
        Assoc(columns[n], " = ", "$?");
      }
      assert KeyText(columns, key, n + 1) == now + item + tail;
      hide *;
      Assoc(now, columns[n], " = $?");
    }
  }

  lemma KeyConditionText(columns: seq<string>, key: seq<Arg>)
    requires |columns| == |key| > 0 && AllPlain(columns)
    ensures var cond := KeyCondition(columns, key);
            cond != [] && HoleFree(cond) && Text(cond) == KeyText(columns, key, |key|) && Args(cond) == key
  {
    assert columns[..|key|] == columns && key[..|key|] == key;
    AssignmentsArgs(columns, key, " and ");
    JoinedHoleFree(Assignments(columns, key), " and ");
  }

  // The text and the arguments put together for a find statement are handed over as they should be.
  lemma FindIsHanded(
    client: ClientType, tableName: string, cond: Statement, orders: seq<Order>, limit: nat, offset: nat, forUpdate: bool,
    text: string, q: Query)
    requires HoleFree(cond) && Plain(tableName) && Plain(OrderText(orders))
    requires text == "select * from " + tableName + (if cond == [] then "" else " where " + Text(cond)) + OrderText(orders)
                     + (if limit > 0 then " limit $?" else "") + (if offset > 0 then " offset $?" else "")
    requires q.sql == Replaced(client, text, 1) + (if forUpdate then " for update" else "")
    requires q.args == Args(cond) + (if limit > 0 then [Number(limit)] else []) + (if offset > 0 then [Number(offset)] else [])
    ensures q == Handed(client, FindStatement(tableName, cond, orders, limit, offset, forUpdate))
  {
    var st := SelectStatement(tableName, cond, OrderText(orders), limit, offset);
    OrderTextShape(orders);
    hide *;
    SelectText(tableName, cond, OrderText(orders), limit, offset);
    ReplacedIsRendered(client, st, 1);
    FindHanded(client, tableName, cond, orders, limit, offset, forUpdate);
  }

  // What has been put together for a find statement, from the criteria's text and arguments.
  lemma FindDone(
    client: ClientType, tableName: string, condition: string, args: seq<Arg>, orders: seq<Order>, limit: nat, offset: nat,
    forUpdate: bool, text: string, q: Query)
    requires Plain(tableName) && forall i | 0 <= i < |orders| :: Plain(orders[i].colName)
    requires text == "select * from " + tableName + (if condition != "" then " where " + condition else "") + OrderText(orders)
                     + (if limit > 0 then " limit $?" else "") + (if offset > 0 then " offset $?" else "")
    requires q.sql == (if condition != "" || limit > 0 || offset > 0 then Replaced(client, text, 1) else text)
                      + (if forUpdate then " for update" else "")
    requires q.args == (if condition != "" then args else [])
                       + (if limit > 0 then [Number(limit)] else []) + (if offset > 0 then [Number(offset)] else [])
    ensures q.sql == Replaced(client, text, 1) + (if forUpdate then " for update" else "")
    ensures Holders(text) == |q.args| <==> (condition != "" ==> Holders(condition) == |args|)
    ensures (condition != "" ==> Holders(condition) == |args|) ==>
              q == Handed(client, FindStatement(tableName, if condition != "" then Woven(condition, args) else [],
                                                orders, limit, offset, forUpdate))
  {
    hide *;
    OrderTextShape(orders);
    SelectHolders(tableName, condition, OrderText(orders), limit, offset);
    if condition == "" && limit == 0 && offset == 0 {
      NoHolders(client, text, 1);
    }
    if condition == "" {
      EmptyHoleFree();
      FindIsHanded(client, tableName, [], orders, limit, offset, forUpdate, text, q);
    } else if Holders(condition) == |args| {
      WovenMeaning(condition, args);
      FindIsHanded(client, tableName, Woven(condition, args), orders, limit, offset, forUpdate, text, q);
    }
  }

  lemma EmptyHoleFree()
    ensures HoleFree([]) && Args([]) == []
  {
  }

  lemma DeleteIsHanded(client: ClientType, tableName: string, cond: Statement, text: string, q: Query)
    requires HoleFree(cond) && Plain(tableName)
    requires text == "delete from " + tableName + "" + if cond == [] then "" else " where " + Text(cond)
    requires q.sql == (if cond == [] then text else Replaced(client, text, 1)) && q.args == Args(cond)
    ensures q == Handed(client, DeleteStatement(tableName, "", cond))
  {
    var st := DeleteStatement(tableName, "", cond);
    DeleteText(tableName, "", cond);
    assert cond == [] ==> Args(cond) == [];
    hide *;
    if cond == [] {
      NothingToReplace(client, st, 1);
    } else {
      ReplacedIsRendered(client, st, 1);
    }
  }

  // ---------------------------------------------------------------- the class

  /** The model type's primary key: one column, or several. */
  datatype KeyName = OneKey(name: string) | KeyTuple(names: seq<string>) {
    function Columns(): seq<string> {
      if OneKey? then [name] else names
    }
  }

  class Mapper {
    const client: ClientType
    const tableName: string
    const primaryKeyName: KeyName
    var limit: nat
    var offset: nat
    var orderByString: string
    var forUpdate: bool
    ghost var orders: seq<Order>

    ghost predicate Valid()
      reads this
    {
      orderByString == OrderText(orders)
    }

    /** The names the statements are made of hold no holder. */
    ghost predicate PlainNames()
      reads this
    {
      && Plain(tableName) && AllPlain(primaryKeyName.Columns())
      && forall i | 0 <= i < |orders| :: Plain(orders[i].colName)
    }

    ghost predicate Cleared()
      reads this
    {
      limit == 0 && offset == 0 && orders == [] && !forUpdate
    }

    constructor (client: ClientType, tableName: string, primaryKeyName: KeyName)
      ensures Valid() && Cleared()
      ensures this.client == client && this.tableName == tableName && this.primaryKeyName == primaryKeyName
    {
      this.client, this.tableName, this.primaryKeyName := client, tableName, primaryKeyName;
      limit, offset, orderByString, forUpdate, orders := 0, 0, "", false, [];
    }

    method Clear()
      modifies this
      ensures Valid() && Cleared()
    {
      limit, offset, orderByString, forUpdate, orders := 0, 0, "", false, [];
    }

    method Limit(limit: nat)
      requires limit > 0
      modifies this`limit
      ensures this.limit == limit
    {
      this.limit := limit;
    }

    method Offset(offset: nat)
      modifies this`offset
      ensures this.offset == offset
    {
      this.offset := offset;
    }

    method OrderBy(colName: string, order: SortOrder)
      requires Valid()
      modifies this`orderByString, this`orders
      ensures Valid() && orders == old(orders) + [Order(colName, order)]
      ensures orderByString == (if old(orderByString) == "" then " order by " else old(orderByString) + ",") + colName
                               + (if order == DESC then " desc" else "")
    {
      OrderTextShape(orders);
      ghost var more := orders + [Order(colName, order)];
      OrderTextMore(orders, Order(colName, order), if order == DESC then " desc" else "");
      hide OrderText;
      if orderByString == "" {
        orderByString := " order by " + colName;
        if order == DESC {
          orderByString := orderByString + " desc";
        }
      } else {
        orderByString := orderByString + ",";
        orderByString := orderByString + colName;
        if order == DESC {
          orderByString := orderByString + " desc";
        }
      }
      orders := more;
    }

    /** Overrides limit and offset; the first page has no offset. */
    method Paginate(page: nat, perPage: nat)
      requires page > 0 && perPage > 0
      modifies this`limit, this`offset
      ensures limit == perPage && offset == (page - 1) * perPage
    {
      Limit(perPage);
      Offset((page - 1) * perPage);
    }

    method ForUpdate()
      modifies this`forUpdate
      ensures forUpdate
    {
      forUpdate := true;
    }

    /** Rewrites the holders for the client's dialect. */
    method ReplaceSqlPlaceHolder(sqlStr: string) returns (sql: string)
      ensures sql == Replaced(client, sqlStr, 1)
    {
      hide Replaced, Rendered, Text, HoleFree, Decimal, Find, OccursAt;
      var startPos := 0;
      sql := "";
      assert sqlStr[0..] == sqlStr;
      if client == PostgreSQL {
        var phCount := 1;
        while true
          invariant startPos <= |sqlStr|
          invariant sql + Replaced(client, sqlStr[startPos..], phCount) == Replaced(client, sqlStr, 1)
          decreases |sqlStr| - startPos
        {
          var pos := Find(sqlStr, HOLDER, startPos);
          ReplacedUpTo(client, sqlStr, startPos, pos, phCount);
          if pos == None {
            sql := sql + sqlStr[startPos..];
            return;
          }
          ghost var before := sql;
          sql := sql + sqlStr[startPos..pos.value];
          sql := sql + "$";
          sql := sql + Decimal(phCount);
          assert Holder(client, phCount) == "$" + Decimal(phCount);
          ghost var rest := Replaced(client, sqlStr[pos.value + 2..], phCount + 1);
          Assoc4(before, sqlStr[startPos..pos.value], Holder(client, phCount), rest);
          Assoc(before + sqlStr[startPos..pos.value], "$", Decimal(phCount));
          phCount := phCount + 1;
          startPos := pos.value + |HOLDER|;
        }
      } else {
        ghost var k := 1;
        while true
          invariant startPos <= |sqlStr|
          invariant sql + Replaced(client, sqlStr[startPos..], k) == Replaced(client, sqlStr, 1)
          decreases |sqlStr| - startPos
        {
          var pos := Find(sqlStr, HOLDER, startPos);
          ReplacedUpTo(client, sqlStr, startPos, pos, k);
          if pos == None {
            sql := sql + sqlStr[startPos..];
            return;
          }
          ghost var before := sql;
          sql := sql + sqlStr[startPos..pos.value];
          sql := sql + "?";
          assert Holder(client, k) == "?";
          Assoc4(before, sqlStr[startPos..pos.value], "?", Replaced(client, sqlStr[pos.value + 2..], k + 1));
          k := k + 1;
          startPos := pos.value + |HOLDER|;
        }
      }
    }

    method MakePrimaryKeyCriteria(sqlStr: string, ghost key: seq<Arg>) returns (sql: string)
      requires |key| == |primaryKeyName.Columns()|
      ensures sql == sqlStr + " where " + KeyText(primaryKeyName.Columns(), key, |key|)
    {
      ghost var columns := primaryKeyName.Columns();
      sql := sqlStr + " where ";
      match primaryKeyName {
        case OneKey(name) =>
          KeyTextMore(columns, key, 0);
          hide KeyText;
          sql := sql + name;
          sql := sql + " = $?";
        case KeyTuple(names) =>
          hide KeyText;
          assert columns == names;
          ghost var start := sql;
          KeyTextMore(columns, key, 0);
          Assoc(start, "", "");
          for i := 0 to |names|
            invariant sql == start + KeyText(columns, key, i)
          {
            KeyTextMore(columns, key, i);
            ghost var now := KeyText(columns, key, i);
            Assoc4(start, now, names[i], " = $?");
            Assoc(start, now + names[i] + " = $?", " and ");
            sql := sql + names[i];
            sql := sql + " = $?";
            if i < |names| - 1 {
              sql := sql + " and ";
            }
          }
      }
    }

    /** Pushes the components in order. */
    method TupleToBinder(t: seq<Arg>, n: nat, binder: seq<Arg>) returns (args: seq<Arg>)
      requires n <= |t|
      ensures args == binder + t[..n]
    {
      args := binder;
      if n > 1 {
        args := TupleToBinder(t, n - 1, args);
        args := args + [t[n - 1]];
      } else if n == 1 {
        args := args + [t[0]];
      }
    }

    method OutputPrimaryKeyToBinder(key: seq<Arg>, binder: seq<Arg>) returns (args: seq<Arg>)
      requires |key| == |primaryKeyName.Columns()|
      ensures args == binder + key
    {
      match primaryKeyName {
        case OneKey(_) =>
          args := binder + key;
        case KeyTuple(_) =>
          args := TupleToBinder(key, |key|, binder);
          assert key[..|key|] == key;
      }
    }

    /** The where clause of every statement that takes a criteria. */
    method AppendCriteria(sqlStr: string, criteria: Criteria) returns (sql: string)
      ensures sql == sqlStr + if criteria.NotEmpty() then " where " + criteria.conditionString else ""
    {
      sql := sqlStr;
      if criteria.NotEmpty() {
        sql := sql + " where ";
        sql := sql + criteria.conditionString;
        Assoc(sqlStr, " where ", criteria.conditionString);
      }
    }

    /** The columns of an update; the last comma, or the blank before the columns, becomes a blank. */
    method AppendAssignments(sqlStr: string, colNames: seq<string>, ghost args: seq<Arg>) returns (sql: string)
      requires |colNames| == |args| && sqlStr != "" && sqlStr[|sqlStr| - 1] == ' '
      ensures sql == sqlStr + if colNames == [] then "" else Text(Joined(Assignments(colNames, args), ",")) + " "
    {
      ghost var items := Assignments(colNames, args);
      assert |items| == |args|;
      hide Text, Joined, SetText, Assignments;
      sql := sqlStr;
      SetTextNone(sqlStr, items);
      for i := 0 to |colNames|
        invariant sql == sqlStr + SetText(items, i)
      {
        AssignmentAdded(colNames, args, i);
        Assoc4(sqlStr, SetText(items, i), colNames[i], " = $?,");
        sql := sql + colNames[i];
        sql := sql + " = $?,";
      }
      SetTextLast(sqlStr, items);
      sql := sql[|sql| - 1 := ' '];
    }

    /** The text of a find statement, and whether it may have holders. */
    method SelectSql(criteria: Criteria) returns (sql: string, hasParameters: bool)
      ensures sql == "select * from " + tableName + (if criteria.NotEmpty() then " where " + criteria.conditionString else "")
                     + orderByString + (if limit > 0 then " limit $?" else "") + (if offset > 0 then " offset $?" else "")
      ensures hasParameters <==> criteria.NotEmpty() || limit > 0 || offset > 0
    {
      sql := "select * from ";
      sql := sql + tableName;
      hasParameters := criteria.NotEmpty();
      sql := AppendCriteria(sql, criteria);
      sql := sql + orderByString;
      if limit > 0 {
        hasParameters := true;
        sql := sql + " limit $?";
      }
      if offset > 0 {
        hasParameters := true;
        sql := sql + " offset $?";
      }
    }

    /** Its arguments: those of the criteria, then the limit, then the offset. */
    method SelectArgs(criteria: Criteria) returns (binder: seq<Arg>)
      modifies criteria`args
      ensures binder == (if criteria.NotEmpty() then old(criteria.args) else [])
                        + (if limit > 0 then [Number(limit)] else []) + (if offset > 0 then [Number(offset)] else [])
      ensures criteria.Spent(old(criteria.args))
    {
      binder := [];
      if criteria.NotEmpty() {
        binder := criteria.OutputArgs(binder);
      }
      if limit > 0 {
        binder := binder + [Number(limit)];
      }
      if offset > 0 {
        binder := binder + [Number(offset)];
      }
    }

    /** `text` is the statement before its holders are replaced: exactly a balanced criteria gives as many holders as
        arguments. */
    method FindBy(criteria: Criteria) returns (q: Query, ghost text: string)
      requires Valid()
      modifies this, criteria`args
      ensures Valid() && Cleared() && criteria.Spent(old(criteria.args))
      ensures text == "select * from " + tableName
                      + (if old(criteria.NotEmpty()) then " where " + criteria.conditionString else "")
                      + old(orderByString) + (if old(limit) > 0 then " limit $?" else "")
                      + (if old(offset) > 0 then " offset $?" else "")
      ensures old(PlainNames()) ==>
                && q.sql == Replaced(client, text, 1) + (if old(forUpdate) then " for update" else "")
                && (Holders(text) == |q.args| <==> criteria.Balanced())
      ensures old(criteria.Balanced() && PlainNames()) ==>
                q == Handed(client, FindStatement(tableName, old(criteria.Meaning()), old(orders), old(limit), old(offset),
                                                  old(forUpdate)))
    {
      ghost var condition, args := criteria.conditionString, criteria.args;
      hide Text, Args, Rendered, Replaced, Holders, Woven, Plain, HoleFree, OrderText, FindStatement, Handed;
      var sql, hasParameters := SelectSql(criteria);
      text := sql;
      if hasParameters {
        sql := ReplaceSqlPlaceHolder(sql);
      }
      if forUpdate {
        sql := sql + " for update";
      }
      var binder := SelectArgs(criteria);
      q := Query(sql, binder);
      if PlainNames() {
        FindDone(client, tableName, condition, args, orders, limit, offset, forUpdate, text, q);
      }
      Clear();
    }

    method UpdateBy(colNames: seq<string>, criteria: Criteria, args: seq<Arg>) returns (q: Query)
      requires |colNames| == |args| > 0
      modifies this, criteria`args
      ensures Valid() && Cleared() && criteria.Spent(old(criteria.args))
      ensures old(criteria.Balanced()) && Plain(tableName) && AllPlain(colNames) ==>
                q == Handed(client, UpdateStatement(tableName, Assignments(colNames, args), old(criteria.Meaning())))
    {
      Clear();
      ghost var items := Assignments(colNames, args);
      assert |items| == |args|;
      ghost var balanced := criteria.Balanced();
      ghost var cond: Statement := [];
      if criteria.Balanced() {
        CriteriaText(criteria);
        cond := criteria.Meaning();
      }
      hide Text, Args, Joined, Lit, Rendered, Replaced, Holders, Woven, Plain, HoleFree, OrderText, Where, Clause, SetText, KeyText;
      hide Assignments, Increments, SelectStatement, UpdateStatement, DeleteStatement, FindStatement, KeyCondition;
      var sql := "update ";
      sql := sql + tableName;
      sql := sql + " set ";
      sql := AppendAssignments(sql, colNames, args);
      sql := AppendCriteria(sql, criteria);
      ghost var text := sql;
      sql := ReplaceSqlPlaceHolder(sql);
      var binder := args;
      if criteria.NotEmpty() {
        binder := criteria.OutputArgs(binder);
      }
      q := Query(sql, binder);
      if balanced && Plain(tableName) && AllPlain(colNames) {
        AssignmentsArgs(colNames, args, ",");
        UpdateText(tableName, items, cond);
        assert text == Text(UpdateStatement(tableName, items, cond));
        ReplacedIsRendered(client, UpdateStatement(tableName, items, cond), 1);
      }
    }

    /** The model's changed columns, found by its primary key. */
    method Update(updateColumns: seq<string>, updateArgs: seq<Arg>, key: seq<Arg>) returns (q: Query)
      requires |updateColumns| == |updateArgs|
      requires |key| == |primaryKeyName.Columns()| > 0
      modifies this
      ensures Valid() && Cleared()
      ensures Plain(tableName) && AllPlain(updateColumns) && AllPlain(primaryKeyName.Columns()) ==>
                q == Handed(client, UpdateStatement(tableName, Assignments(updateColumns, updateArgs),
                                                    KeyCondition(primaryKeyName.Columns(), key)))
    {
      Clear();
      ghost var items := Assignments(updateColumns, updateArgs);
      assert |items| == |updateArgs|;
      hide Text, Args, Joined, Lit, Rendered, Replaced, Holders, Woven, Plain, HoleFree, OrderText, Where, Clause, SetText, KeyText;
      hide Assignments, Increments, SelectStatement, UpdateStatement, DeleteStatement, FindStatement, KeyCondition;
      var sql := "update ";
      sql := sql + tableName;
      sql := sql + " set ";
      sql := AppendAssignments(sql, updateColumns, updateArgs);
      ghost var front := sql;
      sql := MakePrimaryKeyCriteria(sql, key);
      ghost var columns := primaryKeyName.Columns();
      Assoc(front, " where ", KeyText(columns, key, |key|));
      ghost var text := sql;
      sql := ReplaceSqlPlaceHolder(sql);
      var binder := updateArgs;
      binder := OutputPrimaryKeyToBinder(key, binder);
      q := Query(sql, binder);
      if Plain(tableName) && AllPlain(updateColumns) && AllPlain(columns) {
        AssignmentsArgs(updateColumns, updateArgs, ",");
        KeyConditionText(columns, key);
        UpdateText(tableName, items, KeyCondition(columns, key));
        assert text == Text(UpdateStatement(tableName, items, KeyCondition(columns, key)));
        ReplacedIsRendered(client, UpdateStatement(tableName, items, KeyCondition(columns, key)), 1);
      }
    }

    /** A negative number is subtracted by its magnitude. */
    method AppendIncrements(sqlStr: string, colNames: seq<string>, temps: seq<string>, ghost args: seq<int>)
      returns (sql: string)
      requires |colNames| == |temps| == |args| && sqlStr != "" && sqlStr[|sqlStr| - 1] == ' '
      requires forall i | 0 <= i < |args| :: temps[i] == if args[i] < 0 then " - $?," else " + $?,"
      ensures sql == sqlStr + if colNames == [] then "" else Text(Joined(Increments(colNames, args), ",")) + " "
    {
      ghost var items := Increments(colNames, args);
      assert |items| == |args|;
      hide Text, Joined, SetText, Increments;
      sql := sqlStr;
      SetTextNone(sqlStr, items);
      for i := 0 to |colNames|
        invariant sql == sqlStr + SetText(items, i)
      {
        var colName := colNames[i];
        IncrementAdded(colNames, args, i);
        Assoc(sqlStr, SetText(items, i), colName + " = " + colName + temps[i]);
        Assoc4(sql, colName + " = ", colName, temps[i]);
        Assoc(sql, colName, " = ");
        sql := sql + colName;
        sql := sql + " = ";
        sql := sql + colName;
        sql := sql + temps[i];
      }
      SetTextLast(sqlStr, items);
      sql := sql[|sql| - 1 := ' '];
    }

    /** The sign each number is written with, and its magnitude. */
    method Signs(args: seq<int>) returns (temps: seq<string>, magnitudes: seq<Arg>)
      ensures |temps| == |args| && forall i | 0 <= i < |args| :: temps[i] == if args[i] < 0 then " - $?," else " + $?,"
      ensures magnitudes == Magnitudes(args)
    {
      temps, magnitudes := [], [];
      for i := 0 to |args|
        invariant |temps| == |magnitudes| == i
        invariant forall j | 0 <= j < i :: temps[j] == if args[j] < 0 then " - $?," else " + $?,"
        invariant forall j | 0 <= j < i :: magnitudes[j] == Number(if args[j] < 0 then -args[j] else args[j])
      {
        if args[i] < 0 {
          temps, magnitudes := temps + [" - $?,"], magnitudes + [Number(-args[i])];
        } else {
          temps, magnitudes := temps + [" + $?,"], magnitudes + [Number(args[i])];
        }
      }
    }

    method Increment(colNames: seq<string>, criteria: Criteria, args: seq<int>) returns (q: Query)
      requires |colNames| == |args| > 0
      modifies this, criteria`args
      ensures Valid() && Cleared() && criteria.Spent(old(criteria.args))
      ensures old(criteria.Balanced()) && Plain(tableName) && AllPlain(colNames) ==>
                q == Handed(client, UpdateStatement(tableName, Increments(colNames, args), old(criteria.Meaning())))
    {
      Clear();
      ghost var items := Increments(colNames, args);
      assert |items| == |args|;
      ghost var balanced := criteria.Balanced();
      ghost var cond: Statement := [];
      if criteria.Balanced() {
        CriteriaText(criteria);
        cond := criteria.Meaning();
      }
      hide Text, Args, Joined, Lit, Rendered, Replaced, Holders, Woven, Plain, HoleFree, OrderText, Where, Clause, SetText, KeyText;
      hide Assignments, Increments, SelectStatement, UpdateStatement, DeleteStatement, FindStatement, KeyCondition;
      var sql := "update ";
      sql := sql + tableName;
      sql := sql + " set ";
      var temps, magnitudes := Signs(args);
      sql := AppendIncrements(sql, colNames, temps, args);
      sql := AppendCriteria(sql, criteria);
      ghost var text := sql;
      sql := ReplaceSqlPlaceHolder(sql);
      var binder := magnitudes;
      if criteria.NotEmpty() {
        binder := criteria.OutputArgs(binder);
      }
      q := Query(sql, binder);
      if balanced && Plain(tableName) && AllPlain(colNames) {
        IncrementsArgs(colNames, args);
        UpdateText(tableName, items, cond);
        assert text == Text(UpdateStatement(tableName, items, cond));
        ReplacedIsRendered(client, UpdateStatement(tableName, items, cond), 1);
      }
    }

    method DeleteOne(key: seq<Arg>) returns (q: Query)
      requires |key| == |primaryKeyName.Columns()| > 0
      modifies this
      ensures Valid() && Cleared()
      ensures Plain(tableName) && AllPlain(primaryKeyName.Columns()) ==>
                q == Handed(client, DeleteStatement(tableName, " ", KeyCondition(primaryKeyName.Columns(), key)))
    {
      hide Text, Args, Joined, Lit, Rendered, Replaced, Holders, Woven, Plain, HoleFree, OrderText, Where, Clause, SetText, KeyText;
      hide Assignments, Increments, SelectStatement, UpdateStatement, DeleteStatement, FindStatement, KeyCondition;
      Clear();
      var sql := "delete from ";
      sql := sql + tableName;
      sql := sql + " ";
      ghost var start := sql;
      sql := MakePrimaryKeyCriteria(sql, key);
      ghost var columns := primaryKeyName.Columns();
      Assoc(start, " where ", KeyText(columns, key, |key|));
      ghost var text := sql;
      sql := ReplaceSqlPlaceHolder(sql);
      var binder := [];
      binder := OutputPrimaryKeyToBinder(key, binder);
      q := Query(sql, binder);
      if Plain(tableName) && AllPlain(columns) {
        KeyConditionText(columns, key);
        DeleteText(tableName, " ", KeyCondition(columns, key));
        ReplacedIsRendered(client, DeleteStatement(tableName, " ", KeyCondition(columns, key)), 1);
      }
    }

    method DeleteBy(criteria: Criteria) returns (q: Query)
      modifies this, criteria`args
      ensures Valid() && Cleared() && criteria.Spent(old(criteria.args))
      ensures old(criteria.Balanced()) && Plain(tableName) ==>
                q == Handed(client, DeleteStatement(tableName, "", old(criteria.Meaning())))
    {
      ghost var balanced := criteria.Balanced();
      ghost var cond: Statement := [];
      if criteria.Balanced() {
        CriteriaText(criteria);
        cond := criteria.Meaning();
      }
      hide Text, Args, Joined, Lit, Rendered, Replaced, Holders, Woven, Plain, HoleFree, OrderText, Where, Clause, SetText, KeyText;
      hide Assignments, Increments, SelectStatement, UpdateStatement, DeleteStatement, FindStatement, KeyCondition;
      Clear();
      var sql := "delete from ";
      sql := sql + tableName;
      sql := AppendCriteria(sql, criteria);
      ghost var text := sql;
      if criteria.NotEmpty() {
        sql := ReplaceSqlPlaceHolder(sql);
      }
      var binder := [];
      if criteria.NotEmpty() {
        binder := criteria.OutputArgs(binder);
      }
      q := Query(sql, binder);
      if balanced && Plain(tableName) {
        DeleteIsHanded(client, tableName, cond, text, q);
      }
    }
  }
}
