/** The statements of the mapper as they are meant, and what their texts and arguments are. */
module OrmStatements {
  import opened Sequences
  import opened Strings
  import opened SqlText
  import opened OrmCriteria

  datatype SortOrder = ASC | DESC

  datatype Order = Order(colName: string, order: SortOrder)

  // ---------------------------------------------------------------- the statements

  function Where(cond: Statement): Statement {
    if cond == [] then [] else Lit(" where ") + cond
  }

  function Clause(keyword: string, n: nat): Statement {
    if n > 0 then Lit(keyword) + [Val(Number(n))] else []
  }

  function OrderItem(o: Order): string {
    o.colName + if o.order == DESC then " desc" else ""
  }

  /** The columns in the order they were given, separated by commas. */
  function OrderText(orders: seq<Order>): string {
    if orders == [] then ""
    else if |orders| == 1 then " order by " + OrderItem(orders[0])
    else OrderText(orders[..|orders| - 1]) + "," + OrderItem(orders[|orders| - 1])
  }

  function SelectStatement(tableName: string, cond: Statement, orderBy: string, limit: nat, offset: nat): Statement {
    Lit("select * from " + tableName) + Where(cond) + Lit(orderBy) + Clause(" limit ", limit) + Clause(" offset ", offset)
  }

  function FindStatement(
    tableName: string, cond: Statement, orders: seq<Order>, limit: nat, offset: nat, forUpdate: bool): Statement
  {
    SelectStatement(tableName, cond, OrderText(orders), limit, offset) + Lit(if forUpdate then " for update" else "")
  }

  function Assignments(colNames: seq<string>, args: seq<Arg>): seq<Statement>
    requires |colNames| == |args|
  {
    seq(|args|, i requires 0 <= i < |args| => Comparison(colNames[i], EQ, args[i]))
  }

  /** col = col + n, or col = col - |n|: the bound number is never negative. */
  function Increment(colName: string, n: int): Statement {
    if n < 0 then Lit(colName + " = " + colName + " - ") + [Val(Number(-n))]
    else Lit(colName + " = " + colName + " + ") + [Val(Number(n))]
  }

  function Increments(colNames: seq<string>, args: seq<int>): seq<Statement>
    requires |colNames| == |args|
  {
    seq(|args|, i requires 0 <= i < |args| => Increment(colNames[i], args[i]))
  }

  function UpdateStatement(tableName: string, items: seq<Statement>, cond: Statement): Statement {
    Lit("update " + tableName + " set ") + (if items == [] then [] else Joined(items, ",") + Lit(" ")) + Where(cond)
  }

  function DeleteStatement(tableName: string, gap: string, cond: Statement): Statement {
    Lit("delete from " + tableName + gap) + Where(cond)
  }

  /** The condition that the primary key has the given value. */
  function KeyCondition(names: seq<string>, key: seq<Arg>): Statement
    requires |names| == |key|
  {
    Joined(Assignments(names, key), " and ")
  }

  // ---------------------------------------------------------------- pieces

  predicate AllPlain(names: seq<string>) {
    forall i | 0 <= i < |names| :: Plain(names[i])
  }

  // A piece that starts with a blank, if it is there at all, can follow any other.
  predicate Blank(st: Statement) {
    st == [] || st[0] == Ch(' ')
  }

  lemma BlankFollows(a: Statement, b: Statement)
    requires HoleFree(a) && HoleFree(b) && Blank(b)
    ensures HoleFree(a + b)
  {
    HoleFreeConcat(a, b);
  }

  lemma PiecesText(a: Statement, b: Statement, c: Statement)
    ensures Text(a + b + c) == Text(a) + Text(b) + Text(c) && Args(a + b + c) == Args(a) + Args(b) + Args(c)
    ensures HoleFree(a) && HoleFree(b) && HoleFree(c) && (Meets(a, b) || Blank(b)) && Blank(c) ==> HoleFree(a + b + c)
  {
    TextConcat(a, b);
    TextConcat(a + b, c);
    if HoleFree(a) && HoleFree(b) && HoleFree(c) && (Meets(a, b) || Blank(b)) && Blank(c) {
      HoleFreeConcat(a, b);
      HoleFreeConcat(a + b, c);
    }
  }

  lemma WhereText(cond: Statement)
    requires HoleFree(cond)
    ensures Text(Where(cond)) == (if cond == [] then "" else " where " + Text(cond)) && Args(Where(cond)) == Args(cond)
    ensures HoleFree(Where(cond)) && Blank(Where(cond))
  {
    TextConcat(Lit(" where "), cond);
    TextLit(" where ");
    HoleFreeConcat(Lit(" where "), cond);
  }

  lemma ClauseText(keyword: string, n: nat)
    requires Plain(keyword) && keyword != "" && keyword[0] == ' '
    ensures Text(Clause(keyword, n)) == (if n > 0 then keyword + "$?" else "")
    ensures Args(Clause(keyword, n)) == if n > 0 then [Number(n)] else []
    ensures HoleFree(Clause(keyword, n)) && Blank(Clause(keyword, n))
  {
    if n > 0 {
      TextConcat(Lit(keyword), [Val(Number(n))]);
      TextLit(keyword);
      assert Text([Val(Number(n))]) == "$?" && Args([Val(Number(n))]) == [Number(n)];
      HoleFreeConcat(Lit(keyword), [Val(Number(n))]);
    }
  }

  lemma ClausesText(limit: nat, offset: nat)
    ensures var d, e := Clause(" limit ", limit), Clause(" offset ", offset);
            && HoleFree(d) && Blank(d) && HoleFree(e) && Blank(e)
            && Text(d) == (if limit > 0 then " limit $?" else "") && Text(e) == (if offset > 0 then " offset $?" else "")
            && Args(d) == (if limit > 0 then [Number(limit)] else [])
            && Args(e) == (if offset > 0 then [Number(offset)] else [])
  {
    assert " limit " + "$?" == " limit $?" && " offset " + "$?" == " offset $?";
    ClauseText(" limit ", limit);
    ClauseText(" offset ", offset);
  }

  lemma {:induction false} OrderTextShape(orders: seq<Order>)
    ensures orders == [] <==> OrderText(orders) == ""
    ensures orders != [] ==> OrderText(orders)[0] == ' '
    ensures (forall i | 0 <= i < |orders| :: Plain(orders[i].colName)) ==> Plain(OrderText(orders))
  {
    if orders != [] {
      var init, last := orders[..|orders| - 1], orders[|orders| - 1];
      OrderTextShape(init);
      if forall i | 0 <= i < |orders| :: Plain(orders[i].colName) {
        PlainConcat(last.colName, if last.order == DESC then " desc" else "");
        PlainConcat(" order by ", OrderItem(last));
        PlainConcat(OrderText(init), ",");
        PlainConcat(OrderText(init) + ",", OrderItem(last));
      }
    }
  }

  lemma OrderTextMore(orders: seq<Order>, o: Order, suffix: string)
    requires suffix == if o.order == DESC then " desc" else ""
    ensures OrderText(orders + [o])
            == (if orders == [] then " order by " else OrderText(orders) + ",") + o.colName + suffix
    ensures suffix == "" ==> OrderText(orders + [o])
                             == (if orders == [] then " order by " else OrderText(orders) + ",") + o.colName
  {
    var more := orders + [o];
    assert more[..|more| - 1] == orders && more[|more| - 1] == o;
    var front := if orders == [] then " order by " else OrderText(orders) + ",";
    assert OrderText(more) == front + OrderItem(o);
    assert OrderItem(o) == o.colName + suffix;
    hide *;
    Assoc(front, o.colName, suffix);
  }

  lemma AssignmentsText(colNames: seq<string>, args: seq<Arg>, n: nat)
    requires n < |args| == |colNames|
    ensures Assignments(colNames[..0], args[..0]) == []
    ensures Assignments(colNames[..n + 1], args[..n + 1])
            == Assignments(colNames[..n], args[..n]) + [Comparison(colNames[n], EQ, args[n])]
  {
  }

  lemma AssignmentsArgs(colNames: seq<string>, args: seq<Arg>, sep: string)
    requires |args| == |colNames|
    ensures Args(Joined(Assignments(colNames, args), sep)) == args
    ensures AllPlain(colNames) ==> AllHoleFree(Assignments(colNames, args))
  {
    forall i | 0 <= i < |args|
      ensures Args(Assignments(colNames, args)[i]) == [args[i]]
      ensures Plain(colNames[i]) ==> HoleFree(Assignments(colNames, args)[i])
    {
      ComparisonText(colNames[i], EQ, args[i]);
    }
    ItemsArgs(Assignments(colNames, args), args, sep);
  }

  lemma IncrementText(colName: string, n: int)
    ensures Text(Increment(colName, n)) == colName + " = " + colName + (if n < 0 then " - $?" else " + $?")
    ensures Args(Increment(colName, n)) == [Number(if n < 0 then -n else n)]
    ensures Plain(colName) ==> HoleFree(Increment(colName, n))
  {
    var text := colName + " = " + colName + if n < 0 then " - " else " + ";
    var value := Val(Number(if n < 0 then -n else n));
    TextConcat(Lit(text), [value]);
    TextLit(text);
    assert Text([value]) == "$?" && Args([value]) == [value.a];
    if Plain(colName) {
      PlainConcat(colName, " = ");
      PlainConcat(colName + " = ", colName);
      PlainConcat(colName + " = " + colName, if n < 0 then " - " else " + ");
      HoleFreeConcat(Lit(text), [value]);
    }
  }

  /** What the bound numbers are. */
  function Magnitudes(args: seq<int>): seq<Arg> {
    seq(|args|, i requires 0 <= i < |args| => Number(if args[i] < 0 then -args[i] else args[i]))
  }

  lemma IncrementsArgs(colNames: seq<string>, args: seq<int>)
    requires |args| == |colNames|
    ensures Args(Joined(Increments(colNames, args), ",")) == Magnitudes(args)
    ensures AllPlain(colNames) ==> AllHoleFree(Increments(colNames, args))
  {
    forall i | 0 <= i < |args|
      ensures Args(Increments(colNames, args)[i]) == [Magnitudes(args)[i]]
      ensures Plain(colNames[i]) ==> HoleFree(Increments(colNames, args)[i])
    {
      IncrementText(colNames[i], args[i]);
    }
    ItemsArgs(Increments(colNames, args), Magnitudes(args), ",");
  }

  // ---------------------------------------------------------------- whole statements

  lemma SelectText(tableName: string, cond: Statement, orderBy: string, limit: nat, offset: nat)
    requires HoleFree(cond) && Plain(tableName) && Plain(orderBy) && (orderBy == "" || orderBy[0] == ' ')
    ensures var st := SelectStatement(tableName, cond, orderBy, limit, offset);
            && HoleFree(st)
            && Text(st) == "select * from " + tableName + (if cond == [] then "" else " where " + Text(cond)) + orderBy
                           + (if limit > 0 then " limit $?" else "") + (if offset > 0 then " offset $?" else "")
            && Args(st) == Args(cond) + (if limit > 0 then [Number(limit)] else [])
                           + (if offset > 0 then [Number(offset)] else [])
  {
    var a, b, c := Lit("select * from " + tableName), Where(cond), Lit(orderBy);
    var d, e := Clause(" limit ", limit), Clause(" offset ", offset);
    PlainConcat("select * from ", tableName);
    TextLit("select * from " + tableName);
    TextLit(orderBy);
    WhereText(cond);
    assert HoleFree(a) && HoleFree(c) && Blank(b) && Blank(c);
    assert SelectStatement(tableName, cond, orderBy, limit, offset) == a + b + c + d + e;
    hide *;
    ClausesText(limit, offset);
    PiecesText(a, b, c);
    PiecesText(a + b + c, d, e);
    assert Args(a + b + c) == Args(cond);
    var st := a + b + c + d + e;
    assert Text(st) == Text(a) + Text(b) + Text(c) + Text(d) + Text(e);
    assert Args(st) == Args(cond) + Args(d) + Args(e);
  }

  // Every holder of a select text that the criteria does not bring has its argument.
  lemma SelectHolders(tableName: string, condition: string, orderBy: string, limit: nat, offset: nat)
    requires Plain(tableName) && Plain(orderBy) && (orderBy == "" || orderBy[0] == ' ')
    ensures Holders("select * from " + tableName + (if condition == "" then "" else " where " + condition) + orderBy
                    + (if limit > 0 then " limit $?" else "") + (if offset > 0 then " offset $?" else ""))
            == Holders(condition) + (if limit > 0 then 1 else 0) + (if offset > 0 then 1 else 0)
    ensures condition == "" ==> Holders(condition) == 0
  {
    var a, b := "select * from " + tableName, if condition == "" then "" else " where " + condition;
    var d, e := if limit > 0 then " limit $?" else "", if offset > 0 then " offset $?" else "";
    PlainConcat("select * from ", tableName);
    hide Holders, Plain, Clause, Text, Args;
    PlainHolders(a);
    PlainHolders(orderBy);
    PlainHolders(" where ");
    HoldersConcat(" where ", condition);
    ClauseHolders(limit, offset);
    hide *;
    HoldersConcat(a, b);
    HoldersConcat(a + b, orderBy);
    HoldersConcat(a + b + orderBy, d);
    HoldersConcat(a + b + orderBy + d, e);
  }

  lemma ClauseHolders(limit: nat, offset: nat)
    ensures Holders(if limit > 0 then " limit $?" else "") == if limit > 0 then 1 else 0
    ensures Holders(if offset > 0 then " offset $?" else "") == if offset > 0 then 1 else 0
    ensures Holders("") == 0
  {
    ClausesText(limit, offset);
    WovenUnique(Clause(" limit ", limit));
    WovenUnique(Clause(" offset ", offset));
  }

  lemma PlainHolders(s: string)
    requires Plain(s)
    ensures Holders(s) == 0
  {
    TextLit(s);
    WovenUnique(Lit(s));
  }

  lemma UpdateText(tableName: string, items: seq<Statement>, cond: Statement)
    requires HoleFree(cond) && Plain(tableName) && AllHoleFree(items)
    ensures var st := UpdateStatement(tableName, items, cond);
            && HoleFree(st)
            && Text(st) == "update " + tableName + " set " + (if items == [] then "" else Text(Joined(items, ",")) + " ")
                           + (if cond == [] then "" else " where " + Text(cond))
            && Args(st) == Args(Joined(items, ",")) + Args(cond)
  {
    var a, b := Lit("update " + tableName + " set "), if items == [] then [] else Joined(items, ",") + Lit(" ");
    PlainConcat("update ", tableName);
    PlainConcat("update " + tableName, " set ");
    TextLit("update " + tableName + " set ");
    WhereText(cond);
    if items != [] {
      TextConcat(Joined(items, ","), Lit(" "));
      TextLit(" ");
      JoinedHoleFree(items, ",");
      HoleFreeConcat(Joined(items, ","), Lit(" "));
    }
    assert Meets(a, b);
    assert UpdateStatement(tableName, items, cond) == a + b + Where(cond);
    assert Args(a) == [] && Args(b) == Args(Joined(items, ","));
    assert Text(b) == if items == [] then "" else Text(Joined(items, ",")) + " ";
    hide *;
    PiecesText(a, b, Where(cond));
    assert [] + Args(b) == Args(b);
  }

  lemma DeleteText(tableName: string, gap: string, cond: Statement)
    requires HoleFree(cond) && Plain(tableName) && (gap == "" || gap == " ")
    ensures var st := DeleteStatement(tableName, gap, cond);
            && HoleFree(st)
            && Text(st) == "delete from " + tableName + gap + (if cond == [] then "" else " where " + Text(cond))
            && Args(st) == Args(cond)
  {
    var a := Lit("delete from " + tableName + gap);
    PlainConcat("delete from ", tableName);
    PlainConcat("delete from " + tableName, gap);
    TextLit("delete from " + tableName + gap);
    WhereText(cond);
    assert HoleFree(a) && DeleteStatement(tableName, gap, cond) == a + Where(cond);
    hide *;
    TextConcat(a, Where(cond));
    BlankFollows(a, Where(cond));
    assert [] + Args(cond) == Args(cond);
  }

  // The arguments of a find statement, whatever its names are.
  lemma FindArgs(tableName: string, cond: Statement, orders: seq<Order>, limit: nat, offset: nat)
    ensures Args(FindStatement(tableName, cond, orders, limit, offset, false))
            == Args(cond) + Args(Clause(" limit ", limit)) + Args(Clause(" offset ", offset))
  {
    var a, b, c := Lit("select * from " + tableName), Where(cond), Lit(OrderText(orders));
    var d, e := Clause(" limit ", limit), Clause(" offset ", offset);
    TextLit("select * from " + tableName);
    TextLit(OrderText(orders));
    TextLit(" where ");
    TextConcat(Lit(" where "), cond);
    assert Args(b) == Args(cond);
    assert FindStatement(tableName, cond, orders, limit, offset, false) == a + b + c + d + e;
    hide *;
    TextConcat(a, b);
    TextConcat(a + b, c);
    TextConcat(a + b + c, d);
    TextConcat(a + b + c + d, e);
    assert [] + Args(cond) + [] == Args(cond);
  }

  lemma FindHanded(
    client: ClientType, tableName: string, cond: Statement, orders: seq<Order>, limit: nat, offset: nat, forUpdate: bool)
    ensures var st := SelectStatement(tableName, cond, OrderText(orders), limit, offset);
            Handed(client, FindStatement(tableName, cond, orders, limit, offset, forUpdate))
            == Query(Rendered(client, st, 1) + (if forUpdate then " for update" else ""), Args(st))
  {
    var st := SelectStatement(tableName, cond, OrderText(orders), limit, offset);
    var tail := if forUpdate then " for update" else "";
    RenderedTail(client, st, tail, 1);
    TextConcat(st, Lit(tail));
    TextLit(tail);
  }

  lemma {:induction false} NothingToReplace(client: ClientType, st: Statement, k: nat)
    requires Args(st) == []
    ensures Rendered(client, st, k) == Text(st)
  {
    if st != [] {
      NothingToReplace(client, st[1..], k);
    }
  }
}
