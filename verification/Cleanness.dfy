/** Which names a database misreads: each statement is understood exactly when the names and the criteria in it are clean. */
module OrmCleanness {
  import opened Sequences
  import opened Strings
  import opened SqlText
  import opened OrmCriteria
  import opened OrmStatements

  // ---------------------------------------------------------------- pieces

  /** The second piece cannot be read on from the first. */
  predicate Apart(a: Statement, b: Statement) {
    !StartsWithName(b) || a == [] || (a[|a| - 1].Ch? && !IsSigil(a[|a| - 1].c))
  }

  lemma {:induction false} CleanConcat(client: ClientType, a: Statement, b: Statement)
    requires Apart(a, b)
    ensures Clean(client, a + b) <==> Clean(client, a) && Clean(client, b)
  {
    if a == [] {
      assert a + b == b;
    } else {
      assert (a + b)[1..] == a[1..] + b;
      hide Clean;
      CleanConcat(client, a[1..], b);
      CleanStep(client, a + b);
      CleanStep(client, a);
      assert |a| > 1 ==> (a[1..] + b)[0] == a[1..][0];
      EmptyClean(client);
    }
  }

  lemma EmptyClean(client: ClientType)
    ensures Clean(client, [])
  {
  }

  /** No character that could start a parameter. */
  predicate Fixed(s: string) {
    forall i | 0 <= i < |s| :: s[i] != '?' && !IsSigil(s[i])
  }

  lemma {:induction false} CleanFixed(client: ClientType, s: string)
    requires Fixed(s)
    ensures Clean(client, Lit(s))
  {
  }

  // Text put in front of or behind other text.
  lemma CleanText(client: ClientType, a: string, b: string)
    requires Apart(Lit(a), Lit(b))
    ensures Clean(client, Lit(a + b)) <==> Clean(client, Lit(a)) && Clean(client, Lit(b))
  {
    assert Lit(a + b) == Lit(a) + Lit(b);
    CleanConcat(client, Lit(a), Lit(b));
  }

  lemma CleanArgument(client: ClientType, a: string, arg: Arg)
    ensures Clean(client, Lit(a) + [Val(arg)]) <==> Clean(client, Lit(a))
  {
    var value := [Val(arg)];
    assert Clean(client, value) by {
      CleanStep(client, value);
      EmptyClean(client);
    }
    CleanConcat(client, Lit(a), value);
  }

  lemma ClauseClean(client: ClientType, keyword: string, n: nat)
    requires Fixed(keyword)
    ensures Clean(client, Clause(keyword, n))
  {
    EmptyClean(client);
    CleanFixed(client, keyword);
    CleanArgument(client, keyword, Number(n));
  }

  lemma WhereClean(client: ClientType, cond: Statement)
    ensures Clean(client, Where(cond)) <==> Clean(client, cond)
    ensures !StartsWithName(Where(cond))
  {
    CleanFixed(client, " where ");
    CleanConcat(client, Lit(" where "), cond);
  }

  ghost predicate AllClean(client: ClientType, items: seq<Statement>) {
    forall i | 0 <= i < |items| :: Clean(client, items[i])
  }

  // Items joined by fixed text.
  lemma {:induction false} JoinedClean(client: ClientType, items: seq<Statement>, sep: string)
    requires Fixed(sep) && sep != "" && !IsNameChar(sep[0])
    ensures Clean(client, Joined(items, sep)) <==> AllClean(client, items)
  {
    hide *;
    if |items| <= 1 {
      JoinedFew(client, items, sep);
    } else {
      var init, last := items[..|items| - 1], items[|items| - 1];
      JoinedSplit(client, items, sep);
      JoinedClean(client, init, sep);
      CleanFixed(client, sep);
      SepApart(Joined(init, sep), sep, last);
      CleanConcat(client, Joined(init, sep), Lit(sep));
      CleanConcat(client, Joined(init, sep) + Lit(sep), last);
    }
  }

  lemma JoinedFew(client: ClientType, items: seq<Statement>, sep: string)
    requires |items| <= 1
    ensures Clean(client, Joined(items, sep)) <==> AllClean(client, items)
  {
    EmptyClean(client);
    hide Clean;
  }

  lemma JoinedSplit(client: ClientType, items: seq<Statement>, sep: string)
    requires |items| > 1
    ensures var init, last := items[..|items| - 1], items[|items| - 1];
            && Joined(items, sep) == Joined(init, sep) + Lit(sep) + last
            && (AllClean(client, items) <==> AllClean(client, init) && Clean(client, last))
  {
    hide Clean;
  }

  lemma SepApart(a: Statement, sep: string, b: Statement)
    requires Fixed(sep) && sep != "" && !IsNameChar(sep[0])
    ensures Apart(a, Lit(sep)) && Apart(a + Lit(sep), b)
  {
    hide IsNameChar;
  }

  ghost predicate NamesClean(client: ClientType, names: seq<string>) {
    forall i | 0 <= i < |names| :: Clean(client, Lit(names[i]))
  }

  // ---------------------------------------------------------------- items of an update

  lemma AssignmentsClean(client: ClientType, colNames: seq<string>, args: seq<Arg>)
    requires |colNames| == |args|
    ensures AllClean(client, Assignments(colNames, args)) <==> NamesClean(client, colNames)
  {
    forall i | 0 <= i < |args|
      ensures Clean(client, Assignments(colNames, args)[i]) <==> Clean(client, Lit(colNames[i]))
    {
      CleanFixed(client, " = ");
      CleanText(client, colNames[i], " = ");
      CleanArgument(client, colNames[i] + " = ", args[i]);
    }
    hide Assignments, Clean;
  }

  lemma IncrementsClean(client: ClientType, colNames: seq<string>, args: seq<int>)
    requires |colNames| == |args|
    ensures AllClean(client, Increments(colNames, args)) <==> NamesClean(client, colNames)
  {
    forall i | 0 <= i < |args|
      ensures Clean(client, Increments(colNames, args)[i]) <==> Clean(client, Lit(colNames[i]))
    {
      IncrementClean(client, colNames[i], args[i]);
    }
    hide Increment, Clean;
  }

  lemma IncrementClean(client: ClientType, colName: string, n: int)
    ensures Clean(client, Increment(colName, n)) <==> Clean(client, Lit(colName))
  {
    var sign := if n < 0 then " - " else " + ";
    hide Clean;
    CleanFixed(client, " = ");
    CleanFixed(client, sign);
    CleanText(client, colName, " = ");
    CleanText(client, colName + " = ", colName);
    CleanText(client, colName + " = " + colName, sign);
    CleanArgument(client, colName + " = " + colName + sign, Number(if n < 0 then -n else n));
  }

  // ---------------------------------------------------------------- whole statements

  /** A find statement is understood by the database exactly when the names and the criteria in it are clean. */
  lemma FindUnderstood(
    client: ClientType, tableName: string, cond: Statement, orders: seq<Order>, limit: nat, offset: nat, forUpdate: bool)
    ensures var st := FindStatement(tableName, cond, orders, limit, offset, forUpdate);
            Understood(client, Handed(client, st)) == Some(st)
            <==> Clean(client, Lit(tableName)) && Clean(client, cond) && Clean(client, Lit(OrderText(orders)))
  {
    var a, b, c := Lit("select * from " + tableName), Where(cond), Lit(OrderText(orders));
    var d, e, f := Clause(" limit ", limit), Clause(" offset ", offset), Lit(if forUpdate then " for update" else "");
    OrderTextShape(orders);
    FindPiecesClean(client, tableName, cond, limit, offset, forUpdate);
    DialectsAgree(client, FindStatement(tableName, cond, orders, limit, offset, forUpdate));
    assert !StartsWithName(c) && !StartsWithName(d) && !StartsWithName(e) && !StartsWithName(f);
    assert FindStatement(tableName, cond, orders, limit, offset, forUpdate) == a + b + c + d + e + f;
    hide Clean, FindStatement, SelectStatement, Where, Clause, OrderText, Lit, Understood, Handed;
    CleanConcat(client, a, b);
    CleanConcat(client, a + b, c);
    CleanConcat(client, a + b + c, d);
    CleanConcat(client, a + b + c + d, e);
    CleanConcat(client, a + b + c + d + e, f);
  }

  lemma FindPiecesClean(client: ClientType, tableName: string, cond: Statement, limit: nat, offset: nat, forUpdate: bool)
    ensures Clean(client, Lit("select * from " + tableName)) <==> Clean(client, Lit(tableName))
    ensures Clean(client, Where(cond)) <==> Clean(client, cond)
    ensures !StartsWithName(Where(cond))
    ensures Clean(client, Clause(" limit ", limit)) && Clean(client, Clause(" offset ", offset))
    ensures Clean(client, Lit(if forUpdate then " for update" else ""))
  {
    SelectClean(client, tableName);
    FixedPieces(client, limit, offset, forUpdate);
    hide *;
    WhereClean(client, cond);
  }

  lemma SelectClean(client: ClientType, tableName: string)
    ensures Clean(client, Lit("select * from " + tableName)) <==> Clean(client, Lit(tableName))
  {
    hide Clean;
    CleanFixed(client, "select * from ");
    CleanText(client, "select * from ", tableName);
  }

  lemma FixedPieces(client: ClientType, limit: nat, offset: nat, forUpdate: bool)
    ensures Clean(client, Clause(" limit ", limit)) && Clean(client, Clause(" offset ", offset))
    ensures Clean(client, Lit(if forUpdate then " for update" else ""))
  {
    hide Clean, Clause;
    CleanFixed(client, if forUpdate then " for update" else "");
    ClauseClean(client, " limit ", limit);
    ClauseClean(client, " offset ", offset);
  }

  /** So is an update, whose items are clean when its columns are. */
  lemma UpdateUnderstood(client: ClientType, tableName: string, items: seq<Statement>, cond: Statement)
    ensures var st := UpdateStatement(tableName, items, cond);
            Understood(client, Handed(client, st)) == Some(st)
            <==> Clean(client, Lit(tableName)) && AllClean(client, items) && Clean(client, cond)
  {
    var a, b := Lit("update " + tableName + " set "), if items == [] then [] else Joined(items, ",") + Lit(" ");
    assert UpdateStatement(tableName, items, cond) == a + b + Where(cond);
    assert Apart(a, b);
    hide *;
    UpdatePiecesClean(client, tableName, items);
    WhereClean(client, cond);
    DialectsAgree(client, UpdateStatement(tableName, items, cond));
    UnnamedApart(a + b, Where(cond));
    CleanConcat(client, a, b);
    CleanConcat(client, a + b, Where(cond));
  }

  lemma UnnamedApart(a: Statement, b: Statement)
    requires !StartsWithName(b)
    ensures Apart(a, b)
  {
  }

  lemma UpdatePiecesClean(client: ClientType, tableName: string, items: seq<Statement>)
    ensures Clean(client, Lit("update " + tableName + " set ")) <==> Clean(client, Lit(tableName))
    ensures Clean(client, if items == [] then [] else Joined(items, ",") + Lit(" ")) <==> AllClean(client, items)
  {
    CleanFixed(client, "update ");
    CleanFixed(client, " set ");
    CleanFixed(client, " ");
    CleanText(client, "update ", tableName);
    CleanText(client, "update " + tableName, " set ");
    JoinedClean(client, items, ",");
    EmptyClean(client);
    hide Clean, Joined;
    CleanConcat(client, Joined(items, ","), Lit(" "));
  }

  /** And so is a delete. */
  lemma DeleteUnderstood(client: ClientType, tableName: string, gap: string, cond: Statement)
    requires gap == "" || gap == " "
    ensures var st := DeleteStatement(tableName, gap, cond);
            Understood(client, Handed(client, st)) == Some(st) <==> Clean(client, Lit(tableName)) && Clean(client, cond)
  {
    var a := Lit("delete from " + tableName + gap);
    CleanFixed(client, "delete from ");
    CleanFixed(client, gap);
    CleanText(client, "delete from ", tableName);
    CleanText(client, "delete from " + tableName, gap);
    WhereClean(client, cond);
    DialectsAgree(client, DeleteStatement(tableName, gap, cond));
    hide Clean, Where, Lit, Understood, Handed;
    CleanConcat(client, a, Where(cond));
  }
}
