/** Pagination: reading page after page. */
module Pagination {
  import opened Sequences
  import opened SqlText
  import opened OrmCriteria
  import opened OrmStatements
  import opened OrmMapper
  import opened Powers

  type Row

  /** The rows that a limit and an offset leave: skip, then take. A limit of 0 is no limit. */
  function Window(rows: seq<Row>, limit: nat, offset: nat): seq<Row> {
    var rest := if offset <= |rows| then rows[offset..] else [];
    if limit == 0 || |rest| <= limit then rest else rest[..limit]
  }

  /** The database answers the find statements of one criteria and order out of the given rows. */
  ghost predicate Answers(
    exec: Query -> seq<Row>, client: ClientType, tableName: string, cond: Statement, orders: seq<Order>, rows: seq<Row>)
  {
    forall limit: nat, offset: nat ::
      exec(Handed(client, FindStatement(tableName, cond, orders, limit, offset, false))) == Window(rows, limit, offset)
  }

  function Upto(rows: seq<Row>, n: nat): seq<Row> {
    if n <= |rows| then rows[..n] else rows
  }

  // One page more.
  lemma PageTiles(rows: seq<Row>, page: nat, perPage: nat)
    requires page > 0 && perPage > 0
    ensures Upto(rows, (page - 1) * perPage) + Window(rows, perPage, (page - 1) * perPage) == Upto(rows, page * perPage)
  {
    assert page * perPage == (page - 1) * perPage + perPage;
  }

  /** Row i is the given entry of the given page. */
  predicate OnPage(rows: seq<Row>, perPage: nat, page: nat, entry: nat, i: nat) {
    && page > 0
    && var skipped := (page - 1) * perPage;
      entry < |Window(rows, perPage, skipped)| && skipped + entry == i
  }

  lemma PlaceOf(perPage: nat, page: nat, entry: nat, i: nat)
    requires perPage > 0 && page > 0
    ensures entry < perPage && (page - 1) * perPage + entry == i <==> page == i / perPage + 1 && entry == i % perPage
  {
    if entry < perPage && (page - 1) * perPage + entry == i {
      DivUnique(i, perPage, page - 1, entry);
    }
    if page == i / perPage + 1 && entry == i % perPage {
      assert page - 1 == i / perPage;
    }
  }

  lemma WindowAt(rows: seq<Row>, limit: nat, offset: nat, k: nat)
    requires limit > 0 && offset + k < |rows|
    ensures k < |Window(rows, limit, offset)| <==> k < limit
    ensures k < limit ==> Window(rows, limit, offset)[k] == rows[offset + k]
  {
  }

  /** Every row is on exactly one page, in one place there. */
  lemma OnOnePage(rows: seq<Row>, perPage: nat, page: nat, entry: nat, i: nat)
    requires i < |rows| && perPage > 0
    ensures OnPage(rows, perPage, page, entry, i) <==> page == i / perPage + 1 && entry == i % perPage
    ensures OnPage(rows, perPage, page, entry, i) ==> Window(rows, perPage, (page - 1) * perPage)[entry] == rows[i]
  {
    if page > 0 {
      var skipped := (page - 1) * perPage;
      PlaceOf(perPage, page, entry, i);
      hide Window;
      if skipped + entry == i {
        WindowAt(rows, perPage, skipped, entry);
      }
    }
  }

  // ---------------------------------------------------------------- reading them with one criteria

  /** What a criteria may push when it has pushed its arguments so many times before. */
  ghost predicate MayPush(args: seq<Arg>, movable: set<nat>, before: nat, pushed: seq<Arg>) {
    |pushed| == |args| && forall i | 0 <= i < |args| && (before == 0 || i !in movable) :: pushed[i] == args[i]
  }

  function PageQuery(
    client: ClientType, tableName: string, text: string, pushed: seq<Arg>, orders: seq<Order>, perPage: nat, page: nat): Query
    requires Holders(text) == |pushed| && page > 0
  {
    Handed(client, FindStatement(tableName, Woven(text, pushed), orders, perPage, (page - 1) * perPage, false))
  }

  /** Every page is asked for with the arguments the criteria was made of. */
  ghost predicate SamePages(
    client: ClientType, tableName: string, text: string, args: seq<Arg>, movable: set<nat>, orders: seq<Order>,
    perPage: nat, pages: nat)
    requires Holders(text) == |args|
  {
    forall page: nat, pushed | 1 <= page <= pages && MayPush(args, movable, page - 1, pushed) ::
      PageQuery(client, tableName, text, pushed, orders, perPage, page)
      == PageQuery(client, tableName, text, args, orders, perPage, page)
  }

  /** One criteria does for all pages if and only if it has nothing to move out, or there is no second page. */
  lemma SamePagesIff(
    client: ClientType, tableName: string, text: string, args: seq<Arg>, movable: set<nat>, orders: seq<Order>,
    perPage: nat, pages: nat)
    requires text != "" && Holders(text) == |args|
    ensures SamePages(client, tableName, text, args, movable, orders, perPage, pages)
            <==> pages <= 1 || forall i | 0 <= i < |args| :: i !in movable
  {
    if pages > 1 {
      if i :| 0 <= i < |args| && i in movable {
        var other := Number(if args[i].Number? then args[i].n + 1 else 0);
        var pushed := args[i := other];
        assert MayPush(args, movable, 1, pushed);
        PushedShows(client, tableName, text, args, pushed, orders, perPage);
      }
    }
    if pages <= 1 || forall i | 0 <= i < |args| :: i !in movable {
      forall page: nat, pushed | 1 <= page <= pages && MayPush(args, movable, page - 1, pushed)
        ensures PageQuery(client, tableName, text, pushed, orders, perPage, page)
                == PageQuery(client, tableName, text, args, orders, perPage, page)
      {
        assert pushed == args;
      }
    }
  }

  // The query shows which arguments were pushed.
  lemma PushedShows(
    client: ClientType, tableName: string, text: string, args: seq<Arg>, pushed: seq<Arg>, orders: seq<Order>, perPage: nat)
    requires text != "" && Holders(text) == |args| == |pushed| && pushed != args
    ensures PageQuery(client, tableName, text, pushed, orders, perPage, 2)
            != PageQuery(client, tableName, text, args, orders, perPage, 2)
  {
    PageArgs(client, tableName, text, args, orders, perPage);
    PageArgs(client, tableName, text, pushed, orders, perPage);
  }

  lemma PageArgs(
    client: ClientType, tableName: string, text: string, pushed: seq<Arg>, orders: seq<Order>, perPage: nat)
    requires text != "" && Holders(text) == |pushed|
    ensures pushed <= PageQuery(client, tableName, text, pushed, orders, perPage, 2).args
  {
    WovenMeaning(text, pushed);
    FindArgs(tableName, Woven(text, pushed), orders, perPage, perPage);
    hide Woven, Args, FindStatement, Rendered, Holders, Clause;
  }

  // A custom criteria given one temporary: the second page may be asked for with something else.
  lemma SecondPageLost(value: Value)
    ensures Holders("a = $?") == 1
    ensures !SamePages(PostgreSQL, "t", "a = $?", [Other(value)], {0}, [], 10, 2)
  {
    assert "a = $?" == "a = " + "$?";
    TextLit("a = ");
    TextConcat(Lit("a = "), [Val(Other(value))]);
    assert Text([Val(Other(value))]) == "$?" && Args([Val(Other(value))]) == [Other(value)];
    HoleFreeConcat(Lit("a = "), [Val(Other(value))]);
    WovenUnique(Lit("a = ") + [Val(Other(value))]);
    SamePagesIff(PostgreSQL, "t", "a = $?", [Other(value)], {0}, [], 10, 2);
    assert [Other(value)][0] == Other(value);
  }

  /** Reading the pages one after another gives the rows once each, in order, and leaves no state behind; with a criteria
      that is used for several pages, if it keeps its arguments. */
  method ReadPages(
    mapper: Mapper, criteria: Criteria, colName: string, order: SortOrder, perPage: nat, pages: nat,
    exec: Query -> seq<Row>, ghost rows: seq<Row>)
    returns (got: seq<Row>)
    requires mapper.Valid() && mapper.Cleared() && mapper.PlainNames() && Plain(colName)
    requires criteria.Balanced() && perPage > 0 && (criteria.KeepsArgs() || pages <= 1)
    requires Answers(exec, mapper.client, mapper.tableName, criteria.Meaning(), [Order(colName, order)], rows)
    modifies mapper, criteria`args
    ensures got == Upto(rows, pages * perPage)
    ensures mapper.Valid() && mapper.Cleared()
  {
    hide Woven, Holders, Rendered, Plain, Window;
    ghost var cond := criteria.Meaning();
    got := [];
    for page := 1 to pages + 1
      invariant mapper.Valid() && mapper.Cleared() && mapper.PlainNames()
      invariant page <= pages ==> criteria.args == old(criteria.args)
      invariant got == Upto(rows, (page - 1) * perPage)
    {
      mapper.OrderBy(colName, order);
      mapper.Paginate(page, perPage);
      assert criteria.Meaning() == cond && mapper.orders == [Order(colName, order)];
      var q, _ := mapper.FindBy(criteria);
      assert q == Handed(mapper.client, FindStatement(mapper.tableName, cond, [Order(colName, order)], perPage, (page - 1) * perPage, false));
      PageTiles(rows, page, perPage);
      got := got + exec(q);
    }
  }
}
