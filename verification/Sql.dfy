/** The text of a statement and its arguments: what the mapper writes and what each database reads. */
module SqlText {
  import opened Sequences
  import opened Strings
  import opened Numerals

  type Value(==, !new)
  datatype Arg = Number(n: int) | Other(v: Value)

  datatype ClientType = PostgreSQL | Mysql | Sqlite3

  /** What the client is given: the text, and the arguments in the order they were pushed. */
  datatype Query = Query(sql: string, args: seq<Arg>)

  /** A statement as it is meant: text with the arguments in their places. */
  datatype Atom = Ch(c: char) | Val(a: Arg)
  type Statement = seq<Atom>

  const HOLDER := "$?"

  function Lit(s: string): (st: Statement)
    ensures |st| == |s| && forall i | 0 <= i < |s| :: st[i] == Ch(s[i])
  {
    seq(|s|, i requires 0 <= i < |s| => Ch(s[i]))
  }

  // ---------------------------------------------------------------- what the mapper writes

  function Text(st: Statement): string {
    if st == [] then ""
    else (if st[0].Val? then HOLDER else [st[0].c]) + Text(st[1..])
  }

  function Args(st: Statement): (args: seq<Arg>)
    ensures |args| <= |st|
  {
    if st == [] then []
    else (if st[0].Val? then [st[0].a] else []) + Args(st[1..])
  }

  function Holder(client: ClientType, k: nat): string {
    if client.PostgreSQL? then "$" + Decimal(k) else "?"
  }

  function Digit(d: nat): (c: char)
    requires d < 10
    ensures IsDigit(c) && DigitValue(c) == d
  {
    '0' + d as char
  }

  function Decimal(n: nat): (s: string)
    ensures |s| > 0 && IsDigit(s[0])
  {
    if n < 10 then [Digit(n)] else Decimal(n / 10) + [Digit(n % 10)]
  }

  /** The statement in the client's dialect, its arguments numbered from k. */
  function Rendered(client: ClientType, st: Statement, k: nat): string {
    if st == [] then ""
    else if st[0].Val? then Holder(client, k) + Rendered(client, st[1..], k + 1)
    else [st[0].c] + Rendered(client, st[1..], k)
  }

  /** The text with every holder replaced, from the left. */
  function Replaced(client: ClientType, s: string, k: nat): string {
    if s == "" then ""
    else if OccursAt(s, HOLDER, 0) then Holder(client, k) + Replaced(client, s[2..], k + 1)
    else [s[0]] + Replaced(client, s[1..], k)
  }

  /** No holder among the statement's own characters. */
  predicate HoleFree(st: Statement) {
    forall i | 0 <= i < |st| - 1 :: st[i] == Ch('$') ==> st[i + 1] != Ch('?')
  }

  predicate Plain(s: string) {
    HoleFree(Lit(s))
  }

  // Where the two texts meet no holder arises.
  predicate Meets(a: Statement, b: Statement) {
    a == [] || b == [] || a[|a| - 1] != Ch('$') || b[0] != Ch('?')
  }

  lemma HoleFreeConcat(a: Statement, b: Statement)
    requires HoleFree(a) && HoleFree(b) && Meets(a, b)
    ensures HoleFree(a + b)
  {
    forall i | 0 <= i < |a + b| - 1
      ensures (a + b)[i] == Ch('$') ==> (a + b)[i + 1] != Ch('?')
    {
      if i >= |a| {
        assert (a + b)[i] == b[i - |a|] && (a + b)[i + 1] == b[i + 1 - |a|];
      }
    }
  }

  lemma HoleFreeTail(st: Statement)
    requires st != [] && HoleFree(st)
    ensures HoleFree(st[1..])
  {
    forall i | 0 <= i < |st[1..]| - 1
      ensures st[1..][i] == Ch('$') ==> st[1..][i + 1] != Ch('?')
    {
      assert st[1..][i] == st[i + 1] && st[1..][i + 1] == st[i + 1 + 1];
    }
  }

  lemma NoHolderFirst(st: Statement)
    requires st != [] && st[0].Ch? && HoleFree(st)
    ensures !OccursAt(Text(st), HOLDER, 0)
  {
    var s, rest := Text(st), st[1..];
    assert s == [st[0].c] + Text(rest);
    HolderFirst(s);
    assert Text(rest) != "" ==> rest != [] && (Text(rest)[0] == '?' <==> st[1] == rest[0] == Ch('?'));
  }

  lemma HolderFirst(s: string)
    ensures OccursAt(s, HOLDER, 0) <==> |s| >= 2 && s[0] == '$' && s[1] == '?'
  {
    if |s| >= 2 {
      assert s[0..2] == [s[0], s[1]];
    }
  }

  lemma {:induction false} ReplacedIsRendered(client: ClientType, st: Statement, k: nat)
    requires HoleFree(st)
    ensures Replaced(client, Text(st), k) == Rendered(client, st, k)
  {
    if st != [] {
      var rest := st[1..];
      HoleFreeTail(st);
      var s := Text(st);
      if st[0].Val? {
        assert s[2..] == Text(rest);
        ReplacedIsRendered(client, rest, k + 1);
      } else {
        assert s[1..] == Text(rest);
        NoHolderFirst(st);
        ReplacedIsRendered(client, rest, k);
      }
    }
  }

  lemma {:induction false} TextConcat(a: Statement, b: Statement)
    ensures Text(a + b) == Text(a) + Text(b) && Args(a + b) == Args(a) + Args(b)
  {
    if a == [] {
      assert a + b == b;
    } else {
      var rest := a[1..];
      assert (a + b)[1..] == rest + b;
      TextConcat(rest, b);
      var text, args := if a[0].Val? then HOLDER else [a[0].c], if a[0].Val? then [a[0].a] else [];
      assert Text(a + b) == text + Text(rest + b) && Text(a) == text + Text(rest);
      assert Args(a + b) == args + Args(rest + b) && Args(a) == args + Args(rest);
      hide *;
      Assoc(text, Text(rest), Text(b));
      Assoc(args, Args(rest), Args(b));
    }
  }

  lemma {:induction false} TextLit(s: string)
    ensures Text(Lit(s)) == s && Args(Lit(s)) == []
  {
    if s != "" {
      assert Lit(s)[1..] == Lit(s[1..]);
      TextLit(s[1..]);
    }
  }

  lemma {:induction false} RenderedLit(client: ClientType, s: string, k: nat)
    ensures Rendered(client, Lit(s), k) == s
  {
    if s != "" {
      assert Lit(s)[1..] == Lit(s[1..]);
      RenderedLit(client, s[1..], k);
    }
  }

  lemma {:induction false} RenderedTail(client: ClientType, st: Statement, s: string, k: nat)
    ensures Rendered(client, st + Lit(s), k) == Rendered(client, st, k) + s
  {
    if st == [] {
      assert st + Lit(s) == Lit(s);
      RenderedLit(client, s, k);
    } else {
      var rest, next := st[1..], if st[0].Val? then k + 1 else k;
      var first := if st[0].Val? then Holder(client, k) else [st[0].c];
      assert (st + Lit(s))[1..] == rest + Lit(s);
      RenderedTail(client, rest, s, next);
      assert Rendered(client, st, k) == first + Rendered(client, rest, next);
      assert Rendered(client, st + Lit(s), k) == first + Rendered(client, rest + Lit(s), next);
      hide *;
      Assoc(first, Rendered(client, rest, next), s);
    }
  }

  // ---------------------------------------------------------------- what the database reads

  /** A statement as the database sees it: text with numbered parameters.  SQLite knows named ones, too, and nothing is
      bound to them. */
  datatype Token = Char(c: char) | Param(n: nat) | Named

  /** PostgreSQL: a dollar sign and digits are the parameter of that number. */
  function ReadDollars(s: string): seq<Token>
    decreases |s|
  {
    if s == "" then []
    else if s[0] == '$' && |s| > 1 && IsDigit(s[1]) then
      var (n, rest) := ReadNumber(0, s[1..]);
      [Param(n)] + ReadDollars(rest)
    else [Char(s[0])] + ReadDollars(s[1..])
  }

  /** MySQL: question marks are the parameters, in order. */
  function ReadQuestions(s: string, k: nat): seq<Token> {
    if s == "" then []
    else if s[0] == '?' then [Param(k)] + ReadQuestions(s[1..], k + 1)
    else [Char(s[0])] + ReadQuestions(s[1..], k)
  }

  /** What can follow the colon, the at sign or the dollar sign of a named parameter of SQLite. */
  predicate IsNameChar(c: char) {
    IsDigit(c) || 'a' <= c <= 'z' || 'A' <= c <= 'Z' || c == '_' || c == '$' || c >= '\U{80}'
  }

  predicate IsSigil(c: char) {
    c == ':' || c == '@' || c == '$'
  }

  /** SQLite: a question mark is the parameter of the next number, or with digits of that number; and there are names. */
  function ReadMarks(s: string, k: nat): seq<Token>
    decreases |s|
  {
    if s == "" then []
    else if s[0] == '?' && |s| > 1 && IsDigit(s[1]) then
      var (n, rest) := ReadNumber(0, s[1..]);
      [Param(n)] + ReadMarks(rest, if n >= k then n + 1 else k)
    else if s[0] == '?' then [Param(k)] + ReadMarks(s[1..], k + 1)
    else if IsSigil(s[0]) && |s| > 1 && IsNameChar(s[1]) then [Named] + ReadMarks(s[1..], k + 1)
    else [Char(s[0])] + ReadMarks(s[1..], k)
  }

  function Read(client: ClientType, s: string, k: nat): seq<Token> {
    match client
    case PostgreSQL => ReadDollars(s)
    case Mysql => ReadQuestions(s, k)
    case Sqlite3 => ReadMarks(s, k)
  }

  /** The statement with its arguments numbered from k. */
  function Meant(st: Statement, k: nat): seq<Token> {
    if st == [] then []
    else if st[0].Val? then [Param(k)] + Meant(st[1..], k + 1)
    else [Char(st[0].c)] + Meant(st[1..], k)
  }

  function Numbers(tokens: seq<Token>): seq<nat> {
    if tokens == [] then []
    else (if tokens[0].Param? then [tokens[0].n] else []) + Numbers(tokens[1..])
  }

  /** The arguments put back where the database sees parameters. */
  function Bound(tokens: seq<Token>, args: seq<Arg>): Option<Statement> {
    if tokens == [] then Some([])
    else
      var rest := Bound(tokens[1..], args);
      if rest.None? then None
      else match tokens[0]
        case Char(c) => Some([Ch(c)] + rest.value)
        case Param(n) => if 1 <= n <= |args| then Some([Val(args[n - 1])] + rest.value) else None
        case Named => None
  }

  predicate StartsWithDigit(st: Statement) {
    st != [] && st[0].Ch? && IsDigit(st[0].c)
  }

  predicate StartsWithName(st: Statement) {
    st != [] && st[0].Ch? && IsNameChar(st[0].c)
  }

  /** The front of the statement does not read as a parameter where none is meant, or as another one.  PostgreSQL minds a
      digit after a dollar sign or an argument, MySQL a question mark, and SQLite a question mark, a digit after an
      argument, and a name after a sigil. */
  predicate FirstClean(client: ClientType, st: Statement)
    requires st != []
  {
    match client
    case PostgreSQL => st[0].Val? || st[0] == Ch('$') ==> !StartsWithDigit(st[1..])
    case Mysql => st[0] != Ch('?')
    case Sqlite3 =>
      if st[0].Val? then !StartsWithDigit(st[1..])
      else st[0].c != '?' && (IsSigil(st[0].c) ==> !StartsWithName(st[1..]))
  }

  predicate Clean(client: ClientType, st: Statement) {
    forall i | 0 <= i < |st| :: FirstClean(client, st[i..])
  }

  lemma CleanStep(client: ClientType, st: Statement)
    requires st != []
    ensures Clean(client, st) <==> Clean(client, st[1..]) && FirstClean(client, st)
  {
    var rest := st[1..];
    hide FirstClean;
    assert st[0..] == st;
    assert forall i | 0 <= i < |rest| :: rest[i..] == st[i + 1..];
    assert forall i | 0 < i < |st| :: st[i..] == rest[i - 1..];
  }

  lemma {:induction false} ReadDecimal(k: nat, rest: string)
    ensures ReadNumber(0, Decimal(k) + rest) == ReadNumber(k, rest)
  {
    if k < 10 {
      assert (Decimal(k) + rest)[1..] == rest;
    } else {
      var last := [Digit(k % 10)];
      assert Decimal(k) + rest == Decimal(k / 10) + (last + rest);
      ReadDecimal(k / 10, last + rest);
      assert (last + rest)[1..] == rest;
    }
  }

  /** A holder's number is written in decimal: its digits stand for it, and the first one is zero only in zero. */
  lemma {:induction false} DecimalMeaning(n: nat)
    ensures AllDigits(Decimal(n)) && Numeral(10, DigitValues(Decimal(n))) == n
    ensures Decimal(n)[0] == '0' ==> n == 0 && |Decimal(n)| == 1
  {
    if n < 10 {
      assert DigitValues(Decimal(n)) == [n] && [n][1..] == [];
    } else {
      DecimalMeaning(n / 10);
      assert DigitValues(Decimal(n)) == DigitValues(Decimal(n / 10)) + [n % 10];
      NumeralAppend(10, DigitValues(Decimal(n / 10)), n % 10);
    }
  }

  lemma RenderedFirst(client: ClientType, st: Statement, k: nat)
    ensures var s := Rendered(client, st, k);
            && (s == "" <==> st == [])
            && (client != Mysql && s != "" ==> (IsDigit(s[0]) <==> StartsWithDigit(st)))
            && (client == Sqlite3 && s != "" ==> (IsNameChar(s[0]) <==> StartsWithName(st)))
  {
  }

  // The first token read back, and what is left to read.
  lemma ReadFirst(client: ClientType, st: Statement, k: nat)
    requires st != [] && k > 0
    ensures var tokens := Read(client, Rendered(client, st, k), k);
            var next := if st[0].Val? then k + 1 else k;
            if FirstClean(client, st) then
              && tokens != [] && tokens[0] == (if st[0].Val? then Param(k) else Char(st[0].c))
              && tokens[1..] == Read(client, Rendered(client, st[1..], next), next)
            else
              && tokens != [] && !tokens[0].Char?
              && (st[0].Val? ==> st[1..] != [] && |tokens| > 1 && tokens[1].Char? ==> Ch(tokens[1].c) != st[1..][0])
  {
    var s := Rendered(client, st, k);
    var next := if st[0].Val? then k + 1 else k;
    RenderedFirst(client, st[1..], next);
    if st[0].Val? && client == PostgreSQL {
      ReadFirstDollar(st, k);
    } else if st[0].Val? && client == Sqlite3 {
      ReadFirstMark(st, k);
    } else {
      assert s[1..] == Rendered(client, st[1..], next);
    }
  }

  lemma ReadFirstDollar(st: Statement, k: nat)
    requires st != [] && k > 0 && st[0].Val?
    ensures var tokens := ReadDollars(Rendered(PostgreSQL, st, k));
            && tokens != [] && tokens[0].Param?
            && if !StartsWithDigit(st[1..]) then
                 tokens[0] == Param(k) && tokens[1..] == ReadDollars(Rendered(PostgreSQL, st[1..], k + 1))
               else
                 |tokens| > 1 && tokens[1].Char? ==> Ch(tokens[1].c) != st[1..][0]
  {
    var s, rest := Rendered(PostgreSQL, st, k), Rendered(PostgreSQL, st[1..], k + 1);
    assert s[1..] == Decimal(k) + rest;
    ReadDecimal(k, rest);
    RenderedFirst(PostgreSQL, st[1..], k + 1);
    var (n, left) := ReadNumber(0, s[1..]);
    assert ReadDollars(s)[1..] == ReadDollars(left);
  }

  lemma ReadFirstMark(st: Statement, k: nat)
    requires st != [] && k > 0 && st[0].Val?
    ensures var tokens := ReadMarks(Rendered(Sqlite3, st, k), k);
            && tokens != [] && tokens[0].Param?
            && if !StartsWithDigit(st[1..]) then
                 tokens[0] == Param(k) && tokens[1..] == ReadMarks(Rendered(Sqlite3, st[1..], k + 1), k + 1)
               else
                 |tokens| > 1 && tokens[1].Char? ==> Ch(tokens[1].c) != st[1..][0]
  {
    var s, rest := Rendered(Sqlite3, st, k), Rendered(Sqlite3, st[1..], k + 1);
    assert s[1..] == rest;
    RenderedFirst(Sqlite3, st[1..], k + 1);
    if StartsWithDigit(st[1..]) {
      var (n, left) := ReadNumber(0, s[1..]);
      assert ReadMarks(s, k)[1..] == ReadMarks(left, if n >= k then n + 1 else k);
    }
  }

  lemma BoundFirst(tokens: seq<Token>, args: seq<Arg>, st: Statement)
    ensures Bound(tokens, args) == Some(st) ==> (tokens == [] <==> st == [])
    ensures tokens != [] && st != [] ==>
              (Bound(tokens, args) == Some(st) <==>
               && Bound(tokens[1..], args) == Some(st[1..])
               && (tokens[0].Char? ==> st[0] == Ch(tokens[0].c)) && !tokens[0].Named?
               && (tokens[0].Param? ==> 1 <= tokens[0].n <= |args| && st[0] == Val(args[tokens[0].n - 1])))
  {
    if st != [] {
      assert st == [st[0]] + st[1..];
    }
  }

  // One token read back: it is the statement's first atom, and the rest is the rest.
  lemma ReadStep(client: ClientType, st: Statement, args: seq<Arg>, k: nat)
    requires st != [] && k > 0
    ensures var next := if st[0].Val? then k + 1 else k;
            Bound(Read(client, Rendered(client, st, k), k), args) == Some(st)
            <==> (FirstClean(client, st) && (st[0].Val? ==> k <= |args| && args[k - 1] == st[0].a)
                  && Bound(Read(client, Rendered(client, st[1..], next), next), args) == Some(st[1..]))
  {
    var tokens := Read(client, Rendered(client, st, k), k);
    ReadFirst(client, st, k);
    hide *;
    BoundFirst(tokens, args, st);
    BoundFirst(tokens[1..], args, st[1..]);
  }

  // Reading on after the arguments already read.
  lemma {:induction false} ReadBackIff(client: ClientType, st: Statement, earlier: seq<Arg>)
    ensures var k := |earlier| + 1;
            Bound(Read(client, Rendered(client, st, k), k), earlier + Args(st)) == Some(st) <==> Clean(client, st)
  {
    hide *;
    var k := |earlier| + 1;
    if st == [] {
      ReadNothing(client, k, earlier + Args(st));
    } else {
      var now := if st[0].Val? then [st[0].a] else [];
      ArgsStep(st);
      Assoc(earlier, now, Args(st[1..]));
      ReadBackIff(client, st[1..], earlier + now);
      CleanStep(client, st);
      ReadStep(client, st, earlier + Args(st), k);
    }
  }

  lemma ReadNothing(client: ClientType, k: nat, args: seq<Arg>)
    ensures Bound(Read(client, Rendered(client, [], k), k), args) == Some([]) && Clean(client, [])
  {
    assert Rendered(client, [], k) == "";
  }

  lemma ArgsStep(st: Statement)
    requires st != []
    ensures Args(st) == (if st[0].Val? then [st[0].a] else []) + Args(st[1..])
  {
  }

  lemma {:induction false} ReadMeant(client: ClientType, st: Statement, k: nat)
    requires k > 0 && Clean(client, st)
    ensures Read(client, Rendered(client, st, k), k) == Meant(st, k)
  {
    if st != [] {
      var next := if st[0].Val? then k + 1 else k;
      hide Read, Rendered, Clean, FirstClean;
      CleanStep(client, st);
      ReadMeant(client, st[1..], next);
      ReadFirst(client, st, k);
      assert Meant(st, k)[1..] == Meant(st[1..], next);
    } else {
      assert Rendered(client, st, k) == "";
    }
  }

  lemma {:induction false} NumbersOfMeant(st: Statement, k: nat)
    ensures |Numbers(Meant(st, k))| == |Args(st)|
    ensures forall i | 0 <= i < |Args(st)| :: Numbers(Meant(st, k))[i] == k + i
  {
    if st != [] {
      var next := if st[0].Val? then k + 1 else k;
      NumbersOfMeant(st[1..], next);
      assert Meant(st, k)[1..] == Meant(st[1..], next);
    }
  }

  /** What is read from a clean text: its parameters are numbered 1, 2, 3 and so on, one for each argument. */
  lemma NumberedInOrder(client: ClientType, st: Statement, k: nat)
    requires k > 0 && Clean(client, st)
    ensures var tokens := Read(client, Rendered(client, st, k), k);
            && tokens == Meant(st, k)
            && |Numbers(tokens)| == |Args(st)| && forall i | 0 <= i < |Args(st)| :: Numbers(tokens)[i] == k + i
  {
    hide *;
    ReadMeant(client, st, k);
    NumbersOfMeant(st, k);
  }

  /** What a database makes of a query. */
  function Understood(client: ClientType, q: Query): Option<Statement> {
    Bound(Read(client, q.sql, 1), q.args)
  }

  /** The query as the mapper hands it over. */
  function Handed(client: ClientType, st: Statement): Query {
    Query(Rendered(client, st, 1), Args(st))
  }

  /** A database understands a statement as it was meant exactly when the text is clean; so on clean statements all
      of them understand the same. */
  lemma DialectsAgree(client: ClientType, st: Statement)
    ensures Understood(client, Handed(client, st)) == Some(st) <==> Clean(client, st)
  {
    ReadBackIff(client, st, []);
    assert [] + Args(st) == Args(st);
    hide Bound, Read, Rendered, Clean;
  }

  // A question mark in a name is one parameter too many for MySQL, "$1" in a name is one for PostgreSQL, and SQLite takes
  // a digit after a holder for the parameter's number.
  lemma NamesMistaken()
    ensures Understood(Mysql, Handed(Mysql, Lit("a?"))) != Some(Lit("a?"))
    ensures Understood(PostgreSQL, Handed(PostgreSQL, Lit("$1"))) != Some(Lit("$1"))
    ensures var st := [Val(Number(7)), Ch('1')]; Understood(Sqlite3, Handed(Sqlite3, st)) != Some(st)
  {
    var a, b, c := Lit("a?"), Lit("$1"), [Val(Number(7)), Ch('1')];
    assert !FirstClean(Mysql, a[1..]);
    assert b[0..] == b && b[1..][0] == Ch('1') && !FirstClean(PostgreSQL, b[0..]);
    assert c[0..] == c && c[1..][0] == Ch('1') && !FirstClean(Sqlite3, c[0..]);
    assert !Clean(Mysql, a) && !Clean(PostgreSQL, b) && !Clean(Sqlite3, c);
    hide *;
    DialectsAgree(Mysql, a);
    DialectsAgree(PostgreSQL, b);
    DialectsAgree(Sqlite3, c);
  }

  // ---------------------------------------------------------------- statements from text and arguments

  function Holders(s: string): nat {
    if s == "" then 0
    else if OccursAt(s, HOLDER, 0) then 1 + Holders(s[2..])
    else Holders(s[1..])
  }

  lemma {:induction false} HoldersConcat(a: string, b: string)
    requires a == "" || b == "" || a[|a| - 1] != '$' || b[0] != '?'
    ensures Holders(a + b) == Holders(a) + Holders(b)
  {
    if a == "" {
      assert a + b == b;
    } else {
      HolderFirst(a);
      HolderFirst(a + b);
      if OccursAt(a, HOLDER, 0) {
        assert (a + b)[2..] == a[2..] + b;
        HoldersConcat(a[2..], b);
      } else {
        assert (a + b)[1..] == a[1..] + b;
        HoldersConcat(a[1..], b);
      }
    }
  }

  lemma {:induction false} NoHolders(client: ClientType, s: string, k: nat)
    requires Holders(s) == 0
    ensures Replaced(client, s, k) == s
  {
    if s != "" {
      NoHolders(client, s[1..], k);
    }
  }

  /** The statement that a text with holders and its arguments stand for. */
  function Woven(s: string, args: seq<Arg>): Statement
    requires Holders(s) == |args|
  {
    if s == "" then []
    else if OccursAt(s, HOLDER, 0) then [Val(args[0])] + Woven(s[2..], args[1..])
    else [Ch(s[0])] + Woven(s[1..], args)
  }

  lemma {:induction false} WovenMeaning(s: string, args: seq<Arg>)
    requires Holders(s) == |args|
    ensures var st := Woven(s, args);
            && Text(st) == s && Args(st) == args && HoleFree(st)
            && (st == [] <==> s == "")
            && (s != "" && st[0].Ch? ==> st[0].c == s[0])
  {
    if s != "" {
      var st := Woven(s, args);
      if OccursAt(s, HOLDER, 0) {
        WovenMeaning(s[2..], args[1..]);
        assert st[1..] == Woven(s[2..], args[1..]);
        assert s == s[0..2] + s[2..];
        HoleFreeConcat([Val(args[0])], Woven(s[2..], args[1..]));
      } else {
        WovenMeaning(s[1..], args);
        assert st[1..] == Woven(s[1..], args);
        assert s == [s[0]] + s[1..];
        HolderFirst(s);
        HoleFreeConcat([Ch(s[0])], Woven(s[1..], args));
      }
    }
  }

  // There is only one such statement.
  lemma {:induction false} WovenUnique(st: Statement)
    requires HoleFree(st)
    ensures Holders(Text(st)) == |Args(st)| && Woven(Text(st), Args(st)) == st
  {
    if st != [] {
      var rest := st[1..];
      var s := Text(st);
      HoleFreeTail(st);
      WovenUnique(rest);
      if st[0].Val? {
        assert s[0..2] == HOLDER && s[2..] == Text(rest);
        assert Args(st)[1..] == Args(rest);
        assert st == [Val(Args(st)[0])] + rest;
      } else {
        assert s[1..] == Text(rest);
        NoHolderFirst(st);
        assert st == [Ch(s[0])] + rest;
        assert Args(st) == Args(rest);
        assert s != "" && Holders(s) == Holders(Text(rest));
        assert Woven(s, Args(st)) == [Ch(s[0])] + Woven(Text(rest), Args(rest));
      }
    }
  }
}
