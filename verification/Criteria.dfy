/** Criteria: a condition as text with holders, and its arguments. */
module OrmCriteria {
  import opened Sequences
  import opened Strings
  import opened SqlText

  datatype CompareOperator = EQ | NE | GT | GE | LT | LE | Like | NotLike | In | NotIn | IsNull | IsNotNull

  // ---------------------------------------------------------------- conditions, as meant

  function Joined(items: seq<Statement>, sep: string): Statement {
    if items == [] then []
    else if |items| == 1 then items[0]
    else Joined(items[..|items| - 1], sep) + Lit(sep) + items[|items| - 1]
  }

  function Operator(opera: CompareOperator): string {
    match opera
    case EQ => " = "
    case NE => " != "
    case GT => " > "
    case GE => " >= "
    case LT => " < "
    case LE => " <= "
    case Like => " like "
    case NotLike => " not like "
    case In => " in ("
    case NotIn => " not in ("
    case IsNull => " is null"
    case IsNotNull => " is not null"
  }

  function Values(args: seq<Arg>): seq<Statement> {
    seq(|args|, i requires 0 <= i < |args| => [Val(args[i])])
  }

  function Comparison(colName: string, opera: CompareOperator, arg: Arg): Statement {
    Lit(colName + Operator(opera)) + [Val(arg)]
  }

  function Membership(colName: string, opera: CompareOperator, args: seq<Arg>): Statement {
    Lit(colName + Operator(opera)) + Joined(Values(args), ",") + Lit(")")
  }

  // ---------------------------------------------------------------- no holder arises where pieces meet

  lemma PlainConcat(a: string, b: string)
    requires Plain(a) && Plain(b)
    requires a == "" || b == "" || a[|a| - 1] != '$' || b[0] != '?'
    ensures Plain(a + b)
  {
    HoleFreeConcat(Lit(a), Lit(b));
    assert Lit(a + b) == Lit(a) + Lit(b);
  }

  predicate AllHoleFree(items: seq<Statement>) {
    forall i | 0 <= i < |items| :: HoleFree(items[i])
  }

  lemma {:induction false} JoinedHoleFree(items: seq<Statement>, sep: string)
    requires AllHoleFree(items) && Plain(sep)
    requires sep != "" && sep[0] != '?' && sep[|sep| - 1] != '$'
    ensures HoleFree(Joined(items, sep))
  {
    if |items| > 1 {
      var init, last := items[..|items| - 1], items[|items| - 1];
      JoinedHoleFree(init, sep);
      HoleFreeConcat(Joined(init, sep), Lit(sep));
      HoleFreeConcat(Joined(init, sep) + Lit(sep), last);
    }
  }

  lemma JoinedMore(items: seq<Statement>, item: Statement, sep: string)
    ensures var gap := if items == [] then "" else sep;
            && Text(Joined(items + [item], sep)) == Text(Joined(items, sep)) + gap + Text(item)
            && Args(Joined(items + [item], sep)) == Args(Joined(items, sep)) + Args(item)
  {
    if items != [] {
      var all := items + [item];
      assert all[..|all| - 1] == items;
      TextConcat(Joined(items, sep), Lit(sep));
      TextConcat(Joined(items, sep) + Lit(sep), item);
      TextLit(sep);
    } else {
      assert items + [item] == [item];
    }
  }

  // Items of one argument each.
  lemma {:induction false} ItemsArgs(items: seq<Statement>, args: seq<Arg>, sep: string)
    requires |items| == |args| && forall i | 0 <= i < |args| :: Args(items[i]) == [args[i]]
    ensures Args(Joined(items, sep)) == args
  {
    if args != [] {
      var n := |args| - 1;
      assert items == items[..n] + [items[n]] && args == args[..n] + [args[n]];
      ItemsArgs(items[..n], args[..n], sep);
      JoinedMore(items[..n], items[n], sep);
    }
  }

  // ---------------------------------------------------------------- their texts

  lemma PlainOperator(opera: CompareOperator)
    ensures Plain(Operator(opera)) && Operator(opera) != "" && Operator(opera)[0] == ' '
  {
  }

  lemma ComparisonText(colName: string, opera: CompareOperator, arg: Arg)
    ensures Text(Comparison(colName, opera, arg)) == colName + Operator(opera) + "$?"
    ensures Args(Comparison(colName, opera, arg)) == [arg]
    ensures Plain(colName) ==> HoleFree(Comparison(colName, opera, arg))
  {
    var text, value := Lit(colName + Operator(opera)), [Val(arg)];
    TextConcat(text, value);
    TextLit(colName + Operator(opera));
    assert Text(value) == "$?" && Args(value) == [arg];
    if Plain(colName) {
      PlainOperator(opera);
      assert HoleFree(value);
      hide *;
      PlainConcat(colName, Operator(opera));
      HoleFreeConcat(text, value);
    }
    assert Comparison(colName, opera, arg) == text + value;
    hide *;
  }

  lemma MembershipText(colName: string, opera: CompareOperator, args: seq<Arg>)
    ensures Text(Membership(colName, opera, args)) == colName + Operator(opera) + Text(Joined(Values(args), ",")) + ")"
    ensures Args(Membership(colName, opera, args)) == args
    ensures Plain(colName) ==> HoleFree(Membership(colName, opera, args))
  {
    var a, b, c := Lit(colName + Operator(opera)), Joined(Values(args), ","), Lit(")");
    TextConcat(a, b);
    TextConcat(a + b, c);
    TextLit(colName + Operator(opera));
    TextLit(")");
    forall i | 0 <= i < |args| ensures Args(Values(args)[i]) == [args[i]] {
    }
    ItemsArgs(Values(args), args, ",");
    if Plain(colName) {
      MembershipHoleFree(colName, opera, args);
    }
    assert Membership(colName, opera, args) == a + b + c;
    hide *;
  }

  lemma MembershipHoleFree(colName: string, opera: CompareOperator, args: seq<Arg>)
    requires Plain(colName)
    ensures HoleFree(Membership(colName, opera, args))
  {
    var a, b, c := Lit(colName + Operator(opera)), Joined(Values(args), ","), Lit(")");
    PlainConcat(colName, Operator(opera));
    JoinedHoleFree(Values(args), ",");
    HoleFreeConcat(a, b);
    HoleFreeConcat(a + b, c);
  }

  lemma MembershipStands(colName: string, opera: CompareOperator, args: seq<Arg>, s: string)
    requires s == colName + Operator(opera) + MembersUpTo(args, |args|) + ")"
    ensures s != ""
    ensures Plain(colName) ==> Holders(s) == |args| && Woven(s, args) == Membership(colName, opera, args)
  {
    MembersAll(args);
    MembershipText(colName, opera, args);
    hide *;
    StandsFor(s, args, Membership(colName, opera, args));
  }

  /** What the loop has written after n arguments. */
  function MembersUpTo(args: seq<Arg>, n: nat): string
    requires n <= |args|
  {
    Text(Joined(Values(args[..n]), ",")) + if 0 < n < |args| then "," else ""
  }

  lemma MembersAll(args: seq<Arg>)
    ensures MembersUpTo(args, |args|) == Text(Joined(Values(args), ","))
  {
    assert args[..|args|] == args;
  }

  lemma MembersText(args: seq<Arg>, n: nat)
    requires n < |args|
    ensures MembersUpTo(args, 0) == ""
    ensures MembersUpTo(args, n + 1) == MembersUpTo(args, n) + if n < |args| - 1 then "$?," else "$?"
  {
    var item := [Val(args[n])];
    assert Values(args[..n + 1]) == Values(args[..n]) + [item];
    JoinedMore(Values(args[..n]), item, ",");
    assert Text(item) == "$?";
  }

  /** A holder and what closes it. */
  predicate HolderAt(s: string, at: nat, closing: char) {
    at + 2 < |s| && s[at] == '$' && s[at + 1] == '?' && s[at + 2] == closing
  }

  // The holders are three characters apart.
  lemma {:induction false} MembersAt(args: seq<Arg>, n: nat)
    requires n <= |args|
    ensures var s := MembersUpTo(args, n);
            && |s| == 3 * n - (if 0 < n == |args| then 1 else 0)
            && forall i | 0 <= i < n :: HolderAt(s + ")", 3 * i, if i < |args| - 1 then ',' else ')')
  {
    if n > 0 {
      MembersAt(args, n - 1);
      MembersText(args, n - 1);
      var before, s := MembersUpTo(args, n - 1), MembersUpTo(args, n);
      hide MembersUpTo;
      forall i | 0 <= i < n
        ensures HolderAt(s + ")", 3 * i, if i < |args| - 1 then ',' else ')')
      {
        if i < n - 1 {
          assert HolderAt(before + ")", 3 * i, ',');
        }
      }
    } else {
      assert MembersUpTo(args, 0) == "" by {
        assert Values(args[..0]) == [];
      }
    }
  }

  lemma MembersInPlace(args: seq<Arg>, front: string, s: string)
    requires s == front + MembersUpTo(args, |args|) + ")" && args != []
    ensures |s| == |front| + 3 * |args| && s[..|front|] == front
    ensures forall i | 0 <= i < |args| :: HolderAt(s, |front| + 3 * i, if i < |args| - 1 then ',' else ')')
  {
    MembersAt(args, |args|);
    var members := MembersUpTo(args, |args|) + ")";
    hide MembersUpTo;
    assert s == front + members;
    forall i | 0 <= i < |args|
      ensures HolderAt(s, |front| + 3 * i, if i < |args| - 1 then ',' else ')')
    {
      assert HolderAt(members, 3 * i, if i < |args| - 1 then ',' else ')');
    }
  }

  // A text and its arguments stand for the statement they come from.
  lemma StandsFor(s: string, args: seq<Arg>, st: Statement)
    requires s == Text(st) && args == Args(st)
    ensures HoleFree(st) ==> Holders(s) == |args| && Woven(s, args) == st
  {
    if HoleFree(st) {
      WovenUnique(st);
    }
  }

  // ---------------------------------------------------------------- the class

  class Criteria {
    var conditionString: string
    var args: seq<Arg>       // what outputArgs pushes
    var movable: set<nat>    // the arguments it moves out: those a custom criteria was given as temporaries

    /** operator bool. */
    predicate NotEmpty()
      reads this
    {
      conditionString != ""
    }

    predicate Balanced()
      reads this
    {
      NotEmpty() ==> Holders(conditionString) == |args|
    }

    /** The condition as it is meant: its arguments in the places of its holders. */
    function Meaning(): (st: Statement)
      reads this
      requires Balanced()
    {
      if NotEmpty() then Woven(conditionString, args) else []
    }

    /** No argument is moved out when it is pushed. */
    ghost predicate KeepsArgs()
      reads this
    {
      forall i | 0 <= i < |args| :: i !in movable
    }

    /** What one push leaves of the given arguments. */
    ghost predicate LeftOf(before: seq<Arg>)
      reads this
    {
      |args| == |before| && forall i | 0 <= i < |args| && i !in movable :: args[i] == before[i]
    }

    /** What a statement leaves of them: an empty criteria pushes nothing. */
    ghost predicate Spent(before: seq<Arg>)
      reads this
    {
      if NotEmpty() then LeftOf(before) else args == before
    }

    constructor ()
      ensures Balanced() && Meaning() == [] && KeepsArgs()
    {
      conditionString, args, movable := "", [], {};
    }

    /** Custom text: it is balanced when the caller gave one argument for each holder.  The closure keeps the arguments
        and forwards them as they were given, so it moves the temporaries among them out. */
    constructor Custom(sql: string, arguments: seq<Arg>, temporaries: set<nat>)
      ensures conditionString == sql && args == arguments && movable == temporaries
      ensures Balanced() <==> sql == "" || Holders(sql) == |arguments|
    {
      conditionString, args, movable := sql, arguments, temporaries;
    }

    /** Pushes the arguments; what is left of one that has been moved out is not known. */
    method OutputArgs(binder: seq<Arg>) returns (pushed: seq<Arg>)
      modifies this`args
      ensures pushed == binder + old(args) && LeftOf(old(args))
    {
      pushed := binder;
      ghost var before := args;
      assert before[..|before|] == before;
      for i := 0 to |args|
        invariant |args| == |before| && pushed == binder + before[..i]
        invariant forall j | i <= j < |args| :: args[j] == before[j]
        invariant LeftOf(before)
      {
        pushed := pushed + [args[i]];
        if i in movable {
          var left: Arg := *;
          args := args[i := left];
        }
      }
    }

    /** The assertion lets In and NotIn through, and they leave an argument without a holder. */
    constructor Compare(colName: string, opera: CompareOperator, arg: Arg)
      requires opera != IsNull && opera != IsNotNull
      ensures opera == EQ ==> conditionString == colName + " = $?"
      ensures opera == NE ==> conditionString == colName + " != $?"
      ensures opera == GT ==> conditionString == colName + " > $?"
      ensures opera == GE ==> conditionString == colName + " >= $?"
      ensures opera == LT ==> conditionString == colName + " < $?"
      ensures opera == LE ==> conditionString == colName + " <= $?"
      ensures opera == Like ==> conditionString == colName + " like $?"
      ensures opera == NotLike ==> conditionString == colName + " not like $?"
      ensures opera == In || opera == NotIn ==> conditionString == colName
      ensures args == [arg]
      ensures Plain(colName) ==> (Balanced() <==> (opera != In && opera != NotIn) || colName == "")
      ensures Plain(colName) && opera != In && opera != NotIn ==> Balanced() && Meaning() == Comparison(colName, opera, arg)
      ensures KeepsArgs()
    {
      conditionString := colName;
      args, movable := [arg], {};
      new;
      hide Holders, Woven, Text, HoleFree, Args, Lit, Comparison;
      match opera {
        case EQ => conditionString := conditionString + " = $?";
        case NE => conditionString := conditionString + " != $?";
        case GT => conditionString := conditionString + " > $?";
        case GE => conditionString := conditionString + " >= $?";
        case LT => conditionString := conditionString + " < $?";
        case LE => conditionString := conditionString + " <= $?";
        case Like => conditionString := conditionString + " like $?";
        case NotLike => conditionString := conditionString + " not like $?";
        case _ =>
      }
      if opera != In && opera != NotIn {
        assert conditionString == colName + Operator(opera) + "$?" by {
          Assoc(colName, Operator(opera), "$?");
        }
        ComparisonText(colName, opera, arg);
        StandsFor(conditionString, args, Comparison(colName, opera, arg));
      } else {
        TextLit(colName);
        StandsFor(conditionString, [], Lit(colName));
      }
    }

    constructor Among(colName: string, opera: CompareOperator, arguments: seq<Arg>)
      requires (opera == In || opera == NotIn) && |arguments| > 0
      ensures var front := colName + if opera == In then " in (" else " not in (";
              && |conditionString| == |front| + 3 * |arguments| && conditionString[..|front|] == front
              && forall i | 0 <= i < |arguments| ::
                   HolderAt(conditionString, |front| + 3 * i, if i < |arguments| - 1 then ',' else ')')
      ensures args == arguments
      ensures Plain(colName) ==> Balanced() && Meaning() == Membership(colName, opera, arguments)
      ensures KeepsArgs()
    {
      conditionString := if opera == In then colName + " in (" else colName + " not in (";
      args, movable := arguments, {};
      new;
      ghost var start := conditionString;
      assert start == colName + Operator(opera);
      hide Operator, Text, Joined, Values, Holders, Woven, Plain, Membership, HoleFree, Args, MembersUpTo, Lit, HolderAt;
      MembersText(arguments, 0);
      Assoc(start, "", "");
      for i := 0 to |arguments|
        invariant args == arguments && movable == {}
        invariant conditionString == start + MembersUpTo(arguments, i)
      {
        MembersText(arguments, i);
        Assoc(start, MembersUpTo(arguments, i), if i < |arguments| - 1 then "$?," else "$?");
        if i < |arguments| - 1 {
          conditionString := conditionString + "$?,";
        } else {
          conditionString := conditionString + "$?";
        }
      }
      conditionString := conditionString + ")";
      MembershipStands(colName, opera, arguments, conditionString);
      MembersInPlace(arguments, start, conditionString);
    }

    constructor Null(colName: string, opera: CompareOperator)
      requires opera == IsNull || opera == IsNotNull
      ensures opera == IsNull ==> conditionString == colName + " is null"
      ensures opera == IsNotNull ==> conditionString == colName + " is not null"
      ensures args == []
      ensures Plain(colName) ==> Balanced() && Meaning() == Lit(colName + Operator(opera))
      ensures KeepsArgs()
    {
      conditionString := colName;
      args, movable := [], {};
      new;
      match opera {
        case IsNull => conditionString := conditionString + " is null";
        case IsNotNull => conditionString := conditionString + " is not null";
        case _ =>
      }
      TextLit(colName + Operator(opera));
      if Plain(colName) {
        PlainConcat(colName, Operator(opera));
      }
      StandsFor(conditionString, args, Lit(colName + Operator(opera)));
    }
  }

  // A criteria's text and arguments are those of its meaning.
  lemma CriteriaText(criteria: Criteria)
    requires criteria.Balanced()
    ensures HoleFree(criteria.Meaning())
    ensures criteria.Meaning() == [] <==> !criteria.NotEmpty()
    ensures criteria.NotEmpty() ==>
              Text(criteria.Meaning()) == criteria.conditionString && Args(criteria.Meaning()) == criteria.args
    ensures !criteria.NotEmpty() ==> Args(criteria.Meaning()) == []
  {
    if criteria.NotEmpty() {
      WovenMeaning(criteria.conditionString, criteria.args);
    }
  }
}
