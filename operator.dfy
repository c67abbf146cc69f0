/**
 * The closed set of filter operators (operator.go): the token a client writes in a
 * `filter` value, the SQL keyword it stands for, and the predicates the builder uses
 * to pick the shape of a fragment.
 */
module Operators {
  import opened GoStrings

  /**
   * One constructor per constant of operator.go:5-24, in the same order. Go's `IsNull`
   * and `IsNotNull` constants are `Null` and `NotNull` here, since `IsNull` names the
   * predicate. Go's Operator is a string type, so any other token is `Other(token)`;
   * the zero value `""` is `Other("")`.
   */
  datatype Operator =
    | Equal | NotEqual | Like | ILike | OrLike | OrILike | NotLike | NotILike
    | LessThan | LessThanOrEqual | GreaterThan | GreaterThanOrEqual
    | Between | Or | In | NotIn | Null | NotNull
    | Other(token: string)
  {
    /** `Other` is kept for tokens that are not one of the 18 named ones. */
    predicate WellFormed()
    {
      Other? ==> !IsNamedToken(token)
    }

    /**
     * String(): the raw token. A named operator's token is non-empty and holds no hyphen,
     * so it fits between the hyphens of a `filter` value.
     */
    function String(): (s: string)
      ensures !Other? ==> s != "" && '-' !in s
    {
      match this
      case Equal => "eq"
      case NotEqual => "neq"
      case Like => "like"
      case ILike => "ilike"
      case OrLike => "orlike"
      case OrILike => "orilike"
      case NotLike => "nlike"
      case NotILike => "nilike"
      case LessThan => "lt"
      case LessThanOrEqual => "lte"
      case GreaterThan => "gt"
      case GreaterThanOrEqual => "gte"
      case Between => "btw"
      case Or => "or"
      case In => "in"
      case NotIn => "notin"
      case Null => "isnull"
      case NotNull => "isnotnull"
      case Other(t) => t
    }

    /**
     * Convert(): the SQL keyword of the operator. Only `or` and the tokens outside the
     * named set have none.
     */
    function Convert(): (sql: string)
      ensures sql == "" <==> (this == Or || this.Other?)
    {
      match this
      case Equal => "="
      case NotEqual => "!="
      case Like => "LIKE"
      case ILike => "ILIKE"
      case OrLike => "LIKE"
      case OrILike => "ILIKE"
      case NotLike => "NOT LIKE"
      case NotILike => "NOT ILIKE"
      case LessThan => "<"
      case LessThanOrEqual => "<="
      case GreaterThan => ">"
      case GreaterThanOrEqual => ">="
      case Between => "BETWEEN"
      case In => "IN"
      case NotIn => "NOT IN"
      case Null => "IS NULL"
      case NotNull => "IS NOT NULL"
      case _ => ""
    }

    /** The pattern-matching family: exactly the operators whose keyword is a LIKE form. */
    predicate IsLike(): (b: bool)
      ensures b <==> Convert() in {"LIKE", "ILIKE", "NOT LIKE", "NOT ILIKE"}
    {
      (this == Like || this == OrLike || this == ILike || this == OrILike) || (this == NotLike || this == NotILike)
    }

    predicate IsBetween(): (b: bool)
      ensures b <==> Convert() == "BETWEEN"
    {
      this == Between
    }

    predicate IsIn(): (b: bool)
      ensures b <==> Convert() == "IN"
    {
      this == In
    }

    predicate IsNotIn(): (b: bool)
      ensures b <==> Convert() == "NOT IN"
    {
      this == NotIn
    }

    /** The null checks: exactly the operators whose keyword is an IS [NOT] NULL test. */
    predicate IsNull(): (b: bool)
      ensures b <==> Convert() in {"IS NULL", "IS NOT NULL"}
    {
      this == Null || this == NotNull
    }
  }

  /** The 18 named operators, in the order of operator.go:5-24. */
  const Named: seq<Operator> :=
    [Equal, NotEqual, Like, ILike, OrLike, OrILike, NotLike, NotILike,
     LessThan, LessThanOrEqual, GreaterThan, GreaterThanOrEqual,
     Between, Or, In, NotIn, Null, NotNull]

  /** `s` is the token of one of the named operators. */
  predicate IsNamedToken(s: string)
  {
    exists k :: 0 <= k < |Named| && Named[k].String() == s
  }

  /** Go's conversion `Operator(s)`: the operator a token names. */
  function FromToken(s: string): (op: Operator)
    ensures op.String() == s
    ensures op.Other? <==> !IsNamedToken(s)
  {
    var op := NamedLookup(s, Named);
    LookupShape(s, op);
    op
  }

  /** The first of `ops` whose token is `s`, or `Other(s)` when none is. */
  function NamedLookup(s: string, ops: seq<Operator>): (op: Operator)
    ensures op.String() == s
    ensures op in ops || op == Other(s)
    ensures op !in ops ==> forall k :: 0 <= k < |ops| ==> ops[k].String() != s
  {
    if ops == [] then Other(s)
    else if ops[0].String() == s then ops[0]
    else NamedLookup(s, ops[1..])
  }

  /** Where a named operator sits in `Named`. */
  function NamedIndex(op: Operator): (k: nat)
    requires !op.Other?
    ensures k < |Named| && Named[k] == op
  {
    match op
    case Equal => 0
    case NotEqual => 1
    case Like => 2
    case ILike => 3
    case OrLike => 4
    case OrILike => 5
    case NotLike => 6
    case NotILike => 7
    case LessThan => 8
    case LessThanOrEqual => 9
    case GreaterThan => 10
    case GreaterThanOrEqual => 11
    case Between => 12
    case Or => 13
    case In => 14
    case NotIn => 15
    case Null => 16
    case NotNull => 17
  }

  /** No two named operators share a token. */
  lemma TokensDistinct(a: Operator, b: Operator)
    requires !a.Other? && !b.Other? && a.String() == b.String()
    ensures a == b
  {
  }

  /** No entry of `Named` is an `Other`. */
  lemma NamedNotOther(k: nat)
    requires k < |Named|
    ensures !Named[k].Other?
  {
    if k < 6 {
    } else if k < 12 {
    } else {
    }
  }

  /** The lookup over `Named` finds a named operator exactly for a named token. */
  lemma LookupShape(s: string, op: Operator)
    requires op == NamedLookup(s, Named)
    ensures op.Other? <==> !IsNamedToken(s)
  {
    if op in Named {
      var k :| 0 <= k < |Named| && Named[k] == op;
      NamedNotOther(k);
      assert Named[k].String() == s;
    } else {
      assert op == Other(s);
    }
  }

  /** Reading back a well-formed operator's token gives the same operator. */
  lemma StringRoundTrip(op: Operator)
    requires op.WellFormed()
    ensures FromToken(op.String()) == op
  {
    var r := FromToken(op.String());
    if !op.Other? {
      var k := NamedIndex(op);
      assert Named[k].String() == op.String();
      TokensDistinct(r, op);
    }
  }

  /** The keywords of the comparison tokens (operator_test.go:11-29). */
  lemma ConvertComparisons()
    ensures FromToken("eq").Convert() == "=" && FromToken("neq").Convert() == "!="
    ensures FromToken("lt").Convert() == "<" && FromToken("lte").Convert() == "<="
    ensures FromToken("gt").Convert() == ">" && FromToken("gte").Convert() == ">="
  {
    StringRoundTrip(Equal);
    StringRoundTrip(NotEqual);
    StringRoundTrip(LessThan);
    StringRoundTrip(LessThanOrEqual);
    StringRoundTrip(GreaterThan);
    StringRoundTrip(GreaterThanOrEqual);
  }

  /** The keywords of the pattern tokens: the "or" forms render as the plain ones. */
  lemma ConvertPatterns()
    ensures FromToken("like").Convert() == "LIKE" && FromToken("ilike").Convert() == "ILIKE"
    ensures FromToken("orlike").Convert() == "LIKE" && FromToken("orilike").Convert() == "ILIKE"
    ensures FromToken("nlike").Convert() == "NOT LIKE" && FromToken("nilike").Convert() == "NOT ILIKE"
  {
    StringRoundTrip(Like);
    StringRoundTrip(ILike);
    StringRoundTrip(OrLike);
    StringRoundTrip(OrILike);
    StringRoundTrip(NotLike);
    StringRoundTrip(NotILike);
  }

  /** The keywords of the range, membership and null tokens, and none for `or`. */
  lemma ConvertShapes()
    ensures FromToken("btw").Convert() == "BETWEEN"
    ensures FromToken("in").Convert() == "IN" && FromToken("notin").Convert() == "NOT IN"
    ensures FromToken("isnull").Convert() == "IS NULL" && FromToken("isnotnull").Convert() == "IS NOT NULL"
    ensures FromToken("or").Convert() == ""
  {
    StringRoundTrip(Between);
    StringRoundTrip(In);
    StringRoundTrip(NotIn);
    StringRoundTrip(Null);
    StringRoundTrip(NotNull);
    StringRoundTrip(Or);
  }

  /** A token outside the named set has no keyword. */
  lemma ConvertUnknown(s: string)
    requires !IsNamedToken(s)
    ensures FromToken(s).Convert() == ""
  {
  }

  /** The "or" pattern operators render exactly as their plain counterparts. */
  lemma OrLikeRendersAsLike()
    ensures OrLike.Convert() == Like.Convert() == "LIKE"
    ensures OrILike.Convert() == ILike.Convert() == "ILIKE"
  {
  }

  /** The shape predicates are mutually exclusive: a token picks at most one shape. */
  lemma ShapesExclusive(op: Operator)
    ensures !(op.IsBetween() && op.IsIn()) && !(op.IsBetween() && op.IsNotIn()) && !(op.IsIn() && op.IsNotIn())
    ensures op.IsLike() ==> !op.IsBetween() && !op.IsIn() && !op.IsNotIn() && !op.IsNull()
    ensures op.IsNull() ==> !op.IsBetween() && !op.IsIn() && !op.IsNotIn()
  {
  }

  /** Every pattern operator renders a keyword containing LIKE. */
  lemma LikeRendersLike(op: Operator)
    requires op.IsLike()
    ensures Contains(op.Convert(), "LIKE")
  {
    var sql := op.Convert();
    if sql == "LIKE" || sql == "ILIKE" {
      assert PieceAt(sql, "LIKE", |sql| - 4);
    } else {
      assert sql == "NOT LIKE" || sql == "NOT ILIKE";
      assert PieceAt(sql, "LIKE", |sql| - 4);
    }
  }
}
