/**
 * The query mini-language (builder.go:53-80, 141-223): what one `filter` or `sortOn`
 * value means, and how a list of them is read up to the first malformed one.
 */
module Tokens {
  import opened GoStrings
  import opened Operators

  /** The delimiter between the segments of a token (builder.go:53). */
  const Delimiter: char := '-'

  datatype Direction = Asc | Desc
  {
    function String(): string
    {
      match this
      case Asc => "ASC"
      case Desc => "DESC"
    }
  }

  /** FilterField; `value` is the Go `interface{}` Value, always a string here. */
  datatype FilterField = FilterField(tableAlias: string, fieldName: string, op: Operator, value: string, values: seq<string>)

  datatype SortField = SortField(tableAlias: string, fieldName: string, direction: Direction)

  /** The errors of the package; the message text is not modelled, the offending piece is. */
  datatype QueryError =
    | TooFewParams(filter: string)              // builder.go:148-150
    | InvalidOperatorValue(operatorPart: string) // builder.go:176-178
    | MissingSortField(sort: string)            // builder.go:217, an index panic in Go
    | NotAllowed(field: string)                 // builder.go:406-408

  datatype Option<T> = None | Some(value: T)

  datatype Result<T> = Ok(value: T) | Err(error: QueryError)

  /** The stored Value: pattern operators get `%` wildcards around the raw value (builder.go:185-189). */
  function StoredValue(op: Operator, raw: string): string
  {
    if op.IsLike() then "%" + raw + "%" else raw
  }

  /** The Values list: only between and the membership operators split on commas (builder.go:165-168). */
  function ValueList(op: Operator, raw: string): seq<string>
  {
    if op.IsBetween() || op.IsIn() || op.IsNotIn() then Split(raw, ',') else []
  }

  /**
   * One `filter` value, as the body of the loop at builder.go:144-193 reads it. The alias
   * and field read are hyphen-free segments, and only between and the membership
   * operators carry a list of values.
   */
  function ParseFilter(token: string): (r: Result<FilterField>)
    ensures r.Ok? ==> Delimiter !in r.value.tableAlias && Delimiter !in r.value.fieldName
    ensures r.Ok? && r.value.values != [] ==> r.value.op.IsBetween() || r.value.op.IsIn() || r.value.op.IsNotIn()
  {
    var filter := TrimSpace(token);
    var parts := SplitN(filter, Delimiter, 4);
    SplitNPieces(filter, Delimiter, 4);
    if |parts| < 3 then Err(TooFewParams(filter))
    else if |parts| > 3 then
      var op := FromToken(parts[2]);
      Ok(FilterField(parts[0], parts[1], op, StoredValue(op, parts[3]), ValueList(op, parts[3])))
    else if parts[2] == "isnull" || parts[2] == "isnotnull" then
      var op := FromToken(parts[2]);
      Ok(FilterField(parts[0], parts[1], op, StoredValue(op, ""), []))
    else
      var opAndValue := SplitN(parts[2], '-', 2);
      if |opAndValue| != 2 then Err(InvalidOperatorValue(parts[2]))
      else
        var op := FromToken(opAndValue[0]);
        Ok(FilterField(parts[0], parts[1], op, StoredValue(op, opAndValue[1]), []))
  }

  /**
   * One `sortOn` value, as the body of the loop at builder.go:199-222 reads it. The alias
   * and field read are hyphen-free segments.
   */
  function ParseSort(token: string): (r: Result<SortField>)
    ensures r.Ok? ==> Delimiter !in r.value.tableAlias && Delimiter !in r.value.fieldName
  {
    var sort := TrimSpace(token);
    var desc := sort != [] && sort[0] == '-';
    var rest := if desc then sort[1..] else sort;
    var parts := Split(rest, Delimiter);
    SplitPieces(rest, Delimiter);
    if |parts| < 2 then Err(MissingSortField(rest))
    else Ok(SortField(parts[0], parts[1], if desc then Desc else Asc))
  }

  /** The tokens read before the first failure, and that failure if there is one. */
  datatype Parsed<T> = Parsed(items: seq<T>, failure: Option<QueryError>)

  /**
   * Reading a list of tokens in order and stopping at the first one that fails, as the
   * loops of builder.go:144-193 and 199-222 do: the items are the readings of the
   * tokens before it, and the failure is that token's error.
   */
  function ParseAll<T>(tokens: seq<string>, parse: string -> Result<T>): (p: Parsed<T>)
    ensures |p.items| <= |tokens|
    ensures p.failure.None? ==> |p.items| == |tokens|
    ensures p.failure.Some? ==> |p.items| < |tokens|
    decreases |tokens|
  {
    if tokens == [] then Parsed([], None)
    else
      var n := |tokens| - 1;
      var prev := ParseAll(tokens[..n], parse);
      if prev.failure.Some? then prev
      else
        match parse(tokens[n])
        case Ok(x) => Parsed(prev.items + [x], None)
        case Err(e) => Parsed(prev.items, Some(e))
  }

  /**
   * What a reading holds: item `k` is the reading of token `k`, and a failure is the
   * error of the token right after the items.
   */
  lemma {:induction false} ParseAllReads<T>(tokens: seq<string>, parse: string -> Result<T>)
    ensures var p := ParseAll(tokens, parse);
      && (forall k :: 0 <= k < |p.items| ==> parse(tokens[k]) == Ok(p.items[k]))
      && (p.failure.Some? ==> parse(tokens[|p.items|]) == Err(p.failure.value))
    decreases |tokens|
  {
    if tokens != [] {
      var n := |tokens| - 1;
      ParseAllReads(tokens[..n], parse);
      var prev := ParseAll(tokens[..n], parse);
      assert forall k :: 0 <= k < |prev.items| ==> tokens[..n][k] == tokens[k];
    }
  }

  /** Once a prefix of the tokens has failed, the tokens after it change nothing. */
  lemma {:induction false} ParseAllStops<T>(tokens: seq<string>, k: nat, parse: string -> Result<T>)
    requires k <= |tokens| && ParseAll(tokens[..k], parse).failure.Some?
    ensures ParseAll(tokens, parse) == ParseAll(tokens[..k], parse)
    decreases |tokens|
  {
    if k == |tokens| {
      assert tokens[..k] == tokens;
    } else {
      var n := |tokens| - 1;
      assert tokens[..n][..k] == tokens[..k];
      ParseAllStops(tokens[..n], k, parse);
    }
  }

  /** Reading one more token after a clean prefix: the definition, for loops that go forward. */
  lemma ParseAllSnoc<T>(tokens: seq<string>, i: nat, parse: string -> Result<T>)
    requires i < |tokens| && ParseAll(tokens[..i], parse).failure.None?
    ensures var prev := ParseAll(tokens[..i], parse);
      ParseAll(tokens[..i + 1], parse) ==
        match parse(tokens[i])
        case Ok(x) => Parsed(prev.items + [x], None)
        case Err(e) => Parsed(prev.items, Some(e))
  {
    assert tokens[..i + 1][..i] == tokens[..i];
  }

  /**
   * One forward step of a reading loop over a clean prefix: a token read adds its item,
   * a token that fails ends the whole reading with its error.
   */
  lemma ParseStep<T>(tokens: seq<string>, i: nat, parse: string -> Result<T>, items: seq<T>, r: Result<T>)
    requires i < |tokens| && ParseAll(tokens[..i], parse) == Parsed(items, None)
    requires r == parse(tokens[i])
    ensures r.Ok? ==> ParseAll(tokens[..i + 1], parse) == Parsed(items + [r.value], None)
    ensures r.Err? ==> ParseAll(tokens, parse) == Parsed(items, Some(r.error))
  {
    ParseAllSnoc(tokens, i, parse);
    if r.Err? {
      ParseAllStops(tokens, i + 1, parse);
    }
  }

  /**
   * A filter is rejected exactly when it has fewer than three segments, or exactly three
   * and the third is not a null check. With three segments the operator segment holds
   * no `-`, so the split at builder.go:175 can never yield two pieces.
   */
  lemma {:induction false} FilterRejection(token: string)
    ensures var parts := SplitN(TrimSpace(token), Delimiter, 4);
      ParseFilter(token).Err? <==> |parts| < 3 || (|parts| == 3 && parts[2] != "isnull" && parts[2] != "isnotnull")
  {
    var parts := SplitN(TrimSpace(token), Delimiter, 4);
    SplitNShortLast(TrimSpace(token), Delimiter, 4);
    if |parts| == 3 && parts[2] != "isnull" && parts[2] != "isnotnull" {
      SplitNWithoutSeparator(parts[2], '-', 2);
    }
  }

  /**
   * With four segments the first three are alias, field and operator, and the value is
   * the whole remainder, hyphens kept.
   */
  lemma FilterSegments(token: string, filter: string, parts: seq<string>)
    requires filter == TrimSpace(token)
    requires parts == SplitN(filter, Delimiter, 4) && |parts| == 4
    ensures filter == parts[0] + "-" + parts[1] + "-" + parts[2] + "-" + parts[3]
    ensures Delimiter !in parts[0] && Delimiter !in parts[1] && Delimiter !in parts[2]
  {
    FourPieces(filter, Delimiter);
    assert [Delimiter] == "-";
  }

  /**
   * A value written as `<alias>-<field>-<operator>-<value>`, with the first three pieces
   * hyphen-free and no white space at its ends, reads back as exactly those pieces: the
   * operator named by the third, the value wrapped in `%` for a pattern operator, and the
   * value's comma-separated list for between and the membership operators. The value may
   * itself hold hyphens.
   */
  lemma FilterReading(alias: string, field: string, opToken: string, value: string)
    requires Delimiter !in alias && Delimiter !in field && Delimiter !in opToken
    requires alias != "" ==> !IsSpace(alias[0])
    requires value != "" ==> !IsSpace(value[|value| - 1])
    ensures var op := FromToken(opToken);
      ParseFilter(alias + "-" + field + "-" + opToken + "-" + value) ==
        Ok(FilterField(alias, field, op, if op.IsLike() then "%" + value + "%" else value,
                       if op.IsBetween() || op.IsIn() || op.IsNotIn() then Split(value, ',') else []))
  {
    var s := alias + "-" + field + "-" + opToken + "-" + value;
    FilterTokenPieces(alias, field, opToken, value, s);
  }

  /** The value `<alias>-<field>-<operator>-<value>` survives trimming and splits into its four pieces. */
  lemma FilterTokenPieces(alias: string, field: string, opToken: string, value: string, s: string)
    requires Delimiter !in alias && Delimiter !in field && Delimiter !in opToken
    requires alias != "" ==> !IsSpace(alias[0])
    requires value != "" ==> !IsSpace(value[|value| - 1])
    requires s == alias + "-" + field + "-" + opToken + "-" + value
    ensures SplitN(TrimSpace(s), Delimiter, 4) == [alias, field, opToken, value]
  {
    var c := Delimiter;
    var m := [c] + field + [c] + opToken;
    assert s == alias + m + "-" + value;
    Untrimmed(alias, m, value, s);
    assert s == alias + [c] + field + [c] + opToken + [c] + value;
    FourPiecesBack(alias, field, opToken, value, c);
  }

  /**
   * A string `p + m + "-" + v`, where `m` starts with a hyphen, `p` starts with a
   * non-space and `v` ends in one, is kept whole by TrimSpace.
   */
  lemma Untrimmed(p: string, m: string, v: string, s: string)
    requires (p != [] ==> !IsSpace(p[0])) && m != [] && m[0] == '-'
    requires v != [] ==> !IsSpace(v[|v| - 1])
    requires s == p + m + "-" + v
    ensures TrimSpace(s) == s
  {
    PrintableNotSpace('-');
    assert s[0] == if p == [] then '-' else p[0];
    assert s[|s| - 1] == if v == [] then '-' else v[|v| - 1];
  }

  /** Three separator-free pieces and a remainder, joined by the separator, SplitN back into four. */
  lemma FourPiecesBack(a: string, b: string, t: string, v: string, c: char)
    requires c !in a && c !in b && c !in t
    ensures SplitN(a + [c] + b + [c] + t + [c] + v, c, 4) == [a, b, t, v]
  {
    var mid := b + [c] + t + [c] + v;
    assert a + [c] + b + [c] + t + [c] + v == a + [c] + mid;
    SplitNCons(a, mid, c, 4);
    ThreePiecesBack(b, t, v, c);
  }

  /** The last three pieces of FourPiecesBack: SplitN with limit 3 keeps the value whole. */
  lemma ThreePiecesBack(b: string, t: string, v: string, c: char)
    requires c !in b && c !in t
    ensures SplitN(b + [c] + t + [c] + v, c, 3) == [b, t, v]
  {
    var tail := t + [c] + v;
    assert b + [c] + t + [c] + v == b + [c] + tail;
    SplitNCons(b, tail, c, 3);
    SplitNCons(t, v, c, 2);
  }

  /** Four pieces under SplitN rejoin to the string, and the first three hold no separator. */
  lemma FourPieces(s: string, c: char)
    requires |SplitN(s, c, 4)| == 4
    ensures var parts := SplitN(s, c, 4);
      && s == parts[0] + [c] + parts[1] + [c] + parts[2] + [c] + parts[3]
      && c !in parts[0] && c !in parts[1] && c !in parts[2]
  {
    var parts := SplitN(s, c, 4);
    SplitNJoin(s, c, 4);
    SplitNPieces(s, c, 4);
    assert parts == [parts[0], parts[1], parts[2], parts[3]];
    Join4(parts[0], parts[1], parts[2], parts[3], [c]);
  }

  lemma Join4(a: string, b: string, c: string, d: string, sep: string)
    ensures Join([a, b, c, d], sep) == a + sep + b + sep + c + sep + d
  {
    assert [c, d][1..] == [d];
    assert Join([c, d], sep) == c + sep + d;
    assert [b, c, d][1..] == [c, d];
    assert Join([b, c, d], sep) == b + sep + (c + sep + d);
    assert [a, b, c, d][1..] == [b, c, d];
  }

  /** The Values list is non-empty exactly for between and the membership operators. */
  lemma ValueListShape(op: Operator, raw: string)
    ensures ValueList(op, raw) != [] <==> op.IsBetween() || op.IsIn() || op.IsNotIn()
    ensures ValueList(op, raw) != [] ==> Join(ValueList(op, raw), ",") == raw
  {
    if ValueList(op, raw) != [] {
      SplitJoin(raw, ',');
    }
  }

  /**
   * A sort value is DESC exactly when, once trimmed, it starts with `-`; the rest must
   * hold a `-`; alias and field are its first two segments and later ones are ignored.
   */
  lemma {:induction false} SortSegments(token: string)
    ensures var sort := TrimSpace(token);
      var desc := sort != [] && sort[0] == '-';
      var rest := if desc then sort[1..] else sort;
      && (ParseSort(token).Err? <==> Delimiter !in rest)
      && (ParseSort(token).Ok? ==>
            var s := ParseSort(token).value;
            var head := s.tableAlias + "-" + s.fieldName;
            && (s.direction == Desc <==> desc)
            && Delimiter !in s.tableAlias && Delimiter !in s.fieldName
            && |head| <= |rest| && rest[..|head|] == head
            && (|rest| == |head| || rest[|head|] == '-'))
  {
    var sort := TrimSpace(token);
    var desc := sort != [] && sort[0] == '-';
    var rest := if desc then sort[1..] else sort;
    var parts := Split(rest, Delimiter);
    SplitWithoutSeparator(rest, Delimiter);
    SplitPieces(rest, Delimiter);
    if |parts| >= 2 {
      SplitHead2(rest, Delimiter);
    }
  }

  /**
   * The guard of builder.go:211 as written tests for fewer than one piece, which a split
   * never yields: a sort value without a hyphen, such as `id`, passes it with a single
   * piece, and the read of the field name at builder.go:217 is out of range. ParseSort
   * rejects such a value instead (SortSegments).
   */
  lemma SortGuardAsWritten(sort: string)
    requires Delimiter !in sort && TrimSpace(sort) == sort
    ensures var parts := Split(sort, Delimiter);
      !(|parts| < 1) && |parts| == 1 && ParseSort(sort) == Err(MissingSortField(sort))
  {
    SplitWithoutSeparator(sort, Delimiter);
  }

  /** The first two pieces of a split with at least two, and what follows them. */
  lemma SplitHead2(s: string, c: char)
    requires |Split(s, c)| >= 2
    ensures var parts := Split(s, c);
      var head := parts[0] + [c] + parts[1];
      && |head| <= |s| && s[..|head|] == head
      && (|s| == |head| || s[|head|] == c)
  {
    var parts := Split(s, c);
    var i := IndexOf(s, c);
    SplitFirst(s, c);
    var t := s[i + 1..];
    SplitFirst(t, c);
    TwoPieces(s, c, i, IndexOf(t, c));
  }

  /** The piece before the separator at `i`, the separator, and `j` characters after it. */
  lemma TwoPieces(s: string, c: char, i: nat, j: nat)
    requires i < |s| && s[i] == c && i + 1 + j <= |s|
    requires i + 1 + j < |s| ==> s[i + 1 + j] == c
    ensures var head := s[..i] + [c] + s[i + 1..][..j];
      && |head| <= |s| && s[..|head|] == head
      && (|s| == |head| || s[|head|] == c)
  {
    var n := i + 1 + j;
    assert s[..n] == s[..i] + [c] + s[i + 1..n];
    assert s[i + 1..][..j] == s[i + 1..n];
  }

  /** The first piece of a split ends at the first separator. */
  lemma SplitFirst(s: string, c: char)
    ensures var i := IndexOf(s, c);
      && Split(s, c)[0] == s[..i]
      && (i < |s| ==> Split(s, c)[1..] == Split(s[i + 1..], c))
      && (i == |s| ==> Split(s, c) == [s])
  {
    var i := IndexOf(s, c);
    if i == |s| {
      assert s[..i] == s;
      assert Split(s, c) == [s];
    } else {
      var rest := Split(s[i + 1..], c);
      assert Split(s, c) == [s[..i]] + rest;
      assert ([s[..i]] + rest)[1..] == rest;
    }
  }
}
