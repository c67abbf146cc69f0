/**
 * The free-standing BuildOrderBy of builder.go:376-421: a comma-separated list of
 * field names, each optionally prefixed by `-` for DESC, checked against a map from
 * allowed field name to table name and rendered as an ORDER BY clause.
 */
module OrderBy {
  import opened GoStrings
  import opened Tokens
  import opened Assembly

  /** A field of the list asks for DESC when, once trimmed, it starts with `-` (builder.go:389-393). */
  predicate SortsDesc(field: string)
  {
    var f := TrimSpace(field);
    f != [] && f[0] == '-'
  }

  /** The field name looked up in the map: the trimmed field without its `-` (builder.go:387-393). */
  function SortFieldName(field: string): string
  {
    var f := TrimSpace(field);
    if SortsDesc(field) then f[1..] else f
  }

  /** One field: `<table>.<field> ASC|DESC`, or the error naming a field not in the map. */
  function OrderByField(field: string, allowedFields: map<string, string>): (r: Result<string>)
    ensures r.Ok? <==> SortFieldName(field) in allowedFields
    ensures r.Err? ==> r.error == NotAllowed(SortFieldName(field))
  {
    var name := SortFieldName(field);
    if name in allowedFields then Ok(allowedFields[name] + "." + name + " " + (if SortsDesc(field) then "DESC" else "ASC"))
    else Err(NotAllowed(name))
  }

  /** OrderByField for a fixed map, as a reader of one token. */
  function OrderByReader(allowedFields: map<string, string>): string -> Result<string>
  {
    field => OrderByField(field, allowedFields)
  }

  /** The fields of a non-empty `on`: lower-cased, then split on commas (builder.go:382). */
  function OrderByFields(on: string): seq<string>
  {
    Split(ToLower(on), ',')
  }

  /**
   * What BuildOrderBy returns: `""` for an empty list, otherwise the clause of the
   * fields' entries in order, or the error of the first field not allowed. The only
   * error is a field missing from the map, and a non-empty clause starts `ORDER BY `.
   */
  function OrderByOf(on: string, allowedFields: map<string, string>): (r: Result<string>)
    ensures r.Err? ==> r.error.NotAllowed? && r.error.field !in allowedFields
    ensures r.Ok? && r.value != "" ==> |r.value| > 9 && r.value[..9] == "ORDER BY "
  {
    if on == "" then Ok("")
    else
      var p := ParseAll(OrderByFields(on), OrderByReader(allowedFields));
      ParseAllReads(OrderByFields(on), OrderByReader(allowedFields));
      if p.failure.Some? then Err(p.failure.value) else Ok(OrderByClause(p.items))
  }

  /**
   * BuildOrderBy (builder.go:376-421). The search of the map for the field name
   * (builder.go:398-404) is a key lookup; the `len(sb) == 0` exit at :411 is left out,
   * since a non-empty `on` always has at least one field.
   */
  method BuildOrderBy(on: string, allowedFields: map<string, string>) returns (orderBy: string, err: Option<QueryError>)
    ensures match OrderByOf(on, allowedFields)
      case Ok(clause) => err == None && orderBy == clause
      case Err(e) => err == Some(e) && orderBy == ""
  {
    if on == "" {
      return "", None;
    }
    var sb: seq<string> := [];
    var fields := Split(ToLower(on), ',');
    ghost var read := OrderByReader(allowedFields);
    var i := 0;
    while i < |fields|
      invariant 0 <= i <= |fields|
      invariant ParseAll(fields[..i], read) == Parsed(sb, None)
    {
      var field := TrimSpace(fields[i]);
      var dir := "ASC";
      var fieldName := field;
      if field != [] && field[0] == '-' {
        dir := "DESC";
        fieldName := field[1..];
      }
      FieldReading(fields[i], allowedFields, fieldName, dir);
      ParseStep(fields, i, read, sb, read(fields[i]));
      if fieldName !in allowedFields {
        return "", Some(NotAllowed(fieldName));
      }
      sb := sb + [allowedFields[fieldName] + "." + fieldName + " " + dir];
      i := i + 1;
    }
    assert fields[..i] == fields;
    err := None;
    orderBy := Join(sb, ", ");
    if orderBy != "" {
      orderBy := "ORDER BY " + orderBy;
    }
  }

  /** The name and direction the loop body derives are those of OrderByField. */
  lemma FieldReading(field: string, allowedFields: map<string, string>, fieldName: string, dir: string)
    requires var f := TrimSpace(field);
      if f != [] && f[0] == '-' then fieldName == f[1..] && dir == "DESC" else fieldName == f && dir == "ASC"
    ensures OrderByReader(allowedFields)(field) ==
      if fieldName in allowedFields then Ok(allowedFields[fieldName] + "." + fieldName + " " + dir)
      else Err(NotAllowed(fieldName))
  {
  }

  /** What an accepted field reads as. */
  lemma EntryText(field: string, allowedFields: map<string, string>, entry: string)
    requires OrderByReader(allowedFields)(field) == Ok(entry)
    ensures var name := SortFieldName(field);
      && name in allowedFields
      && entry == allowedFields[name] + "." + name + " " + (if SortsDesc(field) then "DESC" else "ASC")
  {
  }

  /** A non-empty list is accepted exactly when every one of its fields is in the map. */
  lemma OrderByAllowed(on: string, allowedFields: map<string, string>)
    requires on != ""
    ensures var fields := OrderByFields(on);
      OrderByOf(on, allowedFields).Ok? <==> forall k :: 0 <= k < |fields| ==> SortFieldName(fields[k]) in allowedFields
  {
    var fields := OrderByFields(on);
    var read := OrderByReader(allowedFields);
    ParseAllReads(fields, read);
    var p := ParseAll(fields, read);
    if p.failure.Some? {
      var k := |p.items|;
      assert read(fields[k]).Err?;
    } else {
      forall k | 0 <= k < |fields|
        ensures SortFieldName(fields[k]) in allowedFields
      {
        assert read(fields[k]).Ok?;
      }
    }
  }

  /**
   * An accepted non-empty list gives `ORDER BY` and one entry per field, in input order,
   * each `<table>.<field> ASC|DESC` with DESC exactly for a leading `-`.
   */
  lemma OrderByEntries(on: string, allowedFields: map<string, string>)
    requires on != "" && OrderByOf(on, allowedFields).Ok?
    ensures var fields := OrderByFields(on);
      exists entries: seq<string> ::
        && |entries| == |fields|
        && OrderByOf(on, allowedFields).value == "ORDER BY " + Join(entries, ", ")
        && forall k :: 0 <= k < |fields| ==>
             var name := SortFieldName(fields[k]);
             && name in allowedFields
             && entries[k] == allowedFields[name] + "." + name + " " + (if SortsDesc(fields[k]) then "DESC" else "ASC")
  {
    var fields := OrderByFields(on);
    var read := OrderByReader(allowedFields);
    ParseAllReads(fields, read);
    var entries := ParseAll(fields, read).items;
    forall k | 0 <= k < |fields|
      ensures var name := SortFieldName(fields[k]);
        && name in allowedFields
        && entries[k] == allowedFields[name] + "." + name + " " + (if SortsDesc(fields[k]) then "DESC" else "ASC")
    {
      EntryText(fields[k], allowedFields, entries[k]);
    }
    assert entries[0] != [];
    JoinEmpty(entries, ", ");
  }

  /** A rejected list names the first of its fields that is not in the map. */
  lemma OrderByRejected(on: string, allowedFields: map<string, string>)
    requires on != "" && OrderByOf(on, allowedFields).Err?
    ensures var fields := OrderByFields(on);
      exists k ::
        && 0 <= k < |fields|
        && OrderByOf(on, allowedFields).error == NotAllowed(SortFieldName(fields[k]))
        && SortFieldName(fields[k]) !in allowedFields
        && forall j :: 0 <= j < k ==> SortFieldName(fields[j]) in allowedFields
  {
    var fields := OrderByFields(on);
    var read := OrderByReader(allowedFields);
    ParseAllReads(fields, read);
    var p := ParseAll(fields, read);
    var k := |p.items|;
    assert read(fields[k]) == Err(p.failure.value);
    forall j | 0 <= j < k
      ensures SortFieldName(fields[j]) in allowedFields
    {
      assert read(fields[j]).Ok?;
    }
  }

  /** Field names are matched lower-cased, so the case of `on` makes no difference. */
  lemma OrderByIgnoresCase(on: string, allowedFields: map<string, string>)
    ensures OrderByOf(ToLower(on), allowedFields) == OrderByOf(on, allowedFields)
  {
    ToLowerIdempotent(on);
  }
}
