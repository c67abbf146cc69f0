/**
 * The FilterBuilder of filterbuilder.go: the client-side counterpart of the query
 * builder, which collects filters and sorts and renders them as the `filter=` and
 * `sortOn=` parameters of a query string.
 */
module FilterBuilding {
  import opened GoStrings
  import opened Operators
  import opened Tokens

  /** isValidFilter's verdict (filterbuilder.go:50-58): three pieces between hyphens, none empty. */
  predicate ValidFilter(filter: string)
  {
    var parts := Split(filter, Delimiter);
    (forall k :: 0 <= k < |parts| ==> parts[k] != "") && |parts| == 3
  }

  /** The key AddFilter stores a value under (filterbuilder.go:26). */
  function FilterKey(prefix: string, fieldName: string, op: Operator): string
  {
    prefix + "-" + fieldName + "-" + op.String()
  }

  /**
   * The entry AddSort appends (filterbuilder.go:36-44): a leading `-` exactly when the
   * first direction given is DESC; no direction at all means ASC.
   */
  function SortKey(prefix: string, fieldName: string, direction: seq<Direction>): string
  {
    (if direction != [] && direction[0] == Desc then "-" else "") + prefix + "-" + fieldName
  }

  /**
   * `order` lists every key of the map once: the order in which a Go `range` over the
   * map happens to visit them, which the language leaves unspecified.
   */
  ghost predicate Enumerates(order: seq<string>, keys: set<string>)
  {
    && (forall i :: 0 <= i < |order| ==> order[i] in keys)
    && (forall key :: key in keys ==> key in order)
    && (forall i, j :: 0 <= i < j < |order| ==> order[i] != order[j])
  }

  /** One `filter=<key>-<value>` parameter per key visited (filterbuilder.go:65-67). */
  function FilterEntries(order: seq<string>, filters: map<string, string>): seq<string>
    requires forall i :: 0 <= i < |order| ==> order[i] in filters
  {
    seq(|order|, i requires 0 <= i < |order| => "filter=" + order[i] + "-" + filters[order[i]])
  }

  /** One `sortOn=<entry>` parameter per sort, in insertion order (filterbuilder.go:70-72). */
  function SortEntries(sorts: seq<string>): seq<string>
  {
    seq(|sorts|, j requires 0 <= j < |sorts| => "sortOn=" + sorts[j])
  }

  /**
   * The query string String() builds: the filter parameters, then the sort ones, joined
   * by `&`. It is empty exactly when there is no parameter to write.
   */
  function Query(order: seq<string>, filters: map<string, string>, sorts: seq<string>): (q: string)
    requires forall i :: 0 <= i < |order| ==> order[i] in filters
    ensures q == "" <==> order == [] && sorts == []
  {
    var entries := FilterEntries(order, filters) + SortEntries(sorts);
    if entries == [] then ""
    else
      assert entries[0] == if order != [] then "filter=" + order[0] + "-" + filters[order[0]] else "sortOn=" + sorts[0];
      JoinEmpty(entries, "&");
      Join(entries, "&")
  }

  /** What the strings.Builder holds after writing each entry followed by `&`. */
  function Terminated(entries: seq<string>): string
  {
    if entries == [] then ""
    else
      var n := |entries| - 1;
      Terminated(entries[..n]) + entries[n] + "&"
  }

  class FilterBuilder {
    var prefixes: seq<string>
    var filters: map<string, string>
    var sorts: seq<string>

    /** NewFilterBuilder (filterbuilder.go:16-22). */
    constructor ()
      ensures prefixes == [] && filters == map[] && sorts == []
    {
      prefixes := [];
      filters := map[];
      sorts := [];
    }

    /**
     * AddFilter (filterbuilder.go:25-32): a valid key gets the value, overwriting an
     * earlier one, and its prefix is recorded; an invalid key changes nothing. Sorts are
     * never touched. The receiver is returned for chaining.
     */
    method AddFilter(prefix: string, fieldName: string, op: Operator, value: string) returns (fb: FilterBuilder)
      modifies this
      ensures fb == this
      ensures var key := FilterKey(prefix, fieldName, op);
        if ValidFilter(key) then filters == old(filters)[key := value] && prefixes == old(prefixes) + [prefix]
        else filters == old(filters) && prefixes == old(prefixes)
      ensures sorts == old(sorts)
    {
      var filterKey := prefix + "-" + fieldName + "-" + op.String();
      var valid := IsValidFilter(filterKey);
      if valid {
        filters := filters[filterKey := value];
        prefixes := prefixes + [prefix];
      }
      return this;
    }

    /** AddSort (filterbuilder.go:35-47): exactly one entry appended, nothing else changed. */
    method AddSort(prefix: string, fieldName: string, direction: seq<Direction>) returns (fb: FilterBuilder)
      modifies this
      ensures fb == this
      ensures sorts == old(sorts) + [SortKey(prefix, fieldName, direction)]
      ensures filters == old(filters) && prefixes == old(prefixes)
    {
      var direction := direction;
      if |direction| == 0 {
        direction := direction + [Asc];
      }
      var dir := "";
      if direction[0] == Desc {
        dir := "-";
      }
      var sortKey := dir + prefix + "-" + fieldName;
      sorts := sorts + [sortKey];
      return this;
    }

    /** isValidFilter (filterbuilder.go:50-58): any empty piece rejects, then the count decides. */
    method IsValidFilter(filter: string) returns (valid: bool)
      ensures valid == ValidFilter(filter)
    {
      var parts := Split(filter, Delimiter);
      var i := 0;
      while i < |parts|
        invariant 0 <= i <= |parts|
        invariant forall k :: 0 <= k < i ==> parts[k] != ""
      {
        if parts[i] == "" {
          return false;
        }
        i := i + 1;
      }
      return |parts| == 3;
    }

    /**
     * String (filterbuilder.go:61-81), with the map visited in the order `order`: each
     * parameter is written with a trailing `&`, and the last `&` is dropped.
     */
    method String(order: seq<string>) returns (result: string)
      requires Enumerates(order, filters.Keys)
      ensures result == Query(order, filters, sorts)
    {
      var query := "";
      var i := 0;
      while i < |order|
        invariant 0 <= i <= |order|
        invariant query == Terminated(FilterEntries(order[..i], filters))
      {
        FilterEntriesSnoc(order, filters, i);
        query := query + "filter=" + order[i] + "-" + filters[order[i]] + "&";
        i := i + 1;
      }
      assert order[..i] == order;
      ghost var fs := FilterEntries(order, filters);
      assert fs + SortEntries(sorts[..0]) == fs;
      var j := 0;
      while j < |sorts|
        invariant 0 <= j <= |sorts|
        invariant query == Terminated(fs + SortEntries(sorts[..j]))
      {
        SortEntriesSnoc(fs, sorts, j);
        query := query + "sortOn=" + sorts[j] + "&";
        j := j + 1;
      }
      assert sorts[..j] == sorts;
      result := query;
      if |result| > 0 && result[|result| - 1] == '&' {
        result := result[..|result| - 1];
      }
      TrailingSeparator(fs + SortEntries(sorts), query, result);
    }
  }

  /** One more filter parameter written by the first loop of String. */
  lemma FilterEntriesSnoc(order: seq<string>, filters: map<string, string>, i: nat)
    requires i < |order| && forall k :: 0 <= k < |order| ==> order[k] in filters
    ensures var e := "filter=" + order[i] + "-" + filters[order[i]];
      Terminated(FilterEntries(order[..i + 1], filters)) == Terminated(FilterEntries(order[..i], filters)) + e + "&"
  {
    var done := FilterEntries(order[..i], filters);
    var e := "filter=" + order[i] + "-" + filters[order[i]];
    assert FilterEntries(order[..i + 1], filters) == done + [e];
    TerminatedSnoc(done, e);
  }

  /** One more sort parameter written by the second loop of String. */
  lemma SortEntriesSnoc(fs: seq<string>, sorts: seq<string>, j: nat)
    requires j < |sorts|
    ensures Terminated(fs + SortEntries(sorts[..j + 1])) == Terminated(fs + SortEntries(sorts[..j])) + "sortOn=" + sorts[j] + "&"
  {
    var done := fs + SortEntries(sorts[..j]);
    assert fs + SortEntries(sorts[..j + 1]) == done + ["sortOn=" + sorts[j]];
    TerminatedSnoc(done, "sortOn=" + sorts[j]);
  }

  /** Dropping the one trailing `&` of the written entries leaves their join. */
  lemma TrailingSeparator(entries: seq<string>, query: string, result: string)
    requires query == Terminated(entries)
    requires result == if |query| > 0 && query[|query| - 1] == '&' then query[..|query| - 1] else query
    ensures result == Join(entries, "&")
  {
    TerminatedJoin(entries);
    if entries != [] {
      assert query == Join(entries, "&") + "&";
    }
  }

  /** Writing one more entry. */
  lemma TerminatedSnoc(entries: seq<string>, e: string)
    ensures Terminated(entries + [e]) == Terminated(entries) + e + "&"
  {
    assert (entries + [e])[..|entries|] == entries;
  }

  /** The written entries are their join by `&` with one more `&` after it. */
  lemma {:induction false} TerminatedJoin(entries: seq<string>)
    ensures Terminated(entries) == if entries == [] then "" else Join(entries, "&") + "&"
    decreases |entries|
  {
    if entries != [] {
      var n := |entries| - 1;
      var prev := entries[..n];
      TerminatedJoin(prev);
      assert entries == prev + [entries[n]];
      if prev != [] {
        JoinSnoc(prev, entries[n], "&");
      }
    }
  }

  /**
   * AddFilter accepts a key exactly when prefix, field name and operator are all
   * non-empty and none holds a hyphen (filterbuilder_test.go:49-55).
   */
  lemma ValidFilterKey(prefix: string, fieldName: string, op: Operator)
    ensures var token := op.String();
      ValidFilter(FilterKey(prefix, fieldName, op)) <==>
        && prefix != "" && fieldName != "" && token != ""
        && Delimiter !in prefix && Delimiter !in fieldName && Delimiter !in token
  {
    var token := op.String();
    assert FilterKey(prefix, fieldName, op) == prefix + [Delimiter] + fieldName + [Delimiter] + token;
    ThreePieces(prefix, fieldName, token, Delimiter);
  }

  /**
   * Three pieces joined by a separator split back into three non-empty pieces exactly
   * when each piece is non-empty and free of the separator.
   */
  lemma ThreePieces(a: string, b: string, t: string, c: char)
    ensures var parts := Split(a + [c] + b + [c] + t, c);
      (|parts| == 3 && forall k :: 0 <= k < |parts| ==> parts[k] != "") <==>
        a != "" && b != "" && t != "" && c !in a && c !in b && c !in t
  {
    var s := a + [c] + b + [c] + t;
    assert s == a + [c] + (b + [c] + t);
    SplitAround(a, b + [c] + t, c);
    SplitAround(b, t, c);
    var parts, x, y, z := Split(s, c), Split(a, c), Split(b, c), Split(t, c);
    SplitOnePiece(a, c);
    SplitOnePiece(b, c);
    SplitOnePiece(t, c);
    SplitWithoutSeparator(a, c);
    SplitWithoutSeparator(b, c);
    SplitWithoutSeparator(t, c);
    Concat3(parts, x, y, z, a, b, t, c);
  }

  /** The counting behind ThreePieces, over the three splits. */
  lemma Concat3(parts: seq<string>, x: seq<string>, y: seq<string>, z: seq<string>, a: string, b: string, t: string, c: char)
    requires parts == x + (y + z)
    requires |x| >= 1 && |y| >= 1 && |z| >= 1
    requires (|x| == 1 <==> c !in a) && (|y| == 1 <==> c !in b) && (|z| == 1 <==> c !in t)
    requires (c !in a ==> x == [a]) && (c !in b ==> y == [b]) && (c !in t ==> z == [t])
    ensures (|parts| == 3 && forall k :: 0 <= k < |parts| ==> parts[k] != "") <==>
      a != "" && b != "" && t != "" && c !in a && c !in b && c !in t
  {
    if c !in a && c !in b && c !in t {
      assert parts[0] == a && parts[1] == b && parts[2] == t;
    }
  }

  /** The zero operator gives a key with an empty third piece, which AddFilter rejects. */
  lemma EmptyOperatorRejected(prefix: string, fieldName: string)
    ensures !ValidFilter(FilterKey(prefix, fieldName, Other("")))
  {
    ValidFilterKey(prefix, fieldName, Other(""));
  }

  /** The query string is empty exactly when no filter is stored and no sort added. */
  lemma QueryEmpty(order: seq<string>, filters: map<string, string>, sorts: seq<string>)
    requires Enumerates(order, filters.Keys)
    ensures Query(order, filters, sorts) == "" <==> filters == map[] && sorts == []
  {
    if filters != map[] {
      var key :| key in filters.Keys;
      assert key in order;
    } else {
      OrderFirst(order, filters.Keys);
    }
  }

  /** An enumeration is empty or starts with a key. */
  lemma OrderFirst(order: seq<string>, keys: set<string>)
    requires Enumerates(order, keys)
    ensures order == [] || order[0] in keys
  {
  }

  /** Every stored filter and every sort appears as its own parameter of the query string. */
  lemma QueryHoldsEntries(order: seq<string>, filters: map<string, string>, sorts: seq<string>)
    requires Enumerates(order, filters.Keys)
    ensures forall key :: key in filters ==> Contains(Query(order, filters, sorts), "filter=" + key + "-" + filters[key])
    ensures forall j :: 0 <= j < |sorts| ==> Contains(Query(order, filters, sorts), "sortOn=" + sorts[j])
  {
    var fs := FilterEntries(order, filters);
    var entries := fs + SortEntries(sorts);
    forall key | key in filters
      ensures Contains(Query(order, filters, sorts), "filter=" + key + "-" + filters[key])
    {
      var i :| 0 <= i < |order| && order[i] == key;
      assert entries[i] == "filter=" + key + "-" + filters[key];
      JoinContains(entries, "&", i);
    }
    forall j | 0 <= j < |sorts|
      ensures Contains(Query(order, filters, sorts), "sortOn=" + sorts[j])
    {
      assert entries[|fs| + j] == "sortOn=" + sorts[j];
      JoinContains(entries, "&", |fs| + j);
    }
  }

  /**
   * A stored filter's parameter value `<key>-<value>` reads back as the same alias,
   * field and operator, with the value stored as the query builder stores it. The value
   * may hold hyphens; white space at either end of the token would be trimmed away.
   */
  lemma FilterRoundTrip(prefix: string, fieldName: string, op: Operator, value: string)
    requires ValidFilter(FilterKey(prefix, fieldName, op)) && op.WellFormed()
    requires prefix != "" && !IsSpace(prefix[0])
    requires value != "" ==> !IsSpace(value[|value| - 1])
    ensures ParseFilter(FilterKey(prefix, fieldName, op) + "-" + value) ==
      Ok(FilterField(prefix, fieldName, op, StoredValue(op, value), ValueList(op, value)))
  {
    var token := op.String();
    assert Delimiter !in prefix && Delimiter !in fieldName && Delimiter !in token by {
      ValidFilterKey(prefix, fieldName, op);
    }
    assert FromToken(token) == op by {
      StringRoundTrip(op);
    }
    FilterReading(prefix, fieldName, token, value);
  }

  /**
   * An added sort's parameter value reads back as the same alias, field and direction,
   * for a non-empty prefix and a field, both hyphen-free, without white space at the
   * ends. An empty field reads back as empty.
   */
  lemma SortRoundTrip(prefix: string, fieldName: string, direction: seq<Direction>)
    requires prefix != "" && Delimiter !in prefix && Delimiter !in fieldName
    requires !IsSpace(prefix[0]) && (fieldName != "" ==> !IsSpace(fieldName[|fieldName| - 1]))
    ensures ParseSort(SortKey(prefix, fieldName, direction)) ==
      Ok(SortField(prefix, fieldName, if direction != [] && direction[0] == Desc then Desc else Asc))
  {
    var c := Delimiter;
    var desc := direction != [] && direction[0] == Desc;
    var s := SortKey(prefix, fieldName, direction);
    SortKeyShape(prefix, fieldName, desc, s);
    PrintableNotSpace('-');
    KeptWhole(s);
    SplitCons(prefix, fieldName, c);
    SplitWithoutSeparator(fieldName, c);
  }

  /** The sort entry starts with `-` exactly for DESC, and the rest is `<prefix>-<field>`. */
  lemma SortKeyShape(prefix: string, fieldName: string, desc: bool, s: string)
    requires prefix != "" && Delimiter !in prefix
    requires s == (if desc then "-" else "") + prefix + "-" + fieldName
    ensures s != [] && s[|s| - 1] == if fieldName == "" then '-' else fieldName[|fieldName| - 1]
    ensures s[0] == (if desc then '-' else prefix[0])
    ensures (s[0] == '-') == desc
    ensures (if desc then s[1..] else s) == prefix + [Delimiter] + fieldName
  {
    var rest := prefix + [Delimiter] + fieldName;
    if desc {
      assert s == [Delimiter] + rest;
      assert s[1..] == rest;
    } else {
      assert s == rest;
      assert s[0] == prefix[0] && prefix[0] != Delimiter;
    }
  }

  /** TrimSpace keeps a string whose ends are not white space. */
  lemma KeptWhole(s: string)
    requires s != [] && !IsSpace(s[0]) && !IsSpace(s[|s| - 1])
    ensures TrimSpace(s) == s
  {
  }
}
