/**
 * The QueryBuilder of builder.go: parsing `filter` and `sortOn` values into the
 * receiver's fields, and building the WHERE tail, ORDER BY clause and named parameters
 * from them. Each method is proved against the functions of the Tokens and Assembly
 * modules.
 */
module Builder {
  import opened GoStrings
  import opened Operators
  import opened Tokens
  import opened Assembly

  /** The aliases of the entries read by one parse, each mapped to 1 (builder.go:192, 220). */
  function AliasTable(fs: seq<FilterField>, ss: seq<SortField>): map<string, int>
  {
    map a | a in Aliases(fs, ss) :: 1
  }

  function Aliases(fs: seq<FilterField>, ss: seq<SortField>): set<string>
  {
    (set f | f in fs :: f.tableAlias) + (set s | s in ss :: s.tableAlias)
  }

  lemma AliasTableAddFilter(fs: seq<FilterField>, f: FilterField)
    ensures AliasTable(fs, [])[f.tableAlias := 1] == AliasTable(fs + [f], [])
  {
    assert Aliases(fs + [f], []) == Aliases(fs, []) + {f.tableAlias};
  }

  lemma AliasTableAddSort(fs: seq<FilterField>, ss: seq<SortField>, s: SortField)
    ensures AliasTable(fs, ss)[s.tableAlias := 1] == AliasTable(fs, ss + [s])
  {
    assert Aliases(fs, ss + [s]) == Aliases(fs, ss) + {s.tableAlias};
  }

  class QueryBuilder {
    var filters: seq<FilterField>
    var sorts: seq<SortField>
    var searchTables: map<string, int>

    /** NewQueryBuilder (builder.go:82-84). */
    constructor ()
      ensures filters == [] && sorts == [] && searchTables == map[]
    {
      filters := [];
      sorts := [];
      searchTables := map[];
    }

    /**
     * ParseParamString, from the decoded `filter` and `sortOn` values (builder.go:115,
     * 141-227). The tokens read before the first failing one are appended, never
     * replacing earlier ones; sorts are read only when every filter was; the search
     * tables are reset to the aliases read by this call.
     */
    method ParseParamString(filterTokens: seq<string>, sortTokens: seq<string>) returns (err: Option<QueryError>)
      modifies this
      ensures var pf := ParseAll(filterTokens, ParseFilter);
        var ps := if pf.failure.Some? then Parsed([], None) else ParseAll(sortTokens, ParseSort);
        && filters == old(filters) + pf.items
        && sorts == old(sorts) + ps.items
        && searchTables == AliasTable(pf.items, ps.items)
        && err == (if pf.failure.Some? then pf.failure else ps.failure)
    {
      searchTables := map[];
      err := ParseFilters(filterTokens);
      if err.None? {
        err := ParseSorts(sortTokens, ParseAll(filterTokens, ParseFilter).items);
      }
    }

    /** The `filter` loop (builder.go:142-194). */
    method ParseFilters(tokens: seq<string>) returns (err: Option<QueryError>)
      requires searchTables == map[]
      modifies this
      ensures var pf := ParseAll(tokens, ParseFilter);
        && filters == old(filters) + pf.items && sorts == old(sorts)
        && searchTables == AliasTable(pf.items, []) && err == pf.failure
    {
      var i := 0;
      ghost var items: seq<FilterField> := [];
      while i < |tokens|
        invariant 0 <= i <= |tokens|
        invariant ParseAll(tokens[..i], ParseFilter) == Parsed(items, None)
        invariant filters == old(filters) + items
        invariant searchTables == AliasTable(items, [])
        invariant sorts == old(sorts)
      {
        var r := ReadFilter(tokens, i, items);
        if r.Err? {
          return Some(r.error);
        }
        items := items + [r.value];
        i := i + 1;
      }
      assert tokens[..i] == tokens;
      return None;
    }

    /**
     * One round of the `filter` loop: read token `i` and record it with its alias
     * (builder.go:191-192), or stop with its error.
     */
    method ReadFilter(tokens: seq<string>, i: nat, ghost items: seq<FilterField>) returns (r: Result<FilterField>)
      requires i < |tokens| && ParseAll(tokens[..i], ParseFilter) == Parsed(items, None)
      requires searchTables == AliasTable(items, [])
      modifies this
      ensures r.Err? ==>
        && ParseAll(tokens, ParseFilter) == Parsed(items, Some(r.error))
        && filters == old(filters) && searchTables == old(searchTables)
      ensures r.Ok? ==>
        && ParseAll(tokens[..i + 1], ParseFilter) == Parsed(items + [r.value], None)
        && filters == old(filters) + [r.value] && searchTables == AliasTable(items + [r.value], [])
      ensures sorts == old(sorts)
    {
      r := ParseFilter(tokens[i]);
      ParseStep(tokens, i, ParseFilter, items, r);
      if r.Ok? {
        RecordFilter(r.value, items);
      }
    }

    /** Recording a filter read: appended, and its alias marked as searched (builder.go:191-192). */
    method RecordFilter(f: FilterField, ghost items: seq<FilterField>)
      requires searchTables == AliasTable(items, [])
      modifies this
      ensures filters == old(filters) + [f] && searchTables == AliasTable(items + [f], [])
      ensures sorts == old(sorts)
    {
      AliasTableAddFilter(items, f);
      filters := filters + [f];
      searchTables := searchTables[f.tableAlias := 1];
    }

    /** The `sortOn` loop (builder.go:197-223), after the filters `parsed` were read. */
    method ParseSorts(tokens: seq<string>, ghost parsed: seq<FilterField>) returns (err: Option<QueryError>)
      requires searchTables == AliasTable(parsed, [])
      modifies this
      ensures var ps := ParseAll(tokens, ParseSort);
        && sorts == old(sorts) + ps.items && filters == old(filters)
        && searchTables == AliasTable(parsed, ps.items) && err == ps.failure
    {
      var j := 0;
      ghost var items: seq<SortField> := [];
      while j < |tokens|
        invariant 0 <= j <= |tokens|
        invariant ParseAll(tokens[..j], ParseSort) == Parsed(items, None)
        invariant sorts == old(sorts) + items
        invariant searchTables == AliasTable(parsed, items)
        invariant filters == old(filters)
      {
        var r := ReadSort(tokens, j, parsed, items);
        if r.Err? {
          return Some(r.error);
        }
        items := items + [r.value];
        j := j + 1;
      }
      assert tokens[..j] == tokens;
      return None;
    }

    /**
     * One round of the `sortOn` loop: read token `j` and record it with its alias
     * (builder.go:219-220), or stop with its error.
     */
    method ReadSort(tokens: seq<string>, j: nat, ghost parsed: seq<FilterField>, ghost items: seq<SortField>)
      returns (r: Result<SortField>)
      requires j < |tokens| && ParseAll(tokens[..j], ParseSort) == Parsed(items, None)
      requires searchTables == AliasTable(parsed, items)
      modifies this
      ensures r.Err? ==>
        && ParseAll(tokens, ParseSort) == Parsed(items, Some(r.error))
        && sorts == old(sorts) && searchTables == old(searchTables)
      ensures r.Ok? ==>
        && ParseAll(tokens[..j + 1], ParseSort) == Parsed(items + [r.value], None)
        && sorts == old(sorts) + [r.value] && searchTables == AliasTable(parsed, items + [r.value])
      ensures filters == old(filters)
    {
      r := ParseSort(tokens[j]);
      ParseStep(tokens, j, ParseSort, items, r);
      if r.Ok? {
        RecordSort(r.value, parsed, items);
      }
    }

    /** Recording a sort read: appended, and its alias marked as searched (builder.go:219-220). */
    method RecordSort(s: SortField, ghost parsed: seq<FilterField>, ghost items: seq<SortField>)
      requires searchTables == AliasTable(parsed, items)
      modifies this
      ensures sorts == old(sorts) + [s] && searchTables == AliasTable(parsed, items + [s])
      ensures filters == old(filters)
    {
      AliasTableAddSort(parsed, items, s);
      sorts := sorts + [s];
      searchTables := searchTables[s.tableAlias := 1];
    }

    /**
     * Build (builder.go:236-343): parse, then on success the WHERE tail of the admitted
     * filters' fragments, the ORDER BY clause of the admitted sorts and the named
     * parameters; on failure the error and empty results. All filters and sorts the
     * builder holds take part, including those of earlier calls. The `wheres` map is
     * visited in the order its names were first recorded, one of the orders Go may take;
     * WhereContainsFragments and WhereEmpty hold for every order.
     */
    method Build(filterTokens: seq<string>, sortTokens: seq<string>, allowed: AllowMap)
      returns (where: string, orderBy: string, params: map<string, string>, err: Option<QueryError>)
      modifies this
      ensures var pf := ParseAll(filterTokens, ParseFilter);
        var ps := if pf.failure.Some? then Parsed([], None) else ParseAll(sortTokens, ParseSort);
        && filters == old(filters) + pf.items
        && sorts == old(sorts) + ps.items
        && searchTables == AliasTable(pf.items, ps.items)
        && err == (if pf.failure.Some? then pf.failure else ps.failure)
      ensures err.Some? ==> where == "" && orderBy == "" && params == map[]
      ensures err.None? ==>
        && where == AssembledAsWritten(WhereGroups(filters, allowed))
        && orderBy == OrderByClause(EmitAll(sorts, allowed, SortEmit))
        && params == BindAll(map[], BindingsOf(AllFragments(filters, allowed)))
    {
      err := ParseParamString(filterTokens, sortTokens);
      if err.Some? {
        return "", "", map[], err;
      }
      var groups;
      groups, orderBy, params := Emit(filters, sorts, allowed);
      where := AssembledWheres(groups);
    }

    /**
     * AssembledWheres (builder.go:345-374), as written: lone `or`/`orlike` fragments
     * trail in an OR group glued on without a separator.
     */
    method AssembledWheres(groups: Groups) returns (out: string)
      requires NonEmptyGroups(groups)
      ensures out == AssembledAsWritten(groups)
    {
      var ands, ors := SplitGroups(groups, OrRoutedAsWritten);
      out := Join(ands, " AND ");
      if |ors| > 0 {
        out := out + "(" + Join(ors, " OR ") + ")";
      }
      AsWrittenText(groups, ands, ors, out);
      if out != "" {
        return " AND " + out;
      }
      return "";
    }

    /**
     * AssembledWheres as builder_test.go:117-124 expects it: lone `or`, `orlike` and
     * `orilike` fragments form one OR group, which is one more AND item.
     */
    method AssembledWheresIntended(groups: Groups) returns (out: string)
      requires NonEmptyGroups(groups)
      ensures out == Assembled(groups)
    {
      var ands, ors := SplitGroups(groups, OrRouted);
      if |ors| > 0 {
        ands := ands + ["(" + Join(ors, " OR ") + ")"];
      }
      assert ands == AndItems(groups, OrRouted) + (if ors != [] then [OrGroup(ors)] else []);
      out := Join(ands, " AND ");
      if out != "" {
        return " AND " + out;
      }
      return "";
    }
  }

  /** The text AssembledWheres builds from the two slices, as written. */
  lemma AsWrittenText(groups: Groups, ands: seq<string>, ors: seq<string>, out: string)
    requires NonEmptyGroups(groups)
    requires ands == AndItems(groups, OrRoutedAsWritten) && ors == OrItems(groups, OrRoutedAsWritten)
    requires out == Join(ands, " AND ") + (if |ors| > 0 then "(" + Join(ors, " OR ") + ")" else "")
    ensures AssembledAsWritten(groups) == (if out != "" then " AND " + out else "")
  {
  }

  /**
   * The loops of builder.go:245-340 that follow the parse: the `wheres` map, the
   * ORDER BY clause and the named parameters of the admitted filters and sorts.
   */
  method Emit(filters: seq<FilterField>, sorts: seq<SortField>, allowed: AllowMap)
    returns (groups: Groups, orderBy: string, params: map<string, string>)
    ensures groups == WhereGroups(filters, allowed)
    ensures orderBy == OrderByClause(EmitAll(sorts, allowed, SortEmit))
    ensures params == BindAll(map[], BindingsOf(AllFragments(filters, allowed)))
  {
    var fieldsByName := GroupBy(filters, FilterName);
    var sortsByName := GroupBy(sorts, SortName);
    groups := [];
    var entries: seq<string> := [];
    params := map[];
    var k := 0;
    while k < |allowed|
      invariant 0 <= k <= |allowed|
      invariant groups == AddWheres([], WheresOf(EmitAll(filters, allowed[..k], FilterEmit)))
      invariant params == BindAll(map[], BindingsOf(EmitAll(filters, allowed[..k], FilterEmit)))
      invariant entries == EmitAll(sorts, allowed[..k], SortEmit)
    {
      var more;
      groups, params, more := EmitAlias(filters, sorts, fieldsByName, sortsByName, allowed[k].0, allowed[k].1, groups, params);
      entries := entries + more;
      EmitAllSnoc(filters, allowed, k, FilterEmit);
      EmitAllSnoc(sorts, allowed, k, SortEmit);
      RecordAppend([], map[], EmitAll(filters, allowed[..k], FilterEmit), EmitTags(filters, allowed[k].0, allowed[k].1, FilterEmit));
      k := k + 1;
    }
    assert allowed[..k] == allowed;
    orderBy := Join(entries, ", ");
    if orderBy != "" {
      orderBy := "ORDER BY " + orderBy;
    }
  }

  /** The loop of builder.go:348-364: the `where` and `orWhere` slices. */
  method SplitGroups(groups: Groups, routed: Where -> bool) returns (ands: seq<string>, ors: seq<string>)
    requires NonEmptyGroups(groups)
    ensures ands == AndItems(groups, routed) && ors == OrItems(groups, routed)
  {
    ands, ors := [], [];
    var p := 0;
    while p < |groups|
      invariant 0 <= p <= |groups|
      invariant ands == AndItems(groups[..p], routed) && ors == OrItems(groups[..p], routed)
    {
      assert groups[..p + 1][..p] == groups[..p];
      assert NonEmptyGroups(groups[..p + 1]);
      var ws := groups[p].1;
      if |ws| > 1 {
        var orGroup: seq<string> := [];
        var q := 0;
        while q < |ws|
          invariant 0 <= q <= |ws| && orGroup == Sqls(ws)[..q]
        {
          orGroup := orGroup + [ws[q].sql];
          q := q + 1;
        }
        assert Sqls(ws)[..q] == Sqls(ws);
        assert Rendered(ws) == "(" + Join(orGroup, " OR ") + ")";
        ands := ands + ["(" + Join(orGroup, " OR ") + ")"];
      } else if routed(ws[0]) {
        ors := ors + [ws[0].sql];
      } else {
        ands := ands + [ws[0].sql];
      }
      p := p + 1;
    }
    assert groups[..p] == groups;
  }

  /** The maps of builder.go:245-253: each name with its items, in order. */
  method GroupBy<T(!new)>(items: seq<T>, key: T -> string) returns (m: map<string, seq<T>>)
    ensures Buckets(m, items, key)
  {
    m := map[];
    var i := 0;
    while i < |items|
      invariant 0 <= i <= |items|
      invariant Buckets(m, items[..i], key)
    {
      var x := items[i];
      BucketsSnoc(m, items[..i], key, x);
      assert items[..i + 1] == items[..i] + [x];
      m := m[key(x) := (if key(x) in m then m[key(x)] else []) + [x]];
      i := i + 1;
    }
    assert items[..i] == items;
  }

  /** Appending an item to its name's bucket keeps the buckets. */
  lemma BucketsSnoc<T(!new)>(m: map<string, seq<T>>, items: seq<T>, key: T -> string, x: T)
    requires Buckets(m, items, key)
    ensures Buckets(m[key(x) := (if key(x) in m then m[key(x)] else []) + [x]], items + [x], key)
  {
    var m' := m[key(x) := (if key(x) in m then m[key(x)] else []) + [x]];
    forall name
      ensures name in m' <==> Select(items + [x], key, name) != []
      ensures name in m' ==> m'[name] == Select(items + [x], key, name)
    {
      SelectSnoc(items, x, key, name);
    }
  }

  /** Each name's bucket is its items, in order. */
  ghost predicate Buckets<T(!new)>(m: map<string, seq<T>>, items: seq<T>, key: T -> string)
  {
    && (forall name :: name in m <==> Select(items, key, name) != [])
    && (forall name :: name in m ==> m[name] == Select(items, key, name))
  }

  /** The body of the allow-map loop for one alias (builder.go:256-333). */
  method EmitAlias(filters: seq<FilterField>, sorts: seq<SortField>,
                   fieldsByName: map<string, seq<FilterField>>, sortsByName: map<string, seq<SortField>>,
                   alias: string, tags: seq<string>, groups0: Groups, params0: map<string, string>)
    returns (groups: Groups, params: map<string, string>, entries: seq<string>)
    requires Buckets(fieldsByName, filters, FilterName) && Buckets(sortsByName, sorts, SortName)
    ensures groups == AddWheres(groups0, WheresOf(EmitTags(filters, alias, tags, FilterEmit)))
    ensures params == BindAll(params0, BindingsOf(EmitTags(filters, alias, tags, FilterEmit)))
    ensures entries == EmitTags(sorts, alias, tags, SortEmit)
  {
    groups, params, entries := groups0, params0, [];
    var t := 0;
    while t < |tags|
      invariant 0 <= t <= |tags|
      invariant groups == AddWheres(groups0, WheresOf(EmitTags(filters, alias, tags[..t], FilterEmit)))
      invariant params == BindAll(params0, BindingsOf(EmitTags(filters, alias, tags[..t], FilterEmit)))
      invariant entries == EmitTags(sorts, alias, tags[..t], SortEmit)
    {
      groups, params, entries := EmitAliasRound(filters, sorts, fieldsByName, sortsByName, alias, tags, t,
                                                groups0, params0, groups, params, entries);
      t := t + 1;
    }
    assert tags[..t] == tags;
  }

  /** One round of the tag loop of EmitAlias: tag `t` is emitted after the tags before it. */
  method EmitAliasRound(filters: seq<FilterField>, sorts: seq<SortField>,
                        fieldsByName: map<string, seq<FilterField>>, sortsByName: map<string, seq<SortField>>,
                        alias: string, tags: seq<string>, t: nat,
                        groups0: Groups, params0: map<string, string>,
                        groups1: Groups, params1: map<string, string>, entries1: seq<string>)
    returns (groups: Groups, params: map<string, string>, entries: seq<string>)
    requires Buckets(fieldsByName, filters, FilterName) && Buckets(sortsByName, sorts, SortName)
    requires t < |tags|
    requires groups1 == AddWheres(groups0, WheresOf(EmitTags(filters, alias, tags[..t], FilterEmit)))
    requires params1 == BindAll(params0, BindingsOf(EmitTags(filters, alias, tags[..t], FilterEmit)))
    requires entries1 == EmitTags(sorts, alias, tags[..t], SortEmit)
    ensures groups == AddWheres(groups0, WheresOf(EmitTags(filters, alias, tags[..t + 1], FilterEmit)))
    ensures params == BindAll(params0, BindingsOf(EmitTags(filters, alias, tags[..t + 1], FilterEmit)))
    ensures entries == EmitTags(sorts, alias, tags[..t + 1], SortEmit)
  {
    EmitAliasStep(filters, sorts, alias, tags, t, groups0, params0);
    var more;
    groups, params, more := EmitTag(filters, sorts, fieldsByName, sortsByName, alias, tags[t], groups1, params1);
    entries := entries1 + more;
  }

  /** What one more tag adds to the fragments and entries of an alias, and to what they record. */
  lemma EmitAliasStep(filters: seq<FilterField>, sorts: seq<SortField>, alias: string, tags: seq<string>, t: nat,
                      groups0: Groups, params0: map<string, string>)
    requires t < |tags|
    ensures var done := EmitTags(filters, alias, tags[..t], FilterEmit);
      var next := TagEmit(filters, alias, tags[t], FilterEmit);
      && AddWheres(AddWheres(groups0, WheresOf(done)), WheresOf(next))
         == AddWheres(groups0, WheresOf(EmitTags(filters, alias, tags[..t + 1], FilterEmit)))
      && BindAll(BindAll(params0, BindingsOf(done)), BindingsOf(next))
         == BindAll(params0, BindingsOf(EmitTags(filters, alias, tags[..t + 1], FilterEmit)))
    ensures EmitTags(sorts, alias, tags[..t + 1], SortEmit)
      == EmitTags(sorts, alias, tags[..t], SortEmit) + TagEmit(sorts, alias, tags[t], SortEmit)
  {
    EmitTagsSnoc(filters, alias, tags, t, FilterEmit);
    EmitTagsSnoc(sorts, alias, tags, t, SortEmit);
    RecordAppend(groups0, params0, EmitTags(filters, alias, tags[..t], FilterEmit), TagEmit(filters, alias, tags[t], FilterEmit));
  }

  /** The body of the tag loop for one tag (builder.go:258-332); an empty tag is skipped. */
  method EmitTag(filters: seq<FilterField>, sorts: seq<SortField>,
                 fieldsByName: map<string, seq<FilterField>>, sortsByName: map<string, seq<SortField>>,
                 alias: string, tag: string, groups0: Groups, params0: map<string, string>)
    returns (groups: Groups, params: map<string, string>, entries: seq<string>)
    requires Buckets(fieldsByName, filters, FilterName) && Buckets(sortsByName, sorts, SortName)
    ensures groups == AddWheres(groups0, WheresOf(TagEmit(filters, alias, tag, FilterEmit)))
    ensures params == BindAll(params0, BindingsOf(TagEmit(filters, alias, tag, FilterEmit)))
    ensures entries == TagEmit(sorts, alias, tag, SortEmit)
  {
    if tag == "" {
      return groups0, params0, [];
    }
    var fields := if tag in fieldsByName then fieldsByName[tag] else [];
    assert fields == Select(filters, FilterName, tag);
    groups, params := EmitFilterGroup(fields, alias, groups0, params0);
    var sortGroup := if tag in sortsByName then sortsByName[tag] else [];
    assert sortGroup == Select(sorts, SortName, tag);
    entries := EmitSortGroup(sortGroup, alias);
  }

  /** The loop of builder.go:265-322 over one field-name bucket. */
  method EmitFilterGroup(group: seq<FilterField>, alias: string, groups0: Groups, params0: map<string, string>)
    returns (groups: Groups, params: map<string, string>)
    ensures groups == AddWheres(groups0, WheresOf(GroupFragments(group, alias)))
    ensures params == BindAll(params0, BindingsOf(GroupFragments(group, alias)))
  {
    groups, params := groups0, params0;
    var i := 0;
    while i < |group|
      invariant 0 <= i <= |group|
      invariant groups == AddWheres(groups0, WheresOf(GroupFragments(group[..i], alias)))
      invariant params == BindAll(params0, BindingsOf(GroupFragments(group[..i], alias)))
    {
      assert group[..i + 1][..i] == group[..i];
      ghost var done := GroupFragments(group[..i], alias);
      var field := group[i];
      if field.tableAlias == alias {
        var r := RenderFilter(field, alias, i);
        if r.Some? {
          var fr := r.value;
          params := Bind(params, fr.bindings);
          groups := AddWhere(groups, fr.where);
          assert GroupFragments(group[..i + 1], alias) == done + [fr];
          RecordOne(groups0, params0, done, fr);
        } else {
          assert GroupFragments(group[..i + 1], alias) == done;
        }
      } else {
        assert GroupFragments(group[..i + 1], alias) == done;
      }
      i := i + 1;
    }
    assert group[..i] == group;
  }

  /** The loop of builder.go:327-331 over one field-name bucket of sorts. */
  method EmitSortGroup(group: seq<SortField>, alias: string) returns (entries: seq<string>)
    ensures entries == SortEntries(group, alias)
  {
    entries := [];
    var i := 0;
    while i < |group|
      invariant 0 <= i <= |group|
      invariant entries == SortEntries(group[..i], alias)
    {
      assert group[..i + 1][..i] == group[..i];
      if group[i].tableAlias == alias {
        entries := entries + [alias + "." + group[i].fieldName + " " + group[i].direction.String()];
      }
      i := i + 1;
    }
    assert group[..i] == group;
  }

  /** `namedParamMap[key] = value` for each binding in turn. */
  method Bind(params0: map<string, string>, bindings: seq<(string, string)>) returns (params: map<string, string>)
    ensures params == BindAll(params0, bindings)
  {
    params := params0;
    var j := 0;
    while j < |bindings|
      invariant 0 <= j <= |bindings|
      invariant params == BindAll(params0, bindings[..j])
    {
      assert bindings[..j + 1][..j] == bindings[..j];
      params := params[bindings[j].0 := bindings[j].1];
      j := j + 1;
    }
    assert bindings[..j] == bindings;
  }

  /**
   * The switch of builder.go:268-320 for one filter, rendering in a loop what
   * Assembly.FilterFragment defines; the membership case loops over its values.
   * Assembly.FragmentShape carries what the fragment promises.
   */
  method RenderFilter(f: FilterField, alias: string, i: nat) returns (r: Option<Fragment>)
    ensures r == FilterFragment(f, alias, i)
  {
    var combined := alias + "." + f.fieldName;
    var head := f.tableAlias + "." + f.fieldName + " " + f.op.Convert();
    if f.op == Between {
      if |f.values| == 2 {
        var k0 := ParamKey(f, i) + "_" + NatToString(0);
        var k1 := ParamKey(f, i) + "_" + NatToString(1);
        r := Some(Fragment(Where(combined, head + " :" + k0 + " AND :" + k1, k0, Other("")),
                           [(k0, f.values[0]), (k1, f.values[1])]));
      } else {
        r := None;
      }
    } else if f.op == In || f.op == NotIn {
      var placeholders, bindings := RenderValues(f, i);
      r := Some(Fragment(Where(combined, head + " (" + Join(placeholders, ", ") + ")", "", Other("")), bindings));
    } else if f.op == Null || f.op == NotNull {
      r := Some(Fragment(Where(combined, head, "", Other("")), []));
    } else {
      var key := ParamKey(f, i);
      r := Some(Fragment(Where(combined, head + " :" + key, key, f.op), [(key, f.value)]));
    }
  }

  /** The loop of builder.go:289-293: one placeholder and one parameter per value. */
  method RenderValues(f: FilterField, i: nat) returns (placeholders: seq<string>, bindings: seq<(string, string)>)
    ensures placeholders == Placeholders(f, i) && bindings == ValueBindings(f, i)
  {
    placeholders, bindings := [], [];
    var j := 0;
    while j < |f.values|
      invariant 0 <= j <= |f.values|
      invariant placeholders == Placeholders(f, i)[..j]
      invariant bindings == ValueBindings(f, i)[..j]
    {
      var key := ParamKey(f, i) + "_" + NatToString(j);
      bindings := bindings + [(key, f.values[j])];
      placeholders := placeholders + [":" + key];
      j := j + 1;
    }
    assert placeholders == Placeholders(f, i);
    assert bindings == ValueBindings(f, i);
  }
}
