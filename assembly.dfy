/**
 * What `Build` and `AssembledWheres` compute (builder.go:236-374), as functions of the
 * parsed filters and sorts and of the allow-map: the SQL fragment and named parameters
 * of each filter, the order in which the nested loops visit them, the grouping of
 * fragments by `alias.field`, and the assembly of the final WHERE tail.
 */
module Assembly {
  import opened GoStrings
  import opened Operators
  import opened Tokens

  /** Where (builder.go:75-80): a fragment under its `alias.field` name. */
  datatype Where = Where(combinedName: string, sql: string, named: string, op: Operator)

  /** A fragment together with the named parameters it binds, in binding order. */
  datatype Fragment = Fragment(where: Where, bindings: seq<(string, string)>)

  /**
   * The allow-map `map[string]interface{}`: each alias with the `db` tags of its struct's
   * fields, in field order, in the order the map is iterated.
   */
  type AllowMap = seq<(string, seq<string>)>

  /** The `wheres` map of builder.go:238: each `alias.field` with its fragments. */
  type Groups = seq<(string, seq<Where>)>

  function FilterName(f: FilterField): string { f.fieldName }

  function SortName(s: SortField): string { s.fieldName }

  function CombinedName(w: Where): string { w.combinedName }

  /** The items with a given name, in order: one bucket of the maps built at builder.go:245-253. */
  function Select<T(!new)>(items: seq<T>, key: T -> string, name: string): (r: seq<T>)
    ensures |r| <= |items|
    decreases |items|
  {
    if items == [] then []
    else
      var n := |items| - 1;
      Select(items[..n], key, name) + (if key(items[n]) == name then [items[n]] else [])
  }

  /** The selected items are exactly the items with the name. */
  lemma {:induction false} SelectMembers<T(!new)>(items: seq<T>, key: T -> string, name: string)
    ensures forall x :: x in Select(items, key, name) <==> x in items && key(x) == name
    decreases |items|
  {
    if items != [] {
      var n := |items| - 1;
      SelectMembers(items[..n], key, name);
      assert items == items[..n] + [items[n]];
    }
  }

  /** `filter_<alias>_<field>_<i>` (builder.go:310). */
  function ParamKey(f: FilterField, i: nat): string
  {
    "filter_" + f.tableAlias + "_" + f.fieldName + "_" + NatToString(i)
  }

  /** `filter_<alias>_<field>_<i>_<j>` (builder.go:274, 276, 290). */
  function ParamSubKey(f: FilterField, i: nat, j: nat): string
  {
    ParamKey(f, i) + "_" + NatToString(j)
  }

  /** `<alias>.<field> <keyword>`, the common head of every fragment. */
  function Head(f: FilterField): string
  {
    f.tableAlias + "." + f.fieldName + " " + f.op.Convert()
  }

  /** The placeholders of a membership filter, one per value (builder.go:289-293). */
  function Placeholders(f: FilterField, i: nat): seq<string>
  {
    seq(|f.values|, j requires 0 <= j < |f.values| => ":" + ParamSubKey(f, i, j))
  }

  /** The parameters of a membership filter, one per value (builder.go:289-293). */
  function ValueBindings(f: FilterField, i: nat): seq<(string, string)>
  {
    seq(|f.values|, j requires 0 <= j < |f.values| => (ParamSubKey(f, i, j), f.values[j]))
  }

  /**
   * The fragment of filter `f`, the `i`-th with its field name, under `alias`
   * (the switch at builder.go:268-320). A between filter without exactly two values
   * yields nothing. Only the default case records the operator in the Where.
   */
  function FilterFragment(f: FilterField, alias: string, i: nat): (r: Option<Fragment>)
    ensures r.None? <==> f.op == Between && |f.values| != 2
    ensures r.Some? ==> r.value.where.combinedName == alias + "." + f.fieldName
  {
    var combined := alias + "." + f.fieldName;
    if f.op == Between then
      if |f.values| == 2 then
        var k0 := ParamSubKey(f, i, 0);
        var k1 := ParamSubKey(f, i, 1);
        Some(Fragment(Where(combined, Head(f) + " :" + k0 + " AND :" + k1, k0, Other("")),
                      [(k0, f.values[0]), (k1, f.values[1])]))
      else None
    else if f.op == In || f.op == NotIn then
      Some(Fragment(Where(combined, Head(f) + " (" + Join(Placeholders(f, i), ", ") + ")", "", Other("")),
                    ValueBindings(f, i)))
    else if f.op == Null || f.op == NotNull then
      Some(Fragment(Where(combined, Head(f), "", Other("")), []))
    else
      var k := ParamKey(f, i);
      Some(Fragment(Where(combined, Head(f) + " :" + k, k, f.op), [(k, f.value)]))
  }

  function OptionList<T>(o: Option<T>): seq<T>
  {
    if o.Some? then [o.value] else []
  }

  /**
   * The fragments of one field-name bucket under one alias (builder.go:263-323):
   * the filters of the bucket with that alias, each numbered by its position in the bucket.
   */
  function GroupFragments(group: seq<FilterField>, alias: string): seq<Fragment>
    decreases |group|
  {
    if group == [] then []
    else
      var n := |group| - 1;
      GroupFragments(group[..n], alias)
        + (if group[n].tableAlias == alias then OptionList(FilterFragment(group[n], alias, n)) else [])
  }

  /** The ORDER BY entries of one field-name bucket under one alias (builder.go:325-332). */
  function SortEntries(group: seq<SortField>, alias: string): seq<string>
    decreases |group|
  {
    if group == [] then []
    else
      var n := |group| - 1;
      SortEntries(group[..n], alias)
        + (if group[n].tableAlias == alias then [SortEntry(group[n])] else [])
  }

  /** `<alias>.<field> <ASC|DESC>` (builder.go:329). */
  function SortEntry(s: SortField): string
  {
    s.tableAlias + "." + s.fieldName + " " + s.direction.String()
  }

  /** What the filters contribute for one alias and one tag. */
  function FilterEmit(filters: seq<FilterField>, alias: string, tag: string): seq<Fragment>
  {
    GroupFragments(Select(filters, FilterName, tag), alias)
  }

  /** What the sorts contribute for one alias and one tag. */
  function SortEmit(sorts: seq<SortField>, alias: string, tag: string): seq<string>
  {
    SortEntries(Select(sorts, SortName, tag), alias)
  }

  /** The loop over one alias's tags, empty tags skipped (builder.go:257-261). */
  function EmitTags<S, T>(items: seq<S>, alias: string, tags: seq<string>, emit: (seq<S>, string, string) -> seq<T>): seq<T>
    decreases |tags|
  {
    if tags == [] then []
    else
      var n := |tags| - 1;
      EmitTags(items, alias, tags[..n], emit) + TagEmit(items, alias, tags[n], emit)
  }

  /** One tag's output; a field without a `db` tag is skipped (builder.go:258-261). */
  function TagEmit<S, T>(items: seq<S>, alias: string, tag: string, emit: (seq<S>, string, string) -> seq<T>): seq<T>
  {
    if tag == "" then [] else emit(items, alias, tag)
  }

  /** The loop over the allow-map (builder.go:255). */
  function EmitAll<S, T>(items: seq<S>, allowed: AllowMap, emit: (seq<S>, string, string) -> seq<T>): seq<T>
    decreases |allowed|
  {
    if allowed == [] then []
    else
      var n := |allowed| - 1;
      EmitAll(items, allowed[..n], emit) + EmitTags(items, allowed[n].0, allowed[n].1, emit)
  }

  /** The `orderBy` result (builder.go:337-340). */
  function OrderByClause(entries: seq<string>): string
  {
    var joined := Join(entries, ", ");
    if joined != "" then "ORDER BY " + joined else ""
  }

  function WheresOf(frs: seq<Fragment>): (ws: seq<Where>)
    ensures |ws| == |frs| && forall k :: 0 <= k < |frs| ==> ws[k] == frs[k].where
  {
    seq(|frs|, k requires 0 <= k < |frs| => frs[k].where)
  }

  /** All the parameters the fragments bind, in order. */
  function BindingsOf(frs: seq<Fragment>): seq<(string, string)>
    decreases |frs|
  {
    if frs == [] then []
    else
      var n := |frs| - 1;
      BindingsOf(frs[..n]) + frs[n].bindings
  }

  /** Writing the bindings into `namedParamMap` one after the other. */
  function BindAll(m: map<string, string>, bs: seq<(string, string)>): map<string, string>
    decreases |bs|
  {
    if bs == [] then m
    else
      var n := |bs| - 1;
      BindAll(m, bs[..n])[bs[n].0 := bs[n].1]
  }

  /** Position of the bucket called `name`, or `|groups|` when there is none. */
  function FindGroup(groups: Groups, name: string): (i: nat)
    ensures i <= |groups|
    ensures i < |groups| ==> groups[i].0 == name
    ensures forall q :: 0 <= q < i ==> groups[q].0 != name
    decreases |groups|
  {
    if groups == [] || groups[0].0 == name then 0 else 1 + FindGroup(groups[1..], name)
  }

  /** `wheres[w.CombinedName] = append(wheres[w.CombinedName], w)`, a new name going last. */
  function AddWhere(groups: Groups, w: Where): Groups
  {
    var i := FindGroup(groups, w.combinedName);
    if i < |groups| then groups[i := (groups[i].0, groups[i].1 + [w])]
    else groups + [(w.combinedName, [w])]
  }

  /** The `wheres` map after recording `ws` in order, starting from `groups`. */
  function AddWheres(groups: Groups, ws: seq<Where>): Groups
    decreases |ws|
  {
    if ws == [] then groups
    else
      var n := |ws| - 1;
      AddWhere(AddWheres(groups, ws[..n]), ws[n])
  }

  /**
   * `groups` holds exactly the fragments of `ws`, bucketed by name: the names are
   * distinct, each bucket is non-empty and is the fragments of that name in order,
   * and every fragment's name has a bucket.
   */
  ghost predicate GroupedBy(groups: Groups, ws: seq<Where>)
  {
    DistinctNames(groups) && BucketsMatch(groups, ws) && Covered(groups, ws)
  }

  /** No two buckets share a name. */
  ghost predicate DistinctNames(groups: Groups)
  {
    forall p, q :: 0 <= p < q < |groups| ==> groups[p].0 != groups[q].0
  }

  /** Each bucket is non-empty and holds the fragments of its name, in order. */
  ghost predicate BucketsMatch(groups: Groups, ws: seq<Where>)
  {
    forall p :: 0 <= p < |groups| ==> groups[p].1 != [] && groups[p].1 == Select(ws, CombinedName, groups[p].0)
  }

  /** Every fragment's name has a bucket. */
  ghost predicate Covered(groups: Groups, ws: seq<Where>)
  {
    forall w :: w in ws ==> exists p :: 0 <= p < |groups| && groups[p].0 == w.combinedName
  }

  // ---------------------------------------------------------------------------------
  // AssembledWheres

  /** The SQL of each fragment of a bucket. */
  function Sqls(ws: seq<Where>): (r: seq<string>)
    ensures |r| == |ws| && forall k :: 0 <= k < |ws| ==> r[k] == ws[k].sql
  {
    seq(|ws|, k requires 0 <= k < |ws| => ws[k].sql)
  }

  /** A bucket in the AND list: an OR group when it has several fragments (builder.go:349-362). */
  function Rendered(ws: seq<Where>): string
    requires ws != []
  {
    if |ws| > 1 then "(" + Join(Sqls(ws), " OR ") + ")" else ws[0].sql
  }

  /** The test at builder.go:358 as written: an `or` or `orlike` fragment. */
  predicate OrRoutedAsWritten(w: Where)
  {
    w.op == Or || w.op == OrLike
  }

  /** The test builder_test.go:117 expects: `orilike` too. */
  predicate OrRouted(w: Where)
  {
    w.op == Or || w.op == OrLike || w.op == OrILike
  }

  /** A bucket that goes to the trailing OR group: a lone fragment the test routes. */
  predicate Trails(ws: seq<Where>, routed: Where -> bool)
  {
    |ws| == 1 && routed(ws[0])
  }

  predicate NonEmptyGroups(groups: Groups)
  {
    forall p :: 0 <= p < |groups| ==> groups[p].1 != []
  }

  /** The `where` slice: the buckets that do not trail, rendered, in order. */
  function AndItems(groups: Groups, routed: Where -> bool): seq<string>
    requires NonEmptyGroups(groups)
    decreases |groups|
  {
    if groups == [] then []
    else
      var n := |groups| - 1;
      AndItems(groups[..n], routed) + AndPiece(groups[n].1, routed)
  }

  /** What one bucket adds to the `where` slice. */
  function AndPiece(ws: seq<Where>, routed: Where -> bool): seq<string>
    requires ws != []
  {
    if Trails(ws, routed) then [] else [Rendered(ws)]
  }

  /** What one bucket adds to the `orWhere` slice. */
  function OrPiece(ws: seq<Where>, routed: Where -> bool): seq<string>
    requires ws != []
  {
    if Trails(ws, routed) then [ws[0].sql] else []
  }

  /** The `orWhere` slice: the lone fragments that trail, in order. */
  function OrItems(groups: Groups, routed: Where -> bool): seq<string>
    requires NonEmptyGroups(groups)
    decreases |groups|
  {
    if groups == [] then []
    else
      var n := |groups| - 1;
      OrItems(groups[..n], routed) + OrPiece(groups[n].1, routed)
  }

  /** The parenthesised OR group of the trailing fragments, or nothing. */
  function OrGroup(items: seq<string>): string
  {
    if items != [] then "(" + Join(items, " OR ") + ")" else ""
  }

  /** `" AND " + out` unless `out` is empty (builder.go:370-373). */
  function Prefixed(out: string): string
  {
    if out != "" then " AND " + out else ""
  }

  /** AssembledWheres as written: the OR group glued to the AND list with no separator. */
  function AssembledAsWritten(groups: Groups): (out: string)
    requires NonEmptyGroups(groups)
    ensures out != "" ==> |out| > 5 && out[..5] == " AND "
  {
    Prefixed(Join(AndItems(groups, OrRoutedAsWritten), " AND ") + OrGroup(OrItems(groups, OrRoutedAsWritten)))
  }

  /** AssembledWheres as intended: the OR group is one more AND item, `orilike` included. */
  function Assembled(groups: Groups): (out: string)
    requires NonEmptyGroups(groups)
    ensures out != "" ==> |out| > 5 && out[..5] == " AND "
  {
    var ors := OrItems(groups, OrRouted);
    Prefixed(Join(AndItems(groups, OrRouted) + (if ors != [] then [OrGroup(ors)] else []), " AND "))
  }

  // ---------------------------------------------------------------------------------
  // Lemmas: fragments

  /** The values a fragment binds, in binding order. */
  function BoundValues(bs: seq<(string, string)>): seq<string>
  {
    seq(|bs|, k requires 0 <= k < |bs| => bs[k].1)
  }

  /**
   * What each fragment says and binds: it starts with `<alias>.<field> <keyword>`;
   * between and the membership operators bind the filter's values in order, value `j`
   * under `filter_<alias>_<field>_<i>_<j>`; the null checks bind nothing; every other
   * operator binds the filter's value under `filter_<alias>_<field>_<i>`; and every key
   * bound appears in the SQL as `:<key>`.
   */
  lemma FragmentShape(f: FilterField, alias: string, i: nat)
    ensures FilterFragment(f, alias, i).Some? ==>
      var fr := FilterFragment(f, alias, i).value;
      var multi := f.op == Between || f.op == In || f.op == NotIn;
      && |Head(f)| <= |fr.where.sql| && fr.where.sql[..|Head(f)|] == Head(f)
      && BoundValues(fr.bindings) == (if multi then f.values else if f.op == Null || f.op == NotNull then [] else [f.value])
      && (forall k :: 0 <= k < |fr.bindings| ==> fr.bindings[k].0 == if multi then ParamSubKey(f, i, k) else ParamKey(f, i))
      && (forall b :: b in fr.bindings ==> Contains(fr.where.sql, ":" + b.0))
  {
    if FilterFragment(f, alias, i).Some? {
      var fr := FilterFragment(f, alias, i).value;
      var sql := fr.where.sql;
      StartsWith(Head(f), sql[|Head(f)|..], sql);
      if f.op == Between {
        BetweenShown(f, i);
      } else if f.op == In || f.op == NotIn {
        forall b | b in fr.bindings
          ensures Contains(sql, ":" + b.0)
        {
          var j :| 0 <= j < |f.values| && fr.bindings[j] == b;
          InShown(f, i, j);
        }
      } else if !(f.op == Null || f.op == NotNull) {
        DefaultShown(f, i);
      }
    }
  }

  /** A string built as `h + t` starts with `h`. */
  lemma StartsWith(h: string, t: string, s: string)
    requires |h| <= |s| && s == h + s[|h|..]
    ensures s[..|h|] == h
  {
  }

  /** Both keys of a between fragment appear in its SQL. */
  lemma BetweenShown(f: FilterField, i: nat)
    ensures var k0 := ParamSubKey(f, i, 0);
      var k1 := ParamSubKey(f, i, 1);
      var sql := Head(f) + " :" + k0 + " AND :" + k1;
      Contains(sql, ":" + k0) && Contains(sql, ":" + k1)
  {
    var k0 := ParamSubKey(f, i, 0);
    var k1 := ParamSubKey(f, i, 1);
    assert Head(f) + " :" + k0 + " AND :" + k1 == Head(f) + " " + (":" + k0) + (" AND :" + k1);
    ContainsMiddle(Head(f) + " ", ":" + k0, " AND :" + k1);
    assert Head(f) + " :" + k0 + " AND :" + k1 == Head(f) + " :" + k0 + " AND " + (":" + k1) + "";
    ContainsMiddle(Head(f) + " :" + k0 + " AND ", ":" + k1, "");
  }

  /** Each placeholder of a membership fragment appears in its SQL. */
  lemma InShown(f: FilterField, i: nat, j: nat)
    requires j < |f.values|
    ensures Contains(Head(f) + " (" + Join(Placeholders(f, i), ", ") + ")", ":" + ParamSubKey(f, i, j))
  {
    var ps := Placeholders(f, i);
    JoinContains(ps, ", ", j);
    ContainsMiddle(Head(f) + " (", Join(ps, ", "), ")");
    ContainsTrans(Head(f) + " (" + Join(ps, ", ") + ")", Join(ps, ", "), ps[j]);
  }

  /** The key of a single-value fragment appears in its SQL. */
  lemma DefaultShown(f: FilterField, i: nat)
    ensures Contains(Head(f) + " :" + ParamKey(f, i), ":" + ParamKey(f, i))
  {
    var k := ParamKey(f, i);
    assert Head(f) + " :" + k == Head(f) + " " + (":" + k) + "";
    ContainsMiddle(Head(f) + " ", ":" + k, "");
  }

  /** Each fragment of a bucket comes from one of its filters with the alias, numbered by bucket position. */
  lemma {:induction false} GroupFragmentsSource(group: seq<FilterField>, alias: string, fr: Fragment)
    requires fr in GroupFragments(group, alias)
    ensures exists i :: 0 <= i < |group| && group[i].tableAlias == alias && FilterFragment(group[i], alias, i) == Some(fr)
    decreases |group|
  {
    var n := |group| - 1;
    var tail := if group[n].tableAlias == alias then OptionList(FilterFragment(group[n], alias, n)) else [];
    assert GroupFragments(group, alias) == GroupFragments(group[..n], alias) + tail;
    if fr in GroupFragments(group[..n], alias) {
      GroupFragmentsSource(group[..n], alias, fr);
      var i :| 0 <= i < n && group[..n][i].tableAlias == alias && FilterFragment(group[..n][i], alias, i) == Some(fr);
      assert group[..n][i] == group[i];
    } else {
      assert fr in tail;
      assert group[n].tableAlias == alias && FilterFragment(group[n], alias, n) == Some(fr);
    }
  }

  /** Each filter of a bucket with the alias yields its fragment, numbered by bucket position. */
  lemma {:induction false} GroupFragmentsComplete(group: seq<FilterField>, alias: string, i: nat)
    requires i < |group| && group[i].tableAlias == alias && FilterFragment(group[i], alias, i).Some?
    ensures FilterFragment(group[i], alias, i).value in GroupFragments(group, alias)
    decreases |group|
  {
    var n := |group| - 1;
    var tail := if group[n].tableAlias == alias then OptionList(FilterFragment(group[n], alias, n)) else [];
    assert GroupFragments(group, alias) == GroupFragments(group[..n], alias) + tail;
    if i < n {
      assert group[..n][i] == group[i];
      GroupFragmentsComplete(group[..n], alias, i);
    }
  }

  /** A bucket's ORDER BY entries are those of its sorts with the alias. */
  lemma {:induction false} SortEntriesMember(group: seq<SortField>, alias: string, e: string)
    ensures e in SortEntries(group, alias) <==> exists s :: s in group && s.tableAlias == alias && e == SortEntry(s)
    decreases |group|
  {
    if group != [] {
      var n := |group| - 1;
      SortEntriesMember(group[..n], alias, e);
      assert group == group[..n] + [group[n]];
    }
  }

  /** The tag loop visits exactly the non-empty tags. */
  lemma {:induction false} EmitTagsMember<S, T>(items: seq<S>, alias: string, tags: seq<string>, emit: (seq<S>, string, string) -> seq<T>, x: T)
    ensures x in EmitTags(items, alias, tags, emit) <==> exists t :: t in tags && t != "" && x in emit(items, alias, t)
    decreases |tags|
  {
    if tags != [] {
      var n := |tags| - 1;
      EmitTagsMember(items, alias, tags[..n], emit, x);
      assert tags == tags[..n] + [tags[n]];
    }
  }

  /** The allow-map loop visits exactly the non-empty tags of every alias. */
  lemma {:induction false} EmitAllMember<S, T>(items: seq<S>, allowed: AllowMap, emit: (seq<S>, string, string) -> seq<T>, x: T)
    ensures x in EmitAll(items, allowed, emit) <==>
      exists k, t :: 0 <= k < |allowed| && t in allowed[k].1 && t != "" && x in emit(items, allowed[k].0, t)
    decreases |allowed|
  {
    if allowed != [] {
      var n := |allowed| - 1;
      var prev := EmitAll(items, allowed[..n], emit);
      var last := EmitTags(items, allowed[n].0, allowed[n].1, emit);
      assert EmitAll(items, allowed, emit) == prev + last;
      EmitAllMember(items, allowed[..n], emit, x);
      EmitTagsMember(items, allowed[n].0, allowed[n].1, emit, x);
      if x in prev {
        var k, t :| 0 <= k < n && t in allowed[..n][k].1 && t != "" && x in emit(items, allowed[..n][k].0, t);
        assert allowed[..n][k] == allowed[k];
      } else if x in last {
        var t :| t in allowed[n].1 && t != "" && x in emit(items, allowed[n].0, t);
      }
      if exists k, t :: 0 <= k < |allowed| && t in allowed[k].1 && t != "" && x in emit(items, allowed[k].0, t) {
        var k, t :| 0 <= k < |allowed| && t in allowed[k].1 && t != "" && x in emit(items, allowed[k].0, t);
        if k < n {
          assert allowed[..n][k] == allowed[k];
          assert x in prev;
        } else {
          assert x in last;
        }
      }
    }
  }

  /**
   * Every fragment comes from a parsed filter whose alias is an allow-map key and whose
   * field is one of that alias's non-empty tags; nothing else produces SQL.
   */
  lemma FragmentsAllowed(filters: seq<FilterField>, allowed: AllowMap, fr: Fragment)
    requires fr in EmitAll(filters, allowed, FilterEmit)
    ensures exists k, f, i: nat :: (0 <= k < |allowed| && f in filters && f.tableAlias == allowed[k].0
              && f.fieldName in allowed[k].1 && f.fieldName != "" && FilterFragment(f, f.tableAlias, i) == Some(fr))
  {
    EmitAllMember(filters, allowed, FilterEmit, fr);
    var k, t :| 0 <= k < |allowed| && t in allowed[k].1 && t != "" && fr in FilterEmit(filters, allowed[k].0, t);
    var group := Select(filters, FilterName, t);
    SelectMembers(filters, FilterName, t);
    GroupFragmentsSource(group, allowed[k].0, fr);
    var i :| 0 <= i < |group| && group[i].tableAlias == allowed[k].0 && FilterFragment(group[i], allowed[k].0, i) == Some(fr);
    assert group[i] in group;
  }

  /**
   * Conversely, every parsed filter whose alias and field the allow-map admits yields a
   * fragment, unless it is a between filter without exactly two values.
   */
  lemma FilterEmitted(filters: seq<FilterField>, allowed: AllowMap, k: nat, f: FilterField)
    requires k < |allowed| && f in filters && f.tableAlias == allowed[k].0
    requires f.fieldName in allowed[k].1 && f.fieldName != ""
    requires f.op != Between || |f.values| == 2
    ensures exists i: nat :: (FilterFragment(f, f.tableAlias, i).Some?
              && FilterFragment(f, f.tableAlias, i).value in EmitAll(filters, allowed, FilterEmit))
  {
    var group := Select(filters, FilterName, f.fieldName);
    SelectMembers(filters, FilterName, f.fieldName);
    assert f in group;
    var i :| 0 <= i < |group| && group[i] == f;
    var fr := FilterFragment(f, f.tableAlias, i).value;
    GroupFragmentsComplete(group, f.tableAlias, i);
    assert fr in FilterEmit(filters, allowed[k].0, f.fieldName);
    EmitAllMember(filters, allowed, FilterEmit, fr);
  }

  /**
   * The ORDER BY entries are exactly those of the parsed sorts whose alias and field
   * the allow-map admits.
   */
  lemma SortsAllowed(sorts: seq<SortField>, allowed: AllowMap, e: string)
    ensures e in EmitAll(sorts, allowed, SortEmit) <==>
      exists k, s :: 0 <= k < |allowed| && s in sorts && s.tableAlias == allowed[k].0
        && s.fieldName in allowed[k].1 && s.fieldName != "" && e == SortEntry(s)
  {
    EmitAllMember(sorts, allowed, SortEmit, e);
    if e in EmitAll(sorts, allowed, SortEmit) {
      var k, t :| 0 <= k < |allowed| && t in allowed[k].1 && t != "" && e in SortEmit(sorts, allowed[k].0, t);
      SortEntriesMember(Select(sorts, SortName, t), allowed[k].0, e);
      SelectMembers(sorts, SortName, t);
    }
    if exists k, s :: 0 <= k < |allowed| && s in sorts && s.tableAlias == allowed[k].0
        && s.fieldName in allowed[k].1 && s.fieldName != "" && e == SortEntry(s) {
      var k, s :| 0 <= k < |allowed| && s in sorts && s.tableAlias == allowed[k].0
        && s.fieldName in allowed[k].1 && s.fieldName != "" && e == SortEntry(s);
      SortEntriesMember(Select(sorts, SortName, s.fieldName), allowed[k].0, e);
      SelectMembers(sorts, SortName, s.fieldName);
      assert e in SortEmit(sorts, allowed[k].0, s.fieldName);
    }
  }

  // ---------------------------------------------------------------------------------
  // Lemmas: the wheres map and the parameter map

  /** Selecting from one more item. */
  lemma SelectSnoc<T(!new)>(items: seq<T>, x: T, key: T -> string, name: string)
    ensures Select(items + [x], key, name) == Select(items, key, name) + (if key(x) == name then [x] else [])
  {
    assert (items + [x])[..|items|] == items;
  }

  /** Recording one more fragment keeps the wheres map a bucketing of all of them. */
  lemma AddWhereGrouped(groups: Groups, ws: seq<Where>, w: Where)
    requires GroupedBy(groups, ws)
    ensures GroupedBy(AddWhere(groups, w), ws + [w])
  {
    AddWhereDistinct(groups, w);
    AddWhereMatches(groups, ws, w);
    AddWhereCovered(groups, ws, w);
  }

  /** A new name goes last, so the names stay distinct. */
  lemma AddWhereDistinct(groups: Groups, w: Where)
    requires DistinctNames(groups)
    ensures DistinctNames(AddWhere(groups, w))
  {
    var i := FindGroup(groups, w.combinedName);
    var g := AddWhere(groups, w);
    assert forall p :: 0 <= p < |g| ==> g[p].0 == (if p < |groups| then groups[p].0 else w.combinedName);
  }

  /** Every bucket holds the fragments of its name after one more is recorded. */
  lemma AddWhereMatches(groups: Groups, ws: seq<Where>, w: Where)
    requires DistinctNames(groups) && BucketsMatch(groups, ws) && Covered(groups, ws)
    ensures BucketsMatch(AddWhere(groups, w), ws + [w])
  {
    var g := AddWhere(groups, w);
    forall p | 0 <= p < |g|
      ensures g[p].1 != [] && g[p].1 == Select(ws + [w], CombinedName, g[p].0)
    {
      AddWhereBucket(groups, ws, w, p);
    }
  }

  /** The recorded fragment's name has a bucket, and so do the earlier ones. */
  lemma AddWhereCovered(groups: Groups, ws: seq<Where>, w: Where)
    requires Covered(groups, ws)
    ensures Covered(AddWhere(groups, w), ws + [w])
  {
    var i := FindGroup(groups, w.combinedName);
    var g := AddWhere(groups, w);
    forall x | x in ws + [w]
      ensures exists p :: 0 <= p < |g| && g[p].0 == x.combinedName
    {
      if x in ws {
        var p :| 0 <= p < |groups| && groups[p].0 == x.combinedName;
        assert g[p].0 == x.combinedName;
      } else {
        assert g[i].0 == x.combinedName;
      }
    }
  }

  /** One bucket after recording one more fragment. */
  lemma AddWhereBucket(groups: Groups, ws: seq<Where>, w: Where, p: nat)
    requires DistinctNames(groups) && BucketsMatch(groups, ws) && Covered(groups, ws)
    requires p < |AddWhere(groups, w)|
    ensures var g := AddWhere(groups, w);
      g[p].1 != [] && g[p].1 == Select(ws + [w], CombinedName, g[p].0)
  {
    var i := FindGroup(groups, w.combinedName);
    var g := AddWhere(groups, w);
    SelectSnoc(ws, w, CombinedName, g[p].0);
    if p == i && i == |groups| {
      UncoveredEmpty(groups, ws, w.combinedName);
    } else if p != i {
      assert p < |groups| && g[p] == groups[p];
      assert groups[p].1 == Select(ws, CombinedName, groups[p].0);
      assert groups[p].0 != w.combinedName by {
        if p > i {
          assert groups[i].0 == w.combinedName;
        }
      }
    }
  }

  /** A name without a bucket has no fragments. */
  lemma UncoveredEmpty(groups: Groups, ws: seq<Where>, name: string)
    requires Covered(groups, ws) && FindGroup(groups, name) == |groups|
    ensures Select(ws, CombinedName, name) == []
  {
    forall x | x in ws
      ensures x.combinedName != name
    {
      var q :| 0 <= q < |groups| && groups[q].0 == x.combinedName;
    }
    var r := Select(ws, CombinedName, name);
    SelectMembers(ws, CombinedName, name);
    EmptyOrFirst(r);
  }

  /** A sequence is empty or holds its first element. */
  lemma EmptyOrFirst<T>(r: seq<T>)
    ensures r == [] || r[0] in r
  {
  }

  /** Recording a sequence of fragments into an empty map buckets them by `alias.field`. */
  lemma {:induction false} AddWheresGrouped(ws: seq<Where>)
    ensures GroupedBy(AddWheres([], ws), ws)
    decreases |ws|
  {
    if ws != [] {
      var n := |ws| - 1;
      AddWheresGrouped(ws[..n]);
      AddWhereGrouped(AddWheres([], ws[..n]), ws[..n], ws[n]);
      assert ws[..n] + [ws[n]] == ws;
    }
  }

  /** One more step of the allow-map loop. */
  lemma EmitAllSnoc<S, T>(items: seq<S>, allowed: AllowMap, k: nat, emit: (seq<S>, string, string) -> seq<T>)
    requires k < |allowed|
    ensures EmitAll(items, allowed[..k + 1], emit) == EmitAll(items, allowed[..k], emit) + EmitTags(items, allowed[k].0, allowed[k].1, emit)
  {
    assert allowed[..k + 1][..k] == allowed[..k];
  }

  /** One more step of the tag loop. */
  lemma EmitTagsSnoc<S, T>(items: seq<S>, alias: string, tags: seq<string>, t: nat, emit: (seq<S>, string, string) -> seq<T>)
    requires t < |tags|
    ensures EmitTags(items, alias, tags[..t + 1], emit) ==
      EmitTags(items, alias, tags[..t], emit) + TagEmit(items, alias, tags[t], emit)
  {
    assert tags[..t + 1][..t] == tags[..t];
  }

  /** Recording and binding the fragments `done` and then `next` is recording and binding `done + next`. */
  lemma RecordAppend(groups: Groups, params: map<string, string>, done: seq<Fragment>, next: seq<Fragment>)
    ensures AddWheres(AddWheres(groups, WheresOf(done)), WheresOf(next)) == AddWheres(groups, WheresOf(done + next))
    ensures BindAll(BindAll(params, BindingsOf(done)), BindingsOf(next)) == BindAll(params, BindingsOf(done + next))
  {
    assert WheresOf(done + next) == WheresOf(done) + WheresOf(next);
    AddWheresAppend(groups, WheresOf(done), WheresOf(next));
    BindingsOfAppend(done, next);
    BindAllAppend(params, BindingsOf(done), BindingsOf(next));
  }

  /** Recording and binding one more fragment after `done`. */
  lemma RecordOne(groups: Groups, params: map<string, string>, done: seq<Fragment>, fr: Fragment)
    ensures AddWhere(AddWheres(groups, WheresOf(done)), fr.where) == AddWheres(groups, WheresOf(done + [fr]))
    ensures BindAll(BindAll(params, BindingsOf(done)), fr.bindings) == BindAll(params, BindingsOf(done + [fr]))
  {
    var ws := WheresOf(done + [fr]);
    assert ws[..|ws| - 1] == WheresOf(done) && ws[|ws| - 1] == fr.where;
    BindingsOfAppend(done, [fr]);
    assert [fr][..0] == [];
    assert BindingsOf([fr]) == fr.bindings;
    BindAllAppend(params, BindingsOf(done), fr.bindings);
  }

  /** Recording `a` then `b` is recording `a + b`. */
  lemma {:induction false} AddWheresAppend(groups: Groups, a: seq<Where>, b: seq<Where>)
    ensures AddWheres(AddWheres(groups, a), b) == AddWheres(groups, a + b)
    decreases |b|
  {
    if b == [] {
      assert a + b == a;
    } else {
      var n := |b| - 1;
      AddWheresAppend(groups, a, b[..n]);
      assert (a + b)[..|a + b| - 1] == a + b[..n];
      assert (a + b)[|a + b| - 1] == b[n];
    }
  }

  lemma {:induction false} BindingsOfAppend(a: seq<Fragment>, b: seq<Fragment>)
    ensures BindingsOf(a + b) == BindingsOf(a) + BindingsOf(b)
    decreases |b|
  {
    if b == [] {
      assert a + b == a;
    } else {
      var n := |b| - 1;
      var ab := a + b;
      BindingsOfAppend(a, b[..n]);
      assert ab[..|ab| - 1] == a + b[..n];
      assert ab[|ab| - 1] == b[n];
      assert BindingsOf(ab) == BindingsOf(a + b[..n]) + b[n].bindings;
      assert BindingsOf(b) == BindingsOf(b[..n]) + b[n].bindings;
    }
  }

  /** Writing `a` then `b` is writing `a + b`. */
  lemma {:induction false} BindAllAppend(m: map<string, string>, a: seq<(string, string)>, b: seq<(string, string)>)
    ensures BindAll(BindAll(m, a), b) == BindAll(m, a + b)
    decreases |b|
  {
    if b == [] {
      assert a + b == a;
    } else {
      var n := |b| - 1;
      BindAllAppend(m, a, b[..n]);
      assert (a + b)[..|a + b| - 1] == a + b[..n];
      assert (a + b)[|a + b| - 1] == b[n];
    }
  }

  /**
   * The parameter map holds exactly the keys bound, and each key holds the value of its
   * last binding.
   */
  lemma BindAllResult(m: map<string, string>, bs: seq<(string, string)>)
    ensures BindAll(m, bs).Keys == m.Keys + set b | b in bs :: b.0
    ensures forall p :: 0 <= p < |bs| && (forall q :: p < q < |bs| ==> bs[q].0 != bs[p].0) ==> BindAll(m, bs)[bs[p].0] == bs[p].1
  {
    BindAllKeys(m, bs);
    forall p | 0 <= p < |bs| && (forall q :: p < q < |bs| ==> bs[q].0 != bs[p].0)
      ensures BindAll(m, bs)[bs[p].0] == bs[p].1
    {
      BindAllLast(m, bs, p);
    }
  }

  /** The keys of the parameter map are the starting keys and the keys bound. */
  lemma {:induction false} BindAllKeys(m: map<string, string>, bs: seq<(string, string)>)
    ensures BindAll(m, bs).Keys == m.Keys + set b | b in bs :: b.0
    decreases |bs|
  {
    if bs != [] {
      var n := |bs| - 1;
      BindAllKeys(m, bs[..n]);
      assert bs == bs[..n] + [bs[n]];
      assert (set b | b in bs :: b.0) == (set b | b in bs[..n] :: b.0) + {bs[n].0};
    }
  }

  /** A binding that no later one overwrites is the value of its key. */
  lemma {:induction false} BindAllLast(m: map<string, string>, bs: seq<(string, string)>, p: nat)
    requires p < |bs| && forall q :: p < q < |bs| ==> bs[q].0 != bs[p].0
    ensures bs[p].0 in BindAll(m, bs) && BindAll(m, bs)[bs[p].0] == bs[p].1
    decreases |bs|
  {
    var n := |bs| - 1;
    if p < n {
      assert bs[..n][p] == bs[p];
      assert forall q :: p < q < n ==> bs[..n][q] == bs[q];
      BindAllLast(m, bs[..n], p);
    }
  }

  // ---------------------------------------------------------------------------------
  // Lemmas: AssembledWheres

  /** Each bucket lands in exactly one of the two lists. */
  lemma {:induction false} ItemsPartition(groups: Groups, routed: Where -> bool)
    requires NonEmptyGroups(groups)
    ensures |AndItems(groups, routed)| + |OrItems(groups, routed)| == |groups|
    ensures forall p :: 0 <= p < |groups| ==>
      if Trails(groups[p].1, routed) then groups[p].1[0].sql in OrItems(groups, routed)
      else Rendered(groups[p].1) in AndItems(groups, routed)
    decreases |groups|
  {
    if groups != [] {
      var n := |groups| - 1;
      var prev := groups[..n];
      assert NonEmptyGroups(prev);
      ItemsPartition(prev, routed);
      var ands, ors := AndItems(groups, routed), OrItems(groups, routed);
      assert ands == AndItems(prev, routed) + AndPiece(groups[n].1, routed);
      assert ors == OrItems(prev, routed) + OrPiece(groups[n].1, routed);
      forall p | 0 <= p < |groups|
        ensures if Trails(groups[p].1, routed) then groups[p].1[0].sql in ors else Rendered(groups[p].1) in ands
      {
        if p < n {
          assert prev[p] == groups[p];
        }
      }
    }
  }

  /** Every fragment's SQL is part of its bucket's rendering. */
  lemma RenderedContains(ws: seq<Where>, k: nat)
    requires k < |ws|
    ensures Contains(Rendered(ws), ws[k].sql)
  {
    if |ws| > 1 {
      JoinContains(Sqls(ws), " OR ", k);
      ContainsMiddle("(", Join(Sqls(ws), " OR "), ")");
      ContainsTrans(Rendered(ws), Join(Sqls(ws), " OR "), ws[k].sql);
    } else {
      assert "" + ws[k].sql + "" == Rendered(ws);
      ContainsMiddle("", ws[k].sql, "");
    }
  }

  /** `out` is part of `Prefixed(out)`. */
  lemma PrefixedContains(out: string)
    ensures Contains(Prefixed(out), out)
  {
    if out != "" {
      assert Prefixed(out) == " AND " + out + "";
      ContainsMiddle(" AND ", out, "");
    } else {
      assert PieceAt(Prefixed(out), out, 0);
    }
  }

  /** Every recorded fragment's SQL appears in the assembled WHERE tail, as written and as intended. */
  lemma AssembledContains(groups: Groups, p: nat, k: nat)
    requires NonEmptyGroups(groups) && p < |groups| && k < |groups[p].1|
    ensures Contains(AssembledAsWritten(groups), groups[p].1[k].sql)
    ensures Contains(Assembled(groups), groups[p].1[k].sql)
  {
    AsWrittenContains(groups, p, k);
    IntendedContains(groups, p, k);
  }

  /** A fragment's SQL is in the as-written tail: in its bucket's AND item, or in the glued OR group. */
  lemma AsWrittenContains(groups: Groups, p: nat, k: nat)
    requires NonEmptyGroups(groups) && p < |groups| && k < |groups[p].1|
    ensures Contains(AssembledAsWritten(groups), groups[p].1[k].sql)
  {
    var ws := groups[p].1;
    var x := ws[k].sql;
    var ands := AndItems(groups, OrRoutedAsWritten);
    var ors := OrItems(groups, OrRoutedAsWritten);
    ItemsPartition(groups, OrRoutedAsWritten);
    if Trails(ws, OrRoutedAsWritten) {
      var j :| 0 <= j < |ors| && ors[j] == ws[0].sql;
      OrGroupContains(ors, j);
    } else {
      var j :| 0 <= j < |ands| && ands[j] == Rendered(ws);
      RenderedContains(ws, k);
      JoinContains(ands, " AND ", j);
      ContainsTrans(Join(ands, " AND "), Rendered(ws), x);
    }
    var out := Join(ands, " AND ") + OrGroup(ors);
    GluedContains(Join(ands, " AND "), OrGroup(ors), x);
    PrefixedContains(out);
    ContainsTrans(AssembledAsWritten(groups), out, x);
  }

  /** Each trailing fragment's SQL is in the OR group. */
  lemma OrGroupContains(ors: seq<string>, j: nat)
    requires j < |ors|
    ensures Contains(OrGroup(ors), ors[j])
  {
    JoinContains(ors, " OR ", j);
    ContainsMiddle("(", Join(ors, " OR "), ")");
    ContainsTrans(OrGroup(ors), Join(ors, " OR "), ors[j]);
  }

  /** What either half holds, the two glued together hold. */
  lemma GluedContains(a: string, b: string, x: string)
    requires Contains(a, x) || Contains(b, x)
    ensures Contains(a + b, x)
  {
    if Contains(a, x) {
      assert a + b == "" + a + b;
      ContainsMiddle("", a, b);
      ContainsTrans(a + b, a, x);
    } else {
      assert a + b == a + b + "";
      ContainsMiddle(a, b, "");
      ContainsTrans(a + b, b, x);
    }
  }

  /** A fragment's SQL is in the intended tail: in its bucket's AND item, or in the OR group item. */
  lemma IntendedContains(groups: Groups, p: nat, k: nat)
    requires NonEmptyGroups(groups) && p < |groups| && k < |groups[p].1|
    ensures Contains(Assembled(groups), groups[p].1[k].sql)
  {
    var ws := groups[p].1;
    var ands := AndItems(groups, OrRouted);
    var ors := OrItems(groups, OrRouted);
    var items := ands + (if ors != [] then [OrGroup(ors)] else []);
    var out := Join(items, " AND ");
    ItemsPartition(groups, OrRouted);
    PrefixedContains(out);
    if Trails(ws, OrRouted) {
      var j :| 0 <= j < |ors| && ors[j] == ws[0].sql;
      JoinContains(ors, " OR ", j);
      ContainsMiddle("(", Join(ors, " OR "), ")");
      ContainsTrans(OrGroup(ors), Join(ors, " OR "), ws[k].sql);
      JoinContains(items, " AND ", |ands|);
      ContainsTrans(out, OrGroup(ors), ws[k].sql);
    } else {
      var j :| 0 <= j < |ands| && ands[j] == Rendered(ws);
      RenderedContains(ws, k);
      assert items[j] == Rendered(ws);
      JoinContains(items, " AND ", j);
      ContainsTrans(out, Rendered(ws), ws[k].sql);
    }
    ContainsTrans(Assembled(groups), out, ws[k].sql);
  }

  /** Every fragment has SQL text. */
  ghost predicate SqlPresent(groups: Groups)
  {
    forall p, k :: 0 <= p < |groups| && 0 <= k < |groups[p].1| ==> groups[p].1[k].sql != ""
  }

  /** No rendered bucket is empty. */
  lemma {:induction false} AndItemsPresent(groups: Groups, routed: Where -> bool)
    requires NonEmptyGroups(groups) && SqlPresent(groups)
    ensures forall j :: 0 <= j < |AndItems(groups, routed)| ==> AndItems(groups, routed)[j] != ""
    decreases |groups|
  {
    if groups != [] {
      var n := |groups| - 1;
      assert forall p :: 0 <= p < n ==> groups[..n][p] == groups[p];
      AndItemsPresent(groups[..n], routed);
      assert groups[n].1[0].sql != "";
    }
  }

  /**
   * Both assemblies give `""` exactly when nothing was recorded, and otherwise start
   * with `" AND "` (builder.go:366-373).
   */
  lemma AssembledEmpty(groups: Groups)
    requires NonEmptyGroups(groups) && SqlPresent(groups)
    ensures (Assembled(groups) == "") <==> groups == []
    ensures (AssembledAsWritten(groups) == "") <==> groups == []
    ensures groups != [] ==> Assembled(groups)[..5] == " AND " && AssembledAsWritten(groups)[..5] == " AND "
  {
    if groups != [] {
      IntendedNotEmpty(groups);
      AsWrittenNotEmpty(groups);
    }
  }

  /** Some bucket gives the intended assembly a non-empty AND list. */
  lemma IntendedNotEmpty(groups: Groups)
    requires NonEmptyGroups(groups) && SqlPresent(groups) && groups != []
    ensures var ors := OrItems(groups, OrRouted);
      Join(AndItems(groups, OrRouted) + (if ors != [] then [OrGroup(ors)] else []), " AND ") != ""
  {
    ItemsPartition(groups, OrRouted);
    AndItemsPresent(groups, OrRouted);
    var ands := AndItems(groups, OrRouted);
    var ors := OrItems(groups, OrRouted);
    var items := ands + (if ors != [] then [OrGroup(ors)] else []);
    assert items[0] != "";
    JoinEmpty(items, " AND ");
  }

  /** Some bucket gives the as-written assembly a non-empty text. */
  lemma AsWrittenNotEmpty(groups: Groups)
    requires NonEmptyGroups(groups) && SqlPresent(groups) && groups != []
    ensures Join(AndItems(groups, OrRoutedAsWritten), " AND ") + OrGroup(OrItems(groups, OrRoutedAsWritten)) != ""
  {
    ItemsPartition(groups, OrRoutedAsWritten);
    AndItemsPresent(groups, OrRoutedAsWritten);
    var ands := AndItems(groups, OrRoutedAsWritten);
    if ands != [] {
      JoinEmpty(ands, " AND ");
    }
  }

  // ---------------------------------------------------------------------------------
  // What Build returns

  /** The fragments `Build` records, in the order its loops record them. */
  function AllFragments(filters: seq<FilterField>, allowed: AllowMap): seq<Fragment>
  {
    EmitAll(filters, allowed, FilterEmit)
  }

  /** The `wheres` map `Build` hands to AssembledWheres. */
  function WhereGroups(filters: seq<FilterField>, allowed: AllowMap): (groups: Groups)
    ensures GroupedBy(groups, WheresOf(AllFragments(filters, allowed)))
  {
    AddWheresGrouped(WheresOf(AllFragments(filters, allowed)));
    AddWheres([], WheresOf(AllFragments(filters, allowed)))
  }

  /**
   * `groups` lists the buckets of `wheres` in the order a Go `range` over the map visits
   * them: each bucket once, in an order the language leaves unspecified.
   */
  ghost predicate Visits(groups: Groups, wheres: Groups)
  {
    multiset(groups) == multiset(wheres)
  }

  /** Any visiting order of Build's buckets has only non-empty buckets. */
  lemma VisitsNonEmpty(filters: seq<FilterField>, allowed: AllowMap, groups: Groups)
    requires Visits(groups, WhereGroups(filters, allowed))
    ensures NonEmptyGroups(groups)
  {
    var wheres := WhereGroups(filters, allowed);
    forall p | 0 <= p < |groups|
      ensures groups[p].1 != []
    {
      assert groups[p] in multiset(wheres);
      var q :| 0 <= q < |wheres| && wheres[q] == groups[p];
    }
  }

  /** The bucket of a recorded fragment, in any visiting order. */
  lemma FragmentBucket(filters: seq<FilterField>, allowed: AllowMap, groups: Groups, fr: Fragment)
    returns (p: nat, k: nat)
    requires Visits(groups, WhereGroups(filters, allowed))
    requires fr in AllFragments(filters, allowed)
    ensures p < |groups| && k < |groups[p].1| && groups[p].1[k] == fr.where
  {
    var frs := AllFragments(filters, allowed);
    var ws := WheresOf(frs);
    var wheres := WhereGroups(filters, allowed);
    var j :| 0 <= j < |frs| && frs[j] == fr;
    assert ws[j] == fr.where;
    var q :| 0 <= q < |wheres| && wheres[q].0 == fr.where.combinedName;
    SelectMembers(ws, CombinedName, wheres[q].0);
    assert fr.where in wheres[q].1;
    assert wheres[q] in multiset(groups);
    p :| 0 <= p < |groups| && groups[p] == wheres[q];
    k :| 0 <= k < |groups[p].1| && groups[p].1[k] == fr.where;
  }

  /**
   * Every fragment `Build` records appears in the WHERE tail it returns, whatever order
   * the `wheres` map is visited in, both as written and as intended.
   */
  lemma WhereContainsFragments(filters: seq<FilterField>, allowed: AllowMap, groups: Groups, fr: Fragment)
    requires Visits(groups, WhereGroups(filters, allowed)) && NonEmptyGroups(groups)
    requires fr in AllFragments(filters, allowed)
    ensures Contains(AssembledAsWritten(groups), fr.where.sql)
    ensures Contains(Assembled(groups), fr.where.sql)
  {
    var p, k := FragmentBucket(filters, allowed, groups, fr);
    AssembledContains(groups, p, k);
  }

  /** Every fragment `Build` records has SQL text: at least `<alias>.<field> `. */
  lemma FragmentSqlPresent(filters: seq<FilterField>, allowed: AllowMap, fr: Fragment)
    requires fr in AllFragments(filters, allowed)
    ensures fr.where.sql != ""
  {
    FragmentsAllowed(filters, allowed, fr);
    var k, f, i: nat :| 0 <= k < |allowed| && f in filters && f.tableAlias == allowed[k].0
      && f.fieldName in allowed[k].1 && f.fieldName != "" && FilterFragment(f, f.tableAlias, i) == Some(fr);
    FragmentShape(f, f.tableAlias, i);
    assert |Head(f)| > 0;
  }

  /** In any visiting order, every bucket of Build holds fragments with SQL text. */
  lemma VisitsSqlPresent(filters: seq<FilterField>, allowed: AllowMap, groups: Groups)
    requires Visits(groups, WhereGroups(filters, allowed))
    ensures SqlPresent(groups)
  {
    var frs := AllFragments(filters, allowed);
    var ws := WheresOf(frs);
    var wheres := WhereGroups(filters, allowed);
    forall p, k | 0 <= p < |groups| && 0 <= k < |groups[p].1|
      ensures groups[p].1[k].sql != ""
    {
      assert groups[p] in multiset(wheres);
      var q :| 0 <= q < |wheres| && wheres[q] == groups[p];
      SelectMembers(ws, CombinedName, wheres[q].0);
      assert groups[p].1[k] in ws;
      var j :| 0 <= j < |ws| && ws[j] == groups[p].1[k];
      assert frs[j] in frs;
      FragmentSqlPresent(filters, allowed, frs[j]);
    }
  }

  /**
   * The WHERE tail `Build` returns is `""` exactly when it records no fragment, whatever
   * order the `wheres` map is visited in, both as written and as intended.
   */
  lemma WhereEmpty(filters: seq<FilterField>, allowed: AllowMap, groups: Groups)
    requires Visits(groups, WhereGroups(filters, allowed)) && NonEmptyGroups(groups)
    ensures AssembledAsWritten(groups) == "" <==> AllFragments(filters, allowed) == []
    ensures Assembled(groups) == "" <==> AllFragments(filters, allowed) == []
  {
    var frs := AllFragments(filters, allowed);
    var ws := WheresOf(frs);
    var wheres := WhereGroups(filters, allowed);
    VisitsSqlPresent(filters, allowed, groups);
    AssembledEmpty(groups);
    assert |groups| == |wheres| by {
      assert |multiset(groups)| == |multiset(wheres)|;
    }
    if frs != [] {
      assert ws[0] in ws;
    }
    if wheres != [] {
      assert wheres[0].1 != [];
      assert |Select(ws, CombinedName, wheres[0].0)| <= |ws|;
    }
  }

  // ---------------------------------------------------------------------------------
  // The OR routing of AssembledWheres, as written and as intended

  /**
   * The buckets of builder_test.go:110 under the allow-map `u` of the User struct:
   * `u.id` with an eq fragment, `u.first_name` with an orlike one and `u.last_name` with
   * an orilike one, whatever their SQL text.
   */
  function OrTestGroups(id: string, first: string, last: string): Groups
  {
    [("u.id", [Where("u.id", id, "filter_u_id_0", Equal)]),
     ("u.first_name", [Where("u.first_name", first, "filter_u_first_name_0", OrLike)]),
     ("u.last_name", [Where("u.last_name", last, "filter_u_last_name_0", OrILike)])]
  }

  /** The two slices of three buckets, bucket by bucket. */
  lemma ItemsOfThree(g: Groups, routed: Where -> bool)
    requires |g| == 3 && NonEmptyGroups(g)
    ensures AndItems(g, routed) == AndPiece(g[0].1, routed) + AndPiece(g[1].1, routed) + AndPiece(g[2].1, routed)
    ensures OrItems(g, routed) == OrPiece(g[0].1, routed) + OrPiece(g[1].1, routed) + OrPiece(g[2].1, routed)
  {
    assert g[..3] == g && g[..2][..1] == g[..1] && g[..1][..0] == [];
    assert NonEmptyGroups(g[..2]) && NonEmptyGroups(g[..1]);
    assert AndItems(g[..1], routed) == AndPiece(g[0].1, routed);
    assert OrItems(g[..1], routed) == OrPiece(g[0].1, routed);
  }

  /** The slices as written: the orilike bucket stays in the `where` slice. */
  lemma ItemsAsWritten(id: string, first: string, last: string)
    ensures AndItems(OrTestGroups(id, first, last), OrRoutedAsWritten) == [id, last]
    ensures OrItems(OrTestGroups(id, first, last), OrRoutedAsWritten) == [first]
  {
    var g := OrTestGroups(id, first, last);
    ItemsOfThree(g, OrRoutedAsWritten);
    assert AndPiece(g[0].1, OrRoutedAsWritten) == [id] && OrPiece(g[0].1, OrRoutedAsWritten) == [];
    assert AndPiece(g[1].1, OrRoutedAsWritten) == [] && OrPiece(g[1].1, OrRoutedAsWritten) == [first];
    assert AndPiece(g[2].1, OrRoutedAsWritten) == [last] && OrPiece(g[2].1, OrRoutedAsWritten) == [];
  }

  /** The slices as intended: both or-pattern buckets go to the `orWhere` slice. */
  lemma ItemsIntended(id: string, first: string, last: string)
    ensures AndItems(OrTestGroups(id, first, last), OrRouted) == [id]
    ensures OrItems(OrTestGroups(id, first, last), OrRouted) == [first, last]
  {
    var g := OrTestGroups(id, first, last);
    ItemsOfThree(g, OrRouted);
    assert AndPiece(g[0].1, OrRouted) == [id] && OrPiece(g[0].1, OrRouted) == [];
    assert AndPiece(g[1].1, OrRouted) == [] && OrPiece(g[1].1, OrRouted) == [first];
    assert AndPiece(g[2].1, OrRouted) == [] && OrPiece(g[2].1, OrRouted) == [last];
  }

  /**
   * As written, the orilike fragment stays in the AND list and the OR group is glued on
   * without a separator; the result is never what builder_test.go:123 expects.
   */
  lemma OrRoutingAsWritten(id: string, first: string, last: string)
    ensures AssembledAsWritten(OrTestGroups(id, first, last)) == " AND " + id + " AND " + last + "(" + first + ")"
  {
    ItemsAsWritten(id, first, last);
    JoinTwo(id, last, " AND ");
    assert OrGroup([first]) == "(" + first + ")";
  }

  /** Two pieces joined. */
  lemma JoinTwo(a: string, b: string, sep: string)
    ensures Join([a, b], sep) == a + sep + b
  {
    assert [a, b][1..] == [b];
  }

  /** The two assemblies never agree on these buckets: the intended one is four characters longer. */
  lemma OrRoutingDiffers(id: string, first: string, last: string)
    ensures AssembledAsWritten(OrTestGroups(id, first, last)) != Assembled(OrTestGroups(id, first, last))
  {
    OrRoutingAsWritten(id, first, last);
    OrRoutingIntended(id, first, last);
    var w := " AND " + id + " AND " + last + "(" + first + ")";
    var v := " AND " + id + " AND (" + first + " OR " + last + ")";
    assert |w| + 4 == |v|;
  }

  /** As intended, both or-pattern fragments form one OR group, joined by AND (builder_test.go:117, 123). */
  lemma OrRoutingIntended(id: string, first: string, last: string)
    ensures Assembled(OrTestGroups(id, first, last)) == " AND " + id + " AND (" + first + " OR " + last + ")"
  {
    ItemsIntended(id, first, last);
    OrGroupTwo(id, first, last);
  }

  /** The intended text of one AND item followed by an OR group of two. */
  lemma OrGroupTwo(id: string, first: string, last: string)
    ensures var ors := [first, last];
      Prefixed(Join([id] + (if ors != [] then [OrGroup(ors)] else []), " AND "))
        == " AND " + id + " AND (" + first + " OR " + last + ")"
  {
    var grp := "(" + first + " OR " + last + ")";
    JoinTwo(first, last, " OR ");
    assert OrGroup([first, last]) == grp;
    assert [id] + [grp] == [id, grp];
    JoinTwo(id, grp, " AND ");
    assert " AND (" == " AND " + "(";
  }
}
