/**
 * The expression builder: four independent, stateless build operations that
 * turn a condition, an update mapping, a filter or a projection into an
 * expression string with placeholders, plus its name and value side tables.
 */
module ExpressionBuilder {
  import opened Wrappers
  import opened Text
  import opened Values
  import opened Paths
  import opened Placeholders

  type ValueTable = Table<Value>

  /** Which expression-string key a result carries. */
  datatype ExpressionKind =
    | ConditionExpression
    | FilterExpression
    | UpdateExpression
    | ProjectionExpression

  /**
   * What one build call returns: the expression under its key, and the
   * `ExpressionAttributeNames` / `ExpressionAttributeValues` tables, each
   * `None` when the key is absent from the result.
   */
  datatype ExpressionResult = ExpressionResult(
    kind: ExpressionKind,
    expression: string,
    names: Option<NameTable>,
    values: Option<ValueTable>)

  /** A table key of a result: present when the table has entries, omitted when it would be empty. */
  function TableField<V>(t: Table<V>): (r: Option<Table<V>>)
    ensures r.None? <==> |t| == 0
    ensures r.Some? ==> r.value == t
  {
    if |t| == 0 then None else Some(t)
  }

  /** The `attribute_not_exists` leaf of a condition or a filter, built elsewhere and taken as given. */
  datatype Condition = AttributeNotExists(path: AttributePath)

  type Filter = Condition

  /** The attributes a projection asks for, in the order they were added. */
  datatype Projection = Projection(attributes: seq<AttributePath>)

  /** An update mapping: target path to new value, in insertion order. */
  type UpdateItem = seq<(AttributePath, Value)>

  /** A path with every segment replaced by its token, the tokens joined by dots. */
  function RenderPath(strategy: NamingStrategy, path: AttributePath): string
  {
    Join(Tokens(strategy, ParsePath(path)), ".")
  }

  /** The one routine behind condition and filter expressions; only the scope tells them apart. */
  function RenderCondition(scope: string, c: Condition): (string, NameTable)
  {
    match c
    case AttributeNotExists(path) =>
      ("attribute_not_exists(" + RenderPath(Ancestry(scope), path) + ")",
       Allocate(Ancestry(scope), ParsePath(path)))
  }

  function BuildConditionExpression(c: Condition): (r: ExpressionResult)
    ensures r.kind == ConditionExpression && r.values.None?
    ensures r.names.Some? && |r.names.value| == |ParsePath(c.path)| && DistinctKeys(r.names.value)
    ensures r.names.Some? ==> forall j :: 0 <= j < |ParsePath(c.path)| ==>
              r.names.value[j] == (ChainToken("CE", ParsePath(c.path)[..j + 1]), ParsePath(c.path)[j])
  {
    ConditionNaming("CE", c);
    var (expression, names) := RenderCondition("CE", c);
    ExpressionResult(ConditionExpression, expression, TableField(names), None)
  }

  function BuildFilterExpression(f: Filter): (r: ExpressionResult)
    ensures r.kind == FilterExpression && r.values.None?
    ensures r.names.Some? && |r.names.value| == |ParsePath(f.path)| && DistinctKeys(r.names.value)
    ensures r.names.Some? ==> forall j :: 0 <= j < |ParsePath(f.path)| ==>
              r.names.value[j] == (ChainToken("FE", ParsePath(f.path)[..j + 1]), ParsePath(f.path)[j])
  {
    ConditionNaming("FE", f);
    var (expression, names) := RenderCondition("FE", f);
    ExpressionResult(FilterExpression, expression, TableField(names), None)
  }

  /** The pieces an update mapping is built from, before the result is assembled. */
  datatype UpdateParts = UpdateParts(clauses: seq<string>, names: NameTable, values: ValueTable)

  /** The assignment for the entry at index `entry`: `<names joined by '.'> = :val<entry>`. */
  function EntryClause(entry: nat, path: AttributePath): string
  {
    RenderPath(Positional(entry), path) + " = " + ValueToken(entry)
  }

  /** The entries of an update mapping, the first of them at index `first`, one clause and one value each. */
  function BuildUpdateParts(item: UpdateItem, first: nat): (p: UpdateParts)
    ensures |p.clauses| == |item| && |p.values| == |item| && |p.names| >= |item|
    ensures forall i :: 0 <= i < |item| ==> p.clauses[i] == EntryClause(first + i, item[i].0)
    ensures forall i :: 0 <= i < |item| ==> p.values[i] == (ValueToken(first + i), StoredValue(item[i].1))
    decreases |item|
  {
    if |item| == 0 then UpdateParts([], [], [])
    else
      var (path, value) := item[0];
      var rest := BuildUpdateParts(item[1..], first + 1);
      UpdateParts(
        [EntryClause(first, path)] + rest.clauses,
        Allocate(Positional(first), ParsePath(path)) + rest.names,
        [(ValueToken(first), StoredValue(value))] + rest.values)
  }

  /** The clauses of an update mapping, entry k rendered with index k. */
  function UpdateClauses(item: UpdateItem): seq<string>
  {
    seq(|item|, i requires 0 <= i < |item| => EntryClause(i, item[i].0))
  }

  function BuildUpdateExpression(item: UpdateItem): (r: ExpressionResult)
    ensures r.kind == UpdateExpression
    ensures r.expression == "SET " + Join(UpdateClauses(item), ", ")
    ensures r.names.Some? <==> |item| > 0
    ensures r.values.Some? <==> |item| > 0
    ensures r.values.Some? ==> |r.values.value| == |item|
    ensures r.values.Some? ==> forall i :: 0 <= i < |item| ==> r.values.value[i] == (ValueToken(i), StoredValue(item[i].1))
    ensures |item| > 0 ==> r.names == Some(Concat(EntryNames(item, 0))) && DistinctKeys(r.names.value)
  {
    UpdateNamesInOrder(item, 0);
    UpdateNamesDistinct(item, 0);
    var parts := BuildUpdateParts(item, 0);
    assert parts.clauses == UpdateClauses(item);
    ExpressionResult(UpdateExpression, "SET " + Join(parts.clauses, ", "), TableField(parts.names), TableField(parts.values))
  }

  /** The names table of a projection: each path's entries assigned in order into one table. */
  function ProjectionNames(paths: seq<AttributePath>): NameTable
    decreases |paths|
  {
    if |paths| == 0 then []
    else MergeInto(ProjectionNames(paths[..|paths| - 1]), Allocate(Ancestry("PE"), ParsePath(paths[|paths| - 1])))
  }

  /** The rendered paths of a projection, in the order they were added. */
  function ProjectionPaths(paths: seq<AttributePath>): seq<string>
  {
    seq(|paths|, i requires 0 <= i < |paths| => RenderPath(Ancestry("PE"), paths[i]))
  }

  function BuildProjectionExpression(p: Projection): (r: ExpressionResult)
    ensures r.kind == ProjectionExpression && r.values.None?
    ensures r.expression == Join(ProjectionPaths(p.attributes), ", ")
    ensures r.names.Some? <==> |p.attributes| > 0
    ensures r.names.Some? ==> DistinctKeys(r.names.value)
    ensures r.names.Some? ==> forall key :: key in KeySet(r.names.value) ==>
              exists i :: 0 <= i < |p.attributes| && key in KeySet(Allocate(Ancestry("PE"), ParsePath(p.attributes[i])))
  {
    ProjectionNamesKeys(p.attributes);
    var names := ProjectionNames(p.attributes);
    assert |p.attributes| > 0 ==> |names| > 0 by {
      if |p.attributes| > 0 {
        var n := |p.attributes|;
        var segments := ParsePath(p.attributes[n - 1]);
        var a := Allocate(Ancestry("PE"), segments);
        MergeIntoKeys(ProjectionNames(p.attributes[..n - 1]), a);
        assert a[0].0 in KeySet(names);
      }
    }
    ExpressionResult(ProjectionExpression, Join(ProjectionPaths(p.attributes), ", "), TableField(names), None)
  }

  // ----- Properties of condition and filter expressions -----

  /**
   * Ancestry naming of one leaf: segment j of the path is named after the
   * chain of segments 0..j under the scope and mapped to segment j itself,
   * the rendered path joins those tokens by dots, and no token repeats.
   */
  lemma ConditionNaming(scope: string, c: Condition)
    ensures var segments := ParsePath(c.path);
      var (expression, names) := RenderCondition(scope, c);
      && |names| == |segments|
      && (forall j :: 0 <= j < |segments| ==> names[j] == (ChainToken(scope, segments[..j + 1]), segments[j]))
      && DistinctKeys(names)
      && expression == "attribute_not_exists(" + Join(seq(|segments|, j requires 0 <= j < |segments| => names[j].0), ".") + ")"
  {
    var segments := ParsePath(c.path);
    AllocateDistinct(Ancestry(scope), segments);
    assert Tokens(Ancestry(scope), segments) == seq(|segments|, j requires 0 <= j < |segments| => Allocate(Ancestry(scope), segments)[j].0);
  }

  /**
   * A one-segment path under `attribute_not_exists`: the expression is
   * `attribute_not_exists(#CE_<path>)`, the names table holds that one token
   * for the path, and there is no values table.
   */
  lemma ConditionOneSegment(path: AttributePath)
    requires '.' !in path
    ensures BuildConditionExpression(AttributeNotExists(path))
         == ExpressionResult(ConditionExpression, "attribute_not_exists(#CE_" + path + ")",
                             Some([("#CE_" + path, path)]), None)
  {
    SingleSegment(path);
    var segments := ParsePath(path);
    assert segments[..1] == [path];
    assert ChainToken("CE", [path]) == "#CE_" + path;
    assert Allocate(Ancestry("CE"), segments) == [("#CE_" + path, path)];
    assert Tokens(Ancestry("CE"), segments) == ["#CE_" + path];
  }

  /**
   * A two-segment path `<parent>.<child>` in a filter: the tokens are
   * `#FE_<parent>` and `#FE_<parent>_<child>`, each mapped to its own
   * literal segment, and there is no values table.
   */
  lemma FilterTwoSegments(parent: string, child: string)
    requires '.' !in parent && '.' !in child
    ensures var p, c := "#FE_" + parent, "#FE_" + parent + "_" + child;
      BuildFilterExpression(AttributeNotExists(parent + "." + child))
        == ExpressionResult(FilterExpression, "attribute_not_exists(" + p + "." + c + ")",
                            Some([(p, parent), (c, child)]), None)
  {
    var p, c := "#FE_" + parent, "#FE_" + parent + "_" + child;
    ParseJoined([parent, child]);
    var segments := ParsePath(parent + "." + child);
    assert segments == [parent, child];
    assert segments[..1] == [parent];
    assert segments[..2] == [parent, child];
    assert ChainToken("FE", [parent]) == p;
    assert [parent, child][1..] == [child];
    assert Join([parent, child], "_") == parent + "_" + child;
    assert ChainToken("FE", [parent]) == "#FE_" + parent;
    assert ChainToken("FE", [parent, child]) == c;
    assert Tokens(Ancestry("FE"), segments) == [p, c];
    assert [p, c][1..] == [c];
    assert Join([p, c], ".") == p + "." + c;
    assert Allocate(Ancestry("FE"), segments) == [(p, parent), (c, child)];
  }

  // ----- Properties of update expressions -----

  /** Tables placed one after another, in order. */
  function Concat<V>(ts: seq<Table<V>>): Table<V>
    decreases |ts|
  {
    if |ts| == 0 then [] else Concat(ts[..|ts| - 1]) + ts[|ts| - 1]
  }

  /** Concatenating a table in front of others. */
  lemma {:induction false} ConcatCons<V>(a: Table<V>, ts: seq<Table<V>>)
    ensures Concat([a] + ts) == a + Concat(ts)
    decreases |ts|
  {
    if |ts| > 0 {
      assert ([a] + ts)[..|ts|] == [a] + ts[..|ts| - 1];
      ConcatCons(a, ts[..|ts| - 1]);
    } else {
      assert [a] + ts == [a];
      assert [a][..0] == [];
    }
  }

  /** The entries that entry k of an update mapping contributes to the names table. */
  function EntryNames(item: UpdateItem, first: nat): seq<NameTable>
  {
    seq(|item|, i requires 0 <= i < |item| => Allocate(Positional(first + i), ParsePath(item[i].0)))
  }

  lemma EntryNamesCons(item: UpdateItem, first: nat)
    requires |item| > 0
    ensures EntryNames(item, first) == [Allocate(Positional(first), ParsePath(item[0].0))] + EntryNames(item[1..], first + 1)
  {
    var a, b := EntryNames(item, first), EntryNames(item[1..], first + 1);
    forall i | 0 <= i < |b| ensures b[i] == a[i + 1] {
      assert item[1..][i] == item[i + 1];
      assert first + 1 + i == first + (i + 1);
    }
  }

  /** The names table of an update is the entries' own name entries, one entry after another in insertion order. */
  lemma {:induction false} UpdateNamesInOrder(item: UpdateItem, first: nat)
    ensures BuildUpdateParts(item, first).names == Concat(EntryNames(item, first))
    decreases |item|
  {
    if |item| > 0 {
      UpdateNamesInOrder(item[1..], first + 1);
      EntryNamesCons(item, first);
      ConcatCons(Allocate(Positional(first), ParsePath(item[0].0)), EntryNames(item[1..], first + 1));
    } else {
      assert EntryNames(item, first) == [];
    }
  }

  /** `key` is no positional token of an entry before `first`. */
  ghost predicate OwnedFrom(key: string, first: nat)
  {
    forall e: nat, inner: Option<nat> :: key == PositionalToken(e, inner) ==> first <= e
  }

  /**
   * No two update entries, and no two segments of one entry, share a name
   * token: the names table never assigns a key twice, so no entry of it is
   * overwritten.
   */
  lemma {:induction false} UpdateNamesDistinct(item: UpdateItem, first: nat)
    ensures DistinctKeys(BuildUpdateParts(item, first).names)
    ensures forall key :: key in KeySet(BuildUpdateParts(item, first).names) ==> OwnedFrom(key, first)
    decreases |item|
  {
    if |item| > 0 {
      var segments := ParsePath(item[0].0);
      var a := Allocate(Positional(first), segments);
      var rest := BuildUpdateParts(item[1..], first + 1).names;
      UpdateNamesDistinct(item[1..], first + 1);
      AllocateDistinct(Positional(first), segments);
      forall key | key in KeySet(a) ensures OwnedFrom(key, first) && !OwnedFrom(key, first + 1) {
        var j :| 0 <= j < |a| && a[j].0 == key;
        var slot := if |segments| == 1 then None else Some(j);
        assert key == PositionalToken(first, slot);
        forall e: nat, inner: Option<nat> | key == PositionalToken(e, inner) ensures first <= e {
          PositionalTokenInjective(first, slot, e, inner);
        }
      }
      assert KeySet(a) !! KeySet(rest);
      DistinctAppend(a, rest);
    }
  }

  /**
   * The value table of an update never assigns a key twice: entry k's value
   * sits under `:val<k>` alone.
   */
  lemma UpdateValuesDistinct(item: UpdateItem)
    requires |item| > 0
    ensures DistinctKeys(BuildUpdateExpression(item).values.value)
  {
    var values := BuildUpdateExpression(item).values.value;
    forall i, j | 0 <= i < j < |values| ensures values[i].0 != values[j].0 {
      ValueTokenInjective(i, j);
    }
  }

  /**
   * The clause of entry k: a one-segment path renders `#attr<k> = :val<k>`;
   * a path of n >= 2 segments renders `#attr<k>_inner0. ... .#attr<k>_inner<n-1> = :val<k>`.
   */
  lemma EntryClauseShape(k: nat, path: AttributePath)
    ensures var segments := ParsePath(path);
      && ('.' !in path ==> EntryClause(k, path) == "#attr" + NatToDecimal(k) + " = :val" + NatToDecimal(k))
      && ('.' in path ==>
            EntryClause(k, path)
              == Join(seq(|segments|, j requires 0 <= j < |segments| => "#attr" + NatToDecimal(k) + "_inner" + NatToDecimal(j)), ".")
                 + " = :val" + NatToDecimal(k))
  {
    SingleSegment(path);
    var segments := ParsePath(path);
    if '.' !in path {
      assert Placeholder(Positional(k), segments, 0) == "#attr" + NatToDecimal(k);
      assert Tokens(Positional(k), segments) == ["#attr" + NatToDecimal(k)];
    } else {
      assert Tokens(Positional(k), segments)
          == seq(|segments|, j requires 0 <= j < |segments| => "#attr" + NatToDecimal(k) + "_inner" + NatToDecimal(j));
    }
  }

  /**
   * An update of one path of n segments: the names table holds exactly n
   * entries, the token of segment j mapped to segment j, and the values
   * table holds `:val0` for the stored value.
   */
  lemma UpdateOneEntry(path: AttributePath, v: Value)
    ensures var segments := ParsePath(path);
      var r := BuildUpdateExpression([(path, v)]);
      && r.names == Some(Allocate(Positional(0), segments))
      && |r.names.value| == |segments|
      && r.values == Some([(":val0", StoredValue(v))])
      && r.expression == "SET " + EntryClause(0, path)
  {
    var item := [(path, v)];
    UpdateNamesInOrder(item, 0);
    var ts := EntryNames(item, 0);
    assert ts == [Allocate(Positional(0), ParsePath(path))];
    assert Concat(ts) == Concat(ts[..0]) + ts[0];
    assert Concat(ts) == Allocate(Positional(0), ParsePath(path));
    DecimalZero();
    assert ValueToken(0) == ":val0";
    var parts := BuildUpdateParts(item, 0);
    assert parts.clauses == [EntryClause(0, path)];
    assert parts.values == [(":val0", StoredValue(v))];
    assert |parts.names| > 0;
  }

  /**
   * A single one-segment key `p` set to `v`: exactly `SET #attr0 = :val0`,
   * with names `{#attr0: p}` and values `{:val0: v}` (null for an absent value).
   */
  lemma UpdateOneSegment(path: AttributePath, v: Value)
    requires '.' !in path
    ensures BuildUpdateExpression([(path, v)])
         == ExpressionResult(UpdateExpression, "SET #attr0 = :val0",
                             Some([("#attr0", path)]), Some([(":val0", StoredValue(v))]))
  {
    UpdateOneEntry(path, v);
    SingleSegment(path);
    EntryClauseShape(0, path);
    DecimalZero();
    assert Placeholder(Positional(0), [path], 0) == "#attr0";
    assert Allocate(Positional(0), [path]) == [("#attr0", path)];
  }

  /**
   * Every entry keeps its clause and its value-table entry whatever its
   * value: an absent value is stored as null, any other value (the empty
   * string, an array) as it is.
   */
  lemma UpdateKeepsEveryEntry(item: UpdateItem, i: nat)
    requires i < |item|
    ensures var r := BuildUpdateExpression(item);
      && r.values.Some?
      && UpdateClauses(item)[i] == EntryClause(i, item[i].0)
      && r.values.value[i].0 == ValueToken(i)
      && (item[i].1 == Undefined ==> r.values.value[i].1 == Null)
      && (item[i].1 != Undefined ==> r.values.value[i].1 == item[i].1)
  {
  }

  // ----- Properties of projection expressions -----

  /** The tables a projection's paths contribute, one per path. */
  function PathNames(paths: seq<AttributePath>): seq<NameTable>
  {
    seq(|paths|, i requires 0 <= i < |paths| => Allocate(Ancestry("PE"), ParsePath(paths[i])))
  }

  /** Every key of a concatenation comes from one of the tables. */
  lemma {:induction false} ConcatKeys<V>(ts: seq<Table<V>>, key: string)
    requires key in KeySet(Concat(ts))
    ensures exists i :: 0 <= i < |ts| && key in KeySet(ts[i])
    decreases |ts|
  {
    var n := |ts|;
    if n > 0 {
      var front := Concat(ts[..n - 1]);
      var k :| 0 <= k < |front + ts[n - 1]| && (front + ts[n - 1])[k].0 == key;
      if k < |front| {
        assert front[k].0 == key;
        ConcatKeys(ts[..n - 1], key);
        var i :| 0 <= i < n - 1 && key in KeySet(ts[..n - 1][i]);
        assert ts[..n - 1][i] == ts[i];
      } else {
        assert ts[n - 1][k - |front|].0 == key;
      }
    }
  }

  /**
   * When no two paths of a projection share a token, the names table holds
   * exactly each path's entries, path after path: nothing is merged away.
   */
  lemma {:induction false} ProjectionNamesSeparate(paths: seq<AttributePath>)
    requires forall i, j :: 0 <= i < j < |paths| ==> KeySet(PathNames(paths)[i]) !! KeySet(PathNames(paths)[j])
    ensures ProjectionNames(paths) == Concat(PathNames(paths))
    decreases |paths|
  {
    var n := |paths|;
    if n > 0 {
      var front := paths[..n - 1];
      assert PathNames(paths)[..n - 1] == PathNames(front);
      ProjectionNamesSeparate(front);
      var last := PathNames(paths)[n - 1];
      forall key | key in KeySet(ProjectionNames(front)) ensures key !in KeySet(last) {
        ConcatKeys(PathNames(front), key);
        var i :| 0 <= i < n - 1 && key in KeySet(PathNames(front)[i]);
        assert PathNames(front)[i] == PathNames(paths)[i];
      }
      AllocateDistinct(Ancestry("PE"), ParsePath(paths[n - 1]));
      MergeIntoAppends(ProjectionNames(front), last);
    } else {
      assert PathNames(paths) == [];
    }
  }

  /**
   * The names table of a projection never repeats a key, and its keys are
   * exactly the keys of the entries its paths contribute.
   */
  lemma {:induction false} ProjectionNamesKeys(paths: seq<AttributePath>)
    ensures DistinctKeys(ProjectionNames(paths))
    ensures forall i :: 0 <= i < |paths| ==> KeySet(PathNames(paths)[i]) <= KeySet(ProjectionNames(paths))
    ensures forall key :: key in KeySet(ProjectionNames(paths)) ==>
              exists i :: 0 <= i < |paths| && key in KeySet(PathNames(paths)[i])
    decreases |paths|
  {
    var n := |paths|;
    if n > 0 {
      var front := paths[..n - 1];
      var last := PathNames(paths)[n - 1];
      ProjectionNamesKeys(front);
      MergeIntoKeys(ProjectionNames(front), last);
      MergeIntoDistinct(ProjectionNames(front), last);
      forall i | 0 <= i < n - 1 ensures PathNames(front)[i] == PathNames(paths)[i] {
        assert front[i] == paths[i];
      }
      forall i | 0 <= i < n ensures KeySet(PathNames(paths)[i]) <= KeySet(ProjectionNames(paths)) {
        if i < n - 1 {
          assert KeySet(PathNames(front)[i]) <= KeySet(ProjectionNames(front));
        }
      }
      forall key | key in KeySet(ProjectionNames(paths))
        ensures exists i :: 0 <= i < n && key in KeySet(PathNames(paths)[i])
      {
        if key in KeySet(ProjectionNames(front)) {
          var i :| 0 <= i < n - 1 && key in KeySet(PathNames(front)[i]);
          assert key in KeySet(PathNames(paths)[i]);
        } else {
          assert key in KeySet(PathNames(paths)[n - 1]);
        }
      }
    }
  }

  /**
   * Every token a projection renders is a key of its names table: no
   * placeholder in the projection expression is left without a name.
   */
  lemma ProjectionTokensResolve(p: Projection, i: nat, j: nat)
    requires i < |p.attributes| && j < |ParsePath(p.attributes[i])|
    ensures var r := BuildProjectionExpression(p);
      r.names.Some? && Tokens(Ancestry("PE"), ParsePath(p.attributes[i]))[j] in KeySet(r.names.value)
  {
    var segments := ParsePath(p.attributes[i]);
    assert PathNames(p.attributes)[i][j].0 == ChainToken("PE", segments[..j + 1]) == Tokens(Ancestry("PE"), segments)[j];
    ProjectionNamesKeys(p.attributes);
  }
}
