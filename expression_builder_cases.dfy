/**
 * The builder's behaviour on the concrete inputs its test suite pins down,
 * each stated as the exact result the build call returns. Longer expected
 * strings are written token by token (`"SET " + "#attr0" + " = " + ":val0"`
 * is the string "SET #attr0 = :val0"), and the general shapes behind the
 * cases are proved first for any segment names.
 */
module ExpressionBuilderCases {
  import opened Wrappers
  import opened Text
  import opened Values
  import opened Paths
  import opened Placeholders
  import opened ExpressionBuilder

  /** A path `a.b` of two dot-free segments parses to exactly those two segments. */
  lemma TwoSegmentPath(a: string, b: string)
    requires '.' !in a && '.' !in b
    ensures ParsePath(a + "." + b) == [a, b]
  {
    ParseJoined([a, b]);
    assert [a, b][1..] == [b];
  }

  /** A path `a.b.c` of three dot-free segments parses to exactly those three segments. */
  lemma ThreeSegmentPath(a: string, b: string, c: string)
    requires '.' !in a && '.' !in b && '.' !in c
    ensures ParsePath(a + "." + b + "." + c) == [a, b, c]
  {
    ParseJoined([a, b, c]);
    assert [a, b, c][1..] == [b, c];
    assert [b, c][1..] == [c];
    assert Join([c], ".") == c;
    assert Join([b, c], ".") == b + "." + c;
    assert Join([a, b, c], ".") == a + "." + (b + "." + c);
    assert a + "." + (b + "." + c) == a + "." + b + "." + c;
  }

  /** Entry k with a one-segment path: one token `#attr<k>`, mapped to the whole path. */
  lemma OneSegmentEntry(k: nat, path: AttributePath)
    requires '.' !in path
    ensures EntryClause(k, path) == PositionalToken(k, None) + " = " + ValueToken(k)
    ensures Allocate(Positional(k), ParsePath(path)) == [(PositionalToken(k, None), path)]
  {
    SingleSegment(path);
    var tokens := Tokens(Positional(k), [path]);
    assert tokens == [PositionalToken(k, None)];
    assert Join(tokens, ".") == PositionalToken(k, None);
  }

  /** Entry k with a two-segment path `a.b`: tokens `#attr<k>_inner0` and `#attr<k>_inner1`. */
  lemma TwoSegmentEntry(k: nat, a: string, b: string)
    requires '.' !in a && '.' !in b
    ensures var t0, t1 := PositionalToken(k, Some(0)), PositionalToken(k, Some(1));
      && EntryClause(k, a + "." + b) == t0 + "." + t1 + " = " + ValueToken(k)
      && Allocate(Positional(k), ParsePath(a + "." + b)) == [(t0, a), (t1, b)]
  {
    var t0, t1 := PositionalToken(k, Some(0)), PositionalToken(k, Some(1));
    TwoSegmentPath(a, b);
    var tokens := Tokens(Positional(k), [a, b]);
    assert tokens == [t0, t1];
    assert tokens[1..] == [t1];
    assert Join(tokens, ".") == t0 + "." + t1;
  }

  /** Entry k with a three-segment path `a.b.c`: tokens `#attr<k>_inner0` to `#attr<k>_inner2`. */
  lemma ThreeSegmentEntry(k: nat, a: string, b: string, c: string)
    requires '.' !in a && '.' !in b && '.' !in c
    ensures var t0, t1, t2 := PositionalToken(k, Some(0)), PositionalToken(k, Some(1)), PositionalToken(k, Some(2));
      && EntryClause(k, a + "." + b + "." + c) == t0 + "." + t1 + "." + t2 + " = " + ValueToken(k)
      && Allocate(Positional(k), ParsePath(a + "." + b + "." + c)) == [(t0, a), (t1, b), (t2, c)]
  {
    var t0, t1, t2 := PositionalToken(k, Some(0)), PositionalToken(k, Some(1)), PositionalToken(k, Some(2));
    ThreeSegmentPath(a, b, c);
    var tokens := Tokens(Positional(k), [a, b, c]);
    assert tokens == [t0, t1, t2];
    assert tokens[1..] == [t1, t2];
    assert tokens[1..][1..] == [t2];
    assert Join(tokens[1..], ".") == t1 + "." + t2;
    assert Join(tokens, ".") == t0 + "." + (t1 + "." + t2);
  }

  /** An update of one two-segment path `a.b`: the shape the nested, undefined and empty-string cases share. */
  lemma UpdateTwoSegments(a: string, b: string, v: Value)
    requires '.' !in a && '.' !in b
    ensures BuildUpdateExpression([(a + "." + b, v)])
         == ExpressionResult(UpdateExpression, "SET " + "#attr0_inner0" + "." + "#attr0_inner1" + " = " + ":val0",
                             Some([("#attr0_inner0", a), ("#attr0_inner1", b)]),
                             Some([(":val0", StoredValue(v))]))
  {
    UpdateOneEntry(a + "." + b, v);
    TwoSegmentEntry(0, a, b);
    assert PositionalToken(0, Some(0)) == "#attr0_inner0";
    assert PositionalToken(0, Some(1)) == "#attr0_inner1";
    assert ValueToken(0) == ":val0";
  }

  /** `attribute_not_exists('PK')` as a condition, built twice on the same builder with the same result. */
  lemma ConditionPK()
    ensures BuildConditionExpression(AttributeNotExists("PK"))
         == ExpressionResult(ConditionExpression, "attribute_not_exists(" + "#CE_PK" + ")", Some([("#CE_PK", "PK")]), None)
  {
    ConditionOneSegment("PK");
    assert "#CE_" + "PK" == "#CE_PK";
  }

  /** `{name: 'new name'}`. */
  lemma UpdateName()
    ensures BuildUpdateExpression([("name", Str("new name"))])
         == ExpressionResult(UpdateExpression, "SET #attr0 = :val0",
                             Some([("#attr0", "name")]), Some([(":val0", Str("new name"))]))
  {
    UpdateOneSegment("name", Str("new name"));
  }

  /** `{'user.name': 'new name'}`. */
  lemma UpdateNestedName()
    ensures BuildUpdateExpression([("user.name", Str("new name"))])
         == ExpressionResult(UpdateExpression, "SET " + "#attr0_inner0" + "." + "#attr0_inner1" + " = " + ":val0",
                             Some([("#attr0_inner0", "user"), ("#attr0_inner1", "name")]),
                             Some([(":val0", Str("new name"))]))
  {
    assert "user" + "." + "name" == "user.name";
    UpdateTwoSegments("user", "name", Str("new name"));
  }

  /** `{'user.name': undefined}`: the clause stays and the stored value is null. */
  lemma UpdateUndefined()
    ensures BuildUpdateExpression([("user.name", Undefined)])
         == ExpressionResult(UpdateExpression, "SET " + "#attr0_inner0" + "." + "#attr0_inner1" + " = " + ":val0",
                             Some([("#attr0_inner0", "user"), ("#attr0_inner1", "name")]),
                             Some([(":val0", Null)]))
  {
    assert "user" + "." + "name" == "user.name";
    UpdateTwoSegments("user", "name", Undefined);
  }

  /** `{'user.name': ''}`: the empty string is stored as it is. */
  lemma UpdateEmptyString()
    ensures BuildUpdateExpression([("user.name", Str(""))])
         == ExpressionResult(UpdateExpression, "SET " + "#attr0_inner0" + "." + "#attr0_inner1" + " = " + ":val0",
                             Some([("#attr0_inner0", "user"), ("#attr0_inner1", "name")]),
                             Some([(":val0", Str(""))]))
  {
    assert "user" + "." + "name" == "user.name";
    UpdateTwoSegments("user", "name", Str(""));
  }

  /**
   * The paths of an update of five entries with one, three, one, one and
   * three dot-free segments: the shape of the complex nested case.
   */
  predicate FiveEntryShape(item: UpdateItem, p0: string, a1: string, b1: string, c1: string,
                           p2: string, p3: string, a4: string, b4: string, c4: string)
  {
    && |item| == 5
    && '.' !in p0 && '.' !in a1 && '.' !in b1 && '.' !in c1 && '.' !in p2
    && '.' !in p3 && '.' !in a4 && '.' !in b4 && '.' !in c4
    && item[0].0 == p0 && item[1].0 == a1 + "." + b1 + "." + c1 && item[2].0 == p2
    && item[3].0 == p3 && item[4].0 == a4 + "." + b4 + "." + c4
  }

  /** The value tokens of entries 0 to 4. */
  lemma ValueTokens()
    ensures ValueToken(0) == ":val0" && ValueToken(1) == ":val1" && ValueToken(2) == ":val2"
    ensures ValueToken(3) == ":val3" && ValueToken(4) == ":val4"
  {
  }

  /** The tokens of the one-segment entries 0, 2 and 3. */
  lemma WholePathTokens()
    ensures PositionalToken(0, None) == "#attr0" && PositionalToken(2, None) == "#attr2"
    ensures PositionalToken(3, None) == "#attr3"
  {
  }

  /** The tokens of the three segments of entry 1. */
  lemma EntryOneTokens()
    ensures PositionalToken(1, Some(0)) == "#attr1_inner0" && PositionalToken(1, Some(1)) == "#attr1_inner1"
    ensures PositionalToken(1, Some(2)) == "#attr1_inner2"
  {
  }

  /** The tokens of the three segments of entry 4. */
  lemma EntryFourTokens()
    ensures PositionalToken(4, Some(0)) == "#attr4_inner0" && PositionalToken(4, Some(1)) == "#attr4_inner1"
    ensures PositionalToken(4, Some(2)) == "#attr4_inner2"
  {
  }

  /** The five clauses of that shape, entry k numbered k, in insertion order. */
  lemma FiveEntryClauses(item: UpdateItem, p0: string, a1: string, b1: string, c1: string,
                         p2: string, p3: string, a4: string, b4: string, c4: string)
    requires FiveEntryShape(item, p0, a1, b1, c1, p2, p3, a4, b4, c4)
    ensures UpdateClauses(item) == [
      "#attr0" + " = " + ":val0",
      "#attr1_inner0" + "." + "#attr1_inner1" + "." + "#attr1_inner2" + " = " + ":val1",
      "#attr2" + " = " + ":val2",
      "#attr3" + " = " + ":val3",
      "#attr4_inner0" + "." + "#attr4_inner1" + "." + "#attr4_inner2" + " = " + ":val4"]
  {
    OneSegmentEntry(0, p0);
    ThreeSegmentEntry(1, a1, b1, c1);
    OneSegmentEntry(2, p2);
    OneSegmentEntry(3, p3);
    ThreeSegmentEntry(4, a4, b4, c4);
    ValueTokens();
    WholePathTokens();
    EntryOneTokens();
    EntryFourTokens();
  }

  /** The expression of that shape: the five clauses after `SET `, separated by ", ". */
  lemma FiveEntryExpression(item: UpdateItem, p0: string, a1: string, b1: string, c1: string,
                            p2: string, p3: string, a4: string, b4: string, c4: string)
    requires FiveEntryShape(item, p0, a1, b1, c1, p2, p3, a4, b4, c4)
    ensures BuildUpdateExpression(item).expression
         == "SET " + ("#attr0" + " = " + ":val0"
          + ", " + ("#attr1_inner0" + "." + "#attr1_inner1" + "." + "#attr1_inner2" + " = " + ":val1"
          + ", " + ("#attr2" + " = " + ":val2"
          + ", " + ("#attr3" + " = " + ":val3"
          + ", " + ("#attr4_inner0" + "." + "#attr4_inner1" + "." + "#attr4_inner2" + " = " + ":val4")))))
  {
    FiveEntryClauses(item, p0, a1, b1, c1, p2, p3, a4, b4, c4);
    var c := UpdateClauses(item);
    assert c[4..] == [c[4]];
    assert c[3..][1..] == c[4..] && c[2..][1..] == c[3..] && c[1..][1..] == c[2..];
    assert Join(c[3..], ", ") == c[3] + ", " + c[4];
    assert Join(c[2..], ", ") == c[2] + ", " + (c[3] + ", " + c[4]);
    assert Join(c[1..], ", ") == c[1] + ", " + (c[2] + ", " + (c[3] + ", " + c[4]));
    assert Join(c, ", ") == c[0] + ", " + (c[1] + ", " + (c[2] + ", " + (c[3] + ", " + c[4])));
  }

  /** The names table of that shape: each entry's tokens mapped to its segments, in insertion order. */
  lemma FiveEntryNames(item: UpdateItem, p0: string, a1: string, b1: string, c1: string,
                       p2: string, p3: string, a4: string, b4: string, c4: string)
    requires FiveEntryShape(item, p0, a1, b1, c1, p2, p3, a4, b4, c4)
    ensures BuildUpdateExpression(item).names
         == Some([("#attr0", p0),
                  ("#attr1_inner0", a1), ("#attr1_inner1", b1), ("#attr1_inner2", c1),
                  ("#attr2", p2),
                  ("#attr3", p3),
                  ("#attr4_inner0", a4), ("#attr4_inner1", b4), ("#attr4_inner2", c4)])
  {
    var n0 := [("#attr0", p0)];
    var n1 := [("#attr1_inner0", a1), ("#attr1_inner1", b1), ("#attr1_inner2", c1)];
    var n2 := [("#attr2", p2)];
    var n3 := [("#attr3", p3)];
    var n4 := [("#attr4_inner0", a4), ("#attr4_inner1", b4), ("#attr4_inner2", c4)];
    assert BuildUpdateParts(item[4..], 4).names == n4 by {
      ThreeSegmentEntry(4, a4, b4, c4);
      EntryFourTokens();
      assert item[4..][0] == item[4] && item[4..][1..] == [];
    }
    assert BuildUpdateParts(item[3..], 3).names == n3 + n4 by {
      OneSegmentEntry(3, p3);
      WholePathTokens();
      assert item[3..][0] == item[3] && item[3..][1..] == item[4..];
    }
    assert BuildUpdateParts(item[2..], 2).names == n2 + (n3 + n4) by {
      OneSegmentEntry(2, p2);
      WholePathTokens();
      assert item[2..][0] == item[2] && item[2..][1..] == item[3..];
    }
    assert BuildUpdateParts(item[1..], 1).names == n1 + (n2 + (n3 + n4)) by {
      ThreeSegmentEntry(1, a1, b1, c1);
      EntryOneTokens();
      assert item[1..][0] == item[1] && item[1..][1..] == item[2..];
    }
    assert BuildUpdateParts(item, 0).names == n0 + (n1 + (n2 + (n3 + n4))) by {
      OneSegmentEntry(0, p0);
      WholePathTokens();
    }
    FlattenNames(n0, n1, n2, n3, n4);
  }

  /** The five entries' tables, placed one after another. */
  lemma FlattenNames(n0: NameTable, n1: NameTable, n2: NameTable, n3: NameTable, n4: NameTable)
    requires |n0| == 1 && |n1| == 3 && |n2| == 1 && |n3| == 1 && |n4| == 3
    ensures n0 + (n1 + (n2 + (n3 + n4)))
         == [n0[0], n1[0], n1[1], n1[2], n2[0], n3[0], n4[0], n4[1], n4[2]]
  {
    assert n3 + n4 == [n3[0], n4[0], n4[1], n4[2]];
    assert n2 + (n3 + n4) == [n2[0], n3[0], n4[0], n4[1], n4[2]];
    assert n1 + (n2 + (n3 + n4)) == [n1[0], n1[1], n1[2], n2[0], n3[0], n4[0], n4[1], n4[2]];
  }

  /** The values table of any update of five entries: `:val<k>` for entry k's stored value. */
  lemma FiveEntryValues(item: UpdateItem)
    requires |item| == 5
    ensures BuildUpdateExpression(item).values
         == Some([(":val0", StoredValue(item[0].1)), (":val1", StoredValue(item[1].1)), (":val2", StoredValue(item[2].1)),
                  (":val3", StoredValue(item[3].1)), (":val4", StoredValue(item[4].1))])
  {
    ValueTokens();
    var e0, e1, e2 := (":val0", StoredValue(item[0].1)), (":val1", StoredValue(item[1].1)), (":val2", StoredValue(item[2].1));
    var e3, e4 := (":val3", StoredValue(item[3].1)), (":val4", StoredValue(item[4].1));
    var values := BuildUpdateExpression(item).values.value;
    assert |values| == 5;
    assert values[0] == e0 && values[1] == e1 && values[2] == e2 && values[3] == e3 && values[4] == e4;
    FiveElements(values, e0, e1, e2, e3, e4);
  }

  /** A sequence of five elements is the display of those elements. */
  lemma FiveElements<T>(s: seq<T>, e0: T, e1: T, e2: T, e3: T, e4: T)
    requires |s| == 5 && s[0] == e0 && s[1] == e1 && s[2] == e2 && s[3] == e3 && s[4] == e4
    ensures s == [e0, e1, e2, e3, e4]
  {
  }

  /** The mapping of the complex nested case, in insertion order. */
  function ComplexItem(): UpdateItem
  {
    [("application", Str("test")),
     ("profile.name.last", Str("new Last name")),
     ("data", List([Number(1), Number(2), Number(3)])),
     ("address[0]", Str("new address portion")),
     ("complex.nested.object[1]", Str("new value"))]
  }

  /** The paths of the complex nested case have the five-entry shape, segment by segment. */
  lemma ComplexShape()
    ensures FiveEntryShape(ComplexItem(), "application", "profile", "name", "last", "data", "address[0]",
                           "complex", "nested", "object[1]")
  {
    assert "profile" + "." + "name" + "." + "last" == "profile.name.last";
    assert "complex" + "." + "nested" + "." + "object[1]" == "complex.nested.object[1]";
  }

  /** `{application, 'profile.name.last', data, 'address[0]', 'complex.nested.object[1]'}`: the whole result. */
  lemma UpdateComplexNested()
    ensures BuildUpdateExpression(ComplexItem())
         == ExpressionResult(UpdateExpression,
              "SET " + ("#attr0" + " = " + ":val0"
              + ", " + ("#attr1_inner0" + "." + "#attr1_inner1" + "." + "#attr1_inner2" + " = " + ":val1"
              + ", " + ("#attr2" + " = " + ":val2"
              + ", " + ("#attr3" + " = " + ":val3"
              + ", " + ("#attr4_inner0" + "." + "#attr4_inner1" + "." + "#attr4_inner2" + " = " + ":val4"))))),
              Some([("#attr0", "application"),
                    ("#attr1_inner0", "profile"), ("#attr1_inner1", "name"), ("#attr1_inner2", "last"),
                    ("#attr2", "data"),
                    ("#attr3", "address[0]"),
                    ("#attr4_inner0", "complex"), ("#attr4_inner1", "nested"), ("#attr4_inner2", "object[1]")]),
              Some([(":val0", Str("test")),
                    (":val1", Str("new Last name")),
                    (":val2", List([Number(1), Number(2), Number(3)])),
                    (":val3", Str("new address portion")),
                    (":val4", Str("new value"))]))
  {
    var item := ComplexItem();
    ComplexShape();
    FiveEntryExpression(item, "application", "profile", "name", "last", "data", "address[0]", "complex", "nested", "object[1]");
    FiveEntryNames(item, "application", "profile", "name", "last", "data", "address[0]", "complex", "nested", "object[1]");
    FiveEntryValues(item);
  }
  /** `attributeNotExists('profile.deleted')` as a filter. */
  lemma FilterProfileDeleted()
    ensures BuildFilterExpression(AttributeNotExists("profile.deleted"))
         == ExpressionResult(FilterExpression, "attribute_not_exists(" + "#FE_profile" + "." + "#FE_profile_deleted" + ")",
                             Some([("#FE_profile", "profile"), ("#FE_profile_deleted", "deleted")]), None)
  {
    ProfileDeletedSpelling();
    FilterTwoSegments("profile", "deleted");
  }

  /** The spelling of the path and tokens of the `'profile.deleted'` case. */
  lemma ProfileDeletedSpelling()
    ensures "profile" + "." + "deleted" == "profile.deleted"
    ensures "#FE_" + "profile" == "#FE_profile"
    ensures "#FE_" + "profile" + "_" + "deleted" == "#FE_profile_deleted"
  {
  }

  /** The ancestry token of a chain of at most two segments under the projection scope. */
  lemma ProjectionTokens(a: string, b: string)
    ensures ChainToken("PE", [a]) == "#PE_" + a
    ensures ChainToken("PE", [a, b]) == "#PE_" + a + "_" + b
  {
    assert "#" + "PE" + "_" == "#PE_";
    assert [a, b][1..] == [b];
    assert Join([a, b], "_") == a + "_" + b;
    assert "#PE_" + (a + "_" + b) == "#PE_" + a + "_" + b;
  }

  /** The name-table entries of a one-segment path `p` and of a two-segment path `a.b` under the projection scope. */
  lemma ProjectionEntries(p: string, a: string, b: string)
    requires '.' !in p && '.' !in a && '.' !in b
    ensures PathNames([p, a + "." + b]) == [[("#PE_" + p, p)], [("#PE_" + a, a), ("#PE_" + a + "_" + b, b)]]
    ensures Tokens(Ancestry("PE"), ParsePath(p)) == ["#PE_" + p]
    ensures Tokens(Ancestry("PE"), ParsePath(a + "." + b)) == ["#PE_" + a, "#PE_" + a + "_" + b]
  {
    var s0, s1 := [p], [a, b];
    SingleSegment(p);
    TwoSegmentPath(a, b);
    ProjectionTokens(p, b);
    ProjectionTokens(a, b);
    var k0, k1, k2 := "#PE_" + p, "#PE_" + a, "#PE_" + a + "_" + b;
    assert s0[..1] == s0 && s1[..1] == [a] && s1[..2] == s1;
    assert Placeholder(Ancestry("PE"), s0, 0) == k0;
    assert Placeholder(Ancestry("PE"), s1, 0) == k1;
    assert Placeholder(Ancestry("PE"), s1, 1) == k2;
    var t0 := Allocate(Ancestry("PE"), s0);
    var t1 := Allocate(Ancestry("PE"), s1);
    assert |t0| == 1 && t0[0] == (k0, p);
    assert t0 == [(k0, p)];
    assert |t1| == 2 && t1[0] == (k1, a) && t1[1] == (k2, b);
    assert t1 == [(k1, a), (k2, b)];
    assert PathNames([p, a + "." + b]) == [t0, t1];
  }

  /**
   * A projection of a one-segment path `p` and a two-segment path `a.b`:
   * the paths render `#PE_p` and `#PE_a.#PE_a_b`, and, as long as no token
   * of the second path is the token of the first, the names table holds the
   * three entries in the order they were added.
   */
  lemma ProjectionOneAndTwo(p: string, a: string, b: string)
    requires '.' !in p && '.' !in a && '.' !in b
    requires p != a && p != a + "_" + b
    ensures BuildProjectionExpression(Projection([p, a + "." + b]))
         == ExpressionResult(ProjectionExpression, "#PE_" + p + ", " + ("#PE_" + a + "." + ("#PE_" + a + "_" + b)),
                             Some([("#PE_" + p, p), ("#PE_" + a, a), ("#PE_" + a + "_" + b, b)]), None)
  {
    var paths := [p, a + "." + b];
    var k0, k1, k2 := "#PE_" + p, "#PE_" + a, "#PE_" + a + "_" + b;
    var t0: NameTable, t1: NameTable := [(k0, p)], [(k1, a), (k2, b)];
    ProjectionEntries(p, a, b);
    assert ProjectionNames(paths) == [(k0, p), (k1, a), (k2, b)] by {
      assert k0 != k1 by {
        if k0 == k1 {
          CancelPrefix("#PE_", p, a);
        }
      }
      assert k0 != k2 by {
        if k0 == k2 {
          assert "#PE_" + a + "_" + b == "#PE_" + (a + "_" + b);
          CancelPrefix("#PE_", p, a + "_" + b);
        }
      }
      assert KeySet(t0) == {k0} by {
        assert t0[0].0 == k0;
      }
      assert KeySet(t1) == {k1, k2} by {
        assert t1[0].0 == k1 && t1[1].0 == k2;
      }
      ProjectionNamesSeparate(paths);
      assert Concat([t0]) == t0 by {
        assert [t0][..0] == [];
        assert [] + t0 == t0;
      }
      assert [t0, t1][..1] == [t0];
      assert Concat([t0, t1]) == t0 + t1;
    }
    assert Join(ProjectionPaths(paths), ", ") == k0 + ", " + (k1 + "." + k2) by {
      var rendered := ProjectionPaths(paths);
      assert rendered[0] == k0;
      assert rendered[1] == k1 + "." + k2 by {
        assert [k1, k2][1..] == [k2];
        assert Join([k1, k2], ".") == k1 + "." + k2;
        assert rendered[1] == Join(Tokens(Ancestry("PE"), ParsePath(paths[1])), ".");
      }
      assert rendered == [k0, k1 + "." + k2];
      assert rendered[1..] == [rendered[1]];
    }
  }

  /** `['name', 'user.status']` as a projection: three name entries and the two rendered paths. */
  lemma ProjectionNameUserStatus()
    ensures BuildProjectionExpression(Projection(["name", "user.status"]))
         == ExpressionResult(ProjectionExpression, "#PE_name" + ", " + ("#PE_user" + "." + "#PE_user_status"),
                             Some([("#PE_name", "name"), ("#PE_user", "user"), ("#PE_user_status", "status")]), None)
  {
    NameUserStatusSpelling();
    ProjectionOneAndTwo("name", "user", "status");
  }

  /** The spelling of the paths and tokens of the `['name', 'user.status']` case. */
  lemma NameUserStatusSpelling()
    ensures "user" + "." + "status" == "user.status"
    ensures "name" != "user" + "_" + "status"
    ensures "#PE_" + "name" == "#PE_name" && "#PE_" + "user" == "#PE_user"
    ensures "#PE_" + "user" + "_" + "status" == "#PE_user_status"
  {
  }
}
