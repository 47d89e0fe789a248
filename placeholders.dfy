/**
 * Placeholder tokens and the side tables that map them back.
 *
 * Two naming strategies coexist. Update expressions name the segments of
 * their k-th entry by position (`#attr<k>`, `#attr<k>_inner<j>`) and its
 * value `:val<k>`. Condition, filter and projection expressions name the
 * j-th segment after the chain of literal segments leading to it, under a
 * scope (`#CE_PK`, `#FE_profile_deleted`).
 */
module Placeholders {
  import opened Wrappers
  import opened Text

  /** A side table: placeholder token to what it stands for, in insertion order. */
  type Table<V> = seq<(string, V)>

  type NameTable = Table<string>

  function KeySet<V>(t: Table<V>): set<string>
  {
    set i | 0 <= i < |t| :: t[i].0
  }

  /** No key occurs twice, as in a JavaScript object. */
  predicate DistinctKeys<V>(t: Table<V>)
  {
    forall i, j :: 0 <= i < j < |t| ==> t[i].0 != t[j].0
  }

  function Lookup<V>(t: Table<V>, key: string): Option<V>
    decreases |t|
  {
    if |t| == 0 then None else if t[0].0 == key then Some(t[0].1) else Lookup(t[1..], key)
  }

  /** Two tables with disjoint keys, each without repeats, side by side have no repeated key. */
  lemma DistinctAppend<V>(t: Table<V>, u: Table<V>)
    requires DistinctKeys(t) && DistinctKeys(u) && KeySet(t) !! KeySet(u)
    ensures DistinctKeys(t + u) && KeySet(t + u) == KeySet(t) + KeySet(u)
  {
    var tu := t + u;
    forall i, j | 0 <= i < j < |tu| ensures tu[i].0 != tu[j].0 {
      if j >= |t| && i < |t| {
        assert tu[i].0 in KeySet(t);
        assert tu[j] == u[j - |t|];
        assert tu[j].0 in KeySet(u);
      } else if i >= |t| {
        assert tu[i] == u[i - |t|] && tu[j] == u[j - |t|];
      }
    }
    forall k | k in KeySet(t + u) ensures k in KeySet(t) + KeySet(u) {
      var i :| 0 <= i < |tu| && tu[i].0 == k;
      if i >= |t| {
        assert tu[i] == u[i - |t|];
      }
    }
    forall k | k in KeySet(t) + KeySet(u) ensures k in KeySet(t + u) {
      if k in KeySet(t) {
        var i :| 0 <= i < |t| && t[i].0 == k;
        assert tu[i] == t[i];
      } else {
        var i :| 0 <= i < |u| && u[i].0 == k;
        assert tu[|t| + i] == u[i];
      }
    }
  }

  /** The keys of a table are its first key and the keys of the rest. */
  lemma KeySetCons<V>(x: (string, V), t: Table<V>)
    ensures KeySet([x] + t) == {x.0} + KeySet(t)
  {
    var xt := [x] + t;
    forall k | k in KeySet(t) ensures k in KeySet(xt) {
      var i :| 0 <= i < |t| && t[i].0 == k;
      assert xt[i + 1] == t[i];
    }
    assert xt[0] == x;
  }

  /** A table without repeated keys: its first key is not among the rest, and the rest has no repeats. */
  lemma DistinctTail<V>(t: Table<V>)
    requires |t| > 0 && DistinctKeys(t)
    ensures DistinctKeys(t[1..]) && t[0].0 !in KeySet(t[1..])
  {
    forall i | 0 <= i < |t| - 1 ensures t[1..][i].0 != t[0].0 {
      assert t[1..][i] == t[i + 1];
    }
  }

  /**
   * Assigning `key` in a JavaScript object: a key already present keeps its
   * position and takes the new value, a new key goes last.
   */
  function Put<V>(t: Table<V>, key: string, value: V): (r: Table<V>)
    ensures KeySet(r) == KeySet(t) + {key}
    ensures key !in KeySet(t) ==> r == t + [(key, value)]
    ensures DistinctKeys(t) ==> DistinctKeys(r)
    ensures key in KeySet(t) ==> |r| == |t| && forall i :: 0 <= i < |t| ==> r[i].0 == t[i].0
    decreases |t|
  {
    if |t| == 0 then
      KeySetCons((key, value), t);
      [(key, value)] + t
    else if t[0].0 == key then
      KeySetCons(t[0], t[1..]);
      KeySetCons((key, value), t[1..]);
      assert t == [t[0]] + t[1..];
      [(key, value)] + t[1..]
    else
      var rest := Put(t[1..], key, value);
      KeySetCons(t[0], t[1..]);
      KeySetCons(t[0], rest);
      assert t == [t[0]] + t[1..];
      assert ([t[0]] + rest)[1..] == rest;
      if DistinctKeys(t) then DistinctTail(t); [t[0]] + rest else [t[0]] + rest
  }

  /** After assigning `key`, looking it up gives the new value, and every other key looks up as before. */
  lemma {:induction false} PutLookup<V>(t: Table<V>, key: string, value: V, other: string)
    ensures Lookup(Put(t, key, value), key) == Some(value)
    ensures other != key ==> Lookup(Put(t, key, value), other) == Lookup(t, other)
    decreases |t|
  {
    if |t| > 0 && t[0].0 != key {
      PutLookup(t[1..], key, value, other);
      assert ([t[0]] + Put(t[1..], key, value))[1..] == Put(t[1..], key, value);
    }
  }

  /** Assigning every entry of `u`, in order, into `t`: the object spread `{...t, ...u}`. */
  function MergeInto<V>(t: Table<V>, u: Table<V>): Table<V>
    decreases |u|
  {
    if |u| == 0 then t else MergeInto(Put(t, u[0].0, u[0].1), u[1..])
  }

  /** Merging keeps the keys of both tables and no others. */
  lemma {:induction false} MergeIntoKeys<V>(t: Table<V>, u: Table<V>)
    ensures KeySet(MergeInto(t, u)) == KeySet(t) + KeySet(u)
    decreases |u|
  {
    if |u| > 0 {
      var x, rest := u[0], u[1..];
      MergeIntoKeys(Put(t, x.0, x.1), rest);
      assert KeySet(u) == {x.0} + KeySet(rest) by {
        assert u == [x] + rest;
        KeySetCons(x, rest);
      }
    }
  }

  /** Merging into a table without repeated keys repeats none. */
  lemma {:induction false} MergeIntoDistinct<V>(t: Table<V>, u: Table<V>)
    requires DistinctKeys(t)
    ensures DistinctKeys(MergeInto(t, u))
    decreases |u|
  {
    if |u| > 0 {
      MergeIntoDistinct(Put(t, u[0].0, u[0].1), u[1..]);
    }
  }

  /** One step of an appending merge: the first entry of `u` goes last, and what remains is still new. */
  lemma AppendStep<V>(t: Table<V>, u: Table<V>)
    requires |u| > 0 && KeySet(t) !! KeySet(u) && DistinctKeys(u)
    ensures Put(t, u[0].0, u[0].1) == t + [u[0]]
    ensures KeySet(t + [u[0]]) !! KeySet(u[1..]) && DistinctKeys(u[1..])
  {
    assert u == [u[0]] + u[1..];
    KeySetCons(u[0], u[1..]);
    DistinctTail(u);
  }

  /** Moving the first entry of `u` to the end of `t` leaves the concatenation unchanged. */
  lemma MovedFirst<V>(t: Table<V>, u: Table<V>)
    requires |u| > 0
    ensures (t + [u[0]]) + u[1..] == t + u
  {
    assert u == [u[0]] + u[1..];
  }

  /** When the keys of `u` are new to `t` and not repeated, merging is appending. */
  lemma {:induction false} MergeIntoAppends<V>(t: Table<V>, u: Table<V>)
    requires KeySet(t) !! KeySet(u) && DistinctKeys(u)
    ensures MergeInto(t, u) == t + u
    decreases |u|
  {
    if |u| > 0 {
      var x, rest := u[0], u[1..];
      var t' := Put(t, x.0, x.1);
      assert t' == t + [x] && KeySet(t') !! KeySet(rest) && DistinctKeys(rest) by {
        AppendStep(t, u);
      }
      MergeIntoAppends(t', rest);
      MovedFirst(t, u);
    }
  }

  /** The two naming strategies, each with the state it is parameterised by. */
  datatype NamingStrategy =
    | Positional(entry: nat)
    | Ancestry(scope: string)

  /** `#attr<entry>` for a whole one-segment path, `#attr<entry>_inner<j>` for segment j of a dotted one. */
  function PositionalToken(entry: nat, inner: Option<nat>): string
  {
    match inner
    case None => "#attr" + NatToDecimal(entry)
    case Some(j) => "#attr" + NatToDecimal(entry) + "_inner" + NatToDecimal(j)
  }

  /** `#<scope>_<s0>_<s1>_..._<sj>`: the name of the last segment of `chain`. */
  function ChainToken(scope: string, chain: seq<string>): string
  {
    "#" + scope + "_" + Join(chain, "_")
  }

  /** `:val<entry>`: the value of the entry-th update entry. */
  function ValueToken(entry: nat): string
  {
    ":val" + NatToDecimal(entry)
  }

  /** The token the strategy gives segment j of a path with these segments. */
  function Placeholder(strategy: NamingStrategy, segments: seq<string>, j: nat): string
    requires j < |segments|
  {
    match strategy
    case Positional(k) => PositionalToken(k, if |segments| == 1 then None else Some(j))
    case Ancestry(scope) => ChainToken(scope, segments[..j + 1])
  }

  /** The tokens of all segments of a path, in order. */
  function Tokens(strategy: NamingStrategy, segments: seq<string>): seq<string>
  {
    seq(|segments|, j requires 0 <= j < |segments| => Placeholder(strategy, segments, j))
  }

  /** The name-table entries one path contributes: each segment's token mapped to the literal segment. */
  function Allocate(strategy: NamingStrategy, segments: seq<string>): NameTable
  {
    seq(|segments|, j requires 0 <= j < |segments| => (Placeholder(strategy, segments, j), segments[j]))
  }

  /** What follows the entry index in a positional token: nothing, or `_inner<j>`. */
  function InnerSuffix(inner: Option<nat>): string
  {
    match inner
    case None => ""
    case Some(j) => "_inner" + NatToDecimal(j)
  }

  /** A positional token is `#attr`, the entry's digits, and a suffix that does not start with a digit. */
  lemma PositionalTokenParts(entry: nat, inner: Option<nat>)
    ensures PositionalToken(entry, inner) == "#attr" + (NatToDecimal(entry) + InnerSuffix(inner))
    ensures InnerSuffix(inner) == [] || !IsDigit(InnerSuffix(inner)[0])
  {
    var d := NatToDecimal(entry);
    match inner
    case None =>
      assert d + "" == d;
    case Some(j) =>
      assert "#attr" + d + "_inner" + NatToDecimal(j) == "#attr" + (d + ("_inner" + NatToDecimal(j)));
  }

  /** Equal strings after an equal prefix. */
  lemma CancelPrefix(p: string, x: string, y: string)
    requires p + x == p + y
    ensures x == y
  {
    assert x == (p + x)[|p|..];
    assert y == (p + y)[|p|..];
  }

  /** Suffixes are equal exactly when they name the same segment slot. */
  lemma InnerSuffixInjective(i1: Option<nat>, i2: Option<nat>)
    ensures InnerSuffix(i1) == InnerSuffix(i2) <==> i1 == i2
  {
    if InnerSuffix(i1) == InnerSuffix(i2) && i1.Some? && i2.Some? {
      CancelPrefix("_inner", NatToDecimal(i1.value), NatToDecimal(i2.value));
      DecimalInjective(i1.value, i2.value);
    }
  }

  /** Positional tokens are equal exactly when they name the same entry and the same segment slot. */
  lemma PositionalTokenInjective(e1: nat, i1: Option<nat>, e2: nat, i2: Option<nat>)
    ensures PositionalToken(e1, i1) == PositionalToken(e2, i2) <==> e1 == e2 && i1 == i2
  {
    if PositionalToken(e1, i1) == PositionalToken(e2, i2) {
      var d1, d2 := NatToDecimal(e1), NatToDecimal(e2);
      var r1, r2 := InnerSuffix(i1), InnerSuffix(i2);
      PositionalTokenParts(e1, i1);
      PositionalTokenParts(e2, i2);
      CancelPrefix("#attr", d1 + r1, d2 + r2);
      DigitRunUnique(d1, r1, d2, r2);
      DecimalInjective(e1, e2);
      InnerSuffixInjective(i1, i2);
    }
  }

  /** Value tokens are equal exactly when they belong to the same entry. */
  lemma ValueTokenInjective(e1: nat, e2: nat)
    ensures ValueToken(e1) == ValueToken(e2) <==> e1 == e2
  {
    if ValueToken(e1) == ValueToken(e2) {
      assert ValueToken(e1)[4..] == NatToDecimal(e1);
      assert ValueToken(e2)[4..] == NatToDecimal(e2);
      DecimalInjective(e1, e2);
    }
  }

  /** Within one path, ancestry tokens of different segments differ: a longer chain gives a longer token. */
  lemma AncestryTokensDistinct(scope: string, segments: seq<string>, i: nat, j: nat)
    requires i < j < |segments|
    ensures ChainToken(scope, segments[..i + 1]) != ChainToken(scope, segments[..j + 1])
  {
    JoinPrefixLonger(segments, i + 1, j + 1, "_");
  }

  /** The last segment of a chain is the tail of its ancestry token, after an underscore. */
  lemma ChainTokenEndsWithSegment(scope: string, segments: seq<string>, j: nat)
    requires j < |segments|
    ensures var t := ChainToken(scope, segments[..j + 1]);
      |t| > |segments[j]| && t[|t| - |segments[j]| - 1..] == "_" + segments[j]
  {
    var chain := segments[..j + 1];
    if j == 0 {
      assert ChainToken(scope, chain) == ("#" + scope) + ("_" + segments[0]);
    } else {
      assert chain == segments[..j] + [segments[j]];
      JoinSnoc(segments[..j], segments[j], "_");
      assert ChainToken(scope, chain) == ("#" + scope + "_" + Join(segments[..j], "_")) + ("_" + segments[j]);
    }
  }

  /** Whichever the strategy, the entries one path contributes never repeat a key. */
  lemma AllocateDistinct(strategy: NamingStrategy, segments: seq<string>)
    ensures DistinctKeys(Allocate(strategy, segments))
  {
    var t := Allocate(strategy, segments);
    forall i, j | 0 <= i < j < |t| ensures t[i].0 != t[j].0 {
      match strategy
      case Positional(k) =>
        PositionalTokenInjective(k, Some(i), k, Some(j));
      case Ancestry(scope) =>
        AncestryTokensDistinct(scope, segments, i, j);
    }
  }

  /** The scopes of condition, filter and projection expressions. */
  predicate IsExpressionScope(scope: string)
  {
    scope == "CE" || scope == "FE" || scope == "PE"
  }

  /**
   * Tokens from different strategies or scopes never meet, so tables of
   * different expressions can be merged into one request: names of different
   * scopes differ, scoped names differ from positional names, and no name is
   * a value token.
   */
  lemma TokenSpacesDisjoint(s1: string, c1: seq<string>, s2: string, c2: seq<string>, e: nat, inner: Option<nat>, v: nat)
    requires IsExpressionScope(s1) && IsExpressionScope(s2)
    ensures s1 != s2 ==> ChainToken(s1, c1) != ChainToken(s2, c2)
    ensures ChainToken(s1, c1) != PositionalToken(e, inner)
    ensures ChainToken(s1, c1) != ValueToken(v) && PositionalToken(e, inner) != ValueToken(v)
  {
    assert ChainToken(s1, c1)[1] == s1[0];
    assert ChainToken(s2, c2)[1] == s2[0];
    assert PositionalToken(e, inner)[1] == 'a';
    assert ChainToken(s1, c1)[0] == '#' && PositionalToken(e, inner)[0] == '#' && ValueToken(v)[0] == ':';
  }
}
