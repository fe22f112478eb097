/** mostCommon: the album artist of a folder of single-track files. */
module AlbumArtist {
  import opened Bytes

  type Value = seq<byte>

  /** Go's string order. */
  predicate Less(a: Value, b: Value) {
    if b == [] then false
    else if a == [] then true
    else if a[0] != b[0] then a[0] < b[0]
    else Less(a[1..], b[1..])
  }

  lemma {:induction false} LessTotal(a: Value, b: Value)
    ensures !(Less(a, b) && Less(b, a))
    ensures a == b || Less(a, b) || Less(b, a)
  {
    if a != [] && b != [] && a[0] == b[0] {
      LessTotal(a[1..], b[1..]);
      if a[1..] == b[1..] {
        assert a == [a[0]] + a[1..] && b == [b[0]] + b[1..];
      }
    }
  }

  lemma {:induction false} LessTransitive(a: Value, b: Value, c: Value)
    requires Less(a, b) && Less(b, c)
    ensures Less(a, c)
  {
    if a != [] && a[0] == b[0] == c[0] {
      LessTransitive(a[1..], b[1..], c[1..]);
    }
  }

  /** The order is lexicographic by byte, a prefix first. */
  lemma {:induction false} LessIsLexicographic(a: Value, b: Value)
    ensures Less(a, b) <==>
              a < b || exists i :: 0 <= i < |a| && i < |b| && a[..i] == b[..i] && a[i] < b[i]
  {
    if a != [] && b != [] && a[0] == b[0] {
      LessIsLexicographic(a[1..], b[1..]);
      if i :| 0 <= i < |a[1..]| && i < |b[1..]| && a[1..][..i] == b[1..][..i] && a[1..][i] < b[1..][i] {
        assert a[..i + 1] == [a[0]] + a[1..][..i] && b[..i + 1] == [b[0]] + b[1..][..i];
        assert a[i + 1] < b[i + 1];
      }
      if i :| 0 <= i < |a| && i < |b| && a[..i] == b[..i] && a[i] < b[i] {
        assert a[1..][..i - 1] == a[..i][1..] && b[1..][..i - 1] == b[..i][1..];
        assert a[1..][i - 1] < b[1..][i - 1];
      }
      assert a == [a[0]] + a[1..] && b == [b[0]] + b[1..];
    } else if a != [] && b != [] && a[0] < b[0] {
      assert a[..0] == b[..0];
    }
  }

  /** More frequent, or as frequent and not greater. */
  predicate Beats(m: multiset<Value>, a: Value, b: Value) {
    m[a] > m[b] || (m[a] == m[b] && (a == b || Less(a, b)))
  }

  lemma BeatsTransitive(m: multiset<Value>, a: Value, b: Value, c: Value)
    requires Beats(m, a, b) && Beats(m, b, c)
    ensures Beats(m, a, c)
  {
    if a != b && b != c && Less(a, b) && Less(b, c) {
      LessTransitive(a, b, c);
    }
  }

  /** The smallest of the most frequent non-empty values, or empty if there is none. */
  predicate IsMostCommon(values: seq<Value>, r: Value) {
    if r == [] then forall v :: v in values ==> v == []
    else r in values && forall v :: v in values && v != [] ==> Beats(multiset(values), r, v)
  }

  method MostCommon(values: seq<Value>) returns (best: Value)
    ensures IsMostCommon(values, best)
  {
    var counts: map<Value, nat> := map[];
    best := [];
    for i := 0 to |values|
      invariant forall v :: v in counts ==> v != [] && counts[v] == multiset(values[..i])[v]
      invariant forall v :: v in values[..i] && v != [] ==> v in counts
      invariant IsMostCommon(values[..i], best)
    {
      var v := values[i];
      assert values[..i + 1] == values[..i] + [v];
      if v == [] {
        EmptyKeepsBest(values[..i], best);
        continue;
      }
      var was := if v in counts then counts[v] else 0;
      counts := counts[v := was + 1];
      var top := if best in counts then counts[best] else 0; // "" is never counted
      NextBest(values[..i], v, best);
      if counts[v] > top || (counts[v] == top && Less(v, best)) {
        best := v;
      }
    }
    assert values[..|values|] == values;
  }

  lemma EmptyKeepsBest(values: seq<Value>, best: Value)
    requires IsMostCommon(values, best)
    ensures IsMostCommon(values + [[]], best)
  {
    var m, m' := multiset(values), multiset(values + [[]]);
    assert m' == m + multiset{[]};
    forall v | v in values + [[]] && v != [] ensures v in values && m'[v] == m[v] {}
  }

  /** One more value: either it now beats the best so far, or the best stays. */
  lemma NextBest(values: seq<Value>, v: Value, best: Value)
    requires IsMostCommon(values, best) && v != []
    ensures var m := multiset(values + [v]);
            && (best == [] ==> m[v] > 0)
            && IsMostCommon(values + [v],
                 if best == [] || m[v] > m[best] || (m[v] == m[best] && Less(v, best)) then v else best)
  {
    var all := values + [v];
    var m, m' := multiset(values), multiset(all);
    assert m' == m + multiset{v};
    assert v in all by { assert all[|values|] == v; }
    var next := if best == [] || m'[v] > m'[best] || (m'[v] == m'[best] && Less(v, best)) then v else best;
    assert next in all by { if next != v { assert best in values; } }
    forall u | u in all && u != [] ensures Beats(m', next, u) {
      LessTotal(v, best);
      if u != v {
        assert u in values;
        assert m'[u] == m[u];
        if next == v && best != [] {
          assert Beats(m, best, u);
          if v != best {
            assert m'[best] == m[best];
            BeatsTransitive(m', v, best, u);
          }
        }
      }
    }
  }

  /** No value is more frequent than the answer, and one that is as frequent is
      greater. */
  lemma MostCommonMeaning(values: seq<Value>, r: Value)
    requires IsMostCommon(values, r)
    ensures r == [] <==> forall v :: v in values ==> v == []
    ensures r != [] ==> r in values
    ensures forall v :: v in values && v != [] ==>
              && multiset(values)[v] <= multiset(values)[r]
              && (multiset(values)[v] == multiset(values)[r] && v != r ==> Less(r, v))
  {
  }

  /** The answer is determined by the values and does not depend on their order. */
  lemma MostCommonOfPermutation(values: seq<Value>, others: seq<Value>, r: Value, s: Value)
    requires multiset(values) == multiset(others)
    requires IsMostCommon(values, r) && IsMostCommon(others, s)
    ensures r == s
  {
    forall v ensures v in values <==> v in others {
      assert v in values <==> v in multiset(values);
      assert v in others <==> v in multiset(others);
    }
    if r != [] && s != [] {
      LessTotal(r, s);
    }
  }
}
