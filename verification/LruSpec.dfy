/** The rendered-track cache as a value: its entries, most recently used first.
    Class LruCache.Cache refines these functions with a map and a linked list. */
module LruSpec {
  import opened Bytes
  import opened Wrappers
  import opened Sequences

  datatype Key = Key(sourcePath: string, trackIndex: nat)

  datatype Entry = Entry(k: Key, data: seq<byte>)

  type Lru = seq<Entry>

  function Total(s: Lru): nat {
    if s == [] then 0 else Total(s[..|s| - 1]) + |s[|s| - 1].data|
  }

  predicate Has(s: Lru, k: Key) {
    exists i :: 0 <= i < |s| && s[i].k == k
  }

  ghost predicate Distinct(s: Lru) {
    forall i, j :: 0 <= i < j < |s| ==> s[i].k != s[j].k
  }

  function Lookup(s: Lru, k: Key): Option<seq<byte>> {
    if s == [] then None
    else if s[0].k == k then Some(s[0].data)
    else Lookup(s[1..], k)
  }

  function Without(s: Lru, k: Key): Lru {
    if s == [] then []
    else if s[0].k == k then Without(s[1..], k)
    else [s[0]] + Without(s[1..], k)
  }

  /** A hit moves the entry to the front; a miss changes nothing. */
  function Touch(s: Lru, k: Key): Lru {
    match Lookup(s, k)
    case None => s
    case Some(d) => [Entry(k, d)] + Without(s, k)
  }

  /** Drops entries from the back until the rest fits, never the last one. */
  function Trim(s: Lru, maxBytes: int): Lru {
    if |s| > 1 && Total(s) > maxBytes then Trim(s[..|s| - 1], maxBytes) else s
  }

  function Store(s: Lru, k: Key, data: seq<byte>, maxBytes: int): Lru {
    Trim([Entry(k, data)] + Without(s, k), maxBytes)
  }

  // ---- Lookup and Without --------------------------------------------------

  lemma {:induction false} LookupHas(s: Lru, k: Key)
    ensures Lookup(s, k).Some? <==> Has(s, k)
  {
    if s != [] {
      LookupHas(s[1..], k);
      if Has(s, k) && s[0].k != k {
        var i :| 0 <= i < |s| && s[i].k == k;
        assert s[1..][i - 1].k == k;
      }
      if Has(s[1..], k) {
        var i :| 0 <= i < |s[1..]| && s[1..][i].k == k;
        assert s[i + 1].k == k;
      }
    }
  }

  lemma {:induction false} LookupAt(s: Lru, i: nat)
    requires Distinct(s) && i < |s|
    ensures Lookup(s, s[i].k) == Some(s[i].data)
  {
    if i > 0 {
      LookupAt(s[1..], i - 1);
    }
  }

  lemma {:induction false} WithoutAbsent(s: Lru, k: Key)
    requires !Has(s, k)
    ensures Without(s, k) == s
  {
    if s != [] {
      assert s[0].k != k;
      assert forall j :: 0 <= j < |s[1..]| ==> s[1..][j] == s[j + 1];
      WithoutAbsent(s[1..], k);
    }
  }

  lemma {:induction false} WithoutAt(s: Lru, i: nat)
    requires Distinct(s) && i < |s|
    ensures Without(s, s[i].k) == s[..i] + s[i + 1..]
  {
    if i == 0 {
      forall j | 0 <= j < |s[1..]| ensures s[1..][j].k != s[0].k {
        assert s[1..][j] == s[j + 1];
      }
      WithoutAbsent(s[1..], s[0].k);
    } else {
      WithoutAt(s[1..], i - 1);
      assert s[..i] + s[i + 1..] == [s[0]] + (s[1..][..i - 1] + s[1..][i..]);
    }
  }

  lemma {:induction false} WithoutAppend(a: Lru, b: Lru, k: Key)
    ensures Without(a + b, k) == Without(a, k) + Without(b, k)
  {
    if a == [] {
      assert a + b == b;
    } else {
      assert (a + b)[1..] == a[1..] + b;
      WithoutAppend(a[1..], b, k);
    }
  }

  /** Removing a key keeps distinctness and every other key. */
  lemma {:induction false} WithoutKeys(s: Lru, k: Key, q: Key)
    ensures Has(Without(s, k), q) <==> Has(s, q) && q != k
    ensures q != k ==> Lookup(Without(s, k), q) == Lookup(s, q)
  {
    LookupHas(s, q);
    LookupHas(Without(s, k), q);
    if s != [] {
      WithoutKeys(s[1..], k, q);
      LookupHas(s[1..], q);
      LookupHas(Without(s[1..], k), q);
    }
  }

  lemma {:induction false} WithoutDistinct(s: Lru, k: Key)
    requires Distinct(s)
    ensures Distinct(Without(s, k)) && !Has(Without(s, k), k)
  {
    WithoutKeys(s, k, k);
    if Has(s, k) {
      var i :| 0 <= i < |s| && s[i].k == k;
      WithoutAt(s, i);
    } else {
      WithoutAbsent(s, k);
    }
  }

  lemma ConsDistinct(e: Entry, s: Lru)
    requires Distinct(s) && !Has(s, e.k)
    ensures Distinct([e] + s)
  {
  }

  lemma TouchAt(s: Lru, i: nat)
    requires Distinct(s) && i < |s|
    ensures Touch(s, s[i].k) == [s[i]] + s[..i] + s[i + 1..]
  {
    LookupAt(s, i);
    WithoutAt(s, i);
    Regroup([s[i]], s[..i], s[i + 1..]);
  }

  /** A lookup moves an entry but neither adds, drops nor changes any. */
  lemma TouchKeys(s: Lru, k: Key, q: Key)
    requires Distinct(s)
    ensures Distinct(Touch(s, k))
    ensures Lookup(Touch(s, k), q) == Lookup(s, q)
    ensures Has(Touch(s, k), q) <==> Has(s, q)
  {
    LookupHas(s, q);
    LookupHas(Touch(s, k), q);
    if Lookup(s, k).Some? {
      var d := Lookup(s, k).value;
      WithoutDistinct(s, k);
      ConsDistinct(Entry(k, d), Without(s, k));
      WithoutKeys(s, k, q);
      assert Touch(s, k)[1..] == Without(s, k);
    }
  }

  // ---- Total and Trim ------------------------------------------------------

  lemma {:induction false} TotalCons(e: Entry, s: Lru)
    ensures Total([e] + s) == |e.data| + Total(s)
  {
    if s == [] {
      assert [e] + s == [e] && [e][..0] == [];
    } else {
      assert ([e] + s)[..|s|] == [e] + s[..|s| - 1];
      TotalCons(e, s[..|s| - 1]);
    }
  }

  lemma {:induction false} TotalAppend(a: Lru, b: Lru)
    ensures Total(a + b) == Total(a) + Total(b)
  {
    if b == [] {
      assert a + b == a;
    } else {
      assert (a + b)[..|a + b| - 1] == a + b[..|b| - 1];
      TotalAppend(a, b[..|b| - 1]);
    }
  }

  lemma PrefixMonotone(s: Lru, n: nat, m: nat)
    requires n <= m <= |s|
    ensures Total(s[..n]) <= Total(s[..m])
  {
    assert s[..m] == s[..n] + s[n..m];
    TotalAppend(s[..n], s[n..m]);
  }

  // ---- Moving and removing by position --------------------------------------

  function Moved<T>(s: seq<T>, i: nat): (r: seq<T>)
    requires i < |s|
    ensures |r| == |s|
  {
    [s[i]] + s[..i] + s[i + 1..]
  }

  function Removed<T>(s: seq<T>, i: nat): (r: seq<T>)
    requires i < |s|
    ensures |r| == |s| - 1
  {
    s[..i] + s[i + 1..]
  }

  lemma TotalRemoved(s: Lru, i: nat)
    requires i < |s|
    ensures Total(s[..i] + s[i + 1..]) + |s[i].data| == Total(s)
  {
    assert s == s[..i] + ([s[i]] + s[i + 1..]);
    TotalAppend(s[..i], [s[i]] + s[i + 1..]);
    TotalCons(s[i], s[i + 1..]);
    TotalAppend(s[..i], s[i + 1..]);
  }

  lemma TotalMoved(s: Lru, i: nat)
    requires i < |s|
    ensures Total([s[i]] + s[..i] + s[i + 1..]) == Total(s)
  {
    TotalRemoved(s, i);
    TotalCons(s[i], s[..i] + s[i + 1..]);
    Regroup([s[i]], s[..i], s[i + 1..]);
  }

  lemma MovedIsTouch(s: Lru, i: nat)
    requires i < |s| && Distinct(s)
    ensures Moved(s, i) == Touch(s, s[i].k) && Distinct(Moved(s, i)) && Total(Moved(s, i)) == Total(s)
  {
    TouchAt(s, i);
    TouchKeys(s, s[i].k, s[i].k);
    TotalMoved(s, i);
  }

  lemma RemovedIsWithout(s: Lru, i: nat)
    requires i < |s| && Distinct(s)
    ensures Removed(s, i) == Without(s, s[i].k) && Distinct(Removed(s, i))
    ensures Total(Removed(s, i)) + |s[i].data| == Total(s)
  {
    WithoutAt(s, i);
    WithoutDistinct(s, s[i].k);
    TotalRemoved(s, i);
  }

  lemma TrimDropsBack(s: Lru, maxBytes: int)
    ensures |s| > 1 && Total(s) > maxBytes ==> Trim(s[..|s| - 1], maxBytes) == Trim(s, maxBytes)
    ensures |s| <= 1 || Total(s) <= maxBytes ==> Trim(s, maxBytes) == s
  {
  }

  /** Trim keeps exactly the longest prefix that fits, but never less than one
      entry. */
  lemma {:induction false} TrimIsLongestFittingPrefix(s: Lru, maxBytes: int)
    requires s != []
    ensures var t := Trim(s, maxBytes);
            && 1 <= |t| <= |s| && t == s[..|t|]
            && (|t| == 1 || Total(t) <= maxBytes)
            && forall n :: |t| < n <= |s| ==> Total(s[..n]) > maxBytes
  {
    if |s| > 1 && Total(s) > maxBytes {
      var init := s[..|s| - 1];
      TrimIsLongestFittingPrefix(init, maxBytes);
      var t := Trim(s, maxBytes);
      assert t == s[..|t|];
      forall n | |t| < n <= |s| ensures Total(s[..n]) > maxBytes {
        if n == |s| {
          assert s[..n] == s;
        } else {
          assert s[..n] == init[..n];
        }
      }
    } else {
      assert s[..|s|] == s;
    }
  }

  /** The same, as a characterization: no other prefix has these properties. */
  lemma TrimUnique(s: Lru, maxBytes: int, n: nat)
    requires 1 <= n <= |s|
    requires n == 1 || Total(s[..n]) <= maxBytes
    requires n == |s| || Total(s[..n + 1]) > maxBytes
    ensures Trim(s, maxBytes) == s[..n]
  {
    TrimIsLongestFittingPrefix(s, maxBytes);
    var m := |Trim(s, maxBytes)|;
    if n < m {
      PrefixMonotone(s, n + 1, m);
    }
  }

  lemma TrimDistinct(s: Lru, maxBytes: int)
    requires Distinct(s)
    ensures Distinct(Trim(s, maxBytes))
  {
    if s != [] {
      TrimIsLongestFittingPrefix(s, maxBytes);
    }
  }

  /** Set keeps the new entry at the front and evicts only other entries; the
      survivors keep their data and their order. */
  lemma StoreKeys(s: Lru, k: Key, data: seq<byte>, maxBytes: int)
    requires Distinct(s)
    ensures var t := Store(s, k, data, maxBytes);
            && Distinct(t) && t != [] && t[0] == Entry(k, data)
            && t <= [Entry(k, data)] + Without(s, k)
            && (Total(t) <= maxBytes || |t| == 1)
            && Lookup(t, k) == Some(data)
            && forall q :: q != k && Has(t, q) ==> Has(s, q) && Lookup(t, q) == Lookup(s, q)
  {
    var full := [Entry(k, data)] + Without(s, k);
    var t := Store(s, k, data, maxBytes);
    WithoutDistinct(s, k);
    ConsDistinct(Entry(k, data), Without(s, k));
    TrimIsLongestFittingPrefix(full, maxBytes);
    TrimDistinct(full, maxBytes);
    forall q | q != k && Has(t, q) ensures Has(s, q) && Lookup(t, q) == Lookup(s, q) {
      var i :| 0 <= i < |t| && t[i].k == q;
      assert full[i] == t[i] && full[1..] == Without(s, k);
      LookupAt(t, i);
      LookupAt(full, i);
      assert Without(s, k)[i - 1].k == q;
      WithoutKeys(s, k, q);
      assert Lookup(full, q) == Lookup(Without(s, k), q);
    }
  }
}
