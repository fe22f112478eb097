/** What the cache's order means over whole histories of operations. */
module LruHistory {
  import opened Bytes
  import opened Wrappers
  import opened LruSpec

  datatype Op = GetOp(k: Key) | SetOp(k: Key, data: seq<byte>)

  function Step(s: Lru, op: Op, maxBytes: int): Lru {
    match op
    case GetOp(k) => Touch(s, k)
    case SetOp(k, data) => Store(s, k, data, maxBytes)
  }

  /** The cache after a history, started empty. */
  function Run(h: seq<Op>, maxBytes: int): Lru {
    if h == [] then [] else Step(Run(h[..|h| - 1], maxBytes), h[|h| - 1], maxBytes)
  }

  /** A Set touches its key; a Get touches its key if it hits. */
  predicate Touches(s: Lru, op: Op, k: Key) {
    op.k == k && (op.SetOp? || Has(s, k))
  }

  /** When k was last touched: operations are numbered from 1, and 0 means never. */
  function LastTouch(h: seq<Op>, maxBytes: int, k: Key): (t: nat)
    ensures t <= |h|
  {
    if h == [] then 0
    else if Touches(Run(h[..|h| - 1], maxBytes), h[|h| - 1], k) then |h|
    else LastTouch(h[..|h| - 1], maxBytes, k)
  }

  ghost predicate Ordered(s: Lru, h: seq<Op>, maxBytes: int) {
    forall i, j :: 0 <= i < j < |s| ==> LastTouch(h, maxBytes, s[i].k) > LastTouch(h, maxBytes, s[j].k)
  }

  /** The list a step leaves before it evicts. */
  function BeforeEviction(s: Lru, op: Op): Lru {
    match op
    case GetOp(k) => Touch(s, k)
    case SetOp(k, data) => [Entry(k, data)] + Without(s, k)
  }

  /** Leaving a key out keeps the order of the others. */
  lemma WithoutOrdered(s: Lru, k: Key, h: seq<Op>, maxBytes: int)
    requires Distinct(s) && Ordered(s, h, maxBytes)
    ensures Ordered(Without(s, k), h, maxBytes)
  {
    if Has(s, k) {
      var n :| 0 <= n < |s| && s[n].k == k;
      WithoutAt(s, n);
      RemovedOrdered(s, n, h, maxBytes);
    } else {
      WithoutAbsent(s, k);
    }
  }

  lemma RemovedOrdered(s: Lru, n: nat, h: seq<Op>, maxBytes: int)
    requires n < |s| && Ordered(s, h, maxBytes)
    ensures Ordered(s[..n] + s[n + 1..], h, maxBytes)
  {
    var rest := s[..n] + s[n + 1..];
    assert forall i :: 0 <= i < |rest| ==> rest[i] == s[if i < n then i else i + 1];
  }

  /** Touching k now does not change when other keys were touched. */
  lemma OthersUntouched(h: seq<Op>, maxBytes: int, q: Key)
    requires h != [] && q != h[|h| - 1].k
    ensures LastTouch(h, maxBytes, q) == LastTouch(h[..|h| - 1], maxBytes, q)
  {
  }

  lemma OrderedLater(rest: Lru, h: seq<Op>, maxBytes: int)
    requires h != [] && Ordered(rest, h[..|h| - 1], maxBytes) && !Has(rest, h[|h| - 1].k)
    ensures Ordered(rest, h, maxBytes)
    ensures forall i :: 0 <= i < |rest| ==> LastTouch(h, maxBytes, rest[i].k) < |h|
  {
    forall i | 0 <= i < |rest|
      ensures LastTouch(h, maxBytes, rest[i].k) == LastTouch(h[..|h| - 1], maxBytes, rest[i].k)
    {
      assert rest[i].k != h[|h| - 1].k;
      OthersUntouched(h, maxBytes, rest[i].k);
    }
  }

  lemma FrontIsOrdered(s: Lru, e: Entry, h: seq<Op>, maxBytes: int)
    requires h != [] && e.k == h[|h| - 1].k
    requires Distinct(s) && Ordered(s, h[..|h| - 1], maxBytes)
    requires s == Run(h[..|h| - 1], maxBytes) && Touches(s, h[|h| - 1], e.k)
    ensures Ordered([e] + Without(s, e.k), h, maxBytes)
  {
    WithoutDistinct(s, e.k);
    WithoutOrdered(s, e.k, h[..|h| - 1], maxBytes);
    OrderedLater(Without(s, e.k), h, maxBytes);
    assert LastTouch(h, maxBytes, e.k) == |h|;
  }

  lemma StepOrdered(h: seq<Op>, maxBytes: int)
    requires h != []
    requires var s := Run(h[..|h| - 1], maxBytes);
             Distinct(s) && Ordered(s, h[..|h| - 1], maxBytes)
    ensures var s := Run(h[..|h| - 1], maxBytes);
            Ordered(BeforeEviction(s, h[|h| - 1]), h, maxBytes)
  {
    var before, op := h[..|h| - 1], h[|h| - 1];
    var s := Run(before, maxBytes);
    LookupHas(s, op.k);
    match op
    case SetOp(k, data) =>
      FrontIsOrdered(s, Entry(k, data), h, maxBytes);
    case GetOp(k) =>
      if Has(s, k) {
        FrontIsOrdered(s, Entry(k, Lookup(s, k).value), h, maxBytes);
      } else {
        forall q ensures LastTouch(h, maxBytes, q) == LastTouch(before, maxBytes, q) {}
      }
  }

  /** After every history, the list's order is strictly decreasing last-touch
      time, and no key occurs twice. */
  lemma {:induction false} OrderIsRecency(h: seq<Op>, maxBytes: int)
    ensures Distinct(Run(h, maxBytes))
    ensures Ordered(Run(h, maxBytes), h, maxBytes)
  {
    if h != [] {
      var before, op := h[..|h| - 1], h[|h| - 1];
      var s := Run(before, maxBytes);
      OrderIsRecency(before, maxBytes);
      StepOrdered(h, maxBytes);
      match op
      case GetOp(k) =>
        TouchKeys(s, k, k);
      case SetOp(k, data) =>
        StoreKeys(s, k, data, maxBytes);
    }
  }

  /** What Set drops stood behind all it keeps. */
  lemma DroppedBehind(s: Lru, k: Key, data: seq<byte>, maxBytes: int, gone: Key, kept: Key) returns (i: nat, j: nat)
    requires Distinct(s) && Has(s, gone)
    requires !Has(Store(s, k, data, maxBytes), gone) && Has(Store(s, k, data, maxBytes), kept)
    ensures var full := [Entry(k, data)] + Without(s, k);
            j < i < |full| && full[i].k == gone && full[j].k == kept
  {
    var full, t := [Entry(k, data)] + Without(s, k), Store(s, k, data, maxBytes);
    StoreKeys(s, k, data, maxBytes);
    assert t[0].k == k;
    WithoutKeys(s, k, gone);
    var m :| 0 <= m < |Without(s, k)| && Without(s, k)[m].k == gone;
    i := m + 1;
    assert full[i].k == gone;
    j :| 0 <= j < |t| && t[j].k == kept;
    assert forall l :: 0 <= l < |t| ==> t[l] == full[l] && t[l].k != gone;
  }

  /** Whatever an operation evicts was touched less recently than everything it
      keeps; only Set evicts. */
  lemma EvictsLeastRecent(h: seq<Op>, op: Op, maxBytes: int, gone: Key, kept: Key)
    requires Has(Run(h, maxBytes), gone) && !Has(Run(h + [op], maxBytes), gone)
    requires Has(Run(h + [op], maxBytes), kept)
    ensures op.SetOp?
    ensures LastTouch(h + [op], maxBytes, gone) < LastTouch(h + [op], maxBytes, kept)
  {
    var after := h + [op];
    assert after[..|after| - 1] == h && after[|after| - 1] == op;
    var s, t := Run(h, maxBytes), Run(after, maxBytes);
    OrderIsRecency(h, maxBytes);
    StepOrdered(after, maxBytes);
    match op
    case GetOp(k) =>
      TouchKeys(s, k, gone);
    case SetOp(k, data) =>
      var i, j := DroppedBehind(s, k, data, maxBytes, gone, kept);
  }

  /** The data of the last Set of k, whatever happened to it since. */
  function LatestSet(h: seq<Op>, k: Key): Option<seq<byte>> {
    if h == [] then None
    else if h[|h| - 1].SetOp? && h[|h| - 1].k == k then Some(h[|h| - 1].data)
    else LatestSet(h[..|h| - 1], k)
  }

  /** A hit returns what was last stored under that key. */
  lemma {:induction false} HitIsLatestSet(h: seq<Op>, maxBytes: int, k: Key)
    ensures Lookup(Run(h, maxBytes), k).Some? ==> Lookup(Run(h, maxBytes), k) == LatestSet(h, k)
  {
    if h != [] {
      var before, op := h[..|h| - 1], h[|h| - 1];
      var s := Run(before, maxBytes);
      HitIsLatestSet(before, maxBytes, k);
      OrderIsRecency(before, maxBytes);
      LookupHas(Run(h, maxBytes), k);
      match op
      case GetOp(q) =>
        TouchKeys(s, q, k);
      case SetOp(q, data) =>
        StoreKeys(s, q, data, maxBytes);
    }
  }

  /** The capacity promise: the cache fits, or holds a single oversized entry. */
  lemma {:induction false} CapacityKept(h: seq<Op>, maxBytes: int)
    ensures var s := Run(h, maxBytes);
            s == [] || |s| == 1 || Total(s) <= maxBytes
  {
    if h != [] {
      var before, op := h[..|h| - 1], h[|h| - 1];
      var s := Run(before, maxBytes);
      CapacityKept(before, maxBytes);
      OrderIsRecency(before, maxBytes);
      match op
      case SetOp(k, data) =>
        StoreKeys(s, k, data, maxBytes);
      case GetOp(k) =>
        LookupHas(s, k);
        if Has(s, k) {
          TouchTotal(s, k);
        }
    }
  }

  lemma TouchTotal(s: Lru, k: Key)
    requires Distinct(s) && Has(s, k)
    ensures |Touch(s, k)| == |s| && Total(Touch(s, k)) == Total(s)
  {
    var i :| 0 <= i < |s| && s[i].k == k;
    MovedIsTouch(s, i);
  }
}
