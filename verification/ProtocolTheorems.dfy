/** The guarantees of the read protocol, for every run of every set of reads. */
module ProtocolTheorems {
  import opened Bytes
  import opened Wrappers
  import opened ReadProtocol
  import opened ProtocolSafety
  import L = LruSpec

  /** Conservation: for each track, renders started equal renders failed, plus
      times it was evicted, plus one if it is cached, plus one if it is being
      rendered. */
  lemma RendersConserved(cfg: Config, steps: seq<Step>, k: Key)
    requires Run(cfg, steps).Some?
    ensures var s := Run(cfg, steps).value;
            s.started[k] == s.failed[k] + s.evicted[k]
                            + (if L.Has(s.cache, k) then 1 else 0)
                            + (if InFlight(s.calls, k) then 1 else 0)
  {
    ReachableSafe(cfg, steps);
    assert Conserved(Run(cfg, steps).value, k);
  }

  /** However many readers race, a track that never fails and is never evicted is
      rendered at most once. */
  lemma RenderedAtMostOnce(cfg: Config, steps: seq<Step>, k: Key)
    requires Run(cfg, steps).Some?
    ensures var s := Run(cfg, steps).value;
            s.failed[k] == 0 && s.evicted[k] == 0 ==> s.started[k] <= 1
  {
    ReachableSafe(cfg, steps);
    var s := Run(cfg, steps).value;
    RendersConserved(cfg, steps, k);
  }

  /** At most one render of a track runs at a time. */
  lemma OneRenderAtATime(cfg: Config, steps: seq<Step>, c: nat, d: nat)
    requires Run(cfg, steps).Some?
    requires var s := Run(cfg, steps).value;
             && c < |s.calls| && d < |s.calls| && s.calls[c].k == s.calls[d].k
             && Busy(s.calls[c].phase) && Busy(s.calls[d].phase)
    ensures c == d
  {
    ReachableSafe(cfg, steps);
    var s := Run(cfg, steps).value;
    OneLiveCall(s.calls, s.flights, c, d);
  }

  /** Set's branch for a key that is already present is never taken. */
  lemma SetNeverReplaces(cfg: Config, steps: seq<Step>, c: nat)
    requires Run(cfg, steps).Some? && Enabled(cfg, Run(cfg, steps).value, Publish(c))
    ensures var s := Run(cfg, steps).value;
            L.Lookup(s.cache, s.calls[c].k).None?
  {
    ReachableSafe(cfg, steps);
    var s := Run(cfg, steps).value;
    assert Busy(s.calls[c].phase);
    L.LookupHas(s.cache, s.calls[c].k);
  }

  // ---- Replies -------------------------------------------------------------

  /** w is the one file every render of track k produces. */
  ghost predicate IsCanonical(cfg: Config, k: Key, w: seq<byte>) {
    && cfg.header(k) <= w
    && forall data :: cfg.renders(k, data) ==> data == w
  }

  /** What a client may be handed for a read of a file with contents w and header
      length h: the whole slice, or, for a read from inside the header across its
      end, possibly just the header's part of it. */
  predicate GoodReply(w: seq<byte>, h: nat, q: Read, b: seq<byte>) {
    || b == SliceAt(w, q.n, q.off)
    || (q.off < h < q.off + q.n && h <= |w| && b == w[q.off..h])
  }

  /** Whoever races and whatever was evicted, every answer with data is a good
      reply; a short one comes only from the header path. */
  lemma RepliesAreCanonical(cfg: Config, steps: seq<Step>, r: nat, w: seq<byte>)
    requires Run(cfg, steps).Some? && r < |cfg.asked|
    requires IsCanonical(cfg, cfg.asked[r].k, w)
    ensures var s, q := Run(cfg, steps).value, cfg.asked[r];
            r < |s.readers| &&
            (s.readers[r].Answered? && s.readers[r].reply.Data? ==>
               var b := s.readers[r].reply.bytes;
               && GoodReply(w, |cfg.header(q.k)|, q, b)
               && (b != SliceAt(w, q.n, q.off) ==>
                     s.readers[r].via.FromHeader? && q.off < |cfg.header(q.k)| < q.off + q.n))
  {
    ReachableSafe(cfg, steps);
    var s, q := Run(cfg, steps).value, cfg.asked[r];
    assert AnswerValid(cfg, q, s.readers[r]);
    if s.readers[r].Answered? && s.readers[r].reply.Data? && s.readers[r].via.FromHeader? {
      HeaderSlice(w, cfg.header(q.k), q);
    }
  }

  lemma HeaderSlice(w: seq<byte>, header: seq<byte>, q: Read)
    requires header <= w && q.off < |header|
    ensures SliceAt(header, q.n, q.off)
            == if q.off + q.n > |header| then w[q.off..|header|] else SliceAt(w, q.n, q.off)
  {
  }

  /** A good reply is a prefix of the slice asked for, and is empty only at or
      past the end of the file or for a read of no bytes. */
  lemma GoodReplyShape(w: seq<byte>, h: nat, q: Read, b: seq<byte>)
    requires GoodReply(w, h, q, b)
    ensures b <= SliceAt(w, q.n, q.off)
    ensures b == [] <==> q.off >= |w| || q.n == 0
  {
  }

  /** Without determinism: if every render of a track has the announced size and
      starts with the served header, every answer has the length that size
      implies and agrees with the header where they overlap. */
  lemma ReplySizes(cfg: Config, steps: seq<Step>, r: nat, size: nat)
    requires Run(cfg, steps).Some? && r < |cfg.asked|
    requires forall data :: cfg.renders(cfg.asked[r].k, data) ==>
               |data| == size && cfg.header(cfg.asked[r].k) <= data
    requires |cfg.header(cfg.asked[r].k)| <= size
    ensures var s, q, header := Run(cfg, steps).value, cfg.asked[r], cfg.header(cfg.asked[r].k);
            r < |s.readers| && Sized(s.readers[r], q, header, size)
  {
    var x := AnswerOf(cfg, steps, r);
    AnswerSize(cfg, cfg.asked[r], x, size);
  }

  /** An answer with data is as long as a file of this size (or, on the header
      path, this header) allows, and agrees with the header where they overlap. */
  predicate Sized(x: Reader, q: Read, header: seq<byte>, size: nat) {
    x.Answered? && x.reply.Data? ==>
      var b, end := x.reply.bytes, if x.via.FromHeader? then |header| else size;
      && |b| == (if q.off >= end then 0 else if q.off + q.n > end then end - q.off else q.n)
      && forall i :: 0 <= i < |b| && q.off + i < |header| ==> b[i] == header[q.off + i]
  }

  lemma AnswerOf(cfg: Config, steps: seq<Step>, r: nat) returns (x: Reader)
    requires Run(cfg, steps).Some? && r < |cfg.asked|
    ensures r < |Run(cfg, steps).value.readers| && x == Run(cfg, steps).value.readers[r]
    ensures AnswerValid(cfg, cfg.asked[r], x)
  {
    ReachableSafe(cfg, steps);
    x := Run(cfg, steps).value.readers[r];
  }

  lemma AnswerSize(cfg: Config, q: Read, x: Reader, size: nat)
    requires AnswerValid(cfg, q, x) && |cfg.header(q.k)| <= size
    requires forall data :: cfg.renders(q.k, data) ==> |data| == size && cfg.header(q.k) <= data
    ensures Sized(x, q, cfg.header(q.k), size)
  {
  }

  /** A failed read means a failed render of its track. */
  lemma ErrorsHaveCauses(cfg: Config, steps: seq<Step>, r: nat)
    requires Run(cfg, steps).Some? && r < |cfg.asked|
    ensures var s := Run(cfg, steps).value;
            r < |s.readers| &&
            (s.readers[r].Answered? && s.readers[r].reply.EIO? ==> s.failed[cfg.asked[r].k] > 0)
  {
    ReachableSafe(cfg, steps);
    assert AnswerFailureCounted(cfg.asked[r], Run(cfg, steps).value.readers[r], Run(cfg, steps).value.failed);
  }

  /** All waiters of one call share its outcome. */
  lemma WaitersShareOutcome(cfg: Config, steps: seq<Step>, r: nat, c: nat)
    requires Run(cfg, steps).Some? && r < |cfg.asked|
    requires var s := Run(cfg, steps).value;
             r < |s.readers| && s.readers[r].Answered? && s.readers[r].via == FromCall(c)
    ensures var s := Run(cfg, steps).value;
            && c < |s.calls| && s.calls[c].phase.Returned? && s.calls[c].k == cfg.asked[r].k
            && s.readers[r].reply == ReplyOf(s.calls[c].phase.result, cfg.asked[r])
  {
    ReachableSafe(cfg, steps);
    assert ReaderMatches(cfg.asked[r], Run(cfg, steps).value.readers[r], Run(cfg, steps).value.calls);
  }
}
