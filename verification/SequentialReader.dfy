/** A client that reads a track front to back, with any buffer size, until it
    gets an empty reply. */
module SequentialReader {
  import opened Bytes
  import opened Wrappers
  import opened ReadProtocol
  import opened ProtocolTheorems
  import opened ProtocolProgress
  import opened ProtocolSafety

  function Joined(replies: seq<seq<byte>>): seq<byte> {
    if replies == [] then [] else Joined(replies[..|replies| - 1]) + replies[|replies| - 1]
  }

  /** Each reply is a good one for a read at the offset the earlier replies
      brought the client to. */
  ghost predicate Transcript(w: seq<byte>, h: nat, k: Key, n: nat, replies: seq<seq<byte>>) {
    forall i :: 0 <= i < |replies| ==>
      GoodReply(w, h, Read(k, |Joined(replies[..i])|, n), replies[i])
  }

  lemma TranscriptPrefix(w: seq<byte>, h: nat, k: Key, n: nat, replies: seq<seq<byte>>)
    requires Transcript(w, h, k, n, replies) && replies != []
    ensures var before := replies[..|replies| - 1];
            && Transcript(w, h, k, n, before)
            && GoodReply(w, h, Read(k, |Joined(before)|, n), replies[|replies| - 1])
  {
    var before := replies[..|replies| - 1];
    forall i | 0 <= i < |before|
      ensures GoodReply(w, h, Read(k, |Joined(before[..i])|, n), before[i])
    {
      assert before[..i] == replies[..i];
    }
  }

  /** At every moment the client holds a prefix of the file. */
  lemma {:induction false} HoldsPrefix(w: seq<byte>, h: nat, k: Key, n: nat, replies: seq<seq<byte>>)
    requires Transcript(w, h, k, n, replies)
    ensures Joined(replies) <= w
  {
    if replies != [] {
      var before, b := replies[..|replies| - 1], replies[|replies| - 1];
      TranscriptPrefix(w, h, k, n, replies);
      HoldsPrefix(w, h, k, n, before);
      NextPiece(w, h, Read(k, |Joined(before)|, n), Joined(before), b);
    }
  }

  lemma NextPiece(w: seq<byte>, h: nat, q: Read, held: seq<byte>, b: seq<byte>)
    requires held <= w && |held| == q.off && GoodReply(w, h, q, b)
    ensures held + b <= w
  {
    assert held == w[..q.off];
  }

  /** An empty reply means the client holds the whole file. */
  lemma EmptyReplyEndsIt(w: seq<byte>, h: nat, k: Key, n: nat, replies: seq<seq<byte>>)
    requires Transcript(w, h, k, n, replies) && n > 0
    requires replies != [] && replies[|replies| - 1] == []
    ensures Joined(replies) == w
  {
    var before := replies[..|replies| - 1];
    TranscriptPrefix(w, h, k, n, replies);
    HoldsPrefix(w, h, k, n, before);
    GoodReplyShape(w, h, Read(k, |Joined(before)|, n), []);
    assert Joined(before) == w;
  }

  ghost predicate AllNonEmpty(replies: seq<seq<byte>>) {
    forall i :: 0 <= i < |replies| ==> replies[i] != []
  }

  /** How far m non-empty replies have brought the client: every reply is full
      except the last one of the file and at most one that ended at the header. */
  lemma {:induction false} Advance(w: seq<byte>, h: nat, k: Key, n: nat, replies: seq<seq<byte>>)
    requires Transcript(w, h, k, n, replies) && AllNonEmpty(replies) && n > 0
    ensures var at, m := |Joined(replies)|, |replies|;
            || at == m * n
            || (at >= h && at >= (m - 1) * n)
            || (at == |w| && m >= 1 && at > (m - 2) * n)
    ensures |Joined(replies)| <= |w|
  {
    HoldsPrefix(w, h, k, n, replies);
    if replies != [] {
      var before, b := replies[..|replies| - 1], replies[|replies| - 1];
      TranscriptPrefix(w, h, k, n, replies);
      Advance(w, h, k, n, before);
      AdvanceOne(|w|, h, n, |before|, |Joined(before)|, |b|);
    }
  }

  lemma AdvanceOne(size: nat, h: nat, n: nat, m: nat, at: nat, got: nat)
    requires n > 0 && at + got <= size && got > 0
    requires || got == n
             || (got < n && at + got == size)
             || (at < h < at + n && at + got == h)
    requires || at == m * n
             || (at >= h && at >= (m - 1) * n)
    ensures var at', m' := at + got, m + 1;
            || at' == m' * n
            || (at' >= h && at' >= (m' - 1) * n)
            || (at' == size && m' >= 1 && at' > (m' - 2) * n)
  {
    assert (m + 1) * n == m * n + n && m * n == (m - 1) * n + n;
  }

  function MaxReplies(size: int, n: nat): int
    requires n > 0
  {
    (size + n - 1) / n + 1
  }

  /** Reading takes at most one more reply than the file has buffers full of
      bytes: only the end of the header can cost an extra one. */
  lemma FewReplies(w: seq<byte>, h: nat, k: Key, n: nat, replies: seq<seq<byte>>)
    requires Transcript(w, h, k, n, replies) && AllNonEmpty(replies) && n > 0
    ensures |replies| <= MaxReplies(|w|, n)
  {
    Advance(w, h, k, n, replies);
    CountBound(n, |replies|, |Joined(replies)|, h, |w|);
  }

  lemma BeyondTwoFewer(n: nat, m: nat, at: nat, h: nat, size: nat)
    requires n > 0 && at <= size
    requires || at == m * n
             || (at >= h && at >= (m - 1) * n)
             || (at == size && m >= 1 && at > (m - 2) * n)
    ensures (m - 2) * n < size
  {
    assert m * n == (m - 2) * n + 2 * n && (m - 1) * n == (m - 2) * n + n;
  }

  lemma CountBound(n: nat, m: nat, at: nat, h: nat, size: nat)
    requires n > 0 && at <= size
    requires || at == m * n
             || (at >= h && at >= (m - 1) * n)
             || (at == size && m >= 1 && at > (m - 2) * n)
    ensures m <= MaxReplies(size, n)
  {
    BeyondTwoFewer(n, m, at, h, size);
    CeilingBound(size, n, m);
  }

  lemma CeilingBound(size: nat, n: nat, m: nat)
    requires n > 0 && (m - 2) * n < size
    ensures m <= MaxReplies(size, n)
  {
    var full := (size + n - 1) / n;
    assert size + n - 1 == full * n + (size + n - 1) % n;
    if m - 2 >= full {
      Scaled(full, m - 2, n);
    }
  }

  lemma Scaled(a: int, b: int, n: nat)
    requires a <= b
    ensures a * n <= b * n
  {
  }

  /** What a client that has received these replies knows. */
  lemma TranscriptOf(w: seq<byte>, h: nat, k: Key, n: nat, replies: seq<seq<byte>>)
    requires Transcript(w, h, k, n, replies) && n > 0
    ensures Joined(replies) <= w
    ensures AllNonEmpty(replies) ==> |replies| <= MaxReplies(|w|, n)
    ensures replies != [] && replies[|replies| - 1] == [] ==> Joined(replies) == w
  {
    HoldsPrefix(w, h, k, n, replies);
    if AllNonEmpty(replies) {
      FewReplies(w, h, k, n, replies);
    }
    if replies != [] && replies[|replies| - 1] == [] {
      EmptyReplyEndsIt(w, h, k, n, replies);
    }
  }

  // ---- The client in a run of the protocol ---------------------------------

  /** The bytes reader r was answered with. */
  function Got(s: State, r: nat): seq<byte> {
    if r < |s.readers| && s.readers[r].Answered? && s.readers[r].reply.Data?
    then s.readers[r].reply.bytes
    else []
  }

  function GotAll(s: State, rs: seq<nat>): (replies: seq<seq<byte>>)
    ensures |replies| == |rs|
  {
    seq(|rs|, i requires 0 <= i < |rs| => Got(s, rs[i]))
  }

  /** Readers rs are one client's reads, in order, each asked for n bytes at the
      offset the replies before it brought the client to. */
  ghost predicate IsClient(cfg: Config, s: State, rs: seq<nat>, k: Key, n: nat) {
    && |s.readers| == |cfg.asked|
    && forall i :: 0 <= i < |rs| ==>
         rs[i] < |cfg.asked| && cfg.asked[rs[i]] == Read(k, |Joined(GotAll(s, rs)[..i])|, n)
  }

  ghost predicate Served(s: State, rs: seq<nat>) {
    forall i :: 0 <= i < |rs| ==>
      rs[i] < |s.readers| && s.readers[rs[i]].Answered? && s.readers[rs[i]].reply.Data?
  }

  lemma ClientTranscript(cfg: Config, steps: seq<Step>, rs: seq<nat>, k: Key, n: nat, w: seq<byte>)
    requires Run(cfg, steps).Some? && IsCanonical(cfg, k, w)
    requires IsClient(cfg, Run(cfg, steps).value, rs, k, n) && Served(Run(cfg, steps).value, rs)
    ensures Transcript(w, |cfg.header(k)|, k, n, GotAll(Run(cfg, steps).value, rs))
  {
    var s := Run(cfg, steps).value;
    var replies := GotAll(s, rs);
    forall i | 0 <= i < |replies|
      ensures GoodReply(w, |cfg.header(k)|, Read(k, |Joined(replies[..i])|, n), replies[i])
    {
      RepliesAreCanonical(cfg, steps, rs[i], w);
    }
  }

  /** At any moment of any run, whatever is evicted, whoever else reads, and however
      the steps interleave: a client whose reads so far were served holds a prefix
      of the canonical file, and all of it once a reply was empty. */
  lemma ServedClient(cfg: Config, steps: seq<Step>, rs: seq<nat>, k: Key, n: nat, w: seq<byte>)
    requires Run(cfg, steps).Some? && IsCanonical(cfg, k, w) && n > 0
    requires IsClient(cfg, Run(cfg, steps).value, rs, k, n) && Served(Run(cfg, steps).value, rs)
    ensures var replies := GotAll(Run(cfg, steps).value, rs);
            && Joined(replies) <= w
            && (AllNonEmpty(replies) ==> |rs| <= MaxReplies(|w|, n))
            && (replies != [] && replies[|replies| - 1] == [] ==> Joined(replies) == w)
  {
    ClientTranscript(cfg, steps, rs, k, n, w);
    TranscriptOf(w, |cfg.header(k)|, k, n, GotAll(Run(cfg, steps).value, rs));
  }

  /** In a run that has come to its end, the reads of a track no render of which
      failed are served. */
  lemma EndedRunsServe(cfg: Config, steps: seq<Step>, rs: seq<nat>, k: Key)
    requires Run(cfg, steps).Some? && Ended(cfg, Run(cfg, steps).value)
    requires Run(cfg, steps).value.failed[k] == 0
    requires forall i :: 0 <= i < |rs| ==> rs[i] < |cfg.asked| && cfg.asked[rs[i]].k == k
    ensures Served(Run(cfg, steps).value, rs)
  {
    FinishedRunsAnswerEverything(cfg, steps);
    forall i | 0 <= i < |rs| ensures Run(cfg, steps).value.readers[rs[i]].reply.Data? {
      ErrorsHaveCauses(cfg, steps, rs[i]);
    }
  }

  lemma {:induction false} FirstEmpty(replies: seq<seq<byte>>) returns (m: nat)
    requires !AllNonEmpty(replies)
    ensures m < |replies| && replies[m] == [] && AllNonEmpty(replies[..m])
  {
    var before := replies[..|replies| - 1];
    if AllNonEmpty(before) {
      m := |before|;
    } else {
      m := FirstEmpty(before);
      assert before[..m] == replies[..m];
    }
  }

  lemma TranscriptUpTo(w: seq<byte>, h: nat, k: Key, n: nat, replies: seq<seq<byte>>, m: nat)
    requires Transcript(w, h, k, n, replies) && m <= |replies|
    ensures Transcript(w, h, k, n, replies[..m])
  {
    forall i | 0 <= i < m ensures replies[..m][..i] == replies[..i] {}
  }

  /** Whenever a transcript is longer than the file can take, some reply is empty,
      and up to the first such the client has received exactly the file. */
  lemma LongTranscriptEnds(w: seq<byte>, h: nat, k: Key, n: nat, replies: seq<seq<byte>>) returns (m: nat)
    requires Transcript(w, h, k, n, replies) && n > 0
    requires |replies| > MaxReplies(|w|, n)
    ensures m < |replies| && m <= MaxReplies(|w|, n)
    ensures replies[m] == [] && AllNonEmpty(replies[..m]) && Joined(replies[..m]) == w
  {
    if AllNonEmpty(replies) {
      FewReplies(w, h, k, n, replies);
      assert false;
    }
    m := FirstEmpty(replies);
    TranscriptUpTo(w, h, k, n, replies, m);
    TranscriptUpTo(w, h, k, n, replies, m + 1);
    FewReplies(w, h, k, n, replies[..m]);
    EmptyReplyEndsIt(w, h, k, n, replies[..m + 1]);
    assert replies[..m + 1][..m] == replies[..m];
  }

  /** The client terminates, and with the file: in every run that has come to its
      end, however its steps interleaved and whatever was evicted, a client of a
      track no render of which failed has met an empty reply after at most
      ceil(|w| / n) + 1 replies with data, and these joined are the canonical
      file. */
  lemma SequentialReadGetsTheFile(
      cfg: Config, steps: seq<Step>, rs: seq<nat>, k: Key, n: nat, w: seq<byte>) returns (m: nat)
    requires Run(cfg, steps).Some? && Ended(cfg, Run(cfg, steps).value)
    requires Run(cfg, steps).value.failed[k] == 0 && IsCanonical(cfg, k, w) && n > 0
    requires IsClient(cfg, Run(cfg, steps).value, rs, k, n) && |rs| > MaxReplies(|w|, n)
    ensures m < |rs| && m <= MaxReplies(|w|, n)
    ensures var replies := GotAll(Run(cfg, steps).value, rs);
            replies[m] == [] && AllNonEmpty(replies[..m]) && Joined(replies[..m]) == w
  {
    EndedRunsServe(cfg, steps, rs, k);
    ClientTranscript(cfg, steps, rs, k, n, w);
    m := LongTranscriptEnds(w, |cfg.header(k)|, k, n, GotAll(Run(cfg, steps).value, rs));
  }

  // ---- Reads that arrive later ----------------------------------------------

  function More(cfg: Config, q: Read): Config {
    cfg.(asked := cfg.asked + [q])
  }

  function Wider(s: State): State {
    s.(readers := s.readers + [Asked])
  }

  lemma StepWithMore(cfg: Config, q: Read, s: State, step: Step)
    requires Enabled(cfg, s, step) && |s.readers| == |cfg.asked|
    ensures Enabled(More(cfg, q), Wider(s), step)
    ensures Apply(More(cfg, q), Wider(s), step) == Wider(Apply(cfg, s, step))
  {
    if IsReaderStep(step) {
      var x := Apply(cfg, s, step).readers[step.r];
      assert (s.readers + [Asked])[step.r := x] == s.readers[step.r := x] + [Asked];
    } else {
      CallStepWithMore(cfg, q, s, step);
    }
  }

  lemma CallStepWithMore(cfg: Config, q: Read, s: State, step: Step)
    requires Enabled(cfg, s, step) && !IsReaderStep(step)
    ensures Enabled(More(cfg, q), Wider(s), step)
    ensures Apply(More(cfg, q), Wider(s), step) == Wider(Apply(cfg, s, step))
  {
  }

  /** A read that joins after a run leaves that run what it was. */
  lemma {:induction false} RunWithMore(cfg: Config, q: Read, steps: seq<Step>)
    requires Run(cfg, steps).Some?
    ensures |Run(cfg, steps).value.readers| == |cfg.asked|
    ensures Run(More(cfg, q), steps) == Some(Wider(Run(cfg, steps).value))
  {
    if steps == [] {
      assert seq(|cfg.asked| + 1, _ => Asked) == seq(|cfg.asked|, _ => Asked) + [Asked];
    } else {
      var before := steps[..|steps| - 1];
      RunWithMore(cfg, q, before);
      ReachableSafe(cfg, steps);
      StepWithMore(cfg, q, Run(cfg, before).value, steps[|steps| - 1]);
    }
  }
  lemma {:induction false} AnsweredStays(cfg: Config, steps: seq<Step>, full: seq<Step>, r: nat)
    requires steps <= full && Run(cfg, steps).Some? && Run(cfg, full).Some?
    requires r < |Run(cfg, steps).value.readers| && Run(cfg, steps).value.readers[r].Answered?
    ensures r < |Run(cfg, full).value.readers|
    ensures Run(cfg, full).value.readers[r] == Run(cfg, steps).value.readers[r]
    decreases |full|
  {
    if steps != full {
      var before := full[..|full| - 1];
      AnsweredStays(cfg, steps, before, r);
      StepKeepsAnswer(cfg, Run(cfg, before).value, full[|full| - 1], r);
    } else {
      assert steps == full;
    }
  }

  lemma StepKeepsAnswer(cfg: Config, s: State, step: Step, r: nat)
    requires Enabled(cfg, s, step) && r < |s.readers| && s.readers[r].Answered?
    ensures r < |Apply(cfg, s, step).readers| && Apply(cfg, s, step).readers[r] == s.readers[r]
  {
  }

  lemma AllRenderWider(cfg: Config, q: Read)
    requires AllRender(cfg)
    ensures AllRender(More(cfg, q))
  {
    forall k ensures CanRender(More(cfg, q), k) {
      assert CanRender(cfg, k);
      var data :| cfg.renders(k, data);
      assert More(cfg, q).renders(k, data);
    }
  }

  /** After these steps the client has been served all its reads, and nothing
      stands in the way of more. */
  ghost predicate Reading(cfg: Config, steps: seq<Step>, rs: seq<nat>, k: Key, n: nat) {
    && Run(cfg, steps).Some? && AllRender(cfg) && Run(cfg, steps).value.failed[k] == 0
    && IsClient(cfg, Run(cfg, steps).value, rs, k, n) && Served(Run(cfg, steps).value, rs)
  }

  function Replies(cfg: Config, steps: seq<Step>, rs: seq<nat>): seq<seq<byte>>
    requires Run(cfg, steps).Some?
  {
    GotAll(Run(cfg, steps).value, rs)
  }

  /** A client's next read, from the moment it arrives to the end of some run
      without another failure. */
  lemma ReadOn(cfg: Config, steps: seq<Step>, rs: seq<nat>, k: Key, n: nat) returns (q: Read, full: seq<Step>)
    requires Reading(cfg, steps, rs, k, n)
    ensures steps <= full && Reading(More(cfg, q), full, rs + [|cfg.asked|], k, n)
    ensures Replies(More(cfg, q), full, rs + [|cfg.asked|])[..|rs|] == Replies(cfg, steps, rs)
  {
    var s := Run(cfg, steps).value;
    q := Read(k, |Joined(GotAll(s, rs))|, n);
    var cfg', rs' := More(cfg, q), rs + [|cfg.asked|];
    RunWithMore(cfg, q, steps);
    AllRenderWider(cfg, q);
    full := EveryRunCanSucceed(cfg', steps);
    var t := Run(cfg', full).value;
    forall i | 0 <= i < |rs| ensures Got(t, rs[i]) == Got(s, rs[i]) {
      AnsweredStays(cfg', steps, full, rs[i]);
    }
    FinishedRunsAnswerEverything(cfg', full);
    ClientWithOneMore(cfg, s, t, rs, k, n);
    EndedRunsServe(cfg', full, rs', k);
  }

  lemma ClientWithOneMore(cfg: Config, s: State, t: State, rs: seq<nat>, k: Key, n: nat)
    requires IsClient(cfg, s, rs, k, n) && |t.readers| == |cfg.asked| + 1
    requires forall i :: 0 <= i < |rs| ==> Got(t, rs[i]) == Got(s, rs[i])
    ensures var rs' := rs + [|cfg.asked|];
            && IsClient(More(cfg, Read(k, |Joined(GotAll(s, rs))|, n)), t, rs', k, n)
            && GotAll(t, rs')[..|rs|] == GotAll(s, rs)
  {
    var rs' := rs + [|cfg.asked|];
    assert GotAll(t, rs')[..|rs|] == GotAll(s, rs);
    assert forall i :: 0 <= i <= |rs| ==> GotAll(t, rs')[..i] == GotAll(s, rs)[..i];
    assert GotAll(s, rs)[..|rs|] == GotAll(s, rs);
  }

  /** The client holds the file and has been told that this is all. */
  ghost predicate Complete(cfg: Config, steps: seq<Step>, rs: seq<nat>, k: Key, n: nat, w: seq<byte>) {
    && Reading(cfg, steps, rs, k, n) && rs != []
    && Joined(Replies(cfg, steps, rs)) == w && Replies(cfg, steps, rs)[|rs| - 1] == []
  }

  lemma ReadingBounded(cfg: Config, steps: seq<Step>, rs: seq<nat>, k: Key, n: nat, w: seq<byte>)
    requires Reading(cfg, steps, rs, k, n) && IsCanonical(cfg, k, w) && n > 0
    ensures var replies := Replies(cfg, steps, rs);
            && |replies| == |rs|
            && (AllNonEmpty(replies) ==> |rs| <= MaxReplies(|w|, n))
            && (rs != [] && replies[|rs| - 1] == [] ==> Complete(cfg, steps, rs, k, n, w))
  {
    ServedClient(cfg, steps, rs, k, n, w);
  }

  lemma NonEmptyAgain(before: seq<seq<byte>>, after: seq<seq<byte>>)
    requires |after| == |before| + 1 && after[..|before|] == before && AllNonEmpty(before)
    requires after[|before|] != []
    ensures AllNonEmpty(after)
  {
    assert forall i :: 0 <= i < |before| ==> after[i] == after[..|before|][i];
  }

  /** One read on: either that was the last, or the client is within its bound. */
  lemma OneReadOn(cfg: Config, steps: seq<Step>, rs: seq<nat>, k: Key, n: nat, w: seq<byte>)
    returns (q: Read, full: seq<Step>)
    requires Going(cfg, steps, rs, k, n) && IsCanonical(cfg, k, w) && n > 0
    ensures steps <= full && |rs| < MaxReplies(|w|, n) + 1
    ensures var cfg', rs' := More(cfg, q), rs + [|cfg.asked|];
            || Complete(cfg', full, rs', k, n, w)
            || (Going(cfg', full, rs', k, n) && IsCanonical(cfg', k, w))
  {
    ReadingBounded(cfg, steps, rs, k, n, w);
    q, full := ReadOn(cfg, steps, rs, k, n);
    var cfg', rs' := More(cfg, q), rs + [|cfg.asked|];
    ReadingBounded(cfg', full, rs', k, n, w);
    if Replies(cfg', full, rs')[|rs|] != [] {
      NonEmptyAgain(Replies(cfg, steps, rs), Replies(cfg', full, rs'));
    }
  }

  ghost predicate Going(cfg: Config, steps: seq<Step>, rs: seq<nat>, k: Key, n: nat) {
    Reading(cfg, steps, rs, k, n) && AllNonEmpty(Replies(cfg, steps, rs))
  }

  /** From every reachable state, whatever other reads are under way: a client that
      sends each read only when it has the answer to the one before can be served
      until its empty reply, and then holds the file. */
  lemma {:induction false} ClientCanFinish(cfg: Config, steps: seq<Step>, rs: seq<nat>, k: Key, n: nat, w: seq<byte>)
    returns (cfg': Config, full: seq<Step>, rs': seq<nat>)
    requires Going(cfg, steps, rs, k, n) && IsCanonical(cfg, k, w) && n > 0
    ensures cfg' == cfg.(asked := cfg'.asked) && cfg.asked <= cfg'.asked && steps <= full && rs < rs'
    ensures Complete(cfg', full, rs', k, n, w)
    decreases MaxReplies(|w|, n) + 1 - |rs|
  {
    var q;
    q, full := OneReadOn(cfg, steps, rs, k, n, w);
    cfg', rs' := More(cfg, q), rs + [|cfg.asked|];
    if !Complete(cfg', full, rs', k, n, w) {
      cfg', full, rs' := ClientCanFinish(cfg', full, rs', k, n, w);
    }
  }
}
