/** The clock exchange of the reliable UDP channel: sampling, the choice of the best sample, and
    the commit that sets the two ends' punch instants. */
module ClockSync {
  import opened Basics

  const PROTO_VER := 2

  datatype Sample = Sample(rtt: int, offset: int)

  /** What a commit packet carries. */
  datatype Commit = V2(goAt: int, id: int) | V1(delay: int)

  datatype Syncer = Syncer(
    inProgress: bool, pending: set<int>, replies: map<int, Sample>, samples: seq<Sample>,
    offset: Option<int>, rtt: Option<int>, peerVer: int, commitSeq: int, lastCommitId: int)

  const FRESH := Syncer(false, {}, map[], [], None, None, 1, 0, -1)

  // ---------- the initiator ----------

  /** A new series of samples, unless one is going on. */
  function Begin(s: Syncer): Syncer {
    if s.inProgress then s else s.(inProgress := true, samples := [], pending := {}, replies := map[])
  }

  function Ask(s: Syncer, t1: int): Syncer {
    s.(pending := s.pending + {t1})
  }

  /** An acknowledgement, read at t4 on the own clock. */
  function Measure(t1: int, t2: int, t3: int, t4: int): Sample {
    Sample((t4 - t1) - (t3 - t2), ((t2 - t1) + (t3 - t4)) / 2)
  }

  function OnAck(s: Syncer, t1: int, t2: int, t3: int, ver: int, t4: int): Syncer {
    var u := s.(peerVer := Max(s.peerVer, ver));
    if t1 in s.pending then u.(replies := s.replies[t1 := Measure(t1, t2, t3, t4)]) else u
  }

  /** The end of the wait for the answer to t1; signalled says whether it ended in time. */
  function Collect(s: Syncer, t1: int, signalled: bool): Syncer {
    s.(pending := s.pending - {t1}, replies := s.replies - {t1},
       samples := if signalled && t1 in s.replies then s.samples + [s.replies[t1]] else s.samples)
  }

  /** The first of the samples with the smallest round-trip time. */
  function Best(samples: seq<Sample>): (b: Sample)
    requires samples != []
    ensures b in samples && forall x :: x in samples ==> b.rtt <= x.rtt
  {
    if |samples| == 1 then samples[0]
    else
      var b := Best(samples[..|samples| - 1]);
      var last := samples[|samples| - 1];
      if last.rtt < b.rtt then last else b
  }

  /** Of several samples with the smallest round-trip time it is the first. */
  lemma {:induction false} BestIsFirst(samples: seq<Sample>) returns (i: nat)
    requires samples != []
    ensures i < |samples| && samples[i] == Best(samples)
    ensures forall j :: 0 <= j < i ==> samples[j].rtt > samples[i].rtt
  {
    if |samples| == 1 {
      i := 0;
    } else {
      i := BestIsFirst(samples[..|samples| - 1]);
      if samples[|samples| - 1].rtt < samples[i].rtt {
        i := |samples| - 1;
      }
    }
  }

  /** The end of a series: nothing without a sample, else the own punch instant and a commit. */
  function Finish(s: Syncer, now: int, delay: int): (Syncer, Option<(int, Commit)>) {
    if s.samples == [] then (s.(inProgress := false), None)
    else
      var b := Best(s.samples);
      var id := s.commitSeq + 1;
      (s.(inProgress := false, offset := Some(b.offset), rtt := Some(b.rtt), commitSeq := id),
       Some((now + delay, if s.peerVer >= PROTO_VER then V2(now + delay + b.offset, id) else V1(delay))))
  }

  // ---------- the responder ----------

  function OnReq(s: Syncer, ver: int): Syncer {
    s.(peerVer := Max(s.peerVer, ver))
  }

  /** The punch instant that a commit sets, on the own clock; None for one seen before. */
  function OnCommit(s: Syncer, c: Commit, now: int): (Syncer, Option<int>) {
    match c
    case V2(goAt, id) =>
      if id <= s.lastCommitId then (s, None)
      else (s.(lastCommitId := id), Some(goAt - (if s.offset.Some? then s.offset.value else 0)))
    case V1(delay) => (s, Some(now + delay))
  }

  // ---------- the object ----------

  class SyncPeer {
    var inProgress: bool
    var pending: set<int>
    var replies: map<int, Sample>
    var samples: seq<Sample>
    var syncOffset: Option<int>
    var syncRtt: Option<int>
    var peerVer: int
    var commitSeq: int
    var lastCommitId: int

    ghost function State(): (s: Syncer)
      reads this
    {
      Syncer(inProgress, pending, replies, samples, syncOffset, syncRtt, peerVer, commitSeq, lastCommitId)
    }

    constructor ()
      ensures State() == FRESH
    {
      inProgress, pending, replies, samples := false, {}, map[], [];
      syncOffset, syncRtt, peerVer, commitSeq, lastCommitId := None, None, 1, 0, -1;
    }

    method StartSync() returns (started: bool)
      modifies this
      ensures State() == Begin(old(State())) && started == !old(inProgress)
    {
      if inProgress {
        return false;
      }
      inProgress, samples, pending, replies := true, [], {}, map[];
      started := true;
    }

    method SendRequest(t1: int)
      modifies this`pending
      ensures State() == Ask(old(State()), t1)
    {
      pending := pending + {t1};
    }

    method OnSyncAck(t1: int, t2: int, t3: int, ver: int, t4: int)
      modifies this`peerVer, this`replies
      ensures State() == OnAck(old(State()), t1, t2, t3, ver, t4)
    {
      if ver > peerVer {
        peerVer := ver;
      }
      var rtt := (t4 - t1) - (t3 - t2);
      var offset := ((t2 - t1) + (t3 - t4)) / 2;
      if t1 in pending {
        replies := replies[t1 := Sample(rtt, offset)];
      }
    }

    method EndWait(t1: int, signalled: bool)
      modifies this`pending, this`replies, this`samples
      ensures State() == Collect(old(State()), t1, signalled)
    {
      if signalled && t1 in replies {
        samples := samples + [replies[t1]];
      }
      replies := replies - {t1};
      pending := pending - {t1};
    }

    method BestSample() returns (b: Sample)
      requires samples != []
      ensures b == Best(samples)
    {
      b := samples[0];
      var i := 1;
      assert samples[..1] == [samples[0]];
      while i < |samples|
        invariant 1 <= i <= |samples| && b == Best(samples[..i])
      {
        assert samples[..i + 1][..i] == samples[..i];
        if samples[i].rtt < b.rtt {
          b := samples[i];
        }
        i := i + 1;
      }
      assert samples[..i] == samples;
    }

    /** The own punch instant and the commit to send, if there is a sample. */
    method FinishSync(now: int, delay: int) returns (out: Option<(int, Commit)>)
      modifies this
      ensures (State(), out) == Finish(old(State()), now, delay)
    {
      inProgress := false;
      if samples == [] {
        return None;
      }
      var b := BestSample();
      syncOffset, syncRtt := Some(b.offset), Some(b.rtt);
      var goAt := now + delay;
      commitSeq := commitSeq + 1;
      if peerVer >= PROTO_VER {
        out := Some((goAt, V2(goAt + b.offset, commitSeq)));
      } else {
        out := Some((goAt, V1(delay)));
      }
    }

    method OnSyncReq(ver: int)
      modifies this`peerVer
      ensures State() == OnReq(old(State()), ver)
    {
      if ver > peerVer {
        peerVer := ver;
      }
    }

    method OnSyncCommit(c: Commit, now: int) returns (goAt: Option<int>)
      modifies this`lastCommitId
      ensures (State(), goAt) == OnCommit(old(State()), c, now)
    {
      match c {
        case V2(t, id) =>
          if id <= lastCommitId {
            return None;
          }
          lastCommitId := id;
          goAt := Some(t - (if syncOffset.Some? then syncOffset.value else 0));
        case V1(delay) =>
          goAt := Some(now + delay);
      }
    }
  }
}
