/** From a call of icmp_command, icmp_respond or icmp_notify to the bytes on the wire and back. */
module EndToEnd {
  import opened Common
  import opened Wire
  import opened IcmpState
  import opened IcmpNode
  import opened IcmpRuns
  import opened Recorded
  import opened Ownership
  import opened Fifo
  import opened Pending
  import opened Requests
  import opened Bounds
  import opened Frames

  /** In every run, each frame that was ever enqueued for sending, and so each one handed to the PHY, is one
      that packs without error, whoever built it. */
  lemma SentFramesAreWellFormed(r: Rules, cfg: Config, callers: nat, clock: nat, run: seq<Action>)
    requires Runs(r, cfg, Init(cfg, callers, clock), run)
    ensures var h := Exec(r, cfg, Init(cfg, callers, clock), run).hist;
      && (forall i :: 0 <= i < |h.txIn| ==> WellFormed(h.txIn[i].frame, cfg.maxPayload))
      && h.txOut <= h.txIn
  {
    InitIsSound(cfg, callers, clock);
    AlwaysBounded(r, cfg, Init(cfg, callers, clock), run);
    FirstInFirstOut(r, cfg, callers, clock, run);
    var s := Exec(r, cfg, Init(cfg, callers, clock), run);
    forall i | 0 <= i < |s.hist.txIn| ensures WellFormed(s.hist.txIn[i].frame, cfg.maxPayload) {
      assert SendOk(cfg, s.hist.txIn[i].frame);
    }
  }

  /** In every run, each frame handed to the PHY has an encoding that fits the PHY's buffer, and a receiver
      whose buffer starts with that encoding, whatever follows it, gets the frame back. */
  lemma SentFramesArrive(r: Rules, cfg: Config, callers: nat, clock: nat, run: seq<Action>, i: nat, stale: seq<byte>)
    requires Runs(r, cfg, Init(cfg, callers, clock), run)
    requires i < |Exec(r, cfg, Init(cfg, callers, clock), run).hist.txOut|
    ensures var f := Exec(r, cfg, Init(cfg, callers, clock), run).hist.txOut[i].frame;
      && WellFormed(f, cfg.maxPayload) && |Encode(f)| == FrameSize(|f.payload|) <= FrameSize(cfg.maxPayload)
      && Readable(Encode(f) + stale, cfg.maxPayload) && Decode(Encode(f) + stale, cfg.maxPayload) == Some(f)
  {
    SentFramesAreWellFormed(r, cfg, callers, clock, run);
    var h := Exec(r, cfg, Init(cfg, callers, clock), run).hist;
    assert h.txOut[i] == h.txIn[i];
    DecodeEncode(h.txOut[i].frame, stale, cfg.maxPayload);
  }

  /** In every run, the bytes that the PHY is to send are literally those of a call: for an accepted command type
      byte 1, an id, and then the call's target, length and payload; otherwise the type, id, target, length and
      payload of a frame that icmp_respond or icmp_notify was asked to send, of type 2 or 3. */
  lemma SentBytesAreOfCalls(r: Rules, cfg: Config, callers: nat, clock: nat, run: seq<Action>, i: nat)
    requires Runs(r, cfg, Init(cfg, callers, clock), run)
    requires i < |Exec(r, cfg, Init(cfg, callers, clock), run).hist.txOut|
    ensures var it := Exec(r, cfg, Init(cfg, callers, clock), run).hist.txOut[i];
      var commands, others := Commands(r, cfg, Init(cfg, callers, clock), run), Others(cfg, run);
      |it.frame.payload| < 256 &&
      var e := Encode(it.frame);
      if it.tag >= 0
      then it.tag < |commands| && var c := commands[it.tag];
        e[0] == 1 && e[2] == c.target && e[3] == |c.payload| && |e| == 6 + |c.payload| && e[4..4 + |c.payload|] == c.payload
      else 0 <= OtherTag(it.tag) < |others| && var f := others[OtherTag(it.tag)];
        && (e[0] == 2 || (e[0] == 3 && e[1] == 255)) && e[0] == f.kind && e[1] == f.msgId && e[2] == f.target
        && e[3] == |f.payload| && |e| == 6 + |f.payload| && e[4..4 + |f.payload|] == f.payload
  {
    SentFramesAreWellFormed(r, cfg, callers, clock, run);
    SentAsAsked(r, cfg, callers, clock, run);
    OthersAreAnswersOrNotices(r, cfg, Init(cfg, callers, clock), run);
    var h := Exec(r, cfg, Init(cfg, callers, clock), run).hist;
    assert h.txOut[i] == h.txIn[i];
    EncodeLayout(h.txOut[i].frame);
  }

  lemma {:induction false} OthersAreAnswersOrNotices(r: Rules, cfg: Config, s: Node, run: seq<Action>)
    requires Runs(r, cfg, s, run)
    ensures forall k :: 0 <= k < |Others(cfg, run)| ==>
              var f := Others(cfg, run)[k]; f.kind == 2 || (f.kind == 3 && f.msgId == 255)
    decreases |run|
  {
    if run != [] {
      LastStep(r, cfg, s, run);
      OthersAreAnswersOrNotices(r, cfg, s, run[..|run| - 1]);
    }
  }
}
