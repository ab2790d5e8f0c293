/** The submission of a command: admission, a number, the tables, the write's opening, and the task loop. */
module Submission {
  import opened Prelude
  import opened Io
  import opened DataOut
  import opened WritePath
  import opened Answers
  import opened Router
  import opened SessionTable
  import SessionRuns

  datatype Submitted = Refused | NoNumber | Failed(error: WriteError) | Started(itt: u32)

  /** All that goes out before the task loop starts does go out. */
  predicate CanStart(p: Limits, isWrite: bool, broken: bool, left: nat, queued: bool)
    requires p.maxSegment > 0
  {
    queued && (isWrite ==> ImmediateCanBeRead(p, broken, left) && BurstCanBeFilled(p, broken, left))
  }

  lemma OpeningIfSucceedsIff(p: Limits, data: bytes, broken: bool, itt: u32, pos: nat, queued: bool)
    requires pos <= |data| && 0 < p.maxSegment <= MAX_SEGMENT
    ensures OpeningIf(queued, OpeningOf(p, data, broken, itt, pos)).error == None
      <==> CanStart(p, true, broken, |data| - pos, queued)
  {
    OpeningSucceedsIff(p, data, broken, itt, pos);
    OpeningStaysInFirstBurst(p, data, broken, itt, pos);
  }

  /**
   * What a submission under a tag has sent: `command` is the data of the command PDU if that was
   * queued, which for a read are none; `now` are the Data-Out PDUs, behind those there were;
   * and the error, if it has failed.
   */
  predicate Sent(isWrite: bool, p: Limits, data: bytes, broken: bool, itt: u32, pos: nat, queued: bool,
                 command: Option<bytes>, was: seq<DataOutPdu>, now: seq<DataOutPdu>, bytesSent: u32,
                 error: Option<WriteError>)
    requires pos <= |data|
  {
    if isWrite then
      var o := OpeningIf(queued, OpeningOf(p, data, broken, itt, pos));
      command == o.command && now == was + o.burst && bytesSent == o.bytesSent && error == o.error
    else
      && now == was && bytesSent == 0
      && if queued then command == Some([]) && error == None else command == None && error == Some(ContextEnded)
  }

  /** Sends the command, and what opens a write. `queued`: the context does not end before the command is queued. */
  method SendCommand(t: WriteTask, isWrite: bool, p: Limits, queued: bool)
    returns (command: Option<bytes>, error: Option<WriteError>)
    requires t.source.Valid() && t.bytesSent == 0
    modifies t`wire, t`bytesSent, t.source
    ensures t.source.Valid()
    ensures 0 < p.maxSegment <= MAX_SEGMENT ==>
      (error == None <==> CanStart(p, isWrite, t.source.broken, |t.source.data| - old(t.source.pos), queued))
    ensures Sent(isWrite, p, t.source.data, t.source.broken, t.itt, old(t.source.pos), queued, command,
                 old(t.wire), t.wire, t.bytesSent, error)
  {
    if isWrite {
      if 0 < p.maxSegment <= MAX_SEGMENT {
        OpeningIfSucceedsIff(p, t.source.data, t.source.broken, t.itt, t.source.pos, queued);
      }
      command, error := Open(t, p, queued);
    } else if queued {
      command, error := Some([]), None;
    } else {
      command, error := None, Some(ContextEnded);
    }
  }

  /** The submission from its entry in the tables on. */
  method BeginAndOpen(s: Session, t: WriteTask, lun: nat, isWrite: bool, p: Limits, queued: bool)
    returns (itt: u32, command: Option<bytes>, error: Option<WriteError>)
    requires s.Valid() && t.source.Valid() && t.bytesSent == 0
    modifies s, s.router, t, t.source
    ensures s.Valid() && t.source.Valid() && itt == TagOf(old(s.router.nextITT)) && t.itt == itt
    ensures 0 < p.maxSegment <= MAX_SEGMENT ==>
      (error == None <==> CanStart(p, isWrite, t.source.broken, |t.source.data| - old(t.source.pos), queued))
    ensures error == None ==> s.State() == ServeOf(BeginOf(old(s.State()), lun), itt)
    ensures error != None ==> s.State() == FailOf(BeginOf(old(s.State()), lun), itt)
    ensures Sent(isWrite, p, t.source.data, t.source.broken, itt, old(t.source.pos), queued, command,
                 old(t.wire), t.wire, t.bytesSent, error)
  {
    itt := s.BeginTask(lun);
    t.itt := itt;
    command, error := SendCommand(t, isWrite, p, queued);
    if error == None {
      s.StartLoop(itt);
    } else {
      s.FailTask(itt);
    }
  }

  /**
   * A submission is refused during recovery and while draining. One that is not ends with
   * its task loop, exactly if it gets a number and all that opens it can be sent; if
   * something of that fails, its entries are taken back. With a number, it has sent its
   * command and its Data-Out PDUs under the new tag, as far as it came; without, nothing.
   */
  method Submit(s: Session, t: WriteTask, lun: nat, isWrite: bool, p: Limits, acquired: bool, queued: bool)
    returns (r: Submitted, command: Option<bytes>)
    requires s.Valid() && t.source.Valid() && t.bytesSent == 0
    modifies s, s.router, t, t.source
    ensures s.Valid() && t.source.Valid()
    ensures r.Refused? <==> old(s.recovering) || old(s.draining)
    ensures r.NoNumber? <==> !r.Refused? && !acquired
    ensures 0 < p.maxSegment <= MAX_SEGMENT && !r.Refused? && acquired ==>
      (r.Started? <==> CanStart(p, isWrite, t.source.broken, |t.source.data| - old(t.source.pos), queued))
    ensures r.Refused? || r.NoNumber? ==> s.State() == old(s.State())
    ensures r.Refused? || r.NoNumber? ==> command == None && t.wire == old(t.wire) && t.source.pos == old(t.source.pos)
    ensures r.Failed? ==> s.State() == FailOf(BeginOf(old(s.State()), lun), TagOf(old(s.router.nextITT)))
    ensures r.Started? ==> r.itt == TagOf(old(s.router.nextITT))
    ensures r.Started? ==> s.State() == ServeOf(BeginOf(old(s.State()), lun), r.itt)
    ensures r.Failed? || r.Started? ==>
      Sent(isWrite, p, t.source.data, t.source.broken, TagOf(old(s.router.nextITT)), old(t.source.pos), queued,
           command, old(t.wire), t.wire, t.bytesSent, if r.Failed? then Some(r.error) else None)
  {
    var ok := s.Admit();
    if !ok {
      return Refused, None;
    }
    if !acquired {
      return NoNumber, None;
    }
    var itt, error;
    itt, command, error := BeginAndOpen(s, t, lun, isWrite, p, queued);
    r := if error == None then Started(itt) else Failed(error.value);
  }

  /**
   * What that is, on the PDUs themselves. A read sends its command, without data, exactly if that
   * is queued. A write sends nothing before its command; behind that go PDUs under the tag that
   * go on where the command's data end, and all together are the source's next bytes.
   */
  lemma SubmissionSends(isWrite: bool, p: Limits, data: bytes, broken: bool, itt: u32, pos: nat, queued: bool,
                        command: Option<bytes>, was: seq<DataOutPdu>, now: seq<DataOutPdu>, bytesSent: u32,
                        error: Option<WriteError>)
    requires pos <= |data| && 0 < p.maxSegment <= MAX_SEGMENT
    requires Sent(isWrite, p, data, broken, itt, pos, queued, command, was, now, bytesSent, error)
    ensures was <= now && (command == None ==> now == was)
    ensures !isWrite ==> now == was && (command == Some([]) <==> queued) && (command.Some? ==> command.value == [])
    ensures isWrite ==> (command.Some? <==> queued && ImmediateCanBeRead(p, broken, |data| - pos))
    ensures isWrite && command.Some? ==>
      && Opens(p, itt, command.value, now[|was|..], data[pos..])
      && |command.value| == Min(if p.immediateData then Min(p.firstBurst, p.maxSegment) else 0, |data| - pos)
      && bytesSent == |command.value| + |PayloadOf(now[|was|..])|
  {
    if isWrite {
      var o := OpeningOf(p, data, broken, itt, pos);
      OpeningOpens(p, data, broken, itt, pos);
      ImmediateReadIff(p, broken, |data| - pos);
      CommandSent(p, data, broken, itt, pos);
      assert was + [] == was;
      assert now[|was|..] == OpeningIf(queued, o).burst;
    }
  }

  lemma CommandSent(p: Limits, data: bytes, broken: bool, itt: u32, pos: nat)
    requires pos <= |data| && 0 < p.maxSegment <= MAX_SEGMENT
    ensures var o, n := OpeningOf(p, data, broken, itt, pos), Min(ImmediateLen(p), |data| - pos);
      && (o.command.Some? <==> Usable(StatusOf(ImmediateLen(p), n, broken)))
      && (o.command.Some? ==> |o.command.value| == n && o.bytesSent == n + |PayloadOf(o.burst)|)
  {
    var n := Min(ImmediateLen(p), |data| - pos);
    OpeningCases(p, data, broken, itt, pos, n);
    if n <= MAX_SEGMENT {
      RestSent(p, data, broken, itt, pos + n, n);
    }
  }

  lemma RestSent(p: Limits, data: bytes, broken: bool, itt: u32, pos: nat, n: nat)
    requires n <= pos <= |data| && n <= p.firstBurst && n <= MAX_SEGMENT && p.maxSegment > 0
    ensures var o := AfterImmediate(p, data, broken, itt, pos, n);
      o.command.Some? && |o.command.value| == n && o.bytesSent == n + |PayloadOf(o.burst)|
  {
    if !p.initialR2T {
      var j := UnsolicitedJob(p, data, broken, itt, n);
      BurstIsWellFormed(j, pos);
      assert |j.data[pos..pos + EndOf(j, |data| - pos).sent]| == EndOf(j, |data| - pos).sent;
    }
  }

  /** A submission that fails leaves no trace but the tag and the id that it has used up. */
  lemma FailureLeavesNoTrace(s: Sess, lun: nat)
    requires SessionRuns.Inv(s) && Possible(s, Begin(lun))
    ensures var s' := FailOf(BeginOf(s, lun), TagOf(s.t.nextITT));
      && s'.tasks == s.tasks && s'.t.pending == s.t.pending && s'.opening == s.opening && s'.loops == s.loops
      && s'.cancelled == s.cancelled && s'.ended == s.ended + {s.nextId} && s'.nextId == s.nextId + 1
      && s'.t.nextITT == AfterTag(s.t.nextITT)
  {
    var itt := TagOf(s.t.nextITT);
    assert itt !in SessionRuns.PersistentTags(s.t);
  }
}
