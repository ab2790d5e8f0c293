/** A streaming task and its reader together: the chunks, the end, and what follows it. */
module Streaming {
  import opened Prelude
  import opened DataIn
  import R = Reassembly
  import C = ChanReader

  /** What the producer managed to do to the reader in a run, in order. */
  function Produced(depth: nat, ops: seq<C.Op<TaskError>>): seq<StreamEvent> {
    if ops == [] then []
    else
      var front, last := ops[..|ops| - 1], ops[|ops| - 1];
      Produced(depth, front) +
      match last
      case Send(chunk) => if C.CanSend(C.Run(C.Start<TaskError>(depth), front).r) then [Chunk(chunk)] else []
      case Close(None) => [EndOfStream]
      case Close(Some(e)) => [Broken(e)]
      case Read(_) => []
  }

  function ChunkData(events: seq<StreamEvent>): seq<bytes> {
    if events == [] then []
    else
      var last := events[|events| - 1];
      ChunkData(events[..|events| - 1]) + if last.Chunk? then [last.data] else []
  }

  lemma {:induction false} ProducedIsSent(depth: nat, ops: seq<C.Op<TaskError>>)
    ensures C.Run(C.Start<TaskError>(depth), ops).sent == ChunkData(Produced(depth, ops))
  {
    if ops != [] {
      var n := |ops| - 1;
      ProducedIsSent(depth, ops[..n]);
      var p, q := Produced(depth, ops[..n]), Produced(depth, ops);
      if q != p + [] {
        assert |q| == |p| + 1 && q[..|q| - 1] == p;
      } else {
        assert q == p;
      }
    }
  }

  /** The first terminal event among the producer's. */
  function Ending(events: seq<StreamEvent>): Option<StreamEvent> {
    if events == [] then None
    else
      var f := Ending(events[..|events| - 1]);
      if f.Some? then f
      else if events[|events| - 1].Chunk? then None else Some(events[|events| - 1])
  }

  function AsEvent(err: Option<TaskError>): StreamEvent {
    match err
    case None => EndOfStream
    case Some(e) => Broken(e)
  }

  lemma {:induction false} ProducedEnding(depth: nat, ops: seq<C.Op<TaskError>>)
    ensures var f := C.FirstClose(ops);
      Ending(Produced(depth, ops)) == if f.Some? then Some(AsEvent(f.value)) else None
  {
    if ops != [] {
      var n := |ops| - 1;
      ProducedEnding(depth, ops[..n]);
      var p, q := Produced(depth, ops[..n]), Produced(depth, ops);
      if q != p + [] {
        assert |q| == |p| + 1 && q[..|q| - 1] == p;
      } else {
        assert q == p;
      }
    }
  }

  lemma {:induction false} ChunksOfStream(pdus: seq<DataInPdu>, p: nat)
    requires p <= |pdus|
    ensures Flatten(ChunkData(R.Chunks(pdus, p))) == R.Payload(pdus, p)
    ensures Ending(R.Chunks(pdus, p)) == None
  {
    if p > 0 {
      ChunksOfStream(pdus, p - 1);
      var front, data := R.Chunks(pdus, p - 1), pdus[p - 1].data;
      if data != [] {
        assert (front + [Chunk(data)])[..|front|] == front;
        FlattenSnoc(ChunkData(front), data);
      }
    }
  }

  lemma EndOfChunks(pdus: seq<DataInPdu>)
    ensures var s := R.Chunks(pdus, |pdus|) + [EndOfStream];
      Flatten(ChunkData(s)) == R.Payload(pdus, |pdus|) && Ending(s) == Some(EndOfStream)
  {
    ChunksOfStream(pdus, |pdus|);
    var front := R.Chunks(pdus, |pdus|);
    assert (front + [EndOfStream])[..|front|] == front;
    assert ChunkData(front) + [] == ChunkData(front);
  }

  // ---- Chunks for a reader that is closed ---------------------------------------------------

  /** A chunk is sent to a reader that has been closed; in Go that send panics. */
  ghost predicate SendsAfterClose(events: seq<StreamEvent>) {
    exists j | 0 <= j < |events| :: events[j].Chunk? && Ending(events[..j]) != None
  }

  lemma SendsSnoc(events: seq<StreamEvent>, e: StreamEvent)
    ensures Ending(events + [e]) == if Ending(events).Some? || e.Chunk? then Ending(events) else Some(e)
    ensures SendsAfterClose(events + [e]) <==> SendsAfterClose(events) || (e.Chunk? && Ending(events) != None)
  {
    var all := events + [e];
    assert all[..|events|] == events;
    assert forall j | 0 <= j < |events| :: all[..j] == events[..j] && all[j] == events[j];
    if SendsAfterClose(all) {
      var j :| 0 <= j < |all| && all[j].Chunk? && Ending(all[..j]) != None;
      assert j < |events| ==> events[j].Chunk? && Ending(events[..j]) != None;
    }
    if SendsAfterClose(events) {
      var j :| 0 <= j < |events| && events[j].Chunk? && Ending(events[..j]) != None;
      assert all[j].Chunk? && Ending(all[..j]) != None;
    }
    if e.Chunk? && Ending(events) != None {
      assert all[|events|].Chunk? && Ending(all[..|events|]) != None;
    }
  }

  /** Chunks only, so far. */
  ghost predicate Sound(events: seq<StreamEvent>) {
    Ending(events) == None && !SendsAfterClose(events)
  }

  lemma SoundSnoc(events: seq<StreamEvent>, data: bytes)
    requires Sound(events)
    ensures Sound(events + [Chunk(data)])
  {
    SendsSnoc(events, Chunk(data));
  }

  lemma NothingIsSound()
    ensures Sound([])
  {
  }

  lemma {:induction false} ChunksAreSound(pdus: seq<DataInPdu>, p: nat)
    requires p <= |pdus|
    ensures Sound(R.Chunks(pdus, p))
    decreases p
  {
    if p == 0 {
      NothingIsSound();
    } else {
      ChunksAreSound(pdus, p - 1);
      SoundSnoc(R.Chunks(pdus, p - 1), pdus[p - 1].data);
    }
  }

  /** A task that has not failed has closed its reader at the end only. */
  lemma NothingFollowsTheEnd(pdus: seq<DataInPdu>, have: set<u32>, t: TaskState)
    requires R.Inv(pdus, have, t) && t.streaming
    ensures !SendsAfterClose(t.stream) && (t.nextDataSN < |pdus| ==> Ending(t.stream) == None)
  {
    ChunksAreSound(pdus, t.nextDataSN);
    SendsSnoc(R.Chunks(pdus, t.nextDataSN), EndOfStream);
  }
}
