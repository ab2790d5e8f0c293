/**
 * From the target's Data-In PDUs to the Result: marshalled, stamped, framed and written
 * among whatever else the target sends, read back, told apart by their tags, decoded, and
 * put together.
 */
module EndToEnd {
  import opened Prelude
  import opened Framer
  import opened Framing
  import opened Router
  import opened RouterRuns
  import opened Pump
  import Bhs
  import DataIn
  import Reassembly
  import TaskLoop
  import Delivery

  /** What a Data-In PDU carries besides the fields that reassembly uses. */
  datatype Extras = Extras(final: bool, lun: bytes, statSN: u32, expCmdSN: u32, maxCmdSN: u32)

  function HeaderFor(itt: u32, din: DataIn.DataInPdu, x: Extras): Bhs.Pdu {
    Bhs.DataIn(Bhs.Header(false, x.final, 0, |din.data|, x.lun, itt),
               din.acknowledge, din.overflow, din.underflow, din.hasStatus, din.status, din.targetTransferTag,
               x.statSN, x.expCmdSN, x.maxCmdSN, din.dataSN, din.bufferOffset, din.residualCount)
  }

  /** The PDU as the target puts it on the wire. */
  function OnWire(itt: u32, din: DataIn.DataInPdu, x: Extras): RawPdu
    requires |din.data| <= MAX_SEGMENT && |x.lun| == 8
  {
    RawPdu(Bhs.Encode(HeaderFor(itt, din, x)).value, [], din.data, None, None)
  }

  /** The PDU as the task loop decodes it. None for any other kind of PDU. */
  function Received(raw: RawPdu): Option<DataIn.DataInPdu>
    requires |raw.bhs| == BHS_LENGTH
  {
    var p := Bhs.Decode(raw.bhs);
    if p.Some? && p.value.DataIn? then
      var q := p.value;
      Some(DataIn.DataInPdu(q.dataSN, q.bufferOffset, raw.data, q.acknowledge, q.ttt,
                            q.hasStatus, q.status, q.overflow, q.underflow, q.residualCount))
    else None
  }

  /** What goes on the wire under a tag is well formed, is found by that tag, and is decoded as what it was. */
  lemma WireKeepsDataIn(itt: u32, din: DataIn.DataInPdu, x: Extras)
    requires |din.data| <= MAX_SEGMENT && |x.lun| == 8
    ensures Plain(OnWire(itt, din, x)) && IttOf(OnWire(itt, din, x)) == itt
    ensures Received(OnWire(itt, din, x)) == Some(din)
  {
    var p := HeaderFor(itt, din, x);
    Bhs.DecodeInvertsEncodeIff(p);
    Bhs.FieldsInvertBytes(Bhs.ToRaw(p));
  }

  /** The PDUs decode, in order, to the given ones. */
  ghost predicate Carries(ps: seq<RawPdu>, dins: seq<DataIn.DataInPdu>) {
    |ps| == |dins| && forall i | 0 <= i < |ps| :: |ps[i].bhs| == BHS_LENGTH && Received(ps[i]) == Some(dins[i])
  }

  lemma StampKeepsContents(d: Digests, crc: Checksum, p: RawPdu)
    requires WellFormed(p)
    ensures var q := Stamped(d, crc, p);
      WellFormed(q) && IttOf(q) == IttOf(p) && Received(q) == Received(p)
  {
  }

  lemma {:induction false} StampedSnoc(d: Digests, crc: Checksum, ps: seq<RawPdu>, p: RawPdu)
    ensures StampedAll(d, crc, ps + [p]) == StampedAll(d, crc, ps) + [Stamped(d, crc, p)]
    decreases |ps|
  {
    if ps == [] {
      assert [] + [p] == [p] && [p][1..] == [];
    } else {
      assert (ps + [p])[1..] == ps[1..] + [p];
      StampedSnoc(d, crc, ps[1..], p);
    }
  }

  lemma CarriesSnoc(ps: seq<RawPdu>, dins: seq<DataIn.DataInPdu>, p: RawPdu)
    ensures Carries(ps + [p], dins) <==>
      dins != [] && |p.bhs| == BHS_LENGTH && Received(p) == Some(dins[|dins| - 1]) && Carries(ps, dins[..|dins| - 1])
  {
    if Carries(ps + [p], dins) {
      assert (ps + [p])[|ps|] == p;
      assert forall i | 0 <= i < |ps| :: ps[i] == (ps + [p])[i];
    }
  }

  /** Stamping changes nothing in what a task finds under its tag. */
  lemma {:induction false} StampedStreamCarries(d: Digests, crc: Checksum, ps: seq<RawPdu>, itt: u32,
                                                dins: seq<DataIn.DataInPdu>)
    requires forall p | p in ps :: WellFormed(p)
    requires Carries(Project(Arrivals(ps), itt), dins)
    ensures forall p | p in StampedAll(d, crc, ps) :: WellFormed(p)
    ensures Carries(Project(Arrivals(StampedAll(d, crc, ps)), itt), dins)
    decreases |ps|
  {
    if ps != [] {
      var init, p := ps[..|ps| - 1], ps[|ps| - 1];
      var q := Stamped(d, crc, p);
      assert ps == init + [p];
      StampedSnoc(d, crc, init, p);
      StampKeepsContents(d, crc, p);
      ArrivalsSnoc(init, p, itt);
      if IttOf(p) == RESERVED || IttOf(p) != itt {
        StampedStreamCarries(d, crc, init, itt, dins);
      } else {
        CarriesSnoc(Project(Arrivals(init), itt), dins, p);
        StampedStreamCarries(d, crc, init, itt, dins[..|dins| - 1]);
        CarriesSnoc(Project(Arrivals(StampedAll(d, crc, init)), itt), dins, q);
      }
      ArrivalsSnoc(StampedAll(d, crc, init), q, itt);
    }
  }

  lemma ArrivalsSnoc(ps: seq<RawPdu>, p: RawPdu, itt: u32)
    requires WellFormed(p) && forall q | q in ps :: WellFormed(q)
    ensures Project(Arrivals(ps + [p]), itt)
            == Project(Arrivals(ps), itt) + if IttOf(p) != RESERVED && IttOf(p) == itt then [p] else []
  {
    assert (ps + [p])[..|ps|] == ps;
    assert Arrivals(ps) + [] == Arrivals(ps) && Project(Arrivals(ps), itt) + [] == Project(Arrivals(ps), itt);
    if IttOf(p) != RESERVED {
      ProjectSnoc(Arrivals(ps), Arrival(IttOf(p), p), itt);
    }
  }

  function DinsOf(arrivals: seq<Reassembly.Arrival>): (dins: seq<DataIn.DataInPdu>)
    ensures |dins| == |arrivals|
  {
    seq(|arrivals|, i requires 0 <= i < |arrivals| => arrivals[i].din)
  }

  // ---- What a channel's reader gets ---------------------------------------------------------

  lemma {:induction false} ProjectPrefix<T>(log: seq<Arrival<T>>, n: nat, itt: u32)
    requires n <= |log|
    ensures Project(log[..n], itt) <= Project(log, itt)
    decreases |log|
  {
    if n == |log| {
      assert log[..n] == log;
    } else {
      var init := log[..|log| - 1];
      ProjectPrefix(init, n, itt);
      assert init[..n] == log[..n];
    }
  }

  lemma {:induction false} ProjectConcat<T>(a: seq<Arrival<T>>, b: seq<Arrival<T>>, itt: u32)
    ensures Project(a + b, itt) == Project(a, itt) + Project(b, itt)
    decreases |b|
  {
    if b == [] {
      assert a + b == a && Project(a, itt) + [] == Project(a, itt);
    } else {
      var init := b[..|b| - 1];
      assert (a + b)[..|a + b| - 1] == a + init;
      ProjectConcat(a, init, itt);
    }
  }

  lemma {:induction false} ArrivalsPrefix(ps: seq<RawPdu>, n: nat, itt: u32)
    requires n <= |ps| && forall p | p in ps :: WellFormed(p)
    ensures Project(Arrivals(ps[..n]), itt) <= Project(Arrivals(ps), itt)
    decreases |ps|
  {
    if n == |ps| {
      assert ps[..n] == ps;
    } else {
      var init := ps[..|ps| - 1];
      ArrivalsPrefix(init, n, itt);
      assert init[..n] == ps[..n] && ps == init + [ps[|ps| - 1]];
      ArrivalsSnoc(init, ps[|ps| - 1], itt);
    }
  }

  /** Fewer reads of the same stream give the first of the same PDUs. */
  lemma {:induction false} ReadManyPrefix(d: Digests, crc: Checksum, input: bytes, broken: bool, n: nat, m: nat)
    requires n <= m && |ReadMany(d, crc, input, broken, n).0| == n && |ReadMany(d, crc, input, broken, m).0| == m
    ensures ReadMany(d, crc, input, broken, n).0 == ReadMany(d, crc, input, broken, m).0[..n]
    decreases n
  {
    if n > 0 {
      var o := ReadOf(d, crc, input, broken);
      var more := ReadMany(d, crc, input[o.taken..], broken, m - 1).0;
      ReadManyPrefix(d, crc, input[o.taken..], broken, n - 1, m - 1);
      assert ([o.result.pdu] + more)[..n] == [o.result.pdu] + more[..n - 1];
    }
  }

  /** What has been read off the stream of some PDUs are the first of them, stamped. */
  lemma ReadIsPrefix(d: Digests, crc: Checksum, mix: seq<RawPdu>, rest: bytes, broken: bool, ps: seq<RawPdu>,
                     left: bytes)
    requires forall p | p in mix :: Plain(p)
    requires ReadSoFar(d, crc, Stream(d, crc, mix) + rest, broken, ps, left) && |ps| <= |mix|
    ensures ps <= StampedAll(d, crc, mix)
  {
    StreamRoundTrip(d, crc, mix, rest, broken);
    StampedLength(d, crc, mix);
    ReadManyPrefix(d, crc, Stream(d, crc, mix) + rest, broken, |ps|, |mix|);
  }

  /** The channel was made for the tag, and nothing had come in for it when the log ended. */
  ghost predicate OpenedFor(w: World<RawPdu>, ch: nat, itt: u32, log: seq<Arrival<RawPdu>>) {
    && ch < |w.t.chans| == |w.from|
    && w.t.chans[ch].itt == itt && w.from[ch] <= |log| && Project(log[w.from[ch]..], itt) == []
  }

  /** What a channel was given is the front of all that came in under its tag since it was made. */
  lemma ContentsArePrefix(w: World<RawPdu>, ch: nat)
    requires Inv(w) && ch < |w.t.chans|
    ensures w.from[ch] <= |w.log| && Contents(w.t, ch) <= Project(w.log[w.from[ch]..], w.t.chans[ch].itt)
  {
    assert ChanInv(w, ch);
    var from, end := w.from[ch], RouterRuns.EndOf(w, ch);
    assert w.log[from..end] == w.log[from..][..end - from];
    ProjectPrefix(w.log[from..], end - from, w.t.chans[ch].itt);
  }

  lemma ProjectSince(log: seq<Arrival<RawPdu>>, came: seq<Arrival<RawPdu>>, from: nat, itt: u32)
    requires from <= |log| && Project(log[from..], itt) == []
    ensures Project((log + came)[from..], itt) == Project(came, itt)
  {
    assert (log + came)[from..] == log[from..] + came;
    ProjectConcat(log[from..], came, itt);
    assert [] + Project(came, itt) == Project(came, itt);
  }

  /** Whatever its reader has taken by now are the first of the arrivals under its tag. */
  lemma TakenIsPrefix(w: World<RawPdu>, ch: nat, itt: u32, log: seq<Arrival<RawPdu>>, came: seq<Arrival<RawPdu>>)
    requires Inv(w) && OpenedFor(w, ch, itt, log) && w.log == log + came
    ensures w.t.chans[ch].taken <= Project(came, itt)
  {
    ContentsArePrefix(w, ch);
    ProjectSince(log, came, w.from[ch], itt);
    TakenComesFirst(w.t, ch);
  }

  lemma TakenComesFirst(t: Table<RawPdu>, ch: nat)
    requires Wired(t) && ch < |t.chans|
    ensures t.chans[ch].taken <= Contents(t, ch)
  {
  }

  lemma CarriesPrefix(qs: seq<RawPdu>, ps: seq<RawPdu>, arrivals: seq<Reassembly.Arrival>)
    requires qs <= ps && Carries(ps, DinsOf(arrivals))
    ensures |qs| <= |arrivals| && Carries(qs, DinsOf(arrivals[..|qs|]))
  {
  }

  /** What the reader of the channel has taken are the first of the stream's PDUs, as the target sent them. */
  lemma TakenCarries(d: Digests, crc: Checksum, mix: seq<RawPdu>, rest: bytes, broken: bool, itt: u32,
                     arrivals: seq<Reassembly.Arrival>, w: World<RawPdu>, log: seq<Arrival<RawPdu>>, ps: seq<RawPdu>,
                     left: bytes, ch: nat)
    returns (taken: seq<RawPdu>)
    requires forall p | p in mix :: WellFormed(p) && Plain(p)
    requires Carries(Project(Arrivals(mix), itt), DinsOf(arrivals))
    requires (forall p | p in ps :: WellFormed(p)) && w.log == log + Arrivals(ps)
    requires Inv(w) && OpenedFor(w, ch, itt, log)
    requires ReadSoFar(d, crc, Stream(d, crc, mix) + rest, broken, ps, left) && |ps| <= |mix|
    ensures taken == w.t.chans[ch].taken && |taken| <= |arrivals| && Carries(taken, DinsOf(arrivals[..|taken|]))
  {
    taken := w.t.chans[ch].taken;
    var stamped := StampedAll(d, crc, mix);
    TakenIsPrefix(w, ch, itt, log, Arrivals(ps));
    ReadIsPrefix(d, crc, mix, rest, broken, ps, left);
    StampedStreamCarries(d, crc, mix, itt, DinsOf(arrivals));
    ArrivalsPrefix(stamped, |ps|, itt);
    assert stamped[..|ps|] == ps;
    CarriesPrefix(taken, Project(Arrivals(stamped), itt), arrivals);
  }

  /**
   * A read from end to end. The target sends the PDUs of a conforming stream, in any order
   * and as often as it likes, mixed with any PDUs for others, all stamped and back to back;
   * other bytes may follow. At any time after the pump has handed over `ps` since it found
   * the router's log as `log`: what the reader of the task's channel has taken decodes to
   * the first of that stream's PDUs in the order sent; and the task loop, fed with them at
   * any level, delivers the one Result with the stream's bytes in their order exactly if up to
   * the S-bit they are the whole stream, and else an error first, or nothing.
   */
  lemma ReadReachesCaller(d: Digests, crc: Checksum, mix: seq<RawPdu>, rest: bytes, broken: bool, itt: u32,
                          pdus: seq<DataIn.DataInPdu>, arrivals: seq<Reassembly.Arrival>, t: DataIn.TaskState,
                          pump: Pump, log: seq<Arrival<RawPdu>>, unasked: seq<RawPdu>, ps: seq<RawPdu>, left: bytes,
                          ch: nat)
    requires forall p | p in mix :: WellFormed(p) && Plain(p)
    requires Carries(Project(Arrivals(mix), itt), DinsOf(arrivals))
    requires Reassembly.Conforming(pdus) && Reassembly.Copies(pdus, arrivals)
    requires t == DataIn.NewTask(itt, t.erl, true, t.streaming)
    requires pump.Valid() && pump.HandedOver(log, unasked, ps) && OpenedFor(pump.world, ch, itt, log)
    requires ReadSoFar(d, crc, Stream(d, crc, mix) + rest, broken, ps, left) && |ps| <= |mix|
    ensures var taken := pump.router.State().chans[ch].taken;
      && |taken| <= |arrivals|
      && var fed, whole := arrivals[..|taken|], [Reassembly.ResultOf(pdus, t.streaming)];
      && Carries(taken, DinsOf(fed))
      && var results := TaskLoop.Loop(t, TaskLoop.Feed(fed)).results;
      && (results == whole <==> Delivery.ArrivesWhole(pdus, t.erl, TaskLoop.Seen(fed)))
      && (results == whole || results == [] || results[0].Failed?)
    ensures !t.streaming ==>
      Reassembly.ResultOf(pdus, t.streaming).data == Some(Reassembly.Payload(pdus, |pdus|))
  {
    var taken := TakenCarries(d, crc, mix, rest, broken, itt, arrivals, pump.world, log, ps, left, ch);
    Delivery.DeliversIff(pdus, t, arrivals[..|taken|]);
  }

  // ---- Residuals ---------------------------------------------------------------------------

  /** The second byte of a Data-In PDU says that fewer bytes were transferred than expected (section 11.7). */
  predicate ReportsUnderflow(raw: RawPdu)
    requires |raw.bhs| == BHS_LENGTH
  {
    Bhs.Bit(raw.bhs[1], 0x02)
  }

  predicate ReportsOverflow(raw: RawPdu)
    requires |raw.bhs| == BHS_LENGTH
  {
    Bhs.Bit(raw.bhs[1], 0x04)
  }

  /**
   * What a caller is told about the residual. When the last PDU of a read comes in, with
   * its reserved bits zero, the Result has the target's overflow, its count and its status,
   * but it has the target's underflow if and only if there was none.
   */
  lemma ResidualReachesCallerIff(raw: RawPdu, din: DataIn.DataInPdu, t: DataIn.TaskState, env: DataIn.Env)
    requires |raw.bhs| == BHS_LENGTH && Received(raw) == Some(din) && Bhs.ReservedBitsZero(raw.bhs[1])
    requires din.hasStatus && din.dataSN == t.nextDataSN && din.bufferOffset == t.nextOffset
    requires t.pending == map[] && t.results == []
    ensures var r := DataIn.AfterDataIn(t, din, env).results;
      && |r| == 1 && r[0].Completed? && r[0].status == din.status && r[0].residualCount == din.residualCount
      && r[0].overflow == ReportsOverflow(raw)
      && (r[0].underflow == ReportsUnderflow(raw) <==> !ReportsUnderflow(raw))
  {
    Bhs.UnderflowIsReadIff(raw.bhs);
  }
}
