/**
 The control writer (internal/scrcpy/control_writer.go): any number of producers send to its
 queue while one goroutine drains it into the device's control socket.
 */
module ControlWriter {
  import opened Wrappers
  import opened Bytes
  import opened ControlCodec

  /** The commands of the messages that marshal; the others are dropped. */
  function Meant(ms: seq<ControlMsg>): seq<Command> {
    if ms == [] then [] else
    var r := Meaning(ms[|ms| - 1]);
    Meant(ms[..|ms| - 1]) + if r.Ok? then [r.value] else []
  }

  lemma {:induction false} MeantAllowed(ms: seq<ControlMsg>)
    ensures AllAllowed(Meant(ms))
    decreases |ms|
  {
    if ms != [] {
      MeantAllowed(ms[..|ms| - 1]);
    }
  }

  lemma {:induction false} WireAllSnoc(cs: seq<Command>, c: Command)
    ensures WireAll(cs + [c]) == WireAll(cs) + Wire(c)
    decreases |cs|
  {
    if cs == [] {
      assert [c][1..] == [] && [] + [c] == [c];
      assert WireAll([c]) == Wire(c) + [];
    } else {
      WireAllSnoc(cs[1..], c);
      assert (cs + [c])[1..] == cs[1..] + [c];
      Reassociate(Wire(cs[0]), WireAll(cs[1..]), Wire(c));
    }
  }

  lemma MeantSnoc(ms: seq<ControlMsg>, m: ControlMsg)
    ensures Meaning(m).Ok? ==> Meant(ms + [m]) == Meant(ms) + [Meaning(m).value]
    ensures Meaning(m).Err? ==> Meant(ms + [m]) == Meant(ms)
  {
  }

  /** Where the messages are that marshal. */
  function SoundAt(ms: seq<ControlMsg>): seq<nat> {
    if ms == [] then [] else
    var n := |ms| - 1;
    SoundAt(ms[..n]) + if Sound(ms[n]) then [n] else []
  }

  ghost predicate AllCarried(ms: seq<ControlMsg>, at: seq<nat>, cs: seq<Command>) {
    && |at| == |cs|
    && (forall i, j | 0 <= i < j < |at| :: at[i] < at[j])
    && forall k | 0 <= k < |at| :: at[k] < |ms| && Carries(ms[at[k]], cs[k])
  }

  /** The commands are those of the messages with a known type, its record, and no part too long, in
      the messages' order and one for each. */
  lemma {:induction false} MeantAreCarried(ms: seq<ControlMsg>)
    ensures AllCarried(ms, SoundAt(ms), Meant(ms))
    ensures forall j: nat :: j in SoundAt(ms) <==> j < |ms| && Sound(ms[j])
    decreases |ms|
  {
    if ms != [] {
      var n := |ms| - 1;
      MeantAreCarried(ms[..n]);
      MeaningErrors(ms[n]);
      MeaningCarries(ms[n]);
      if Sound(ms[n]) {
        CarriedMore(ms, SoundAt(ms[..n]), Meant(ms[..n]), Meaning(ms[n]).value);
      } else {
        CarriedStill(ms, SoundAt(ms[..n]), Meant(ms[..n]));
      }
    }
  }

  lemma CarriedStill(ms: seq<ControlMsg>, at: seq<nat>, cs: seq<Command>)
    requires ms != [] && AllCarried(ms[..|ms| - 1], at, cs)
    ensures AllCarried(ms, at + [], cs + [])
  {
    assert at + [] == at && cs + [] == cs;
    assert forall k | 0 <= k < |at| :: ms[..|ms| - 1][at[k]] == ms[at[k]];
  }

  lemma CarriedMore(ms: seq<ControlMsg>, at: seq<nat>, cs: seq<Command>, c: Command)
    requires ms != [] && AllCarried(ms[..|ms| - 1], at, cs) && Carries(ms[|ms| - 1], c)
    ensures AllCarried(ms, at + [|ms| - 1], cs + [c])
  {
    assert forall k | 0 <= k < |at| :: ms[..|ms| - 1][at[k]] == ms[at[k]];
  }

  class Writer {
    const size: nat
    var queue: seq<ControlMsg>
    var wire: seq<byte>                 // what the socket has taken
    var stopped: bool
    ghost var sent: seq<ControlMsg>     // every message a producer got into the queue
    ghost var done: nat                 // how many of them were written, or dropped as invalid
    ghost var cut: seq<byte>            // the written part of a message whose write failed

    /** The queue holds the messages after those done and after one that was lost to a failed write. */
    ghost predicate QueueOk()
      reads this
    {
      && |queue| <= size
      && done + (if stopped then 1 else 0) + |queue| == |sent|
      && queue == sent[|sent| - |queue|..]
    }

    ghost predicate WireOk()
      reads this
      requires done <= |sent|
    {
      && wire == WireAll(Meant(sent[..done])) + cut
      && (cut == [] || (stopped && Decode(cut) == None))
    }

    ghost predicate Valid()
      reads this
    {
      QueueOk() && WireOk()
    }

    constructor (bufferSize: int)
      ensures Valid() && sent == [] && !stopped && size == if bufferSize <= 0 then 64 else bufferSize
    {
      size := if bufferSize <= 0 then 64 else bufferSize;
      queue, wire, stopped := [], [], false;
      sent, done, cut := [], 0, [];
    }

    /** A producer's send; it has to wait while the queue is full. */
    method Send(m: ControlMsg) returns (ok: bool)
      requires Valid()
      modifies this`queue, this`sent
      ensures Valid() && ok == (|old(queue)| < size)
      ensures sent == old(sent) + (if ok then [m] else [])
    {
      ok := |queue| < size;
      if ok {
        assert (sent + [m])[..done] == sent[..done];
        queue, sent := queue + [m], sent + [m];
      }
    }

    /** Writes the wire form of c to the socket, which may fail after the first fault octets. */
    method WriteSocket(ghost cs: seq<Command>, ghost c: Command, w: seq<byte>, fault: Option<nat>)
      returns (err: bool, ghost part: seq<byte>)
      requires wire == WireAll(cs) && w == Wire(c) && Allowed(c)
      modifies this`wire
      ensures err ==> fault.Some? && wire == WireAll(cs) + part && Decode(part) == None
      ensures !err ==> part == [] && wire == WireAll(cs + [c])
    {
      if fault.Some? && fault.value < |w| {
        part := w[..fault.value];
        CutWireIsUnreadable(c, fault.value);
        wire := wire + w[..fault.value];
        return true, part;
      }
      WireAllSnoc(cs, c);
      wire := wire + w;
      return false, [];
    }

    /** Marshals m and writes it; a message that does not marshal is dropped. */
    method Handle(ghost ms: seq<ControlMsg>, m: ControlMsg, fault: Option<nat>)
      returns (err: bool, ghost part: seq<byte>)
      requires wire == WireAll(Meant(ms))
      modifies this`wire
      ensures err ==> fault.Some? && wire == WireAll(Meant(ms)) + part && Decode(part) == None
      ensures !err ==> part == [] && wire == WireAll(Meant(ms + [m]))
    {
      MeantSnoc(ms, m);
      var r := Marshal(m);
      if r.Err? {
        return false, [];
      }
      err, part := WriteSocket(Meant(ms), Meaning(m).value, r.value, fault);
    }

    /** One turn of the writer's loop. A socket that fails takes only the first fault octets. */
    method Turn(fault: Option<nat>) returns (err: bool)
      requires Valid() && !stopped && queue != []
      modifies this
      ensures Valid() && sent == old(sent) && queue == old(queue)[1..]
      ensures stopped == err && (err ==> fault.Some?)
      ensures done == old(done) + if err then 0 else 1
    {
      var m := queue[0];
      ghost var ms := sent[..done];
      assert sent[..done + 1] == ms + [m];
      assert wire == WireAll(Meant(ms));
      queue := queue[1..];
      ghost var part;
      err, part := Handle(ms, m, fault);
      stopped := err;
      cut := part;
      if !err {
        done := done + 1;
      }
    }

    /** At every moment the socket's octets decode to exactly the valid messages taken from the
        queue so far, in the order in which the producers queued them. */
    lemma {:induction false} StreamIsFaithful()
      requires Valid()
      ensures DecodeAll(wire) == (Meant(sent[..done]), cut)
      ensures AllCarried(sent[..done], SoundAt(sent[..done]), DecodeAll(wire).0)
      ensures !stopped ==> cut == [] && sent == sent[..done] + queue
    {
      CutStreamIsFaithful(sent[..done], cut);
    }
  }

  lemma NothingToRead()
    ensures Decode([]) == None
  {
  }

  lemma {:induction false} CutStreamDecodes(cs: seq<Command>, cut: seq<byte>)
    requires AllAllowed(cs) && (cut == [] || Decode(cut) == None)
    ensures DecodeAll(WireAll(cs) + cut) == (cs, cut)
  {
    NothingToRead();
    StreamDecodes(cs, cut);
  }

  lemma CutStreamIsFaithful(ms: seq<ControlMsg>, cut: seq<byte>)
    requires cut == [] || Decode(cut) == None
    ensures DecodeAll(WireAll(Meant(ms)) + cut) == (Meant(ms), cut)
    ensures AllCarried(ms, SoundAt(ms), Meant(ms))
  {
    MeantAllowed(ms);
    CutStreamDecodes(Meant(ms), cut);
    MeantAreCarried(ms);
  }
}
