// One direction of a byte relay: read some bytes into a fixed buffer, write them all, read again.
// Reading fills the buffer in place and writing takes bytes out of it, part by part, so nothing
// but the order of the operations keeps the bytes from being lost or mixed up.
module Relay {
  import opened Basics

  const MAX_LENGTH: nat := 4096

  /** A write in flight: the first `done` of the `length` bytes have been taken. */
  datatype Write = Write(length: nat, done: nat)

  datatype Direction = Direction(
    buffer: string,
    pendingReads: nat,
    pendingWrites: seq<Write>,
    failed: seq<Write>,        // writes that have ended in an error
    received: string,          // history: bytes read from the source
    sent: string)              // history: bytes taken by the destination

  datatype Event =
    | ReadSome(bytes: string)
    | ReadEnd                        // end of stream or an error
    | Accept(i: nat, n: nat)         // the destination takes n more bytes of the i-th write
    | WriteDone(i: nat)
    | WriteFail(i: nat)

  function Idle(buffer: string): Direction {
    Direction(buffer, 0, [], [], "", "")
  }

  // ----- the code

  function DoRead(d: Direction): Direction {
    d.(pendingReads := d.pendingReads + 1)
  }

  function DoWrite(d: Direction, length: nat): Direction {
    d.(pendingWrites := d.pendingWrites + [Write(length, 0)])
  }

  function Filled(buffer: string, bytes: string): string
    requires |bytes| <= |buffer|
  {
    bytes + buffer[|bytes|..]
  }

  predicate Enabled(d: Direction, e: Event) {
    match e
    case ReadSome(bytes) => d.pendingReads > 0 && |bytes| <= |d.buffer|
    case ReadEnd => d.pendingReads > 0
    case Accept(i, n) =>
      i < |d.pendingWrites| && d.pendingWrites[i].done + n <= d.pendingWrites[i].length <= |d.buffer|
    case WriteDone(i) => i < |d.pendingWrites| && d.pendingWrites[i].done == d.pendingWrites[i].length
    case WriteFail(i) => i < |d.pendingWrites|
  }

  function Next(d: Direction, e: Event): Direction
    requires Enabled(d, e)
  {
    match e
    case ReadSome(bytes) =>
      DoWrite(d.(pendingReads := d.pendingReads - 1, buffer := Filled(d.buffer, bytes),
                 received := d.received + bytes), |bytes|)
    case ReadEnd => d.(pendingReads := d.pendingReads - 1)
    case Accept(i, n) =>
      var w := d.pendingWrites[i];
      d.(sent := d.sent + d.buffer[w.done..w.done + n],
         pendingWrites := d.pendingWrites[i := Write(w.length, w.done + n)])
    case WriteDone(i) => DoRead(d.(pendingWrites := Without(d.pendingWrites, i)))
    case WriteFail(i) =>
      d.(pendingWrites := Without(d.pendingWrites, i), failed := d.failed + [d.pendingWrites[i]])
  }

  predicate IsRun(d: Direction, events: seq<Event>)
    decreases |events|, 0
  {
    events == [] ||
    (IsRun(d, events[..|events| - 1]) && Enabled(After(d, events[..|events| - 1]), events[|events| - 1]))
  }

  function After(d: Direction, events: seq<Event>): Direction
    requires IsRun(d, events)
    decreases |events|, 1
  {
    if events == [] then d else Next(After(d, events[..|events| - 1]), events[|events| - 1])
  }

  // ----- conservation

  /** The bytes of a write that have not been taken. */
  function Rest(buffer: string, w: Write): string
    requires w.done <= w.length <= |buffer|
  {
    buffer[w.done..w.length]
  }

  /** At most one write, and it fits a buffer of this size. */
  predicate Fits(writes: seq<Write>, size: nat) {
    |writes| <= 1 && (|writes| == 1 ==> writes[0].done <= writes[0].length <= size)
  }

  /** One operation in flight, or the direction has ended. */
  predicate Ops(d: Direction) {
    && d.pendingReads + |d.pendingWrites| + |d.failed| <= 1
    && Fits(d.pendingWrites, |d.buffer|) && Fits(d.failed, |d.buffer|)
  }

  /** What has been read and not yet sent. */
  function Unsent(d: Direction): string
    requires Ops(d)
  {
    if |d.pendingWrites| == 1 then Rest(d.buffer, d.pendingWrites[0])
    else if |d.failed| == 1 then Rest(d.buffer, d.failed[0])
    else ""
  }

  ghost predicate Inv(d: Direction) {
    Ops(d) && d.sent + Unsent(d) == d.received
  }

  lemma WholeRest(buffer: string, length: nat)
    requires length <= |buffer|
    ensures Rest(buffer, Write(length, 0)) == buffer[..length]
    ensures Rest(buffer, Write(length, length)) == ""
  {}

  lemma RestStep(buffer: string, w: Write, n: nat)
    requires w.done + n <= w.length <= |buffer|
    ensures Rest(buffer, w) == buffer[w.done..w.done + n] + Rest(buffer, Write(w.length, w.done + n))
  {}

  /** Bytes that are taken move from the unsent part to what was sent. */
  lemma TakenMoves(sent: string, buffer: string, w: Write, n: nat)
    requires w.done + n <= w.length <= |buffer|
    ensures sent + Rest(buffer, w)
         == sent + buffer[w.done..w.done + n] + Rest(buffer, Write(w.length, w.done + n))
  {
    RestStep(buffer, w, n);
    Regroup(sent, buffer[w.done..w.done + n], Rest(buffer, Write(w.length, w.done + n)));
  }

  lemma FilledFront(buffer: string, bytes: string)
    requires |bytes| <= |buffer|
    ensures Filled(buffer, bytes)[..|bytes|] == bytes && |Filled(buffer, bytes)| == |buffer|
  {}

  lemma StepOps(d: Direction, e: Event)
    requires Ops(d) && Enabled(d, e)
    ensures Ops(Next(d, e))
  {
    if e.ReadSome? {
      FilledFront(d.buffer, e.bytes);
    }
  }

  lemma ReadInv(d: Direction, bytes: string)
    requires Inv(d) && Enabled(d, ReadSome(bytes)) && Ops(Next(d, ReadSome(bytes)))
    ensures Inv(Next(d, ReadSome(bytes)))
  {
    FilledFront(d.buffer, bytes);
    WholeRest(Filled(d.buffer, bytes), |bytes|);
    assert Unsent(d) == "" && d.sent + "" == d.sent;
  }

  lemma AcceptInv(d: Direction, i: nat, n: nat)
    requires Inv(d) && Enabled(d, Accept(i, n)) && Ops(Next(d, Accept(i, n)))
    ensures Inv(Next(d, Accept(i, n)))
  {
    TakenMoves(d.sent, d.buffer, d.pendingWrites[i], n);
  }

  lemma StepKeepsInv(d: Direction, e: Event)
    requires Inv(d) && Enabled(d, e)
    ensures Inv(Next(d, e))
  {
    StepOps(d, e);
    match e
    case ReadSome(bytes) => ReadInv(d, bytes);
    case Accept(i, n) => AcceptInv(d, i, n);
    case WriteDone(i) => WholeRest(d.buffer, d.pendingWrites[i].length);
    case _ =>
  }

  lemma {:induction false} RunKeepsInv(d: Direction, events: seq<Event>)
    requires Inv(d) && IsRun(d, events)
    ensures Inv(After(d, events))
    ensures |After(d, events).buffer| == |d.buffer|
    decreases |events|
  {
    if events != [] {
      RunKeepsInv(d, events[..|events| - 1]);
      StepKeepsInv(After(d, events[..|events| - 1]), events[|events| - 1]);
    }
  }

  /** A direction that has just started its first read. */
  ghost predicate Started(d: Direction) {
    exists buffer :: |buffer| == MAX_LENGTH && d == DoRead(Idle(buffer))
  }

  /** The direction after some run. */
  ghost predicate Reached(t: Direction) {
    exists d, events :: Started(d) && IsRun(d, events) && t == After(d, events)
  }

  lemma ReachedInv(t: Direction)
    requires Reached(t)
    ensures Inv(t)
  {
    var d, events :| Started(d) && IsRun(d, events) && t == After(d, events);
    RunKeepsInv(d, events);
  }

  /** In every run, after every step: what was sent and the unsent part of the buffer are what was
      received; and the buffer is not written to while a write takes bytes from it. */
  lemma Conservation(t: Direction)
    requires Reached(t)
    ensures Inv(t) && t.sent + Unsent(t) == t.received
    ensures t.pendingWrites != [] ==> t.pendingReads == 0
  {
    ReachedInv(t);
  }

  predicate HasOneOp(d: Direction) {
    d.pendingReads + |d.pendingWrites| == 1
  }

  /** A direction goes on until it ends: every step but the end of reading and a failed write leaves
      exactly one operation in flight, and these two leave none. */
  lemma GoesOnUntilItEnds(d: Direction, e: Event)
    requires Inv(d) && HasOneOp(d) && Enabled(d, e)
    ensures HasOneOp(Next(d, e)) <==> !e.ReadEnd? && !e.WriteFail?
  {}

  lemma {:induction false} EndedForEver(d: Direction, events: seq<Event>)
    requires Inv(d) && d.pendingReads == 0 && d.pendingWrites == [] && IsRun(d, events)
    ensures events == []
    decreases |events|
  {
    if events != [] {
      EndedForEver(d, events[..|events| - 1]);
    }
  }

  lemma LossAtTheEnd(s: Direction, last: Event)
    requires Inv(s) && Enabled(s, last) && (last.ReadEnd? || last.WriteFail?)
    ensures var t := Next(s, last);
      && t.pendingReads == 0 && t.pendingWrites == []
      && (last.ReadEnd? ==> t.sent == t.received)
      && (last.WriteFail? ==>
            |t.failed| == 1 && (t.sent == t.received <==> t.failed[0].done == t.failed[0].length))
  {
    StepKeepsInv(s, last);
    var t := Next(s, last);
    assert |t.sent| + |Unsent(t)| == |t.received|;
  }

  /** When a direction ends, it has lost exactly what its failed write did not take: nothing if it
      ended by reading, for instance at the end of the stream; and nothing happens afterwards. */
  lemma EndsWithoutLoss(s: Direction, last: Event, more: seq<Event>)
    requires Reached(s) && Enabled(s, last) && (last.ReadEnd? || last.WriteFail?)
    requires IsRun(Next(s, last), more)
    ensures var t := Next(s, last);
      && (last.ReadEnd? ==> t.sent == t.received)
      && (last.WriteFail? ==>
            |t.failed| == 1 && (t.sent == t.received <==> t.failed[0].done == t.failed[0].length))
    ensures more == []
  {
    ReachedInv(s);
    LossAtTheEnd(s, last);
    StepKeepsInv(s, last);
    EndedForEver(Next(s, last), more);
  }
}
