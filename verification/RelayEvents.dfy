// A relay direction told from its events alone: what was delivered and how much of it was taken.
module RelayEvents {
  import opened Relay

  /** The bytes that the source delivered. */
  function Delivered(events: seq<Event>): string {
    if events == [] then ""
    else
      var last := events[|events| - 1];
      Delivered(events[..|events| - 1]) + if last.ReadSome? then last.bytes else ""
  }

  /** How many bytes the destination took. */
  function Accepted(events: seq<Event>): nat {
    if events == [] then 0
    else
      var last := events[|events| - 1];
      Accepted(events[..|events| - 1]) + if last.Accept? then last.n else 0
  }

  lemma StepHistories(d: Direction, e: Event)
    requires Enabled(d, e)
    ensures Next(d, e).received == d.received + if e.ReadSome? then e.bytes else ""
    ensures |Next(d, e).sent| == |d.sent| + if e.Accept? then e.n else 0
  {
    if !e.ReadSome? {
      assert d.received + "" == d.received;
    }
  }

  /** In every run what has been sent is the first so many bytes that the source delivered, as many as
      the destination took. */
  lemma {:induction false} SentIsWhatWasTaken(d: Direction, events: seq<Event>)
    requires Started(d) && IsRun(d, events)
    ensures var t := After(d, events);
      && t.received == Delivered(events) && |t.sent| == Accepted(events)
      && Accepted(events) <= |Delivered(events)| && t.sent == Delivered(events)[..Accepted(events)]
    decreases |events|
  {
    if events != [] {
      SentIsWhatWasTaken(d, events[..|events| - 1]);
      StepHistories(After(d, events[..|events| - 1]), events[|events| - 1]);
    }
    RunKeepsInv(d, events);
  }

  /** A read in flight may end in any way, with any bytes that fit; a write in flight may take any part
      of what is left of it, may fail at any time, and is done when all is taken. */
  lemma AnyOutcome(d: Direction, bytes: string, n: nat)
    requires Ops(d) && |bytes| <= |d.buffer|
    ensures Enabled(d, ReadEnd) <==> d.pendingReads == 1
    ensures Enabled(d, ReadSome(bytes)) <==> d.pendingReads == 1
    ensures Enabled(d, WriteFail(0)) <==> |d.pendingWrites| == 1
    ensures |d.pendingWrites| == 1 ==>
      && (Enabled(d, Accept(0, n)) <==> n <= |Unsent(d)|)
      && (Enabled(d, WriteDone(0)) <==> |Unsent(d)| == 0)
  {}
}
