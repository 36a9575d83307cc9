/**
 The receive fields of uart_obj_t and the functions that update them in place, proved against
 the interleaving model: each call is a run of it.
 */
module RxDriver {
  import opened Common
  import opened RxQueue
  import opened RxTheorems
  import Runs

  /** What a read can deliver without new input. Behind a stall that is nothing. */
  function Deliverable(s: State): seq<byte> {
    if Reachable(s) then s.rest + s.ring + Stashed(s) else []
  }

  /** An object state between calls, on the core that the handler runs on. */
  predicate AtRest(s: State) { s.holder == Nobody && s.isr == Quiet }

  /** From `s` to `t` bytes only moved from the front of what is deliverable to what was taken. */
  predicate Conserves(s: State, t: State) {
    Reachable(t) && t.isr == s.isr && t.fifo == s.fifo && t.taken + Deliverable(t) == s.taken + Deliverable(s)
  }

  lemma ReadConserves(s: State, k: nat)
    requires Shape(s) && s.holder.Reader? && s.isr == Quiet && Reachable(s)
    ensures Conserves(s, ReadStep(s, k))
  {
    ReadReachable(s, k);
    if s.holder.rpc == Copy { CopyFlow(s, k); } else { ReadFlow(s, k); }
    var t := ReadStep(s, k);
    FifoKept(s, k);
    assert Flow(s) == s.taken + Deliverable(s) + s.fifo;
    assert Flow(t) == t.taken + Deliverable(t) + s.fifo;
    CutSuffix(s.taken + Deliverable(s), t.taken + Deliverable(t), s.fifo);
  }

  lemma FifoKept(s: State, k: nat)
    requires s.holder.Reader?
    ensures ReadStep(s, k).fifo == s.fifo && ReadStep(s, k).isr == s.isr
  {
  }

  /** `t` is where some run from the installed state `s` leads. */
  ghost predicate Reached(s: State, t: State) {
    Installed(s) && Runs.Leads(Step, s, t)
  }

  lemma ReachedInv(s: State, t: State)
    requires Reached(s, t)
    ensures Inv(t)
  {
    var es: seq<Event> :| Runs.Run(Step, s, es) == t;
    assert Run(s, es) == t;
    InstalledInv(s);
    RunKeeps(s, es);
  }

  /** A reader's step continues the run and moves bytes only. */
  lemma ReaderStep(birth: State, s: State, k: nat)
    requires Reached(birth, s) && s.holder.Reader? && s.isr == Quiet && Reachable(s)
    ensures Reached(birth, ReadStep(s, k)) && Conserves(s, ReadStep(s, k))
  {
    ReachedInv(birth, s);
    Runs.LeadsOn(Step, birth, s, HolderStep(k));
    ReadConserves(s, k);
  }

  /** The stash goes back into the ring if it is wanted there and fits (uart.c:1067-1073 and
      1123-1130). */
  function Restashed(s: State): State {
    if s.full && Fits(s, |s.stash|) then
      s.(ring := s.ring + s.stash, buffered := s.buffered + |s.stash|, full := false)
    else s
  }

  /** From the return of an item back to the loop head (uart.c:1063-1077). */
  function Returned(s: State): State
    requires s.holder.Reader?
  {
    var t := Restashed(s.(reserved := 0, head := false, holder := Reader(Loop, s.holder.want, s.holder.buf)));
    if s.full && !t.full then t.(rxOn := true) else t
  }

  lemma ReturnedSteps(birth: State, s: State)
    requires Reached(birth, s) && s.holder.Reader? && s.holder.rpc == Return && s.isr == Quiet && Reachable(s)
    ensures Reached(birth, Returned(s)) && Conserves(s, Returned(s))
  {
    ReaderStep(birth, s, 0);
    var looked := ReadStep(s, 0);
    ReaderStep(birth, looked, 0);
    if s.full {
      var resend := ReadStep(looked, 0);
      ReaderStep(birth, resend, 0);
      if Fits(resend, |s.stash|) {
        ResentSteps(birth, ReadStep(resend, 0));
      }
    }
  }

  /** After the stash went back into the ring (uart.c:1070-1074). */
  lemma ResentSteps(birth: State, s: State)
    requires Reached(birth, s) && s.holder.Reader? && s.holder.rpc == Count && s.isr == Quiet && Reachable(s)
    ensures var t := s.(buffered := s.buffered + |s.stash|, full := false, rxOn := true,
                        holder := Reader(Loop, s.holder.want, s.holder.buf));
            Reached(birth, t) && Conserves(s, t)
  {
    ReaderStep(birth, s, 0);
    var counted := ReadStep(s, 0);
    ReaderStep(birth, counted, 0);
    var cleared := ReadStep(counted, 0);
    ReaderStep(birth, cleared, 0);
  }

  /** A call to uart_read_bytes at its loop head: `done` is copied and `want` bytes are to go. */
  predicate Reading(s0: State, s: State, want: nat, done: seq<byte>) {
    s.holder == Reader(Loop, want, done) && Conserves(s0, s) && s.taken == s0.taken + done && s.owed == s0.owed
  }

  /** One turn of the loop in uart_read_bytes (uart.c:1039-1077). */
  function Turned(s: State, k: nat): State
    requires s.holder.Reader? && (s.rest == [] ==> k <= |s.ring|)
  {
    var copied := CopyItem(if s.rest == [] then FetchItem(s, k) else Go(s, Copy));
    if copied.rest == [] then Returned(copied) else copied
  }

  lemma ConservesTrans(a: State, b: State, c: State)
    requires Conserves(a, b) && Conserves(b, c)
    ensures Conserves(a, c)
  {
  }

  lemma TurnReached(birth: State, s: State, k: nat)
    requires Reached(birth, s) && s.isr == Quiet && Reachable(s)
    requires s.holder.Reader? && s.holder.rpc == Loop && s.holder.want > 0
    requires if s.rest == [] then 1 <= k <= |s.ring| else true
    ensures Reached(birth, Turned(s, k)) && Conserves(s, Turned(s, k))
  {
    ReaderStep(birth, s, k);
    var s1 := ReadStep(s, k);
    ReaderStep(birth, s1, 0);
    var s2 := ReadStep(s1, 0);
    ConservesTrans(s, s1, s2);
    if s2.rest == [] {
      ReturnedSteps(birth, s2);
      ConservesTrans(s, s2, Returned(s2));
    }
  }

  /** What a turn copies. */
  function Chunk(s: State, k: nat): seq<byte>
    requires s.holder.Reader? && (s.rest == [] ==> k <= |s.ring|)
  {
    var item := if s.rest == [] then s.ring[..k] else s.rest;
    item[..Min(s.holder.want, |item|)]
  }

  lemma TurnCopies(s: State, k: nat)
    requires s.holder.Reader? && (s.rest == [] ==> k <= |s.ring|)
    ensures var t, moved := Turned(s, k), Chunk(s, k);
            t.taken == s.taken + moved && t.owed == s.owed &&
            t.holder == Reader(Loop, s.holder.want - |moved|, s.holder.buf + moved)
  {
  }

  lemma ReadingNext(s0: State, s: State, t: State, moved: seq<byte>)
    requires s.holder.Reader? && Reading(s0, s, s.holder.want, s.holder.buf) && |moved| <= s.holder.want
    requires Conserves(s, t) && t.taken == s.taken + moved && t.owed == s.owed
    requires t.holder == Reader(Loop, s.holder.want - |moved|, s.holder.buf + moved)
    ensures Reading(s0, t, s.holder.want - |moved|, s.holder.buf + moved)
  {
    ConservesTrans(s0, s, t);
    assert s0.taken + s.holder.buf + moved == s0.taken + (s.holder.buf + moved);
  }

  lemma TurnReads(birth: State, s0: State, s: State, k: nat)
    requires Reached(birth, s) && s.isr == Quiet && s.holder.Reader? && s.holder.want > 0
    requires Reading(s0, s, s.holder.want, s.holder.buf)
    requires if s.rest == [] then 1 <= k <= |s.ring| else true
    ensures var moved := Chunk(s, k);
            Reached(birth, Turned(s, k)) && 1 <= |moved| <= s.holder.want &&
            Reading(s0, Turned(s, k), s.holder.want - |moved|, s.holder.buf + moved)
  {
    TurnReached(birth, s, k);
    TurnCopies(s, k);
    ReadingNext(s0, s, Turned(s, k), Chunk(s, k));
  }

  /** Behind a stall there is nothing to turn the loop for. */
  lemma StalledIsEmpty(birth: State, s: State)
    requires Reached(birth, s) && !Reachable(s)
    ensures s.rest == [] && s.ring == []
  {
    ReachedInv(birth, s);
  }

  /** A call that began in `s0`, at its loop head; a stalled port lets it do nothing. */
  predicate CallSoFar(s0: State, s: State, want: nat, done: seq<byte>) {
    if Reachable(s0) then Reading(s0, s, want, done) else done == [] && s == s0
  }

  lemma CallTurns(birth: State, s0: State, s: State, k: nat)
    requires Reached(birth, s) && s.isr == Quiet && s.holder.Reader? && s.holder.want > 0
    requires CallSoFar(s0, s, s.holder.want, s.holder.buf) && (s.rest != [] || 1 <= k <= |s.ring|)
    ensures var moved := Chunk(s, k);
            Reached(birth, Turned(s, k)) && 1 <= |moved| <= s.holder.want && Turned(s, k).isr == Quiet &&
            Turned(s, k).holder == Reader(Loop, s.holder.want - |moved|, s.holder.buf + moved) &&
            CallSoFar(s0, Turned(s, k), s.holder.want - |moved|, s.holder.buf + moved)
  {
    if !Reachable(s0) {
      StalledIsEmpty(birth, s);
      assert false;
    }
    TurnReads(birth, s0, s, k);
  }

  /** The end of a call: the loop is over, or the ring stayed empty until the timeout; the mutex
      is given back and the count subtracted. */
  function Left(s: State): State
    requires s.holder.Reader?
  {
    s.(holder := Nobody, buffered := s.buffered - |s.holder.buf|)
  }

  lemma LeftReached(birth: State, s: State)
    requires Reached(birth, s) && s.holder.Reader? && s.holder.rpc == Loop
    requires s.holder.want == 0 || (s.rest == [] && s.ring == [])
    ensures Reached(birth, Left(s))
  {
    var finished := ReadStep(s, 0);
    Runs.LeadsOn(Step, birth, s, HolderStep(0));
    Runs.LeadsOn(Step, birth, finished, Subtract(|s.owed|));
    assert finished.owed[..|s.owed|] + finished.owed[|s.owed| + 1..] == s.owed;
  }

  lemma LeftDelivers(s: State)
    requires s.holder.Reader? && s.holder.rpc == Loop && s.isr == Quiet && Reachable(s)
    ensures Reachable(Left(s)) && Deliverable(Left(s)) == Deliverable(s)
    ensures s.rest == [] && s.ring == [] && !s.head ==> Deliverable(s) == []
  {
  }

  lemma LoopHolds(birth: State, s: State)
    requires Reached(birth, s) && s.holder.Reader? && s.holder.rpc == Loop
    ensures s.rest == [] ==> !s.head
  {
    ReachedInv(birth, s);
  }

  /** What a finished call has read: all that was deliverable, up to the length asked for. */
  lemma LeftRead(birth: State, s0: State, s: State)
    requires Reached(birth, s) && s0.isr == Quiet
    requires s.holder.Reader? && Reading(s0, s, s.holder.want, s.holder.buf)
    requires s.holder.want == 0 || (s.rest == [] && s.ring == [])
    ensures var n := |s.holder.buf|;
            n <= |Deliverable(s0)| && s.holder.buf == Deliverable(s0)[..n] &&
            Reachable(Left(s)) && Deliverable(Left(s)) == Deliverable(s0)[n..] &&
            (s.holder.want > 0 ==> n == |Deliverable(s0)|)
  {
    LoopHolds(birth, s);
    LeftDelivers(s);
    CutPrefix(s0.taken, Deliverable(s0), s.holder.buf + Deliverable(s)) by {
      assert s0.taken + (s.holder.buf + Deliverable(s)) == s.taken + Deliverable(s);
    }
  }

  lemma StartReading(birth: State, s: State, length: nat)
    requires Reached(birth, s) && s.holder == Nobody
    ensures var t := s.(holder := Reader(Loop, length, []));
            Reached(birth, t) && Reachable(t) == Reachable(s) && Deliverable(t) == Deliverable(s)
  {
    Runs.LeadsOn(Step, birth, s, StartRead(length));
  }

  /** `bytes` are the first of `queue`, as many as there are up to `length`, and `left` is the rest. */
  predicate TakesFront(queue: seq<byte>, left: seq<byte>, length: nat, bytes: seq<byte>) {
    var n := Min(length, |queue|);
    bytes == queue[..n] && left == queue[n..]
  }

  /** A call for `length` bytes took the port from `s` to `t` and returned `bytes`: all that was
      deliverable, up to the length asked for. */
  predicate HasRead(s: State, t: State, length: nat, bytes: seq<byte>) {
    TakesFront(Deliverable(s), Deliverable(t), length, bytes) && Reachable(t) == Reachable(s) &&
    t.taken == s.taken + bytes && t.fifo == s.fifo && t.owed == s.owed && AtRest(t)
  }

  lemma TakeTwice(q: seq<byte>, r: seq<byte>, rest: seq<byte>, n: nat, m: nat, a: seq<byte>, b: seq<byte>)
    requires TakesFront(q, r, n, a) && TakesFront(r, rest, m, b)
    ensures TakesFront(q, rest, n + m, a + b)
  {
  }

  lemma TakenTwice(s: State, t: State, u: State, a: seq<byte>, b: seq<byte>)
    requires t.taken == s.taken + a && u.taken == t.taken + b
    ensures u.taken == s.taken + (a + b)
  {
  }

  /** Two reads in a row are one read of both lengths, however the ring hands out its bytes. */
  lemma ReadsCompose(s: State, t: State, u: State, n: nat, m: nat, a: seq<byte>, b: seq<byte>)
    requires HasRead(s, t, n, a) && HasRead(t, u, m, b)
    ensures HasRead(s, u, n + m, a + b)
  {
    TakeTwice(Deliverable(s), Deliverable(t), Deliverable(u), n, m, a, b);
    TakenTwice(s, t, u, a, b);
  }

  /** A whole call, from `s0` to the end of its loop at `s`. */
  lemma CallEnds(birth: State, s0: State, s: State, length: nat)
    requires Reached(birth, s0) && AtRest(s0) && Reached(birth, s)
    requires s.holder.Reader? && s.holder.rpc == Loop && s.holder.want + |s.holder.buf| == length
    requires CallSoFar(s0.(holder := Reader(Loop, length, [])), s, s.holder.want, s.holder.buf)
    requires s.holder.want == 0 || (s.rest == [] && s.ring == [])
    ensures Reached(birth, Left(s)) && HasRead(s0, Left(s), length, s.holder.buf)
  {
    StartReading(birth, s0, length);
    LeftReached(birth, s);
    if Reachable(s0) {
      LeftRead(birth, s0.(holder := Reader(Loop, length, [])), s);
    }
  }

  // ----- uart_flush in pieces -----

  /** The bytes the driver holds, stash included. */
  function Held(s: State): seq<byte> { s.rest + s.ring + Stashed(s) }

  /** From `s` to `t` bytes only moved from the front of what is held to what was taken. */
  predicate Discards(s: State, t: State) {
    t.isr == s.isr && t.fifo == s.fifo && t.owed == s.owed && t.taken + Held(t) == s.taken + Held(s)
  }

  lemma FlusherStep(birth: State, s: State, k: nat)
    requires Reached(birth, s) && s.holder.Flusher? && s.holder.fpc !in {Reset, Leave}
    ensures Reached(birth, FlushStep(s, k)) && Discards(s, FlushStep(s, k))
  {
    ReachedInv(birth, s);
    Runs.LeadsOn(Step, birth, s, HolderStep(k));
    FlushFlow(s, k);
    FlushKeepsFifo(s, k);
    var t := FlushStep(s, k);
    assert Flow(s) == s.taken + Held(s) + s.fifo;
    assert Flow(t) == t.taken + Held(t) + s.fifo;
    CutSuffix(s.taken + Held(s), t.taken + Held(t), s.fifo);
  }

  lemma FlushKeepsFifo(s: State, k: nat)
    requires s.holder.Flusher? && s.holder.fpc !in {Reset, Leave}
    ensures var t := FlushStep(s, k); t.fifo == s.fifo && t.isr == s.isr && t.owed == s.owed
  {
  }

  /** uart.c:1106-1114. */
  function Dropped(s: State): State {
    if s.head then
      s.(reserved := 0, buffered := s.buffered - |s.rest|, taken := s.taken + s.rest, rest := [],
         head := false, holder := Flusher(Fetch))
    else s.(holder := Flusher(Fetch))
  }

  /** uart.c:1115-1122. */
  function ItemGone(s: State, k: nat): State
    requires k <= |s.ring|
  {
    s.(reserved := 0, taken := s.taken + s.ring[..k], ring := s.ring[k..], buffered := s.buffered - k,
       holder := Flusher(Top))
  }

  /** uart.c:1115-1122, then 1123-1131. */
  function Discarded(s: State, k: nat): State
    requires k <= |s.ring|
  {
    Restashed(ItemGone(s, k))
  }

  lemma DiscardsTrans(a: State, b: State, c: State)
    requires Discards(a, b) && Discards(b, c)
    ensures Discards(a, c)
  {
  }

  /** Up to the look at the flag. */
  lemma ItemDiscarded(birth: State, s: State, k: nat)
    requires Reached(birth, s) && s.holder == Flusher(Fetch) && 1 <= k <= |s.ring|
    ensures var t := s.(reserved := 0, taken := s.taken + s.ring[..k], ring := s.ring[k..],
                        buffered := s.buffered - k, holder := Flusher(if s.full then Again else Top));
            Reached(birth, t) && Discards(s, t)
  {
    FlusherStep(birth, s, k);
    var fetched := FlushStep(s, k);
    FlusherStep(birth, fetched, 0);
    var dropped := FlushStep(fetched, 0);
    DiscardsTrans(s, fetched, dropped);
    FlusherStep(birth, dropped, 0);
    DiscardsTrans(s, dropped, FlushStep(dropped, 0));
  }

  lemma DiscardedSteps(birth: State, s: State, k: nat)
    requires Reached(birth, s) && s.holder == Flusher(Fetch) && 1 <= k <= |s.ring|
    ensures Reached(birth, Discarded(s, k)) && Discards(s, Discarded(s, k))
    ensures Discarded(s, k).full ==> s.full && Discarded(s, k).ring != []
  {
    ItemDiscarded(birth, s, k);
    if s.full {
      var looked := s.(reserved := 0, taken := s.taken + s.ring[..k], ring := s.ring[k..],
                       buffered := s.buffered - k, holder := Flusher(Again));
      LookedSteps(birth, looked);
      DiscardsTrans(s, looked, ResentOrTop(looked));
    }
  }

  /** uart.c:1124-1130. */
  function ResentOrTop(s: State): State {
    if Fits(s, |s.stash|) then
      s.(ring := s.ring + s.stash, buffered := s.buffered + |s.stash|, full := false, holder := Flusher(Top))
    else s.(holder := Flusher(Top))
  }

  lemma LookedSteps(birth: State, s: State)
    requires Reached(birth, s) && s.holder == Flusher(Again)
    ensures Reached(birth, ResentOrTop(s)) && Discards(s, ResentOrTop(s))
    ensures ResentOrTop(s).full ==> s.ring != []
  {
    ReachedInv(birth, s);
    FlusherStep(birth, s, 0);
    var sent := FlushStep(s, 0);
    if Fits(s, |s.stash|) {
      FlusherStep(birth, sent, 0);
      var counted := FlushStep(sent, 0);
      DiscardsTrans(s, sent, counted);
      FlusherStep(birth, counted, 0);
      DiscardsTrans(s, counted, FlushStep(counted, 0));
    }
  }

  /** From an empty ring out (uart.c:1133-1138). */
  function Flushed(s: State): State {
    Lose(s.(rest := [], head := false)).(rxOn := true, holder := Nobody)
  }

  lemma FlushedReached(birth: State, s: State)
    requires Reached(birth, s) && s.holder == Flusher(Fetch) && s.ring == []
    ensures Reached(birth, Flushed(s))
  {
    Runs.LeadsOn(Step, birth, s, HolderStep(0));
    var reset := s.(rest := [], head := false, holder := Flusher(Reset));
    assert Step(s, HolderStep(0)) == reset;
    Runs.LeadsOn(Step, birth, reset, HolderStep(0));
    var leave := Lose(reset).(holder := Flusher(Leave));
    assert Step(reset, HolderStep(0)) == leave;
    Runs.LeadsOn(Step, birth, leave, HolderStep(0));
  }

  lemma FlushedSteps(birth: State, s: State)
    requires Reached(birth, s) && s.holder == Flusher(Fetch) && s.ring == [] && s.isr == Quiet
    ensures var t := Flushed(s);
            Reached(birth, t) && t.buffered == Sum(t.owed) && t.ring == [] && t.rest == [] &&
            Reachable(t) == !t.full && t.taken + Held(t) == s.taken + Held(s)
  {
    ReachedInv(birth, s);
    FlushedReached(birth, s);
    ReachedInv(birth, Flushed(s));
  }

  lemma StartFlushing(birth: State, s: State)
    requires Reached(birth, s) && s.holder == Nobody
    ensures var t := s.(rxOn := false, holder := Flusher(Top)); Reached(birth, t) && Discards(s, t)
  {
    Runs.LeadsOn(Step, birth, s, StartFlush);
    var masked := Step(s, StartFlush);
    Runs.LeadsOn(Step, birth, masked, HolderStep(0));
  }

  lemma DropStep(birth: State, s0: State, s: State)
    requires Reached(birth, s) && s.holder == Flusher(Top) && Discards(s0, s)
    ensures Reached(birth, Dropped(s)) && Discards(s0, Dropped(s))
  {
    FlusherStep(birth, s, 0);
    DiscardsTrans(s0, s, Dropped(s));
  }

  class RxPort {
    const cap: nat
    const dataBuf: array<byte>     // rx_data_buf
    var ring: seq<byte>            // rx_ring_buf
    var reserved: nat
    var head: bool                 // rx_head_ptr != NULL
    var rest: seq<byte>            // the rx_cur_remain bytes at rx_ptr
    var full: bool                 // rx_buffer_full_flg
    var stashLen: nat              // rx_stash_len
    var buffered: int              // rx_buffered_len
    var fifo: seq<byte>            // the hardware FIFO
    var rxOn: bool                 // int_ena
    ghost var isr: IsrPc
    ghost var holder: Holder
    ghost var owed: seq<nat>
    ghost var accepted: seq<byte>
    ghost var taken: seq<byte>
    ghost const birth: State       // the state as installed

    ghost predicate Fields()
      reads this
    {
      dataBuf.Length == FIFO_LEN && stashLen <= FIFO_LEN
    }

    ghost function S(): State
      reads this, dataBuf
      requires Fields()
    {
      State(cap, ring, reserved, head, rest, full, dataBuf[..stashLen], buffered, fifo, rxOn,
            isr, holder, owed, accepted, taken)
    }

    /** The object is where some run of the model leads. */
    ghost predicate Valid()
      reads this, dataBuf
    {
      Fields() && Reached(birth, S())
    }

    /** The receive half of uart_driver_install. */
    constructor (size: nat)
      requires size >= FIFO_LEN
      ensures Valid() && AtRest(S()) && Installed(S()) && fresh(dataBuf)
    {
      cap := size;
      dataBuf := new byte[FIFO_LEN];
      ring, reserved, head, rest := [], 0, false, [];
      full, stashLen, buffered, fifo, rxOn := false, 0, 0, [], true;
      isr, holder, owed, accepted, taken := Quiet, Nobody, [], [], [];
      birth := State(size, [], 0, false, [], false, [], 0, [], true, Quiet, Nobody, [], [], []);
      new;
      Runs.LeadsNowhere(Step, S());
    }

    /** xRingbufferSend and xRingbufferSendFromISR: all or nothing. */
    method RingSend(bytes: seq<byte>) returns (ok: bool)
      modifies this`ring
      ensures ok == (|old(ring)| + reserved + |bytes| <= cap)
      ensures ring == if ok then old(ring) + bytes else old(ring)
    {
      ok := |ring| + reserved + |bytes| <= cap;
      if ok {
        ring := ring + bytes;
      }
    }

    lemma FifoBound()
      requires Valid()
      ensures |fifo| <= FIFO_LEN
    {
      ReachedInv(birth, S());
    }

    /** uart.c:779-784: empty the hardware FIFO into rx_data_buf. */
    method DrainFifo()
      requires Fields() && |fifo| <= FIFO_LEN
      modifies this`fifo, this`stashLen, dataBuf
      ensures fifo == [] && stashLen == |old(fifo)| && dataBuf[..stashLen] == old(fifo)
    {
      var rxFifoLen := |fifo|;
      stashLen := rxFifoLen;
      var bufIdx := 0;
      while bufIdx < rxFifoLen
        invariant bufIdx <= rxFifoLen == stashLen
        invariant dataBuf[..bufIdx] == old(fifo)[..bufIdx] && fifo == old(fifo)[bufIdx..]
      {
        dataBuf[bufIdx], fifo := fifo[0], fifo[1..];
        bufIdx := bufIdx + 1;
      }
    }

    /** The RX arm of uart_rx_intr_handler_default on a port that is not the DMX port. */
    method OnRxInterrupt()
      requires Valid() && isr == Quiet && rxOn
      modifies this, dataBuf
      ensures Fields() && S() == Served(old(S()))
      ensures Valid() && Served(old(S())) == Step(old(S()), IsrWhole)
    {
      Runs.LeadsOn(Step, birth, S(), IsrWhole);
      FifoBound();
      if !full {
        DrainFifo();
        var ok := RingSend(dataBuf[..stashLen]);
        if !ok {
          rxOn := false;
          full := true;
        } else {
          buffered := buffered + stashLen;
        }
      } else {
        rxOn := false;
      }
    }

    /** A byte off the line, or the loss of one when the FIFO is full. */
    method OnByte(b: byte)
      requires Valid()
      modifies this
      ensures Valid() && S() == Step(old(S()), Arrive(b))
    {
      Runs.LeadsOn(Step, birth, S(), Arrive(b));
      if |fifo| < FIFO_LEN {
        fifo := fifo + [b];
        accepted := accepted + [b];
      }
    }

    // ----- uart_read_bytes -----

    /** xRingbufferReceive and uart.c:1042-1044. */
    method ReceiveItem() returns (k: nat)
      requires Fields() && holder.Reader? && ring != []
      modifies this`ring, this`head, this`rest, this`reserved, this`holder
      ensures 1 <= k <= |old(ring)| && S() == FetchItem(old(S()), k)
    {
      k :| 1 <= k <= |ring|;
      rest, ring := ring[..k], ring[k..];
      head, reserved := true, k;
      holder := Reader(Copy, holder.want, holder.buf);
    }

    /** uart.c:1053-1062. */
    method CopyOut(out: array<byte>, at: nat, length: nat) returns (lenTmp: nat)
      requires Fields() && holder.Reader? && holder.want == length
      requires at + length <= out.Length && out != dataBuf
      modifies this`rest, this`holder, this`taken, out
      ensures S() == CopyItem(old(S()))
      ensures lenTmp == Min(length, |old(rest)|) && out[at..at + lenTmp] == old(rest)[..lenTmp]
      ensures out[..at] == old(out[..at]) && out[at + lenTmp..] == old(out[at + lenTmp..])
    {
      lenTmp := if |rest| > length then length else |rest|;
      forall i | 0 <= i < lenTmp {
        out[at + i] := rest[i];
      }
      assert out[at..at + lenTmp] == rest[..lenTmp];
      holder := Reader(if lenTmp == |rest| then Return else Loop, length - lenTmp, holder.buf + rest[..lenTmp]);
      taken := taken + rest[..lenTmp];
      rest := rest[lenTmp..];
    }

    /** uart.c:1067-1073 and 1123-1130. */
    method ResendIfFull() returns (sent: bool)
      requires Fields()
      modifies this`ring, this`buffered, this`full
      ensures S() == Restashed(old(S())) && sent == (old(full) && !full)
    {
      sent := false;
      if full {
        sent := RingSend(dataBuf[..stashLen]);
        if sent {
          buffered := buffered + stashLen;
          full := false;
        }
      }
    }

    /** uart.c:1063-1077. */
    method ReturnAndResend()
      requires Fields() && holder.Reader?
      modifies this`reserved, this`head, this`ring, this`buffered, this`full, this`rxOn, this`holder
      ensures S() == Returned(old(S()))
    {
      reserved, head := 0, false;
      holder := Reader(Loop, holder.want, holder.buf);
      var sent := ResendIfFull();
      if sent {
        rxOn := true;
      }
    }

    /** uart.c:1039-1077, when there is something to read. */
    method Turn(out: array<byte>, at: nat, length: nat) returns (ghost k: nat, lenTmp: nat)
      requires Fields() && length > 0 && at + length <= out.Length && out != dataBuf
      requires holder.Reader? && holder.want == length && (rest != [] || ring != [])
      modifies this, out
      ensures old(rest) == [] ==> 1 <= k <= |old(ring)|
      ensures Fields() && S() == Turned(old(S()), k)
      ensures lenTmp == |Chunk(old(S()), k)| && out[..at + lenTmp] == old(out[..at]) + Chunk(old(S()), k)
      ensures out[at + lenTmp..] == old(out[at + lenTmp..])
    {
      k := 0;
      if rest == [] {
        var fetched := ReceiveItem();
        k := fetched;
      } else {
        holder := Reader(Copy, length, holder.buf);
      }
      lenTmp := CopyOut(out, at, length);
      assert out[..at + lenTmp] == out[..at] + out[at..at + lenTmp];
      if rest == [] {
        ReturnAndResend();
      }
    }

    /** Inside a call that began in `s0`: `done` is copied, `want` bytes are to go. */
    ghost predicate InCall(s0: State, want: nat, done: seq<byte>)
      reads this, dataBuf
    {
      Valid() && isr == Quiet && holder == Reader(Loop, want, done) && CallSoFar(s0, S(), want, done)
    }

    method TurnInCall(out: array<byte>, at: nat, length: nat, ghost s0: State) returns (lenTmp: nat)
      requires length > 0 && at + length <= out.Length && out != dataBuf
      requires InCall(s0, length, out[..at]) && (rest != [] || ring != [])
      modifies this, out
      ensures 1 <= lenTmp <= length && InCall(s0, length - lenTmp, out[..at + lenTmp])
      ensures out[at + lenTmp..] == old(out[at + lenTmp..])
    {
      ghost var s := S();
      var k, n := Turn(out, at, length);
      CallTurns(birth, s0, s, k);
      lenTmp := n;
    }

    /** The loop of uart_read_bytes (uart.c:1038-1078). */
    method CopyLoop(out: array<byte>, length: nat) returns (copyLen: nat)
      requires Valid() && holder == Reader(Loop, length, []) && isr == Quiet
      requires length <= out.Length && out != dataBuf
      modifies this, out
      ensures copyLen <= length && InCall(old(S()), length - copyLen, out[..copyLen])
      ensures copyLen == length || (rest == [] && ring == [])
      ensures out[copyLen..] == old(out[copyLen..])
    {
      copyLen := 0;
      ghost var s0 := S();
      assert s0.taken + [] == s0.taken;
      while copyLen < length
        invariant copyLen <= length && InCall(s0, length - copyLen, out[..copyLen])
        invariant out[copyLen..] == old(out[copyLen..])
      {
        if rest == [] && ring == [] {
          break;
        }
        var lenTmp := TurnInCall(out, copyLen, length - copyLen, s0);
        copyLen := copyLen + lenTmp;
      }
    }

    /** uart.c:1046-1050 and 1079-1083. */
    method LeaveRead(copyLen: nat)
      requires Fields() && holder.Reader? && copyLen == |holder.buf|
      modifies this`holder, this`buffered
      ensures S() == Left(old(S()))
    {
      holder := Nobody;
      buffered := buffered - copyLen;
    }

    /** uart_read_bytes with the mutex free. It returns exactly what is deliverable, up to the
        length, however the ring hands it out; the rest of the buffer keeps its old contents. */
    method ReadBytes(out: array<byte>, length: nat) returns (copyLen: nat)
      requires Valid() && AtRest(S()) && length <= out.Length && out != dataBuf
      modifies this, out
      ensures Valid() && copyLen <= length && HasRead(old(S()), S(), length, out[..copyLen])
      ensures out[copyLen..] == old(out[copyLen..])
    {
      ghost var s0 := S();
      StartReading(birth, s0, length);
      holder := Reader(Loop, length, []);
      copyLen := CopyLoop(out, length);
      CallEnds(birth, s0, S(), length);
      LeaveRead(copyLen);
    }

    // ----- uart_flush -----

    /** uart.c:1106-1114. */
    method DropHeld()
      requires Fields()
      modifies this`reserved, this`buffered, this`taken, this`rest, this`head, this`holder
      ensures S() == Dropped(old(S()))
    {
      if head {
        reserved := 0;
        buffered := buffered - |rest|;
        taken := taken + rest;
        rest := [];
        head := false;
      }
      holder := Flusher(Fetch);
    }

    /** uart.c:1115-1122 with the ring not empty. */
    method DropItem() returns (ghost k: nat)
      requires Fields() && ring != []
      modifies this`reserved, this`buffered, this`taken, this`ring, this`holder
      ensures 1 <= k <= |old(ring)| && S() == ItemGone(old(S()), k)
    {
      var size: nat :| 1 <= size <= |ring|;
      k := size;
      taken := taken + ring[..size];
      ring := ring[size..];
      buffered := buffered - size;
      reserved := 0;
      holder := Flusher(Top);
    }

    /** uart.c:1115-1131 with the ring not empty. */
    method DiscardItem() returns (ghost k: nat)
      requires Fields() && ring != []
      modifies this`reserved, this`buffered, this`taken, this`ring, this`full, this`holder
      ensures 1 <= k <= |old(ring)| && S() == Discarded(old(S()), k)
    {
      k := DropItem();
      var sent := ResendIfFull();
    }

    /** The loop of uart_flush (uart.c:1105-1132). */
    method DiscardLoop()
      requires Valid() && holder == Flusher(Top) && isr == Quiet
      modifies this
      ensures Valid() && holder == Flusher(Fetch) && ring == [] && Discards(old(S()), S())
      ensures full <==> old(full) && old(ring) == []
    {
      ghost var s0 := S();
      while true
        invariant Valid() && holder == Flusher(Top) && Discards(s0, S())
        invariant full ==> s0.full && (ring == [] ==> s0.ring == [])
        invariant s0.full && s0.ring == [] ==> full && ring == []
        decreases full, |ring|
      {
        DropStep(birth, s0, S());
        DropHeld();
        if ring == [] {
          break;
        }
        ghost var s := S();
        var k := DiscardItem();
        DiscardedSteps(birth, s, k);
        DiscardsTrans(s0, s, S());
      }
    }

    /** uart_reset_fifo, the receive half. */
    method ResetFifo()
      requires Fields()
      modifies this`fifo, this`accepted
      ensures S() == Lose(old(S()))
    {
      accepted := if |fifo| <= |accepted| then accepted[..|accepted| - |fifo|] else [];
      fifo := [];
    }

    /** uart.c:1133-1138. */
    method LeaveFlush()
      requires Fields()
      modifies this`fifo, this`accepted, this`rest, this`head, this`rxOn, this`holder
      ensures S() == Flushed(old(S()))
    {
      rest, head := [], false;
      ResetFifo();
      rxOn := true;
      holder := Nobody;
    }

    /** uart_flush with the mutex free. It takes out everything the driver holds, with one
        exception: a stash behind an empty ring stays, the flag with it, and the port is stalled. */
    method Flush()
      requires Valid() && AtRest(S())
      modifies this
      ensures Valid() && AtRest(S()) && ring == [] && rest == [] && fifo == []
      ensures full <==> old(full) && old(ring) == []
      ensures Reachable(S()) <==> !full
      ensures buffered == Sum(owed) && owed == old(owed)
      ensures taken + Held(S()) == old(taken) + Held(old(S()))
    {
      ghost var s0 := S();
      StartFlushing(birth, s0);
      rxOn := false;
      holder := Flusher(Top);
      ghost var s1 := S();
      DiscardLoop();
      DiscardsTrans(s0, s1, S());
      FlushedSteps(birth, S());
      LeaveFlush();
    }
  }
}
