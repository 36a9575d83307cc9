/**
 The buffered receive path of the driver at the grain at which it can be interleaved: the
 interrupt handler, readers and flush on two cores, one step per critical section. Every run
 refines a FIFO queue of bytes.
 */
module RxQueue {
  import opened Common
  import Runs

  /** Where the RX arm of the handler is: it has read a status word with a receive bit in it; is
      about to mask, having found the flag set; has `left` of the bytes it counted still to read; has
      sent `n` bytes to the ring and is about to add them to the count; was refused; or has masked
      and is about to raise the flag (uart.c:519, 712, 778-805, 811). */
  datatype IsrPc = Quiet | Seen | Masking | Draining(left: nat) | Pushed(n: nat) | Refused | Raising

  /** Where uart_read_bytes is inside its loop (uart.c:1038-1078). */
  datatype ReadPc = Loop | Copy | Return | Check | Resend | Count | Clear | Enable

  /** Where uart_flush is (uart.c:1104-1138). */
  datatype FlushPc = Mask | Top | Fetch | Drop | Look | Again | Recount | Unset | Reset | Leave

  /** Who holds rx_mux. A reader has `want` bytes to go and `buf` copied. */
  datatype Holder = Nobody | Reader(rpc: ReadPc, want: nat, buf: seq<byte>) | Flusher(fpc: FlushPc)

  datatype State = State(
    cap: nat,               // what the ring buffer holds at most
    ring: seq<byte>,        // bytes in the ring buffer not yet received from it
    reserved: nat,          // bytes received from it and not yet returned
    head: bool,             // rx_head_ptr != NULL
    rest: seq<byte>,        // the rx_cur_remain bytes at rx_ptr
    full: bool,             // rx_buffer_full_flg
    stash: seq<byte>,       // rx_data_buf, as far as the last activation has filled it
    buffered: int,          // rx_buffered_len
    fifo: seq<byte>,        // the hardware FIFO
    rxOn: bool,             // RX interrupts enabled
    isr: IsrPc,
    holder: Holder,
    owed: seq<nat>,         // copy_len of readers that have released rx_mux but not subtracted yet
    accepted: seq<byte>,    // history: bytes read from the hardware FIFO or still in it
    taken: seq<byte>        // history: bytes read or flushed out, in order
  )

  datatype Event =
    | Arrive(b: byte)
    | Overflow              // the RXFIFO_OVF arm resets the FIFO
    | IsrStart              // the handler reads int_st
    | IsrStep(g: byte)      // its next step; g is what an empty FIFO reads as
    | IsrWhole              // all of them in one piece, on the core that all tasks run on
    | StartRead(n: nat)
    | StartFlush
    | HolderStep(k: nat)    // the next step of whoever holds rx_mux; a fetch gets k bytes
    | Subtract(i: nat)      // a reader that left subtracts its copy_len

  function Sum(ns: seq<nat>): nat {
    if ns == [] then 0 else ns[0] + Sum(ns[1..])
  }

  predicate Fits(s: State, n: nat) { |s.ring| + s.reserved + n <= s.cap }

  // ----- the handler -----

  function Start(s: State): State {
    if s.isr == Quiet && s.rxOn then s.(isr := Seen) else s
  }

  /** One byte out of the FIFO. Another core may have emptied it since the bytes were counted. */
  function ReadByte(s: State, g: byte): State
    requires s.isr.Draining? && s.isr.left > 0
  {
    if s.fifo != [] then
      s.(stash := s.stash + [s.fifo[0]], fifo := s.fifo[1..], isr := Draining(s.isr.left - 1))
    else
      s.(stash := s.stash + [g], accepted := s.accepted + [g], isr := Draining(s.isr.left - 1))
  }

  /** xRingbufferSendFromISR. */
  function SendStash(s: State): State {
    if Fits(s, |s.stash|) then s.(ring := s.ring + s.stash, isr := Pushed(|s.stash|)) else s.(isr := Refused)
  }

  function IsrNext(s: State, g: byte): State {
    match s.isr
    case Quiet => s
    case Seen => if s.full then s.(isr := Masking) else s.(stash := [], isr := Draining(|s.fifo|))
    case Masking => s.(rxOn := false, isr := Quiet)
    case Draining(left) => if left > 0 then ReadByte(s, g) else SendStash(s)
    case Pushed(n) => s.(buffered := s.buffered + n, isr := Quiet)
    case Refused => s.(rxOn := false, isr := Raising)
    case Raising => s.(full := true, isr := Quiet)
  }

  /** The RX arm in one piece. */
  function Served(s: State): State {
    if s.full then s.(rxOn := false)
    else if Fits(s, |s.fifo|) then
      s.(stash := s.fifo, ring := s.ring + s.fifo, buffered := s.buffered + |s.fifo|, fifo := [])
    else s.(stash := s.fifo, fifo := [], rxOn := false, full := true)
  }

  // ----- uart_read_bytes -----

  /** The reader gives rx_mux back; its subtraction is still to come (uart.c:1046-1050, 1079-1083). */
  function Finish(s: State): State
    requires s.holder.Reader?
  {
    s.(holder := Nobody, owed := s.owed + [|s.holder.buf|])
  }

  function Go(s: State, pc: ReadPc): State
    requires s.holder.Reader?
  {
    s.(holder := Reader(pc, s.holder.want, s.holder.buf))
  }

  /** uart.c:1040-1044: a ring buffer hands out any non-empty prefix of its bytes. */
  function FetchItem(s: State, k: nat): State
    requires s.holder.Reader? && k <= |s.ring|
  {
    Go(s.(head := true, rest := s.ring[..k], ring := s.ring[k..], reserved := k), Copy)
  }

  /** uart.c:1053-1062. */
  function CopyItem(s: State): State
    requires s.holder.Reader?
  {
    var want := s.holder.want;
    var n := Min(want, |s.rest|);
    s.(rest := s.rest[n..], taken := s.taken + s.rest[..n],
       holder := Reader(if n == |s.rest| then Return else Loop, want - n, s.holder.buf + s.rest[..n]))
  }

  /** uart.c:1064-1066. */
  function ReturnItem(s: State): State
    requires s.holder.Reader?
  {
    Go(s.(reserved := 0, head := false), Check)
  }

  /** uart.c:1068. */
  function ResendStash(s: State): State
    requires s.holder.Reader?
  {
    if Fits(s, |s.stash|) then Go(s.(ring := s.ring + s.stash), Count) else Go(s, Loop)
  }

  function ReadStep(s: State, k: nat): State
    requires s.holder.Reader?
  {
    match s.holder.rpc
    case Loop =>
      if s.holder.want == 0 then Finish(s)
      else if s.rest != [] then Go(s, Copy)
      else if s.ring == [] then Finish(s)           // timed out
      else if 1 <= k <= |s.ring| then FetchItem(s, k)
      else s
    case Copy => CopyItem(s)
    case Return => ReturnItem(s)
    case Check => Go(s, if s.full then Resend else Loop)
    case Resend => ResendStash(s)
    case Count => Go(s.(buffered := s.buffered + |s.stash|), Clear)
    case Clear => Go(s.(full := false), Enable)
    case Enable => Go(s.(rxOn := true), Loop)
  }

  // ----- uart_flush -----

  function FlushStep(s: State, k: nat): State
    requires s.holder.Flusher?
  {
    match s.holder.fpc
    case Mask => s.(rxOn := false, holder := Flusher(Top))
    case Top =>
      if s.head then
        s.(reserved := 0, buffered := s.buffered - |s.rest|, taken := s.taken + s.rest,
           rest := [], head := false, holder := Flusher(Fetch))
      else s.(holder := Flusher(Fetch))
    case Fetch =>
      if s.ring == [] then s.(rest := [], head := false, holder := Flusher(Reset))
      else if 1 <= k <= |s.ring| then
        s.(reserved := k, taken := s.taken + s.ring[..k], ring := s.ring[k..], holder := Flusher(Drop))
      else s
    case Drop => s.(buffered := s.buffered - s.reserved, reserved := 0, holder := Flusher(Look))
    case Look => s.(holder := Flusher(if s.full then Again else Top))
    case Again =>
      if Fits(s, |s.stash|) then s.(ring := s.ring + s.stash, holder := Flusher(Recount))
      else s.(holder := Flusher(Top))
    case Recount => s.(buffered := s.buffered + |s.stash|, holder := Flusher(Unset))
    case Unset => s.(full := false, holder := Flusher(Top))
    case Reset => Lose(s).(holder := Flusher(Leave))
    case Leave => s.(rxOn := true, holder := Nobody)
  }

  /** The hardware FIFO is reset: its bytes are lost, and only they. */
  function Lose(s: State): State {
    s.(fifo := [], accepted := if |s.fifo| <= |s.accepted| then s.accepted[..|s.accepted| - |s.fifo|] else [])
  }

  function Step(s: State, e: Event): State {
    match e
    case Arrive(b) =>
      if |s.fifo| < FIFO_LEN then s.(fifo := s.fifo + [b], accepted := s.accepted + [b]) else s
    case Overflow => if s.isr == Quiet then Lose(s) else s
    case IsrStart => Start(s)
    case IsrStep(g) => IsrNext(s, g)
    case IsrWhole => if s.isr == Quiet && s.rxOn then Served(s) else s
    case StartRead(n) => if s.holder == Nobody then s.(holder := Reader(Loop, n, [])) else s
    case StartFlush => if s.holder == Nobody then s.(holder := Flusher(Mask)) else s
    case HolderStep(k) =>
      (match s.holder
       case Nobody => s
       case Reader(_, _, _) => ReadStep(s, k)
       case Flusher(_) => FlushStep(s, k))
    case Subtract(i) =>
      if i < |s.owed| then s.(buffered := s.buffered - s.owed[i], owed := s.owed[..i] + s.owed[i + 1..]) else s
  }

  function Run(s: State, es: seq<Event>): State {
    Runs.Run(Step, s, es)
  }

  /** What uart_driver_install leaves, for any accepted rx_buffer_size. */
  predicate Installed(s: State) {
    s.cap >= FIFO_LEN && s.ring == [] && s.reserved == 0 && !s.head && s.rest == [] && !s.full &&
    s.stash == [] && s.buffered == 0 && s.fifo == [] && s.rxOn && s.isr == Quiet &&
    s.holder == Nobody && s.owed == [] && s.accepted == [] && s.taken == []
  }

  // ----- invariants -----

  /** The stash has been sent to the ring but the flag still says full. */
  predicate Resending(h: Holder) {
    (h.Reader? && h.rpc in {Count, Clear}) || (h.Flusher? && h.fpc in {Recount, Unset})
  }

  /** The handler has bytes in rx_data_buf that are not in the ring. */
  predicate Filling(isr: IsrPc) { isr.Draining? || isr == Refused || isr == Raising }

  function Stashed(s: State): seq<byte> {
    if Filling(s.isr) || (s.full && !Resending(s.holder)) then s.stash else []
  }

  /** The abstract queue: everything that has arrived and is still to be taken, in order. */
  function Queue(s: State): seq<byte> {
    s.rest + s.ring + Stashed(s) + s.fifo
  }

  /** Bytes in the ring that the handler or a resend has not added to rx_buffered_len yet. */
  function Uncounted(s: State): nat {
    (if s.isr.Pushed? then s.isr.n else 0) +
    (if s.holder.Reader? && s.holder.rpc == Count then |s.stash| else 0) +
    (if s.holder.Flusher? && s.holder.fpc == Recount then |s.stash| else 0)
  }

  /** Bytes out of the ring that are still in rx_buffered_len. */
  function Unsubtracted(s: State): nat {
    Sum(s.owed) +
    (if s.holder.Reader? then |s.holder.buf| else 0) +
    (if s.holder.Flusher? && s.holder.fpc == Drop then s.reserved else 0)
  }

  predicate Shape(s: State) {
    s.cap >= FIFO_LEN && |s.fifo| <= FIFO_LEN && |s.stash| <= FIFO_LEN &&
    |s.ring| + s.reserved <= s.cap &&
    (s.rest != [] ==> s.head) && |s.rest| <= s.reserved &&
    (s.head && s.rest == [] ==> s.holder.Reader? && s.holder.rpc == Return) &&
    (!s.head && s.reserved > 0 ==> s.holder == Flusher(Drop)) &&
    (Filling(s.isr) || s.isr.Pushed? ==> !s.full) &&
    (s.isr in {Refused, Raising} || s.full ==> s.stash != []) &&
    (s.isr.Draining? ==> |s.stash| + s.isr.left <= FIFO_LEN) &&
    (Resending(s.holder) ==> s.full) &&
    match s.holder
    case Nobody => true
    case Reader(pc, want, buf) =>
      (pc == Copy ==> s.rest != [] && want > 0) &&
      (pc == Return ==> s.head && s.rest == []) &&
      (pc in {Check, Resend, Count, Clear, Enable} ==> !s.head) &&
      (pc == Resend ==> s.full) &&
      (pc == Count ==> |s.stash| <= |s.ring|)
    case Flusher(pc) =>
      (pc !in {Mask, Top} ==> !s.head) &&
      (pc != Mask ==> !s.rxOn) &&
      (pc == Again ==> s.full) &&
      (pc == Recount ==> |s.stash| <= |s.ring|)
  }

  predicate Counted(s: State) {
    s.buffered + Uncounted(s) == |s.ring| + |s.rest| + Unsubtracted(s)
  }

  /** Everything that has arrived, taken or not. */
  function Flow(s: State): seq<byte> { s.taken + Queue(s) }

  /** A reader's buffer holds the bytes that it took last. */
  predicate OwnBytes(s: State) {
    s.holder.Reader? ==>
      |s.holder.buf| <= |s.taken| && s.taken[|s.taken| - |s.holder.buf|..] == s.holder.buf
  }

  predicate Inv(s: State) { Shape(s) && Counted(s) && OwnBytes(s) && Flow(s) == s.accepted }

  lemma {:induction false} SumAppend(ns: seq<nat>, n: nat)
    ensures Sum(ns + [n]) == Sum(ns) + n
  {
    if ns == [] {
      assert ns + [n] == [n];
    } else {
      SumAppend(ns[1..], n);
      assert (ns + [n])[1..] == ns[1..] + [n];
    }
  }

  lemma {:induction false} SumRemove(ns: seq<nat>, i: nat)
    requires i < |ns|
    ensures Sum(ns[..i] + ns[i + 1..]) == Sum(ns) - ns[i]
  {
    if i == 0 {
      assert ns[..0] + ns[1..] == ns[1..];
    } else {
      SumRemove(ns[1..], i - 1);
      assert (ns[..i] + ns[i + 1..])[1..] == ns[1..][..i - 1] + ns[1..][i..];
    }
  }

  // ----- pointers and flags -----

  lemma InstalledInv(s: State)
    requires Installed(s)
    ensures Inv(s)
  {
  }

  lemma DrainShape(s: State, g: byte)
    requires Shape(s) && s.isr.Draining?
    ensures s.isr.left > 0 ==> Shape(ReadByte(s, g))
    ensures Shape(SendStash(s))
  {
  }

  lemma IsrNextShape(s: State, g: byte)
    requires Shape(s)
    ensures Shape(IsrNext(s, g))
  {
    if s.isr.Draining? {
      DrainShape(s, g);
      assert IsrNext(s, g) == if s.isr.left > 0 then ReadByte(s, g) else SendStash(s);
    }
  }

  lemma ServedShape(s: State)
    requires Shape(s) && s.isr == Quiet
    ensures Shape(Served(s))
  {
  }

  lemma CopyShape(s: State, k: nat)
    requires Shape(s) && s.holder.Reader? && s.holder.rpc in {Loop, Copy, Return}
    ensures Shape(ReadStep(s, k))
  {
  }

  lemma ReadShape(s: State, k: nat)
    requires Shape(s) && s.holder.Reader?
    ensures Shape(ReadStep(s, k))
  {
    if s.holder.rpc in {Loop, Copy, Return} {
      CopyShape(s, k);
    }
  }

  lemma FlushShape(s: State, k: nat)
    requires Shape(s) && s.holder.Flusher?
    ensures Shape(FlushStep(s, k))
  {
  }

  lemma OthersShape(s: State, e: Event)
    requires Shape(s) && !e.HolderStep? && !e.IsrWhole? && !e.IsrStep?
    ensures Shape(Step(s, e))
  {
  }

  lemma StepShape(s: State, e: Event)
    requires Shape(s)
    ensures Shape(Step(s, e))
  {
    match e
    case HolderStep(k) =>
      if s.holder.Reader? { ReadShape(s, k); } else if s.holder.Flusher? { FlushShape(s, k); }
    case IsrStep(g) => IsrNextShape(s, g);
    case IsrWhole => if s.isr == Quiet { ServedShape(s); }
    case _ => OthersShape(s, e);
  }

  // ----- the byte count -----

  lemma DrainCounted(s: State, g: byte)
    requires Shape(s) && Counted(s) && s.isr.Draining?
    ensures s.isr.left > 0 ==> Counted(ReadByte(s, g))
    ensures Counted(SendStash(s))
  {
  }

  lemma IsrNextCounted(s: State, g: byte)
    requires Shape(s) && Counted(s)
    ensures Counted(IsrNext(s, g))
  {
    if s.isr.Draining? {
      DrainCounted(s, g);
      assert IsrNext(s, g) == if s.isr.left > 0 then ReadByte(s, g) else SendStash(s);
    } else if s.isr == Seen {
      assert !s.full ==> !Resending(s.holder);
    }
  }

  lemma ServedCounted(s: State)
    requires Shape(s) && Counted(s) && s.isr == Quiet
    ensures Counted(Served(s))
  {
  }

  lemma FinishCounted(s: State)
    requires Shape(s) && Counted(s) && s.holder.Reader? && s.holder.rpc == Loop
    ensures Counted(Finish(s))
  {
    SumAppend(s.owed, |s.holder.buf|);
  }

  lemma ResendCounted(s: State, k: nat)
    requires Shape(s) && Counted(s) && s.holder.Reader? && s.holder.rpc !in {Loop, Copy, Return}
    ensures Counted(ReadStep(s, k))
  {
  }

  lemma ReadCounted(s: State, k: nat)
    requires Shape(s) && Counted(s) && s.holder.Reader?
    ensures Counted(ReadStep(s, k))
  {
    if s.holder.rpc == Loop {
      FinishCounted(s);
    } else if s.holder.rpc !in {Copy, Return} {
      ResendCounted(s, k);
    }
  }

  lemma FlushCounted(s: State, k: nat)
    requires Shape(s) && Counted(s) && s.holder.Flusher?
    ensures Counted(FlushStep(s, k))
  {
  }

  lemma TaskCounted(s: State, e: Event)
    requires Shape(s) && Counted(s) && !e.HolderStep? && !e.IsrStep? && !e.IsrWhole?
    ensures Counted(Step(s, e))
  {
    if e.Subtract? && e.i < |s.owed| {
      SumRemove(s.owed, e.i);
    }
  }

  lemma StepCounted(s: State, e: Event)
    requires Shape(s) && Counted(s)
    ensures Counted(Step(s, e))
  {
    match e
    case HolderStep(k) =>
      if s.holder.Reader? { ReadCounted(s, k); } else if s.holder.Flusher? { FlushCounted(s, k); }
    case IsrStep(g) => IsrNextCounted(s, g);
    case IsrWhole => if s.isr == Quiet { ServedCounted(s); }
    case _ => TaskCounted(s, e);
  }

  // ----- the bytes and their order -----

  lemma ReadByteFlow(s: State, g: byte)
    requires Shape(s) && Flow(s) == s.accepted && s.isr.Draining? && s.isr.left > 0
    ensures Flow(ReadByte(s, g)) == ReadByte(s, g).accepted
  {
    var front := s.rest + s.ring;
    if s.fifo != [] {
      assert s.stash + [s.fifo[0]] + s.fifo[1..] == s.stash + s.fifo;
      assert front + (s.stash + [s.fifo[0]]) + s.fifo[1..] == front + s.stash + s.fifo;
    } else {
      assert s.taken + (front + (s.stash + [g]) + []) == s.taken + (front + s.stash + []) + [g];
    }
  }

  lemma SendStashFlow(s: State)
    requires s.isr == Draining(0) && !s.full
    ensures Flow(SendStash(s)) == Flow(s)
  {
    assert s.rest + (s.ring + s.stash) + [] + s.fifo == s.rest + s.ring + s.stash + s.fifo;
  }

  lemma IsrNextFlow(s: State, g: byte)
    requires Shape(s) && Flow(s) == s.accepted
    ensures Flow(IsrNext(s, g)) == IsrNext(s, g).accepted
  {
    if s.isr.Draining? {
      if s.isr.left > 0 { ReadByteFlow(s, g); } else { SendStashFlow(s); }
    }
  }

  lemma ServedFlow(s: State)
    requires Shape(s) && s.isr == Quiet
    ensures Flow(Served(s)) == Flow(s) && Served(s).accepted == s.accepted
  {
    assert s.rest + (s.ring + s.fifo) + [] + [] == s.rest + s.ring + [] + s.fifo;
    assert s.rest + s.ring + s.fifo + [] == s.rest + s.ring + [] + s.fifo;
  }

  lemma LoseFlow(s: State)
    requires Shape(s) && Flow(s) == s.accepted
    ensures Flow(Lose(s)) == Lose(s).accepted && Lose(s).accepted + s.fifo == s.accepted
  {
    var front := s.taken + (s.rest + s.ring + Stashed(s));
    assert s.accepted == front + s.fifo;
    assert Lose(s).accepted == front;
    assert Queue(Lose(s)) == s.rest + s.ring + Stashed(s);
  }

  lemma Regroup(a: seq<byte>, b: seq<byte>, c: seq<byte>, d: seq<byte>, e: seq<byte>, f: seq<byte>)
    ensures a + b + (c + d + e + f) == a + (b + c + d + e + f)
  {
  }

  lemma CopyFlow(s: State, k: nat)
    requires Shape(s) && s.holder.Reader? && s.holder.rpc == Copy
    ensures Flow(ReadStep(s, k)) == Flow(s) && ReadStep(s, k).accepted == s.accepted
  {
    var n := Min(s.holder.want, |s.rest|);
    Regroup(s.taken, s.rest[..n], s.rest[n..], s.ring, Stashed(s), s.fifo);
    assert s.rest[..n] + s.rest[n..] == s.rest;
  }

  lemma ReadFlow(s: State, k: nat)
    requires Shape(s) && s.holder.Reader? && s.holder.rpc != Copy
    ensures Flow(ReadStep(s, k)) == Flow(s) && ReadStep(s, k).accepted == s.accepted
  {
    match s.holder.rpc
    case Loop =>
      if s.rest == [] && 1 <= k <= |s.ring| {
        assert s.ring[..k] + s.ring[k..] == [] + s.ring;
      }
    case Resend =>
      assert s.rest + (s.ring + s.stash) + [] == s.rest + s.ring + s.stash;
    case _ =>
  }

  lemma TopFlow(s: State, k: nat)
    requires Shape(s) && s.holder.Flusher? && s.holder.fpc in {Top, Fetch}
    ensures Flow(FlushStep(s, k)) == Flow(s) && FlushStep(s, k).accepted == s.accepted
  {
    if s.holder.fpc == Top {
      Regroup(s.taken, s.rest, [], s.ring, Stashed(s), s.fifo);
      assert s.rest + [] == s.rest;
    } else if 1 <= k <= |s.ring| {
      Regroup(s.taken, s.ring[..k], [], s.ring[k..], Stashed(s), s.fifo);
      assert s.ring[..k] + [] + s.ring[k..] == s.rest + s.ring;
    }
  }

  lemma FlushFlow(s: State, k: nat)
    requires Shape(s) && s.holder.Flusher? && s.holder.fpc != Reset
    ensures Flow(FlushStep(s, k)) == Flow(s) && FlushStep(s, k).accepted == s.accepted
  {
    if s.holder.fpc in {Top, Fetch} {
      TopFlow(s, k);
    } else if s.holder.fpc == Again {
      assert s.rest + (s.ring + s.stash) + [] == s.rest + s.ring + s.stash;
    }
  }

  lemma TaskFlow(s: State, e: Event)
    requires Shape(s) && Flow(s) == s.accepted && (e.Arrive? || e.StartRead? || e.StartFlush? || e.Subtract?)
    ensures Flow(Step(s, e)) == Step(s, e).accepted
  {
    if e.Arrive? {
      assert s.taken + (s.rest + s.ring + Stashed(s) + (s.fifo + [e.b])) == Flow(s) + [e.b];
    }
  }

  lemma ResetFlow(s: State, k: nat)
    requires Shape(s) && Flow(s) == s.accepted && s.holder == Flusher(Reset)
    ensures Flow(FlushStep(s, k)) == FlushStep(s, k).accepted
  {
    LoseFlow(s);
    assert Queue(FlushStep(s, k)) == Queue(Lose(s));
  }

  lemma HolderFlow(s: State, k: nat)
    requires Shape(s) && Flow(s) == s.accepted && s.holder != Nobody
    ensures Flow(Step(s, HolderStep(k))) == Step(s, HolderStep(k)).accepted
  {
    match s.holder
    case Reader(pc, _, _) => if pc == Copy { CopyFlow(s, k); } else { ReadFlow(s, k); }
    case Flusher(pc) =>
      if pc == Reset { ResetFlow(s, k); } else { FlushFlow(s, k); }
  }

  lemma StepFlow(s: State, e: Event)
    requires Shape(s) && Flow(s) == s.accepted
    ensures Flow(Step(s, e)) == Step(s, e).accepted
  {
    match e
    case HolderStep(k) => if s.holder != Nobody { HolderFlow(s, k); }
    case IsrStep(g) => IsrNextFlow(s, g);
    case IsrWhole => if s.isr == Quiet { ServedFlow(s); }
    case IsrStart => assert Flow(Start(s)) == Flow(s);
    case Overflow => LoseFlow(s);
    case _ => TaskFlow(s, e);
  }

  lemma CopyOwnBytes(s: State, k: nat)
    requires OwnBytes(s) && s.holder.Reader? && s.holder.rpc == Copy
    ensures OwnBytes(ReadStep(s, k))
  {
    var n := Min(s.holder.want, |s.rest|);
    var cut := |s.taken| - |s.holder.buf|;
    assert (s.taken + s.rest[..n])[cut..] == s.taken[cut..] + s.rest[..n];
  }

  lemma ReadKeepsBytes(s: State, k: nat)
    requires s.holder.Reader? && s.holder.rpc != Copy
    ensures var t := ReadStep(s, k);
            t.holder == Nobody || (t.holder.Reader? && t.holder.buf == s.holder.buf && t.taken == s.taken)
  {
  }

  lemma OthersKeepBytes(s: State, e: Event)
    requires !e.HolderStep? && !e.StartRead?
    ensures Step(s, e).taken == s.taken && (Step(s, e).holder == s.holder || Step(s, e).holder.Flusher?)
  {
  }

  lemma StepOwnBytes(s: State, e: Event)
    requires OwnBytes(s)
    ensures OwnBytes(Step(s, e))
  {
    if e.HolderStep? {
      match s.holder
      case Nobody =>
      case Flusher(_) => assert !FlushStep(s, e.k).holder.Reader?;
      case Reader(pc, _, _) =>
        if pc == Copy { CopyOwnBytes(s, e.k); } else { ReadKeepsBytes(s, e.k); }
    } else if e.StartRead? {
      assert s.taken[|s.taken|..] == [];
    } else {
      OthersKeepBytes(s, e);
    }
  }

  lemma StepKeeps(s: State, e: Event)
    requires Inv(s)
    ensures Inv(Step(s, e))
  {
    StepShape(s, e);
    StepCounted(s, e);
    StepFlow(s, e);
    StepOwnBytes(s, e);
  }

  /** Every run of both cores keeps the driver's pointers, its count and the order of the bytes. */
  lemma {:induction false} RunKeeps(s: State, es: seq<Event>)
    requires Inv(s)
    ensures Inv(Run(s, es))
    decreases |es|
  {
    if es != [] {
      Runs.Last(Step, s, es);
      RunKeeps(s, es[..|es| - 1]);
      StepKeeps(Run(s, es[..|es| - 1]), es[|es| - 1]);
    }
  }
}
