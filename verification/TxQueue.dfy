/**
 The buffered transmit path of the driver, one step per turn of the interrupt handler's drain
 loop and per statement of uart_tx_all: a writer cuts messages into descriptors and chunks, and
 the handler reassembles them into the hardware FIFO.
 */
module TxQueue {
  import opened Common
  import Runs

  /** An item of the transmit ring buffer. */
  datatype Item = Desc(size: nat, brk: bool) | Chunk(bytes: seq<byte>)

  /** The TXFIFO_EMPTY arm: in its drain loop with `rem` free places, past it, or spinning on the
      status word it never reads again (uart.c:586-588). `en` is en_tx_flg. */
  datatype IsrPc = Quiet | Draining(rem: nat, en: bool) | Exiting(en: bool) | Spinning

  /** uart_tx_all holding tx_mux, with `left` of the message not yet in the ring. */
  datatype Writer = Idle | Describe(left: seq<byte>, brk: bool) | Push(left: seq<byte>) | Enable(left: seq<byte>)

  datatype State = State(
    half: nat,                   // max_size / 2
    ring: seq<Item>,             // tx_ring_buf
    ptr: bool,                   // tx_ptr != NULL
    cur: seq<byte>,              // if ptr, the tx_len_cur bytes at tx_ptr
    lenTot: nat,                 // tx_len_tot
    brkFlg: bool,                // tx_brk_flg
    waitingBrk: bool,            // tx_waiting_brk
    emptyOn: bool,               // int_ena.txfifo_empty
    brkOn: bool,                 // int_ena.tx_brk_done
    fifoCnt: nat,                // status.txfifo_cnt
    isr: IsrPc,
    writer: Writer,
    wire: seq<byte>,             // history: bytes written to the FIFO
    messages: seq<seq<byte>>,    // history: the messages handed to uart_tx_all
    started: nat,                // history: descriptors the handler has taken
    fence: nat                   // history: data bytes in or through the ring at the last enable
  )

  datatype Event =
    | Write(msg: seq<byte>, brk: bool)   // uart_write_bytes, uart_write_bytes_with_break
    | WriterStep
    | Interrupt                          // TXFIFO_EMPTY is serviced
    | Drain                              // one turn of the drain loop, or what follows it
    | Sent                               // a byte leaves the FIFO
    | BreakSent                          // TX_BRK_DONE is serviced

  /** `uint32_t` subtraction. */
  function Sub32(a: nat, b: nat): nat {
    if b <= a then a - b else (a - b) % 0x1_0000_0000
  }

  // ----- uart_tx_all, ring path -----

  function WriterNext(s: State): State {
    match s.writer
    case Idle => s
    case Describe(left, brk) => s.(ring := s.ring + [Desc(|left|, brk)], writer := Push(left))
    case Push(left) =>
      var n := Min(s.half, |left|);
      s.(ring := s.ring + [Chunk(left[..n])], writer := Enable(left[n..]))
    case Enable(left) =>
      s.(emptyOn := true, fence := Enqueued(s), writer := if left == [] then Idle else Push(left))
  }

  // ----- the TXFIFO_EMPTY arm -----

  /** uart.c:581-603. */
  function EnterIsr(s: State): State {
    if s.isr != Quiet || !s.emptyOn then s
    else if s.waitingBrk then s.(emptyOn := false, isr := Spinning)
    else s.(emptyOn := false, isr := Draining(if s.fifoCnt <= FIFO_LEN then FIFO_LEN - s.fifoCnt else 0, false))
  }

  /** uart.c:608: a turn needs an item when there is none in hand. tx_len_cur counts only while
      tx_ptr is set, so that it is not initialised does no harm. */
  predicate NeedsItem(s: State) { s.lenTot == 0 || !s.ptr || s.cur == [] }

  /** uart.c:614-626: a descriptor begins the next message. */
  function TakeDescriptor(s: State, size: nat, brk: bool, rem: nat, en: bool): State
    requires s.ring != []
  {
    s.(ring := s.ring[1..], ptr := false, lenTot := size, brkFlg := s.brkFlg || brk, started := s.started + 1,
       isr := Draining(rem, en))
  }

  /** uart.c:627-632: a chunk becomes the item in hand. */
  function TakeData(s: State, bytes: seq<byte>, rem: nat): State
    requires s.ring != []
  {
    s.(ring := s.ring[1..], ptr := true, cur := bytes, isr := Draining(rem, true))
  }

  /** An item taken while tx_ptr is set would be lost. It does not happen. */
  function LoseItem(s: State, rem: nat, en: bool): State
    requires s.ring != []
  {
    s.(ring := s.ring[1..], isr := Draining(rem, en))
  }

  /** uart.c:614-632, for the item at the head of the ring. What kind it is, the handler does not
      look at; an item of the wrong kind would be misread, and that does not happen either. */
  function TakeItem(s: State, rem: nat, en: bool): State
    requires s.ring != []
  {
    var item := s.ring[0];
    if s.lenTot == 0 then
      if item.Desc? then TakeDescriptor(s, item.size, item.brk, rem, en) else LoseItem(s, rem, en)
    else if !s.ptr then TakeData(s, if item.Chunk? then item.bytes else [], rem)
    else LoseItem(s, rem, en)
  }

  predicate CanSend(s: State) { s.lenTot > 0 && s.ptr && s.cur != [] }

  /** uart.c:641-646: `n` bytes of the item in hand go out. */
  function Advanced(s: State, n: nat): State
    requires n <= |s.cur|
  {
    s.(wire := s.wire + s.cur[..n], fifoCnt := s.fifoCnt + n, cur := s.cur[n..], lenTot := Sub32(s.lenTot, n))
  }

  /** uart.c:647-674: the item is returned if it is used up, and a break is requested at the end of
      a message that asks for one. */
  function Settled(s: State, rem: nat, en: bool): State {
    if s.cur != [] then s.(isr := Draining(rem, true))
    else if s.brkFlg && s.lenTot == 0 then
      s.(ptr := false, brkOn := true, waitingBrk := true, isr := Draining(rem, en))
    else s.(ptr := false, isr := Draining(rem, true))
  }

  /** uart.c:641-674. */
  function SendSome(s: State, rem: nat, en: bool): State {
    var n := Min(|s.cur|, rem);
    Settled(Advanced(s, n), rem - n, en)
  }

  /** What one turn of the loop does when it does not leave. */
  function Turn(s: State, rem: nat, en: bool): State
    requires NeedsItem(s) ==> s.ring != []
  {
    var t := if NeedsItem(s) then TakeItem(s, rem, en) else s.(isr := Draining(rem, en));
    if CanSend(t) then SendSome(t, rem, t.isr.en) else t
  }

  /** One turn of the loop, uart.c:607-676, or the code after it, uart.c:677-682. */
  function DrainStep(s: State): State {
    match s.isr
    case Draining(rem, en) =>
      if rem == 0 then s.(isr := Exiting(en))
      else if NeedsItem(s) && s.ring == [] then s.(isr := Exiting(en))
      else Turn(s, rem, en)
    case Exiting(en) => s.(emptyOn := s.emptyOn || en, isr := Quiet)
    case _ => s
  }

  function Step(s: State, e: Event): State {
    match e
    case Write(msg, brk) =>
      if s.writer == Idle && msg != [] then s.(writer := Describe(msg, brk), messages := s.messages + [msg]) else s
    case WriterStep => WriterNext(s)
    case Interrupt => EnterIsr(s)
    case Drain => DrainStep(s)
    case Sent => if s.fifoCnt > 0 then s.(fifoCnt := s.fifoCnt - 1) else s
    case BreakSent =>
      if s.isr == Quiet && s.brkOn then
        s.(brkOn := false, emptyOn := s.emptyOn || s.brkFlg, brkFlg := false,
           waitingBrk := if s.brkFlg then false else s.waitingBrk)
      else s
  }

  function Run(s: State, es: seq<Event>): State {
    Runs.Run(Step, s, es)
  }

  /** What uart_driver_install leaves. */
  predicate Installed(s: State) {
    s.half >= 1 && s.ring == [] && !s.ptr && s.cur == [] && s.lenTot == 0 && !s.brkFlg && !s.waitingBrk &&
    !s.emptyOn && !s.brkOn && s.fifoCnt == 0 && s.isr == Quiet && s.writer == Idle && s.wire == [] &&
    s.messages == [] && s.started == 0 && s.fence == 0
  }

  // ----- the stream -----

  /** Data bytes in the ring. */
  function Data(items: seq<Item>): seq<byte> {
    if items == [] then [] else (if items[0].Chunk? then items[0].bytes else []) + Data(items[1..])
  }

  function Flat(ms: seq<seq<byte>>): seq<byte> {
    if ms == [] then [] else ms[0] + Flat(ms[1..])
  }

  function InHand(s: State): seq<byte> { if s.ptr then s.cur else [] }

  function Enqueued(s: State): nat { |s.wire| + |InHand(s)| + |Data(s.ring)| }

  /** Bytes of the message being written that are not in the ring yet. */
  function Left(w: Writer): seq<byte> { if w == Idle then [] else w.left }

  /** Those of them whose descriptor is in the ring already. */
  function Outstanding(w: Writer): nat { if w.Push? || w.Enable? then |w.left| else 0 }

  /** Items that begin with `tot` bytes of a message to go and end with `end` bytes to go. */
  predicate Parses(items: seq<Item>, tot: nat, end: nat) {
    if items == [] then tot == end
    else
      match items[0]
      case Desc(size, _) => tot == 0 && size > 0 && Parses(items[1..], size, end)
      case Chunk(bytes) => 0 < |bytes| <= tot && Parses(items[1..], tot - |bytes|, end)
  }

  /** The lengths announced by the descriptors. */
  function Announced(items: seq<Item>): seq<nat> {
    if items == [] then [] else (if items[0].Desc? then [items[0].size] else []) + Announced(items[1..])
  }

  function Lengths(ms: seq<seq<byte>>): (ns: seq<nat>)
    ensures |ns| == |ms| && forall i :: 0 <= i < |ns| ==> ns[i] == |ms[i]|
  {
    if ms == [] then [] else [|ms[0]|] + Lengths(ms[1..])
  }

  /** Everything handed to uart_tx_all, as far as the model can see it. */
  function Stream(s: State): seq<byte> { s.wire + InHand(s) + Data(s.ring) + Left(s.writer) }

  predicate Shape(s: State) {
    s.half >= 1 && (s.ptr ==> 0 < |s.cur| <= s.lenTot) &&
    (s.writer != Idle && !s.writer.Enable? ==> s.writer.left != []) &&
    Parses(s.ring, s.lenTot - |InHand(s)|, Outstanding(s.writer))
  }

  /** tx_len_tot is the part of the current message that has not been sent. */
  predicate OnBoundary(s: State) {
    s.started <= |s.messages| && |s.wire| + s.lenTot == |Flat(s.messages[..s.started])| &&
    Announced(s.ring) + (if s.writer.Describe? then [|s.writer.left|] else []) == Lengths(s.messages[s.started..])
  }

  predicate Inv(s: State) { Shape(s) && OnBoundary(s) && Stream(s) == Flat(s.messages) }

  // ----- sequence lemmas -----

  lemma {:induction false} DataAppend(items: seq<Item>, x: Item)
    ensures Data(items + [x]) == Data(items) + if x.Chunk? then x.bytes else []
  {
    if items == [] {
      assert items + [x] == [x];
    } else {
      DataAppend(items[1..], x);
      assert (items + [x])[1..] == items[1..] + [x];
    }
  }

  lemma {:induction false} AnnouncedAppend(items: seq<Item>, x: Item)
    ensures Announced(items + [x]) == Announced(items) + if x.Desc? then [x.size] else []
  {
    if items == [] {
      assert items + [x] == [x];
    } else {
      AnnouncedAppend(items[1..], x);
      assert (items + [x])[1..] == items[1..] + [x];
    }
  }

  /** An item that may follow when `end` bytes of a message are to go. */
  predicate May(x: Item, end: nat) {
    match x
    case Desc(size, _) => end == 0 && size > 0
    case Chunk(bytes) => 0 < |bytes| <= end
  }

  function After(x: Item, end: nat): nat
    requires May(x, end)
  {
    if x.Desc? then x.size else end - |x.bytes|
  }

  lemma {:induction false} ParsesAppend(items: seq<Item>, tot: nat, end: nat, x: Item)
    requires Parses(items, tot, end) && May(x, end)
    ensures Parses(items + [x], tot, After(x, end))
  {
    if items == [] {
      assert (items + [x])[1..] == [];
    } else {
      assert (items + [x])[1..] == items[1..] + [x];
      match items[0]
      case Desc(size, _) => ParsesAppend(items[1..], size, end, x);
      case Chunk(bytes) => ParsesAppend(items[1..], tot - |bytes|, end, x);
    }
  }

  lemma {:induction false} FlatAppend(ms: seq<seq<byte>>, m: seq<byte>)
    ensures Flat(ms + [m]) == Flat(ms) + m
  {
    if ms == [] {
      assert ms + [m] == [m];
    } else {
      FlatAppend(ms[1..], m);
      assert (ms + [m])[1..] == ms[1..] + [m];
    }
  }

  // ----- the writer -----

  lemma WriteBoundary(s: State, msg: seq<byte>, brk: bool)
    requires OnBoundary(s) && s.writer == Idle
    ensures OnBoundary(s.(writer := Describe(msg, brk), messages := s.messages + [msg]))
  {
    var k := s.started;
    assert (s.messages + [msg])[..k] == s.messages[..k];
    assert (s.messages + [msg])[k..] == s.messages[k..] + [msg];
    LengthsAppend(s.messages[k..], msg);
    assert Announced(s.ring) + [] == Announced(s.ring);
  }

  lemma WriteStream(s: State, msg: seq<byte>, brk: bool)
    requires Stream(s) == Flat(s.messages) && s.writer == Idle
    ensures var t := s.(writer := Describe(msg, brk), messages := s.messages + [msg]);
            Stream(t) == Flat(t.messages)
  {
    FlatAppend(s.messages, msg);
    var front := s.wire + InHand(s) + Data(s.ring);
    assert front + [] == front;
  }

  lemma WriteKeeps(s: State, msg: seq<byte>, brk: bool)
    requires Inv(s)
    ensures Inv(Step(s, Write(msg, brk)))
  {
    if s.writer == Idle && msg != [] {
      WriteBoundary(s, msg, brk);
      WriteStream(s, msg, brk);
    }
  }

  lemma {:induction false} LengthsAppend(ms: seq<seq<byte>>, m: seq<byte>)
    ensures Lengths(ms + [m]) == Lengths(ms) + [|m|]
  {
    if ms == [] {
      assert ms + [m] == [m];
    } else {
      LengthsAppend(ms[1..], m);
      assert (ms + [m])[1..] == ms[1..] + [m];
    }
  }

  lemma DescribeKeeps(s: State)
    requires Inv(s) && s.writer.Describe?
    ensures Inv(WriterNext(s))
  {
    var x := Desc(|s.writer.left|, s.writer.brk);
    ParsesAppend(s.ring, s.lenTot - |InHand(s)|, 0, x);
    DataAppend(s.ring, x);
    AnnouncedAppend(s.ring, x);
    assert Data(s.ring) + [] == Data(s.ring);
    assert Announced(s.ring) + [x.size] + [] == Announced(s.ring) + [x.size];
  }

  lemma PushShape(s: State)
    requires Shape(s) && s.writer.Push?
    ensures Shape(WriterNext(s))
  {
    var left := s.writer.left;
    ParsesAppend(s.ring, s.lenTot - |InHand(s)|, |left|, Chunk(left[..Min(s.half, |left|)]));
  }

  lemma PushStream(s: State)
    requires s.writer.Push?
    ensures Stream(WriterNext(s)) == Stream(s)
    ensures Announced(WriterNext(s).ring) == Announced(s.ring)
  {
    var left := s.writer.left;
    var n := Min(s.half, |left|);
    DataAppend(s.ring, Chunk(left[..n]));
    AnnouncedAppend(s.ring, Chunk(left[..n]));
    assert left[..n] + left[n..] == left;
    var front := s.wire + InHand(s);
    assert front + (Data(s.ring) + left[..n]) + left[n..] == front + Data(s.ring) + (left[..n] + left[n..]);
    assert Announced(s.ring) + [] == Announced(s.ring);
  }

  lemma EnableKeeps(s: State)
    requires Inv(s) && s.writer.Enable?
    ensures Inv(WriterNext(s))
  {
  }

  lemma WriterKeeps(s: State)
    requires Inv(s)
    ensures Inv(WriterNext(s))
  {
    if s.writer.Describe? {
      DescribeKeeps(s);
    } else if s.writer.Push? {
      PushShape(s);
      PushStream(s);
    } else if s.writer.Enable? {
      EnableKeeps(s);
    }
  }

  // ----- the drain loop -----

  /** The arm's bookkeeping does not touch the stream. */
  predicate SameStream(s: State, t: State) {
    t.half == s.half && t.ring == s.ring && t.ptr == s.ptr && t.cur == s.cur && t.lenTot == s.lenTot &&
    t.writer == s.writer && t.wire == s.wire && t.messages == s.messages && t.started == s.started
  }

  lemma SameStreamKeeps(s: State, t: State)
    requires Inv(s) && SameStream(s, t)
    ensures Inv(t)
  {
  }

  lemma {:induction false} FlatFirst(ms: seq<seq<byte>>, k: nat)
    requires k < |ms|
    ensures Flat(ms[..k + 1]) == Flat(ms[..k]) + ms[k]
  {
    FlatAppend(ms[..k], ms[k]);
    assert ms[..k + 1] == ms[..k] + [ms[k]];
  }

  lemma NextAnnounced(s: State)
    requires OnBoundary(s) && s.ring != [] && s.ring[0].Desc?
    ensures s.started < |s.messages| && s.ring[0].size == |s.messages[s.started]|
    ensures Announced(s.ring[1..]) + (if s.writer.Describe? then [|s.writer.left|] else []) ==
            Lengths(s.messages[s.started + 1..])
  {
    var k := s.started;
    var w := if s.writer.Describe? then [|s.writer.left|] else [];
    assert Announced(s.ring) + w == [s.ring[0].size] + (Announced(s.ring[1..]) + w);
    assert |Lengths(s.messages[k..])| > 0;
    assert s.messages[k..][0] == s.messages[k] && s.messages[k..][1..] == s.messages[k + 1..];
    assert Lengths(s.messages[k..]) == [|s.messages[k]|] + Lengths(s.messages[k + 1..]);
  }

  lemma TakeBoundary(s: State, rem: nat, en: bool)
    requires OnBoundary(s) && s.ring != [] && s.ring[0].Desc? && s.lenTot == 0
    ensures OnBoundary(TakeDescriptor(s, s.ring[0].size, s.ring[0].brk, rem, en))
  {
    NextAnnounced(s);
    FlatFirst(s.messages, s.started);
  }

  /** The handler takes a descriptor: it is that of the next message. */
  lemma TakeDesc(s: State, rem: nat, en: bool)
    requires Inv(s) && s.ring != [] && s.lenTot == 0
    ensures s.ring[0].Desc? && !s.ptr
    ensures Inv(TakeItem(s, rem, en))
  {
    TakeBoundary(s, rem, en);
    assert [] + Data(s.ring[1..]) == Data(s.ring[1..]);
  }

  /** The handler takes a chunk, and none is lost: tx_ptr is NULL when it does. */
  lemma TakeChunk(s: State, rem: nat, en: bool)
    requires Inv(s) && s.ring != [] && s.lenTot > 0 && NeedsItem(s)
    ensures s.ring[0].Chunk? && !s.ptr
    ensures Inv(TakeItem(s, rem, en))
  {
    assert s.wire + [] + (s.ring[0].bytes + Data(s.ring[1..])) == s.wire + s.ring[0].bytes + Data(s.ring[1..]);
    assert [] + Announced(s.ring[1..]) == Announced(s.ring[1..]);
  }

  /** Bytes sent and the pointer settled. */
  predicate SentFrom(s: State, t: State, n: nat) {
    n <= |s.cur| && t.half == s.half && t.ring == s.ring && t.writer == s.writer && t.messages == s.messages &&
    t.started == s.started && t.wire == s.wire + s.cur[..n] && t.lenTot == Sub32(s.lenTot, n) &&
    t.ptr == (n < |s.cur|) && t.cur == s.cur[n..]
  }

  lemma SentFromKeeps(s: State, t: State, n: nat)
    requires Inv(s) && CanSend(s) && SentFrom(s, t, n)
    ensures Inv(t)
  {
    assert InHand(t) == s.cur[n..];
    assert s.wire + s.cur == s.wire + (s.cur[..n] + s.cur[n..]);
    assert s.wire + s.cur[..n] + s.cur[n..] == s.wire + s.cur;
  }

  lemma SendAdvances(s: State, rem: nat, en: bool)
    requires s.ptr
    ensures SentFrom(s, SendSome(s, rem, en), Min(|s.cur|, rem))
  {
    var n := Min(|s.cur|, rem);
    assert s.cur[n..] != [] <==> n < |s.cur|;
  }

  lemma SendKeeps(s: State, rem: nat, en: bool)
    requires Inv(s) && CanSend(s)
    ensures Inv(SendSome(s, rem, en))
  {
    SendAdvances(s, rem, en);
    SentFromKeeps(s, SendSome(s, rem, en), Min(|s.cur|, rem));
  }

  lemma TakeKeeps(s: State, rem: nat, en: bool)
    requires Inv(s) && s.ring != [] && NeedsItem(s)
    ensures Inv(TakeItem(s, rem, en))
  {
    if s.lenTot == 0 { TakeDesc(s, rem, en); } else { TakeChunk(s, rem, en); }
  }

  lemma TurnKeeps(s: State, rem: nat, en: bool)
    requires Inv(s) && (NeedsItem(s) ==> s.ring != [])
    ensures Inv(Turn(s, rem, en))
  {
    var t := if NeedsItem(s) then TakeItem(s, rem, en) else s.(isr := Draining(rem, en));
    if NeedsItem(s) { TakeKeeps(s, rem, en); } else { SameStreamKeeps(s, t); }
    if CanSend(t) {
      SendKeeps(t, rem, t.isr.en);
    }
  }

  lemma LeaveKeepsStream(s: State)
    requires s.isr.Draining? && s.isr.rem > 0 ==> NeedsItem(s) && s.ring == []
    ensures SameStream(s, DrainStep(s))
  {
  }

  lemma DrainKeeps(s: State)
    requires Inv(s)
    ensures Inv(DrainStep(s))
  {
    if s.isr.Draining? && s.isr.rem > 0 && (NeedsItem(s) ==> s.ring != []) {
      TurnKeeps(s, s.isr.rem, s.isr.en);
    } else {
      LeaveKeepsStream(s);
      SameStreamKeeps(s, DrainStep(s));
    }
  }

  lemma FlagsKeep(s: State, e: Event)
    requires e.Interrupt? || e.Sent? || e.BreakSent?
    ensures SameStream(s, Step(s, e))
  {
  }

  lemma StepKeeps(s: State, e: Event)
    requires Inv(s)
    ensures Inv(Step(s, e))
  {
    match e
    case Write(msg, brk) => WriteKeeps(s, msg, brk);
    case WriterStep => WriterKeeps(s);
    case Drain => DrainKeeps(s);
    case _ =>
      FlagsKeep(s, e);
      SameStreamKeeps(s, Step(s, e));
  }

  lemma InstalledInv(s: State)
    requires Installed(s)
    ensures Inv(s)
  {
  }

  lemma {:induction false} RunKeeps(s: State, es: seq<Event>)
    requires Inv(s)
    ensures Inv(Run(s, es))
    decreases |es|
  {
    if es != [] {
      Runs.Last(Step, s, es);
      RunKeeps(s, es[..|es| - 1]);
      StepKeeps(Run(s, es[..|es| - 1]), es[|es| - 1]);
    }
  }
}
