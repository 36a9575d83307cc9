/**
 The DMX port of the UART driver: the global state that the interrupt handler shares
 between sending and receiving, one handler iteration as a function, and the driver's
 methods proved against it.
 */
module DmxPort {
  import opened Common
  import Runs

  const DATA_BAUD := 250000
  const BREAK_BAUD := 88000
  const START_CODE: byte := 0

  datatype Phase = START | DATA | BREAK | MAB | IDLE | RDM

  /** One byte handed to the transmit FIFO and the baud rate it goes out at. */
  datatype Symbol = Symbol(baud: nat, value: byte)

  datatype State = State(
    phase: Phase,         // _dmx_state
    slot: word,           // _current_slot
    sending: bool,        // _tx_running
    emptyOn: bool,        // int_ena.txfifo_empty
    doneOn: bool,         // int_ena.tx_done
    rxOn: bool,           // int_ena.rxfifo_full
    rxFull: bool,         // rx_buffer_full_flg
    baud: nat,            // the divisor's baud rate
    sinceDone: nat,       // bytes written since TX_DONE was last serviced
    data: seq<byte>,      // _dmx_data
    wire: seq<Symbol>     // every byte written to the transmit FIFO
  ) {
    predicate Valid() { |data| == MAX_SLOTS }
  }

  /** What the hardware presents each time the handler reads int_st: the raw status bits,
      the byte at the head of the receive FIFO, whether the driver's ring buffer would take
      it, and what a read one past the end of _dmx_data returns. */
  datatype Reading = Reading(
    txDone: bool, txEmpty: bool, brk: bool, rx: bool,
    rxByte: byte, accepted: bool, stray: byte)

  /** The masked status word is non-zero. */
  predicate Pending(s: State, r: Reading) {
    (r.txDone && s.doneOn) || (r.txEmpty && s.emptyOn) || r.brk || (r.rx && s.rxOn)
  }

  function Write(s: State, value: byte): (t: State) {
    s.(wire := s.wire + [Symbol(s.baud, value)], sinceDone := s.sinceDone + 1)
  }

  function SlotValue(s: State, stray: byte): byte {
    if s.slot < |s.data| then s.data[s.slot] else stray
  }

  /** uart.c:523-534. The second test sees the result of the first. */
  function TxDone(s: State): State {
    var p := if s.phase == BREAK then START else s.phase;
    var q := if p == DATA then BREAK else p;
    s.(doneOn := false, phase := q, emptyOn := true, sinceDone := 0)
  }

  /** uart.c:537-579. */
  function TxEmpty(s: State, stray: byte): State {
    match s.phase
    case START =>
      Write(s.(baud := DATA_BAUD, slot := 1, phase := DATA), START_CODE)
    case DATA =>
      var t := Write(s, SlotValue(s, stray)).(slot := (s.slot + 1) % 0x1_0000);
      if t.slot >= MAX_SLOTS then t.(emptyOn := false, doneOn := true) else t
    case BREAK =>
      Write(s.(baud := BREAK_BAUD), 0).(emptyOn := false, doneOn := true)
    case _ =>
      s.(phase := START)
  }

  /** uart.c:686-706. */
  function BreakDetected(s: State): State {
    if s.sending then s else s.(phase := BREAK, slot := 0)
  }

  /** uart.c:717-770: one received byte in receive mode. */
  function DmxByte(s: State, b: byte): State {
    match s.phase
    case DATA =>
      if s.slot == 0 && b != 0 then s.(phase := IDLE)
      else
        var t := if s.slot < |s.data| then s.(data := s.data[s.slot := b]) else s;
        var n := (s.slot + 1) % 0x1_0000;
        t.(slot := n, phase := if n >= MAX_SLOTS then IDLE else DATA)
    case BREAK =>
      if b == 0 then s.(phase := DATA, slot := 0) else s.(phase := IDLE)
    case RDM =>
      // the byte goes to the RDM packet, which is not part of this model
      var n := (s.slot + 1) % 0x1_0000;
      s.(slot := n, phase := if n >= MAX_SLOTS then IDLE else RDM)
    case _ => s
  }

  /** uart.c:711-819. While sending, received bytes go to the driver's ring buffer. */
  function RxReady(s: State, r: Reading): State {
    if s.rxFull then s.(rxOn := false)
    else if !s.sending then DmxByte(s, r.rxByte)
    else if r.accepted then s
    else s.(rxOn := false, rxFull := true)
  }

  /** One iteration of the handler's loop. The first bit that is set wins. */
  function Service(s: State, r: Reading): (t: State)
    ensures |t.data| == |s.data|
  {
    if r.txDone && s.doneOn then TxDone(s)
    else if r.txEmpty && s.emptyOn then TxEmpty(s, r.stray)
    else if r.brk then BreakDetected(s)
    else if r.rx && s.rxOn then RxReady(s, r)
    else s
  }

  /** The handler returns from inside the loop (uart.c:558 and 567). */
  predicate Leaves(s: State, r: Reading) {
    !(r.txDone && s.doneOn) && r.txEmpty && s.emptyOn &&
    (s.phase == BREAK || (s.phase == DATA && (s.slot + 1) % 0x1_0000 >= MAX_SLOTS))
  }

  /** The whole handler: it services one reading of the status register after another until
      the masked status is zero or an arm returns. */
  function Handle(s: State, rs: seq<Reading>): (t: State)
    ensures |t.data| == |s.data|
    decreases |rs|
  {
    if rs == [] || !Pending(s, rs[0]) then s
    else if Leaves(s, rs[0]) then Service(s, rs[0])
    else Handle(Service(s, rs[0]), rs[1..])
  }

  /** Everything that changes the port's state. Calls made by tasks are split where an
      interrupt can come between their statements. */
  datatype Event =
    | Isr(r: Reading)
    | AppWrite(at: word, value: byte)   // setDMXData
    | EnableEmpty                       // uart_enable_tx_intr, the register writes
    | MarkStart                         // uart_enable_tx_intr, _dmx_state
    | MarkRunning                       // uart_enable_tx_intr, _tx_running
    | OtherPortEnable                   // uart_enable_tx_intr on another port
    | MarkIdle                          // uart_disable_tx_intr, _dmx_state
    | MarkStopped                       // uart_disable_tx_intr, _tx_running
    | MaskEmpty                         // uart_disable_tx_intr, the mask
    | SetDataBaud                       // uart_set_baudrate(DMX_UART, DMX_DATA_BAUD)

  function Step(s: State, e: Event): (t: State)
    ensures |t.data| == |s.data|
  {
    match e
    case Isr(r) => Service(s, r)
    case AppWrite(at, v) => if at >= |s.data| then s else s.(data := s.data[at := v])
    case EnableEmpty => s.(emptyOn := true)
    case MarkStart => s.(phase := START)
    case MarkRunning => s.(sending := true)
    case OtherPortEnable => s.(sending := true)
    case MarkIdle => s.(phase := IDLE)
    case MarkStopped => s.(sending := false)
    case MaskEmpty => s.(emptyOn := false)
    case SetDataBaud => s.(baud := DATA_BAUD)
  }

  function Run(s: State, es: seq<Event>): State {
    Runs.Run(Step, s, es)
  }

  lemma {:induction false} RunValid(s: State, es: seq<Event>)
    requires s.Valid()
    ensures Run(s, es).Valid()
    decreases |es|
  {
    if es != [] {
      Runs.Last(Step, s, es);
      RunValid(s, es[..|es| - 1]);
    }
  }

  function Isrs(rs: seq<Reading>): (es: seq<Event>)
    ensures |es| == |rs| && forall i :: 0 <= i < |es| ==> es[i] == Isr(rs[i])
  {
    seq(|rs|, i requires 0 <= i < |rs| => Isr(rs[i]))
  }

  /** The state after the first `k` readings are serviced. */
  function After(s: State, rs: seq<Reading>, k: nat): State
    requires k <= |rs|
  {
    Run(s, Isrs(rs[..k]))
  }

  /** Some status bit of the `k`-th reading is raised and enabled when it is read. */
  predicate Raised(s: State, rs: seq<Reading>, k: nat)
    requires k < |rs|
  {
    var t, r := After(s, rs, k), rs[k];
    (r.txDone && t.doneOn) || (r.txEmpty && t.emptyOn) || r.brk || (r.rx && t.rxOn)
  }

  /** The service of the `k`-th reading writes a byte and leaves only TX_DONE to wait for. */
  predicate EndsInWait(s: State, rs: seq<Reading>, k: nat)
    requires k < |rs|
  {
    var t, u := After(s, rs, k), After(s, rs, k + 1);
    |u.wire| > |t.wire| && !u.emptyOn && u.doneOn
  }

  /** How far an activation goes: it services readings for as long as a status bit is raised and no
      service ends in a wait for TX_DONE, and exactly that far. */
  ghost predicate GoesTo(s: State, rs: seq<Reading>, n: nat)
    requires n <= |rs|
  {
    (forall k :: 0 <= k < n ==> Raised(s, rs, k) && (k < n - 1 ==> !EndsInWait(s, rs, k))) &&
    (n < |rs| ==> !Raised(s, rs, n) || (n > 0 && EndsInWait(s, rs, n - 1)))
  }

  lemma LeavesIsEndsInWait(s: State, r: Reading)
    requires Pending(s, r)
    ensures var t := Service(s, r);
            Leaves(s, r) <==> |t.wire| > |s.wire| && !t.emptyOn && t.doneOn
  {
  }

  lemma AfterNext(s: State, rs: seq<Reading>, k: nat)
    requires k < |rs|
    ensures After(s, rs, k + 1) == Service(After(s, rs, k), rs[k])
  {
    assert Isrs(rs[..k + 1]) == Isrs(rs[..k]) + [Isr(rs[k])];
    Runs.Snoc(Step, s, Isrs(rs[..k]), Isr(rs[k]));
  }

  lemma NothingAfter(s: State, rs: seq<Reading>)
    ensures After(s, rs, 0) == s
  {
    assert Isrs(rs[..0]) == [];
  }

  /** The rest of an activation that has serviced `k` readings. */
  lemma {:induction false} HandleFrom(s: State, rs: seq<Reading>, k: nat) returns (n: nat)
    requires k <= |rs|
    requires forall j :: 0 <= j < k ==> Raised(s, rs, j) && !EndsInWait(s, rs, j)
    ensures n <= |rs| && GoesTo(s, rs, n) && Handle(After(s, rs, k), rs[k..]) == After(s, rs, n)
    decreases |rs| - k
  {
    n := k;
    if k < |rs| && Raised(s, rs, k) {
      AfterNext(s, rs, k);
      LeavesIsEndsInWait(After(s, rs, k), rs[k]);
      if Leaves(After(s, rs, k), rs[k]) {
        n := k + 1;
      } else {
        n := HandleFrom(s, rs, k + 1);
        assert rs[k..][1..] == rs[k + 1..];
      }
    }
  }

  /** A handler activation is a run of single services, over the readings that it goes to. */
  lemma HandleIsRun(s: State, rs: seq<Reading>) returns (n: nat)
    ensures n <= |rs| && GoesTo(s, rs, n) && Handle(s, rs) == Run(s, Isrs(rs[..n]))
  {
    NothingAfter(s, rs);
    assert rs[0..] == rs;
    n := HandleFrom(s, rs, 0);
  }

  /** changeDirectionDMXUart(SEND), not interrupted. */
  function StartSending(s: State): State {
    s.(emptyOn := true, phase := START, sending := true)
  }

  /** changeDirectionDMXUart(RECEIVE) up to its mask, not interrupted. */
  function Idled(s: State): State {
    s.(baud := DATA_BAUD, phase := IDLE, sending := false)
  }

  /** changeDirectionDMXUart(RECEIVE), not interrupted. */
  function StopSending(s: State): State {
    Idled(s).(emptyOn := false)
  }

  lemma SwitchesAreRuns(s: State)
    ensures Run(s, [EnableEmpty, MarkStart, MarkRunning]) == StartSending(s)
    ensures Run(s, [SetDataBaud, MarkIdle, MarkStopped]) == Idled(s)
    ensures Run(s, [SetDataBaud, MarkIdle, MarkStopped] + [MaskEmpty]) == StopSending(s)
  {
    Runs.Three(Step, s, EnableEmpty, MarkStart, MarkRunning);
    Runs.Three(Step, s, SetDataBaud, MarkIdle, MarkStopped);
    Runs.Snoc(Step, s, [SetDataBaud, MarkIdle, MarkStopped], MaskEmpty);
  }

  /** The port as uart_driver_install leaves it: TX_DONE is enabled. */
  predicate Installed(s: State) {
    s.Valid() && s.phase == IDLE && s.slot == 0 && !s.sending && !s.emptyOn && s.doneOn &&
    s.rxOn && !s.rxFull && s.baud == DATA_BAUD && s.sinceDone == 0 && s.wire == []
  }

  /** The driver's DMX globals, the interrupt enables they depend on, and _dmx_data. */
  class DmxUart {
    var phase: Phase
    var slot: word
    var sending: bool
    var emptyOn: bool
    var doneOn: bool
    var rxOn: bool
    var rxFull: bool
    var baud: nat
    const data: array<byte>
    ghost var sinceDone: nat
    ghost var wire: seq<Symbol>

    ghost predicate Valid()
      reads this
    {
      data.Length == MAX_SLOTS
    }

    ghost function S(): (s: State)
      reads this, data
      requires Valid()
      ensures s.Valid()
    {
      State(phase, slot, sending, emptyOn, doneOn, rxOn, rxFull, baud, sinceDone, data[..], wire)
    }

    /** uart_driver_install for DMX_UART, with getDMXBuffer() as the shared buffer. */
    constructor (buffer: array<byte>)
      requires buffer.Length == MAX_SLOTS
      ensures Valid() && data == buffer && Installed(S())
    {
      phase, slot, sending := IDLE, 0, false;
      emptyOn, doneOn, rxOn, rxFull := false, true, true, false;
      baud := DATA_BAUD;
      data := buffer;
      sinceDone, wire := 0, [];
    }

    method WriteFifo(value: byte)
      modifies this`wire, this`sinceDone
      ensures wire == old(wire) + [Symbol(baud, value)] && sinceDone == old(sinceDone) + 1
    {
      wire := wire + [Symbol(baud, value)];
      sinceDone := sinceDone + 1;
    }

    /** The START arm: the start code. */
    method BeginFrame()
      requires Valid()
      modifies this`baud, this`slot, this`phase, this`wire, this`sinceDone
      ensures baud == DATA_BAUD && slot == 1 && phase == DATA
      ensures wire == old(wire) + [Symbol(DATA_BAUD, START_CODE)] && sinceDone == old(sinceDone) + 1
    {
      baud := DATA_BAUD;
      slot := 1;
      phase := DATA;
      WriteFifo(START_CODE);
    }

    /** The DATA arm, up to the test for the last slot. */
    method WriteSlot(stray: byte)
      requires Valid()
      modifies this`wire, this`sinceDone, this`slot
      ensures slot == (old(slot) + 1) % 0x1_0000
      ensures wire == old(wire) + [Symbol(baud, if old(slot) < MAX_SLOTS then data[old(slot)] else stray)]
      ensures sinceDone == old(sinceDone) + 1
    {
      WriteFifo(if slot < MAX_SLOTS then data[slot] else stray);
      slot := (slot + 1) % 0x1_0000;
    }

    /** The TX_DONE arm of the handler. */
    method OnTxDone()
      requires Valid()
      modifies this
      ensures S() == TxDone(old(S()))
    {
      doneOn := false;
      sinceDone := 0;
      if phase == BREAK {
        phase := START;
      }
      if phase == DATA {
        phase := BREAK;
      }
      emptyOn := true;
    }

    /** The TXFIFO_EMPTY arm. `left` is true when the handler returns from inside it. */
    method OnTxEmpty(stray: byte) returns (left: bool)
      requires Valid() && emptyOn
      modifies this
      ensures S() == TxEmpty(old(S()), stray)
      ensures left == (old(phase) == BREAK || (old(phase) == DATA && slot >= MAX_SLOTS))
    {
      emptyOn := false;
      left := false;
      match phase {
        case START =>
          BeginFrame();
        case DATA =>
          WriteSlot(stray);
          if slot >= MAX_SLOTS {
            doneOn := true;
            return true;
          }
        case BREAK =>
          baud := BREAK_BAUD;
          WriteFifo(0);
          doneOn := true;
          return true;
        case _ =>
          phase := START;
      }
      emptyOn := true;
    }

    /** The RXFIFO arm when the port is receiving DMX. */
    method OnDmxByte(b: byte)
      requires Valid()
      modifies this, data
      ensures S() == DmxByte(old(S()), b)
    {
      match phase {
        case DATA =>
          if slot == 0 && b != 0 {
            phase := IDLE;
            return;
          }
          if slot < MAX_SLOTS {
            data[slot] := b;
          }
          slot := (slot + 1) % 0x1_0000;
          if slot >= MAX_SLOTS {
            phase := IDLE;
          }
        case BREAK =>
          if b == 0 {
            phase := DATA;
            slot := 0;
          } else {
            phase := IDLE;
          }
        case RDM =>
          slot := (slot + 1) % 0x1_0000;
          if slot >= MAX_SLOTS {
            phase := IDLE;
          }
        case _ =>
      }
    }

    /** int_st read as a masked word. */
    predicate StatusSet(r: Reading)
      reads this
    {
      (r.txDone && doneOn) || (r.txEmpty && emptyOn) || r.brk || (r.rx && rxOn)
    }

    /** One iteration of the handler's loop. */
    method ServiceOne(r: Reading) returns (left: bool)
      requires Valid()
      modifies this, data
      ensures S() == Service(old(S()), r) && left == Leaves(old(S()), r)
    {
      left := false;
      if r.txDone && doneOn {
        OnTxDone();
      } else if r.txEmpty && emptyOn {
        left := OnTxEmpty(r.stray);
      } else if r.brk {
        if !sending {
          phase := BREAK;
          slot := 0;
        }
      } else if r.rx && rxOn {
        if !rxFull {
          if !sending {
            OnDmxByte(r.rxByte);
          } else if !r.accepted {
            rxOn := false;
            rxFull := true;
          }
        } else {
          rxOn := false;
        }
      }
    }

    /** uart_rx_intr_handler_default on the DMX port: it services the first `n` readings, and `n` is how
        far it has to go. */
    method Interrupt(readings: seq<Reading>) returns (ghost n: nat)
      requires Valid()
      modifies this, data
      ensures n <= |readings| && GoesTo(old(S()), readings, n)
      ensures S() == Run(old(S()), Isrs(readings[..n])) == Handle(old(S()), readings)
    {
      n := HandleIsRun(S(), readings);
      var used := 0;
      while used < |readings| && StatusSet(readings[used])
        invariant used <= |readings|
        invariant Handle(S(), readings[used..]) == Handle(old(S()), readings)
      {
        ghost var rest := readings[used..];
        assert rest[1..] == readings[used + 1..];
        var left := ServiceOne(readings[used]);
        if left {
          return;
        }
        used := used + 1;
      }
    }

    /** uart_enable_tx_intr(DMX_UART, 1, 1). */
    method EnableTxIntr()
      requires Valid()
      modifies this
      ensures S() == StartSending(old(S()))
    {
      emptyOn := true;
      phase := START;
      sending := true;
    }

    /** uart_disable_tx_intr(DMX_UART). */
    method DisableTxIntr()
      requires Valid()
      modifies this
      ensures S() == old(S()).(phase := IDLE, sending := false, emptyOn := false)
    {
      phase := IDLE;
      sending := false;
      emptyOn := false;
    }

    /** changeDirectionDMXUart. */
    method ChangeDirection(send: bool)
      requires Valid()
      modifies this
      ensures S() == if send then StartSending(old(S())) else StopSending(old(S()))
    {
      if send {
        EnableTxIntr();
      } else {
        baud := DATA_BAUD;
        DisableTxIntr();
      }
    }

    /** setDMXData on the buffer the handler reads and writes. */
    method SetData(at: word, value: byte)
      requires Valid()
      modifies data
      ensures S() == Step(old(S()), AppWrite(at, value))
    {
      if at >= MAX_SLOTS {
        return;
      }
      data[at] := value;
    }
  }
}
