/**
 What the sending half of the DMX port puts on the wire: whole DMX512-A frames (ANSI E1.11,
 section 8) in every run, and when stopping it really stops it.
 */
module DmxTransmitter {
  import opened Common
  import opened DmxPort
  import Runs

  /** A frame is a break byte, a start code and 512 slots. */
  const FRAME := 514
  /** The two transmit interrupts are serviced 516 times for one frame. */
  const CYCLE := 516

  // ----- frames, independently of the machine -----

  /** `sym` may stand at index `p` of a frame. */
  predicate Fits(sym: Symbol, p: nat) {
    sym.baud == (if p == 0 then 88000 else 250000) && (p <= 1 ==> sym.value == 0)
  }

  ghost predicate IsFrame(log: seq<Symbol>) {
    |log| == FRAME && forall p :: 0 <= p < FRAME ==> Fits(log[p], p)
  }

  /** Whole frames, then a prefix of one. */
  ghost predicate WholeFrames(log: seq<Symbol>)
    decreases |log|
  {
    if |log| < FRAME then forall p :: 0 <= p < |log| ==> Fits(log[p], p)
    else IsFrame(log[..FRAME]) && WholeFrames(log[FRAME..])
  }

  /** The index in its frame of the byte that comes `n` bytes after index `p`. */
  function IndexAfter(p: nat, n: nat): (r: nat)
    requires p < FRAME
    ensures r < FRAME
  {
    (p + n) % FRAME
  }

  /** The rest of a frame that starts at index `p`, then frames. */
  ghost predicate FramesFrom(p: nat, log: seq<Symbol>)
    requires p < FRAME
  {
    forall i :: 0 <= i < |log| ==> Fits(log[i], IndexAfter(p, i))
  }

  lemma FramesAppend(p: nat, a: seq<Symbol>, b: seq<Symbol>)
    requires p < FRAME && FramesFrom(p, a) && FramesFrom(IndexAfter(p, |a|), b)
    ensures FramesFrom(p, a + b)
  {
    forall i | 0 <= i < |a + b| ensures Fits((a + b)[i], IndexAfter(p, i)) {
      if i >= |a| {
        FitsLater(p, |a|, b, i - |a|);
      }
    }
  }

  lemma FitsLater(p: nat, m: nat, b: seq<Symbol>, i: nat)
    requires p < FRAME && FramesFrom(IndexAfter(p, m), b) && i < |b|
    ensures Fits(b[i], IndexAfter(p, m + i))
  {
  }

  lemma {:induction false} FramesFromIsWhole(log: seq<Symbol>)
    requires FramesFrom(0, log)
    ensures WholeFrames(log)
    decreases |log|
  {
    assert forall p :: 0 <= p < |log| && p < FRAME ==> Fits(log[p], IndexAfter(0, p));
    if |log| >= FRAME {
      var rest := log[FRAME..];
      forall i | 0 <= i < |rest| ensures Fits(rest[i], IndexAfter(0, i)) {
        assert rest[i] == log[FRAME + i];
      }
      FramesFromIsWhole(rest);
    }
  }

  // ----- the sender in step -----

  /** Exactly one of the two transmit interrupts is enabled, the one that the phase calls for. */
  predicate Synced(s: State) {
    s.Valid() && s.emptyOn != s.doneOn &&
    match s.phase
    case START => s.emptyOn
    case BREAK => true
    case DATA => 1 <= s.slot <= MAX_SLOTS && (s.doneOn <==> s.slot == MAX_SLOTS) && s.baud == DATA_BAUD
    case _ => false
  }

  /** How many transmit interrupts have been serviced since the frame began. */
  function Cycle(s: State): (c: nat)
    requires Synced(s)
    ensures c < CYCLE
  {
    match s.phase
    case BREAK => if s.emptyOn then 0 else 1
    case START => 2
    case DATA => s.slot + 2
  }

  function NextCycle(c: nat): nat { if c == CYCLE - 1 then 0 else c + 1 }

  /** A byte is written by every service but the two that follow a TX_DONE wait. */
  predicate Writes(c: nat) { c != 1 && c != CYCLE - 1 }

  /** Index in the frame of the next byte to be written. */
  function Position(c: nat): (p: nat)
    requires c < CYCLE
    ensures p < FRAME
  {
    if c == 0 || c == CYCLE - 1 then 0 else if c == 1 then 1 else c - 1
  }

  /** The byte the frame calls for at this moment: for a slot, the buffer's own value. */
  function Due(s: State): Symbol
    requires Synced(s)
  {
    var p := Position(Cycle(s));
    if p == 0 then Symbol(BREAK_BAUD, 0)
    else if p == 1 then Symbol(DATA_BAUD, 0)
    else Symbol(DATA_BAUD, s.data[p - 1])
  }

  /** The event is the service of a transmit interrupt. */
  predicate Services(s: State, e: Event) {
    e.Isr? && ((e.r.txDone && s.doneOn) || (e.r.txEmpty && s.emptyOn))
  }

  /** Not a direction change. Another port may send at any time. */
  predicate NoDirectionChange(e: Event) {
    e.Isr? || e.AppWrite? || e.OtherPortEnable?
  }

  ghost predicate NoDirectionChanges(es: seq<Event>) {
    forall i :: 0 <= i < |es| ==> NoDirectionChange(es[i])
  }

  /** Symbols an event writes from `s` if the sender is in step. */
  function Emits(s: State, e: Event): seq<Symbol> {
    if Synced(s) && Services(s, e) && Writes(Cycle(s)) then [Due(s)] else []
  }

  /** From `s` to `t` one event's worth of the cycle. */
  ghost predicate Advances(s: State, t: State, serviced: bool)
    requires Synced(s)
  {
    Synced(t) && t.sending &&
    Cycle(t) == (if serviced then NextCycle(Cycle(s)) else Cycle(s)) &&
    t.wire == s.wire + (if serviced && Writes(Cycle(s)) then [Due(s)] else [])
  }

  lemma DoneAdvances(s: State)
    requires Synced(s) && s.sending && s.doneOn
    ensures Advances(s, TxDone(s), true)
  {
  }

  lemma EmptyAdvances(s: State, stray: byte)
    requires Synced(s) && s.sending && s.emptyOn
    ensures Advances(s, TxEmpty(s, stray), true)
  {
    if s.phase == DATA {
      assert SlotValue(s, stray) == s.data[s.slot];
    }
  }

  /** One event keeps the sender in step: it writes exactly when the cycle says so, and then the
      symbol the frame calls for. */
  lemma SyncedStep(s: State, e: Event)
    requires Synced(s) && s.sending && NoDirectionChange(e)
    ensures Advances(s, Step(s, e), Services(s, e))
    ensures Step(s, e).wire == s.wire + Emits(s, e)
  {
    if e.Isr? {
      if e.r.txDone && s.doneOn {
        DoneAdvances(s);
      } else if e.r.txEmpty && s.emptyOn {
        EmptyAdvances(s, e.r.stray);
      }
    }
  }

  /** The symbols a run ought to write, read off the buffer at each write. */
  ghost function Expected(s: State, es: seq<Event>): seq<Symbol>
    decreases |es|
  {
    if es == [] then [] else
    var k := |es| - 1;
    Expected(s, es[..k]) + Emits(Run(s, es[..k]), es[k])
  }

  /** How many transmit interrupts a run services. */
  ghost function Serviced(s: State, es: seq<Event>): nat
    decreases |es|
  {
    if es == [] then 0 else
    var k := |es| - 1;
    Serviced(s, es[..k]) + if Services(Run(s, es[..k]), es[k]) then 1 else 0
  }

  /** Bytes written by `n` services from cycle `c` on. */
  function BytesFrom(c: nat, n: nat): nat
    requires c < CYCLE
  {
    if n == 0 then 0 else BytesFrom(c, n - 1) + if Writes(CycleAfter(c, n - 1)) then 1 else 0
  }

  function CycleAfter(c: nat, n: nat): (r: nat)
    requires c < CYCLE
    ensures r < CYCLE
  {
    if n == 0 then c else NextCycle(CycleAfter(c, n - 1))
  }

  lemma {:induction false} PositionAfter(c: nat, n: nat)
    requires c < CYCLE
    ensures Position(CycleAfter(c, n)) == IndexAfter(Position(c), BytesFrom(c, n))
  {
    if n > 0 {
      var d, m := CycleAfter(c, n - 1), BytesFrom(c, n - 1);
      PositionAfter(c, n - 1);
      NextPosition(d);
      NextCycleAfter(c, n - 1);
      IndexAfterSum(Position(c), m, if Writes(d) then 1 else 0);
      assert BytesFrom(c, n) == m + if Writes(d) then 1 else 0;
    }
  }

  lemma NextCycleAfter(c: nat, n: nat)
    requires c < CYCLE
    ensures CycleAfter(c, n + 1) == NextCycle(CycleAfter(c, n))
  {
  }

  lemma IndexAfterSum(p: nat, m: nat, n: nat)
    requires p < FRAME
    ensures IndexAfter(p, m + n) == IndexAfter(IndexAfter(p, m), n)
  {
  }

  lemma NextPosition(c: nat)
    requires c < CYCLE
    ensures Position(NextCycle(c)) == IndexAfter(Position(c), if Writes(c) then 1 else 0)
  {
  }

  lemma ExtendFrames(p: nat, log: seq<Symbol>, t: State, e: Event)
    requires p < FRAME && FramesFrom(p, log) && Synced(t)
    requires Position(Cycle(t)) == IndexAfter(p, |log|)
    ensures FramesFrom(p, log + Emits(t, e))
  {
    assert Fits(Due(t), Position(Cycle(t)));
  }

  /** `log` and `n` are what was written and serviced on the way from `s` to `t`. */
  ghost predicate InStepAfter(s: State, t: State, log: seq<Symbol>, n: nat)
    requires Synced(s)
  {
    Synced(t) && t.sending && t.wire == s.wire + log &&
    Cycle(t) == CycleAfter(Cycle(s), n) && |log| == BytesFrom(Cycle(s), n)
  }

  lemma InStepNext(s: State, t: State, u: State, log: seq<Symbol>, n: nat, serviced: bool)
    requires Synced(s) && InStepAfter(s, t, log, n) && Advances(t, u, serviced)
    ensures InStepAfter(s, u, log + (if serviced && Writes(Cycle(t)) then [Due(t)] else []),
                        if serviced then n + 1 else n)
  {
  }

  lemma {:induction false} SyncedRun(s: State, es: seq<Event>)
    requires Synced(s) && s.sending && NoDirectionChanges(es)
    ensures InStepAfter(s, Run(s, es), Expected(s, es), Serviced(s, es))
    decreases |es|
  {
    if es == [] {
      assert s.wire + [] == s.wire;
    } else {
      Runs.Last(Step, s, es);
      var init, e := es[..|es| - 1], es[|es| - 1];
      SyncedRun(s, init);
      var t := Run(s, init);
      SyncedStep(t, e);
      InStepNext(s, t, Step(t, e), Expected(s, init), Serviced(s, init), Services(t, e));
    }
  }

  lemma {:induction false} FramedRun(s: State, es: seq<Event>)
    requires Synced(s) && s.sending && NoDirectionChanges(es)
    ensures FramesFrom(Position(Cycle(s)), Expected(s, es))
    decreases |es|
  {
    if es != [] {
      var init := es[..|es| - 1];
      FramedRun(s, init);
      SyncedRun(s, init);
      PositionAfter(Cycle(s), Serviced(s, init));
      ExtendFrames(Position(Cycle(s)), Expected(s, init), Run(s, init), es[|es| - 1]);
    }
  }

  /** Main theorem of the sender. From a state in step, whatever the hardware reports and
      whatever tasks write to the buffer: the run writes the expected symbols, which continue the
      frame where it stood, and how many is fixed by how many transmit interrupts it serviced. */
  lemma TransmitRun(s: State, es: seq<Event>)
    requires Synced(s) && s.sending && NoDirectionChanges(es)
    ensures Synced(Run(s, es)) && Run(s, es).sending
    ensures Run(s, es).wire == s.wire + Expected(s, es)
    ensures FramesFrom(Position(Cycle(s)), Expected(s, es))
    ensures Cycle(Run(s, es)) == CycleAfter(Cycle(s), Serviced(s, es))
    ensures |Expected(s, es)| == BytesFrom(Cycle(s), Serviced(s, es))
  {
    SyncedRun(s, es);
    FramedRun(s, es);
  }

  lemma PositionReached(s: State, es: seq<Event>)
    requires Synced(s) && s.sending && NoDirectionChanges(es)
    ensures Synced(Run(s, es)) && Run(s, es).sending
    ensures Position(Cycle(Run(s, es))) == IndexAfter(Position(Cycle(s)), |Expected(s, es)|)
    ensures |Run(s, es).wire| == |s.wire| + |Expected(s, es)|
  {
    TransmitRun(s, es);
    PositionAfter(Cycle(s), Serviced(s, es));
  }

  lemma {:induction false} CycleWithinFrame(n: nat)
    requires n < CYCLE
    ensures CycleAfter(0, n) == n
    ensures BytesFrom(0, n) == if n == 0 then 0 else if n <= 2 then 1 else n - 1
  {
    if n > 0 {
      CycleWithinFrame(n - 1);
    }
  }

  lemma {:induction false} BytesFromSplit(c: nat, m: nat, n: nat)
    requires c < CYCLE
    ensures CycleAfter(c, m + n) == CycleAfter(CycleAfter(c, m), n)
    ensures BytesFrom(c, m + n) == BytesFrom(c, m) + BytesFrom(CycleAfter(c, m), n)
  {
    if n > 0 {
      BytesFromSplit(c, m, n - 1);
    }
  }

  /** A whole cycle from anywhere writes one frame's worth and comes back. */
  lemma WholeCycle(c: nat)
    requires c < CYCLE
    ensures CycleAfter(c, CYCLE) == c && BytesFrom(c, CYCLE) == FRAME
  {
    CycleWithinFrame(c);
    CycleWithinFrame(CYCLE - 1);
    BytesFromSplit(0, c, CYCLE);
    BytesFromSplit(0, CYCLE, c);
  }

  /** Exactly 516 serviced transmit interrupts, however they are spread over the run and wherever in
      a frame they begin, write 514 bytes that fit the frame there, and come back to the same place;
      from a frame's start they are that frame. */
  lemma OneFramePer516Interrupts(s: State, es: seq<Event>)
    requires Synced(s) && s.sending && NoDirectionChanges(es) && Serviced(s, es) == CYCLE
    ensures Run(s, es).wire == s.wire + Expected(s, es) && |Expected(s, es)| == FRAME
    ensures FramesFrom(Position(Cycle(s)), Expected(s, es))
    ensures Synced(Run(s, es)) && Cycle(Run(s, es)) == Cycle(s)
    ensures Cycle(s) == 0 ==> IsFrame(Expected(s, es))
  {
    TransmitRun(s, es);
    WholeCycle(Cycle(s));
    if Cycle(s) == 0 {
      FramesFromIsWhole(Expected(s, es));
      assert Expected(s, es)[..FRAME] == Expected(s, es);
    }
  }

  // ----- baud rate changes -----

  /** Where the next write changes the baud rate, nothing was written since TX_DONE. */
  predicate Settled(s: State) {
    Synced(s) && (s.phase == START || (s.phase == BREAK && s.emptyOn) ==> s.sinceDone == 0)
  }

  lemma SettledStep(s: State, e: Event)
    requires Settled(s) && s.sending && NoDirectionChange(e)
    ensures Settled(Step(s, e)) && Step(s, e).sending
    ensures Step(s, e).baud != s.baud ==> s.sinceDone == 0
  {
    SyncedStep(s, e);
  }

  /** No byte is in flight when the baud rate changes under it: since the last byte was written
      TX_DONE has been serviced. */
  lemma {:induction false} BaudChangesWhenIdle(s: State, es: seq<Event>)
    requires Settled(s) && s.sending && NoDirectionChanges(es)
    ensures Settled(Run(s, es)) && Run(s, es).sending
    ensures forall k :: 0 <= k < |es| && Run(s, es[..k + 1]).baud != Run(s, es[..k]).baud
                        ==> Run(s, es[..k]).sinceDone == 0
    decreases |es|
  {
    if es != [] {
      Runs.Last(Step, s, es);
      var init := es[..|es| - 1];
      BaudChangesWhenIdle(s, init);
      SettledStep(Run(s, init), es[|es| - 1]);
      forall k | 0 <= k < |es| && Run(s, es[..k + 1]).baud != Run(s, es[..k]).baud
        ensures Run(s, es[..k]).sinceDone == 0
      {
        if k < |es| - 1 {
          assert init[..k + 1] == es[..k + 1] && init[..k] == es[..k];
        } else {
          assert es[..k + 1] == es;
        }
      }
    }
  }

  // ----- the wire only grows -----

  lemma WireStep(s: State, e: Event)
    ensures s.wire <= Step(s, e).wire && |Step(s, e).wire| <= |s.wire| + 1
  {
    if e.Isr? && Services(s, e) && !(e.r.txDone && s.doneOn) {
      assert TxEmpty(s, e.r.stray).wire == s.wire || exists y :: TxEmpty(s, e.r.stray).wire == s.wire + [y];
    } else {
      assert Step(s, e).wire == s.wire;
    }
  }

  lemma {:induction false} WireGrows(s: State, es: seq<Event>)
    ensures s.wire <= Run(s, es).wire && |Run(s, es).wire| <= |s.wire| + |es|
    decreases |es|
  {
    if es != [] {
      Runs.Last(Step, s, es);
      WireGrows(s, es[..|es| - 1]);
      WireStep(Run(s, es[..|es| - 1]), es[|es| - 1]);
    }
  }

  /** What a run writes. */
  ghost function Written(s: State, es: seq<Event>): (log: seq<Symbol>)
    ensures Run(s, es).wire == s.wire + log && |log| <= |es|
  {
    WireGrows(s, es);
    Run(s, es).wire[|s.wire|..]
  }

  lemma WrittenAppend(s: State, a: seq<Event>, b: seq<Event>)
    ensures Written(s, a + b) == Written(s, a) + Written(Run(s, a), b)
  {
    Runs.Append(Step, s, a, b);
  }

  lemma WrittenOne(s: State, e: Event, more: seq<Symbol>)
    requires Step(s, e).wire == s.wire + more
    ensures Written(s, [e]) == more
  {
    Runs.Single(Step, s, e);
  }

  lemma NoChangesCons(e: Event, es: seq<Event>)
    requires NoDirectionChange(e) && NoDirectionChanges(es)
    ensures NoDirectionChanges([e] + es) && NoDirectionChanges([e])
  {
  }

  // ----- the sender does not switch itself off -----

  /** One of the two transmit interrupts is enabled. */
  predicate Alive(s: State) { s.Valid() && (s.emptyOn || s.doneOn) }

  /** Whatever the phase, interrupts alone never switch the sender off: only the mask of
      uart_disable_tx_intr does, and only with TX_DONE masked. */
  lemma {:induction false} OnlyMaskStopsSender(s: State, es: seq<Event>)
    requires Alive(s) && forall i :: 0 <= i < |es| ==> es[i] != MaskEmpty
    ensures Alive(Run(s, es))
    decreases |es|
  {
    if es != [] {
      Runs.Last(Step, s, es);
      OnlyMaskStopsSender(s, es[..|es| - 1]);
      AliveStep(Run(s, es[..|es| - 1]), es[|es| - 1]);
    }
  }

  lemma AliveService(s: State, r: Reading)
    requires Alive(s)
    ensures Alive(Service(s, r))
  {
  }

  lemma AliveStep(s: State, e: Event)
    requires Alive(s) && e != MaskEmpty
    ensures Alive(Step(s, e))
  {
    if e.Isr? {
      AliveService(s, e.r);
    }
  }

  // ----- starting -----

  /** uart_enable_tx_intr(DMX_UART, 1, 1), with `m` coming between the register writes, which turn the
      interrupt on, and the first global, and `n` between the two globals. */
  function StartCall(m: seq<Event>, n: seq<Event>): seq<Event> {
    [EnableEmpty] + m + [MarkStart] + n + [MarkRunning]
  }

  /** What such a call leaves: one transmit interrupt is on, and with all slots sent only TX_DONE. */
  predicate Loose(s: State) {
    Alive(s) && (s.phase == DATA ==> s.slot <= MAX_SLOTS && (s.slot == MAX_SLOTS ==> !s.emptyOn))
  }

  lemma LooseStep(s: State, e: Event)
    requires Loose(s) && NoDirectionChange(e)
    ensures Loose(Step(s, e)) && (s.sending ==> Step(s, e).sending)
  {
    if e.Isr? && !Services(s, e) {
      assert Step(s, e).emptyOn == s.emptyOn && Step(s, e).doneOn == s.doneOn;
    }
  }

  lemma {:induction false} LooseRun(s: State, es: seq<Event>)
    requires Loose(s) && NoDirectionChanges(es)
    ensures Loose(Run(s, es)) && (s.sending ==> Run(s, es).sending)
    decreases |es|
  {
    if es != [] {
      Runs.Last(Step, s, es);
      LooseRun(s, es[..|es| - 1]);
      LooseStep(Run(s, es[..|es| - 1]), es[|es| - 1]);
    }
  }

  lemma StartCallRuns(s: State, m: seq<Event>, n: seq<Event>)
    ensures Run(s, StartCall(m, n)) == Step(Run(Step(Run(Step(s, EnableEmpty), m), MarkStart), n), MarkRunning)
  {
    var front := [EnableEmpty] + m;
    Runs.Cons(Step, s, EnableEmpty, m);
    Runs.Snoc(Step, s, front, MarkStart);
    Runs.Append(Step, s, front + [MarkStart], n);
    Runs.Snoc(Step, s, front + [MarkStart] + n, MarkRunning);
  }

  lemma StartCallStarts(s: State, m: seq<Event>, n: seq<Event>)
    requires s.Valid() && NoDirectionChanges(m) && NoDirectionChanges(n)
    ensures Loose(Run(s, StartCall(m, n))) && Run(s, StartCall(m, n)).sending
    ensures n == [] ==> Run(s, StartCall(m, n)).phase == START
    ensures m == [] && n == [] ==> Run(s, StartCall(m, n)) == StartSending(s)
  {
    StartCallRuns(s, m, n);
    OnlyMaskStopsSender(Step(s, EnableEmpty), m);
    LooseRun(Step(Run(Step(s, EnableEmpty), m), MarkStart), n);
  }

  // ----- the first frame -----

  /** The event is the service of TX_DONE. */
  predicate ServicesDone(s: State, e: Event) { e.Isr? && e.r.txDone && s.doneOn }

  /** After `cut`, written since `s`: the frame that was under way goes on in `t`, or, if `synced`, the
      sender has come in step at the end of it. A frame that began at the start code is one. */
  ghost predicate Begun(s: State, t: State, cut: seq<Symbol>, synced: bool) {
    t.wire == s.wire + cut && |cut| < FRAME && (s.phase == START ==> FramesFrom(1, cut)) &&
    if synced then
      Synced(t) && t.sending && (Cycle(t) == 0 || (Cycle(t) == 2 && cut == []) || (Cycle(t) == 1 && |cut| == 1)) &&
      (s.phase == START ==> Cycle(t) != 1)
    else
      Loose(t) && t.sending && (if t.phase == DATA then |cut| <= t.slot else cut == []) &&
      (s.phase == START ==>
         t.phase == START || (t.phase == DATA && |cut| == t.slot && t.slot >= 1 && t.baud == DATA_BAUD))
  }

  lemma BegunDone(s: State, t: State, e: Event, cut: seq<Symbol>)
    requires Begun(s, t, cut, false) && ServicesDone(t, e)
    ensures Begun(s, Step(t, e), cut, t.phase in {START, DATA, BREAK})
  {
  }

  lemma BegunOther(s: State, t: State, e: Event, cut: seq<Symbol>)
    requires Begun(s, t, cut, false) && NoDirectionChange(e) && !Services(t, e)
    ensures Begun(s, Step(t, e), cut, false)
  {
  }

  /** The byte that TXFIFO_EMPTY writes. */
  function Writing(t: State, stray: byte): seq<Symbol> {
    match t.phase
    case START => [Symbol(DATA_BAUD, START_CODE)]
    case DATA => [Symbol(t.baud, SlotValue(t, stray))]
    case BREAK => [Symbol(BREAK_BAUD, 0)]
    case _ => []
  }

  lemma BegunFits(t: State, stray: byte, cut: seq<Symbol>)
    requires FramesFrom(1, cut) && Loose(t) && t.emptyOn
    requires (t.phase == START && cut == []) || (t.phase == DATA && |cut| == t.slot >= 1 && t.baud == DATA_BAUD)
    ensures FramesFrom(1, cut + Writing(t, stray))
  {
    var more := Writing(t, stray);
    forall i | 0 <= i < |more| ensures Fits(more[i], IndexAfter(1 + |cut|, i)) {
      assert i == 0 && Fits(more[0], 1 + |cut|);
    }
    FramesAppend(1, cut, more);
  }

  lemma EmptyWrites(t: State, stray: byte)
    ensures TxEmpty(t, stray).wire == t.wire + Writing(t, stray)
  {
  }

  lemma BegunSlot(s: State, t: State, stray: byte, cut: seq<Symbol>)
    requires Begun(s, t, cut, false) && t.emptyOn && t.phase == DATA
    ensures Begun(s, TxEmpty(t, stray), cut + Writing(t, stray), false)
  {
    EmptyWrites(t, stray);
    assert s.wire + cut + Writing(t, stray) == s.wire + (cut + Writing(t, stray));
    if s.phase == START {
      BegunFits(t, stray, cut);
    }
  }

  lemma BegunEmpty(s: State, t: State, stray: byte, cut: seq<Symbol>)
    requires Begun(s, t, cut, false) && t.emptyOn
    ensures Begun(s, TxEmpty(t, stray), cut + Writing(t, stray), t.phase == BREAK)
  {
    if t.phase == DATA {
      BegunSlot(s, t, stray, cut);
    } else {
      EmptyWrites(t, stray);
      assert cut == [] && cut + Writing(t, stray) == Writing(t, stray);
      if s.phase == START {
        BegunFits(t, stray, cut);
      }
    }
  }

  /** Every run from a start splits where the sender comes in step. */
  lemma {:induction false} BegunRun(s: State, es: seq<Event>)
    returns (a: seq<Event>, b: seq<Event>, cut: seq<Symbol>, synced: bool)
    requires Loose(s) && s.sending && NoDirectionChanges(es) && (s.phase == DATA ==> s.slot <= MAX_SLOTS)
    ensures es == a + b && NoDirectionChanges(b) && Begun(s, Run(s, a), cut, synced)
    ensures !synced ==> b == []
    decreases |es|
  {
    if es == [] {
      a, b, cut, synced := [], [], [], false;
      assert s.wire + [] == s.wire;
    } else {
      var init, e := es[..|es| - 1], es[|es| - 1];
      a, b, cut, synced := BegunRun(s, init);
      if synced {
        b := b + [e];
      } else {
        var t := Run(s, a);
        Runs.Snoc(Step, s, a, e);
        if ServicesDone(t, e) {
          BegunDone(s, t, e, cut);
          synced := t.phase in {START, DATA, BREAK};
        } else if Services(t, e) {
          BegunEmpty(s, t, e.r.stray, cut);
          cut, synced := cut + Writing(t, e.r.stray), t.phase == BREAK;
        } else {
          BegunOther(s, t, e, cut);
        }
        a := a + [e];
      }
      assert es == init + [e];
    }
  }

  lemma BegunWire(s: State, a: seq<Event>, b: seq<Event>, cut: seq<Symbol>, synced: bool)
    requires NoDirectionChanges(b) && Begun(s, Run(s, a), cut, synced) && (!synced ==> b == [])
    ensures Written(s, a + b) == cut + Expected(Run(s, a), b)
    ensures synced ==> FramesFrom(Position(Cycle(Run(s, a))), Expected(Run(s, a), b))
  {
    WrittenAppend(s, a, b);
    if synced {
      TransmitRun(Run(s, a), b);
    }
  }

  /** Frames that begin at the start code are at most one frame without its break, then whole
      frames. */
  lemma SplitAtBreak(log: seq<Symbol>) returns (k: nat)
    requires FramesFrom(1, log)
    ensures k == (if |log| < FRAME then |log| else FRAME - 1) && FramesFrom(1, log[..k]) && FramesFrom(0, log[k..])
  {
    k := if |log| < FRAME then |log| else FRAME - 1;
    assert log[..k] + log[k..] == log;
    FramesOfRest(1, log[..k], log[k..]);
    assert k == FRAME - 1 || log[k..] == [];
  }

  /** Where the first whole frame begins: after `off` bytes. */
  lemma FirstWholeFrame(s: State, a: seq<Event>, b: seq<Event>, cut: seq<Symbol>, synced: bool) returns (off: nat)
    requires NoDirectionChanges(b) && Begun(s, Run(s, a), cut, synced) && (!synced ==> b == [])
    ensures |cut| <= off <= |Written(s, a + b)| && off <= FRAME
    ensures FramesFrom(0, Written(s, a + b)[off..])
    ensures s.phase == START ==> off < FRAME && FramesFrom(1, Written(s, a + b)[..off])
    ensures off + FRAME <= |Written(s, a + b)| ==> synced && IndexAfter(Position(Cycle(Run(s, a))), off - |cut|) == 0
  {
    var sent := Expected(Run(s, a), b);
    BegunWire(s, a, b, cut, synced);
    var k := 0;
    if synced && Cycle(Run(s, a)) != 0 {
      k := SplitAtBreak(sent);
    }
    off := |cut| + k;
    SliceAppend(cut, sent, k);
    assert (cut + sent)[..off] == if k == 0 then cut else cut + sent[..k];
    assert cut == [] ==> cut + sent[..k] == sent[..k];
    assert sent[0..] == sent;
  }

  /** Startup, for every run and every interrupt inside the call: after what those interrupts wrote,
      the wire carries at most one frame that may be cut short or lack its break, and from then on
      whole frames. If the phase is START when the call returns, that frame has its slots in place. */
  lemma OnlyFirstFrameMayBeCut(s: State, m: seq<Event>, n: seq<Event>, es: seq<Event>)
    returns (early: seq<Symbol>, cut: seq<Symbol>, rest: seq<Symbol>)
    requires s.Valid() && NoDirectionChanges(m) && NoDirectionChanges(n) && NoDirectionChanges(es)
    ensures Written(s, StartCall(m, n) + es) == early + (cut + rest) && early == Written(s, StartCall(m, n))
    ensures |cut| <= FRAME && FramesFrom(0, rest) && WholeFrames(rest)
    ensures Run(s, StartCall(m, n)).phase == START ==> |cut| < FRAME && FramesFrom(1, cut)
  {
    var t := Run(s, StartCall(m, n));
    StartCallStarts(s, m, n);
    early := Written(s, StartCall(m, n));
    var a, b, first, synced := BegunRun(t, es);
    var off := FirstWholeFrame(t, a, b, first, synced);
    WrittenAppend(s, StartCall(m, n), es);
    cut, rest := Written(t, es)[..off], Written(t, es)[off..];
    FramesFromIsWhole(rest);
  }

  // ----- when the first frame is kept -----

  lemma FramesOfRest(p: nat, a: seq<Symbol>, b: seq<Symbol>)
    requires p < FRAME && FramesFrom(p, a + b)
    ensures FramesFrom(p, a) && FramesFrom(IndexAfter(p, |a|), b)
  {
    forall i | 0 <= i < |a| ensures Fits(a[i], IndexAfter(p, i)) {
      assert (a + b)[i] == a[i];
    }
    forall i | 0 <= i < |b| ensures Fits(b[i], IndexAfter(IndexAfter(p, |a|), i)) {
      assert (a + b)[|a| + i] == b[i];
    }
  }

  const TICK := Isr(Reading(true, true, false, false, 0, true, 0))

  /** Exactly one transmit interrupt is on, and the next byte it will write is the one for index `q` of
      a frame. */
  predicate Continues(s: State, q: nat) {
    !(s.emptyOn && s.doneOn) &&
    match s.phase
    case BREAK => q == (if s.emptyOn then 0 else 1)
    case DATA => if s.doneOn then q == 0 else s.slot >= 1 && s.baud == DATA_BAUD && q == s.slot + 1
    case _ => q == 1
  }

  lemma ContinuesEmpty(s: State, q: nat, stray: byte)
    requires Loose(s) && s.sending && q < FRAME && Continues(s, q) && s.emptyOn
    ensures var more := Writing(s, stray);
            TxEmpty(s, stray).wire == s.wire + more && FramesFrom(q, more) &&
            Continues(TxEmpty(s, stray), IndexAfter(q, |more|))
  {
  }

  lemma ContinuesStep(s: State, q: nat, e: Event) returns (more: seq<Symbol>)
    requires Loose(s) && s.sending && q < FRAME && Continues(s, q) && NoDirectionChange(e)
    ensures Step(s, e).wire == s.wire + more && FramesFrom(q, more) && Continues(Step(s, e), IndexAfter(q, |more|))
  {
    more := [];
    assert IndexAfter(q, 0) == q;
    if e.Isr? && Services(s, e) && !ServicesDone(s, e) {
      ContinuesEmpty(s, q, e.r.stray);
      more := Writing(s, e.r.stray);
    }
  }

  lemma {:induction false} ContinuesRun(s: State, q: nat, es: seq<Event>)
    requires Loose(s) && s.sending && q < FRAME && Continues(s, q) && NoDirectionChanges(es)
    ensures FramesFrom(q, Written(s, es))
    decreases |es|
  {
    if es != [] {
      var e, rest := es[0], es[1..];
      var more := ContinuesStep(s, q, e);
      LooseStep(s, e);
      ContinuesRun(Step(s, e), IndexAfter(q, |more|), rest);
      WrittenOne(s, e, more);
      Runs.Single(Step, s, e);
      WrittenAppend(s, [e], rest);
      assert es == [e] + rest;
      FramesAppend(q, more, Written(Step(s, e), rest));
    }
  }

  /** Some run writes a byte that does not fit a frame entered at index `q`. */
  ghost predicate Misfits(s: State, q: nat)
    requires q < FRAME
  {
    exists es :: NoDirectionChanges(es) && !FramesFrom(q, Written(s, es))
  }

  lemma MisfitsBefore(s: State, q: nat, e: Event, more: seq<Symbol>)
    requires q < FRAME && NoDirectionChange(e) && Step(s, e).wire == s.wire + more
    requires !FramesFrom(q, more) || Misfits(Step(s, e), IndexAfter(q, |more|))
    ensures Misfits(s, q)
  {
    WrittenOne(s, e, more);
    NoChangesCons(e, []);
    if FramesFrom(q, more) {
      var es :| NoDirectionChanges(es) && !FramesFrom(IndexAfter(q, |more|), Written(Step(s, e), es));
      NoChangesCons(e, es);
      Runs.Single(Step, s, e);
      WrittenAppend(s, [e], es);
      if FramesFrom(q, more + Written(Step(s, e), es)) {
        FramesOfRest(q, more, Written(Step(s, e), es));
        assert false;
      }
    }
  }

  lemma Misfit(q: nat, sym: Symbol)
    requires q < FRAME
    ensures FramesFrom(q, [sym]) <==> Fits(sym, q)
  {
    assert IndexAfter(q, 0) == q;
  }

  const EMPTY := Isr(Reading(false, true, false, false, 0, true, 0))

  lemma EmptyMisfits(s: State, q: nat)
    requires q < FRAME && s.Valid() && s.emptyOn && (s.phase == DATA ==> s.slot < MAX_SLOTS)
    requires Writing(s, 0) != [] && !Fits(Writing(s, 0)[0], q)
    ensures Misfits(s, q)
  {
    Misfit(q, Writing(s, 0)[0]);
    MisfitsBefore(s, q, EMPTY, Writing(s, 0));
  }

  /** A slot in the place of a break or a start code: the buffer can hold anything. */
  lemma SlotMisfits(s: State, q: nat)
    requires q <= 1 && Loose(s) && s.phase == DATA && s.emptyOn
    ensures Misfits(s, q)
  {
    var e := AppWrite(s.slot, 1);
    var t := s.(data := s.data[s.slot := 1]);
    assert Step(s, e) == t && Writing(t, 0) == [Symbol(t.baud, 1)];
    EmptyMisfits(t, q);
    MisfitsBefore(s, q, e, []);
  }

  lemma BreakMisfits(s: State, q: nat)
    requires 0 < q < FRAME && s.Valid() && s.phase == DATA && s.doneOn
    ensures Misfits(s, q)
  {
    Misfit(q, Symbol(0, 0));
    EmptyMisfits(Step(s, TICK), q);
    MisfitsBefore(s, q, TICK, []);
  }

  /** With both interrupts on either may come first, and one of the two misfits. */
  lemma {:induction false} BothMisfit(s: State, q: nat)
    requires q < FRAME && Loose(s) && s.emptyOn && s.doneOn
    ensures Misfits(s, q)
    decreases match s.phase case BREAK => 0 case DATA => 0 case START => 1 case _ => 2
  {
    var w := Writing(s, 0);
    if w != [] && !Fits(w[0], q) {
      EmptyMisfits(s, q);
    } else if s.phase == DATA {
      if q == 0 { SlotMisfits(s, q); } else { BreakMisfits(s, q); }
    } else if s.phase == BREAK {
      Misfit(q, Symbol(0, 0));
      EmptyMisfits(Step(s, TICK), q);
      MisfitsBefore(s, q, TICK, []);
    } else {
      Misfit(q, if w != [] then w[0] else Symbol(0, 0));
      BothMisfit(Step(s, EMPTY), IndexAfter(q, |w|));
      MisfitsBefore(s, q, EMPTY, w);
    }
  }

  /** Services to come before the sender is to write a break. */
  function ToBreak(s: State): nat {
    match s.phase
    case BREAK => if s.emptyOn then 0 else 1000
    case DATA => if s.emptyOn then (if s.slot < MAX_SLOTS then 600 - s.slot else 2) else 1
    case START => if s.emptyOn then 700 else 800
    case _ => if s.emptyOn then 900 else 1000
  }

  lemma OffBreak(s: State, q: nat)
    requires q < FRAME && Loose(s) && !(s.emptyOn && s.doneOn) && !Continues(s, q)
    requires s.phase == DATA && (s.doneOn || q <= 1 || s.baud != DATA_BAUD)
    ensures Misfits(s, q)
  {
    if s.doneOn {
      BreakMisfits(s, q);
    } else if q <= 1 {
      SlotMisfits(s, q);
    } else {
      EmptyMisfits(s, q);
    }
  }

  /** Out of place, the sender goes on out of place, up to its next break at the latest. */
  lemma {:induction false} OffMisfits(s: State, q: nat)
    requires q < FRAME && Loose(s) && !(s.emptyOn && s.doneOn) && !Continues(s, q)
    ensures Misfits(s, q)
    decreases ToBreak(s)
  {
    var w := if s.emptyOn then Writing(s, 0) else [];
    if w != [] && !Fits(w[0], q) {
      EmptyMisfits(s, q);
    } else if s.phase == DATA && (s.doneOn || q <= 1 || s.baud != DATA_BAUD) {
      OffBreak(s, q);
    } else {
      Misfit(q, if w != [] then w[0] else Symbol(0, 0));
      OffStep(s, q);
      OffMisfits(Step(s, TICK), IndexAfter(q, |w|));
      MisfitsBefore(s, q, TICK, w);
    }
  }

  lemma OffStep(s: State, q: nat)
    requires q < FRAME && Loose(s) && !(s.emptyOn && s.doneOn) && !Continues(s, q)
    requires s.emptyOn && Writing(s, 0) != [] ==> Fits(Writing(s, 0)[0], q)
    requires s.phase == DATA ==> !s.doneOn && q > 1 && s.baud == DATA_BAUD
    ensures var t, w := Step(s, TICK), if s.emptyOn then Writing(s, 0) else [];
            Loose(t) && !(t.emptyOn && t.doneOn) && t.wire == s.wire + w && ToBreak(t) < ToBreak(s) &&
            !Continues(t, IndexAfter(q, |w|))
  {
    LooseStep(s, TICK);
  }

  /** Every later run writes frames, entered at index `p` by the first byte of the call. */
  ghost predicate FramedFrom(s: State, m: seq<Event>, n: seq<Event>, p: nat)
    requires p < FRAME
  {
    forall es :: NoDirectionChanges(es) ==> FramesFrom(p, Written(s, StartCall(m, n) + es))
  }

  /** When a start is framed in every later run, whatever interrupts the call: if and only if what was
      written inside it is framed, and when it returns exactly one transmit interrupt is on and writes
      next what the frame calls for next. With `p` 1 this is when the first frame is kept. */
  lemma FramedFromIff(s: State, m: seq<Event>, n: seq<Event>, p: nat)
    requires s.Valid() && NoDirectionChanges(m) && NoDirectionChanges(n) && p < FRAME
    ensures var early := Written(s, StartCall(m, n));
            FramedFrom(s, m, n, p) <==>
            FramesFrom(p, early) && Continues(Run(s, StartCall(m, n)), IndexAfter(p, |early|))
  {
    var t, early := Run(s, StartCall(m, n)), Written(s, StartCall(m, n));
    var q := IndexAfter(p, |early|);
    StartCallStarts(s, m, n);
    if FramesFrom(p, early) && Continues(t, q) {
      forall es | NoDirectionChanges(es) ensures FramesFrom(p, Written(s, StartCall(m, n) + es)) {
        ContinuesRun(t, q, es);
        WrittenAppend(s, StartCall(m, n), es);
        FramesAppend(p, early, Written(t, es));
      }
    } else if FramedFrom(s, m, n, p) {
      var es := NotFramed(t, q, !Continues(t, q));
      WrittenAppend(s, StartCall(m, n), es);
      FramesOfRest(p, early, Written(t, es));
      assert false;
    }
  }

  lemma NotFramed(t: State, q: nat, off: bool) returns (es: seq<Event>)
    requires q < FRAME && Loose(t) && off == !Continues(t, q)
    ensures NoDirectionChanges(es) && (off ==> !FramesFrom(q, Written(t, es)))
  {
    es := [];
    if off {
      if t.emptyOn && t.doneOn { BothMisfit(t, q); } else { OffMisfits(t, q); }
      es :| NoDirectionChanges(es) && !FramesFrom(q, Written(t, es));
    }
  }

  /** No event of the run services a transmit interrupt. */
  ghost predicate NothingServiced(s: State, es: seq<Event>) {
    forall i :: 0 <= i < |es| ==> !Services(Run(s, es[..i]), es[i])
  }

  lemma UnservicedStep(s: State, e: Event)
    requires e != MaskEmpty && !Services(s, e)
    ensures Step(s, e).wire == s.wire && Step(s, e).doneOn == s.doneOn
    ensures Step(s, e).emptyOn == (s.emptyOn || e == EnableEmpty)
  {
    if e.Isr? {
      UnservicedReading(s, e.r);
    }
  }

  lemma UnservicedReading(s: State, r: Reading)
    requires !Services(s, Isr(r))
    ensures Service(s, r).wire == s.wire && Service(s, r).doneOn == s.doneOn && Service(s, r).emptyOn == s.emptyOn
  {
  }

  lemma {:induction false} NothingWritten(s: State, es: seq<Event>)
    requires NothingServiced(s, es) && MaskEmpty !in es
    ensures Run(s, es).wire == s.wire && Run(s, es).doneOn == s.doneOn
    ensures Run(s, es).emptyOn == (s.emptyOn || EnableEmpty in es)
    decreases |es|
  {
    if es != [] {
      var init, e := es[..|es| - 1], es[|es| - 1];
      Runs.Last(Step, s, es);
      forall i | 0 <= i < |init| ensures !Services(Run(s, init[..i]), init[i]) {
        assert init[..i] == es[..i];
      }
      NothingWritten(s, init);
      UnservicedStep(Run(s, init), e);
      assert es == init + [e];
    }
  }

  /** If no transmit interrupt is serviced inside the call and no break is received there, the first
      frame is kept if and only if TX_DONE is masked before the call. */
  lemma FirstFrameIsKeptIffDoneMasked(s: State, m: seq<Event>, n: seq<Event>)
    requires s.Valid() && NoDirectionChanges(m) && NoDirectionChanges(n)
    requires NothingServiced(s, StartCall(m, n)) && Run(s, StartCall(m, n)).phase == START
    ensures FramedFrom(s, m, n, 1) <==> !s.doneOn
  {
    FramedFromIff(s, m, n, 1);
    StartCallStarts(s, m, n);
    assert forall e :: e in m || e in n ==> NoDirectionChange(e);
    NothingWritten(s, StartCall(m, n));
    assert IndexAfter(1, 0) == 1;
  }

  /** As the port is installed TX_DONE is enabled, so an uninterrupted first start cuts its frame in
      some run, and an uninterrupted stop before it does not keep the port silent. */
  lemma InstalledIsUnsafe(s: State)
    requires Installed(s)
    ensures !FramedFrom(s, [], [], 1) && !SilentForGood(StopSending(s))
  {
    FramedFromIff(s, [], [], 1);
    StartCallStarts(s, [], []);
    StopStaysSilentIffDoneMasked(s);
  }

  /** A call that two services interrupt in its first gap: the idle phase is left, a start code goes out,
      and the call then begins the frame once more, so the wire is not framed. */
  lemma StartCodeInGap(s: State)
    requires Installed(s)
    ensures Written(s, StartCall([EMPTY, EMPTY], [])) == [Symbol(DATA_BAUD, 0)]
    ensures !FramedFrom(s, [EMPTY, EMPTY], [], 1)
  {
    var l, rest := [EnableEmpty, EMPTY, EMPTY], [MarkStart, MarkRunning];
    assert StartCall([EMPTY, EMPTY], []) == l + rest;
    Runs.Append(Step, s, l, rest);
    GapWrites(s);
    Runs.Three(Step, Run(s, l), MarkStart, MarkRunning, MarkRunning);
    FramedFromIff(s, [EMPTY, EMPTY], [], 1);
  }

  lemma GapWrites(s: State)
    requires Installed(s)
    ensures Run(s, [EnableEmpty, EMPTY, EMPTY]).wire == [Symbol(DATA_BAUD, 0)]
  {
    Runs.Three(Step, s, EnableEmpty, EMPTY, EMPTY);
    var started := s.(emptyOn := true, phase := START);
    assert Step(Step(s, EnableEmpty), EMPTY) == started;
    EmptyWrites(started, 0);
  }

  // ----- stopping -----

  /** Neither transmit interrupt is enabled. */
  predicate Silent(s: State) { s.Valid() && !s.emptyOn && !s.doneOn }

  lemma {:induction false} SilentRun(s: State, es: seq<Event>)
    requires Silent(s) && NoDirectionChanges(es)
    ensures Silent(Run(s, es)) && Run(s, es).wire == s.wire
    decreases |es|
  {
    if es != [] {
      Runs.Last(Step, s, es);
      SilentRun(s, es[..|es| - 1]);
    }
  }

  /** No later run writes anything. */
  ghost predicate SilentForGood(s: State) {
    forall es :: NoDirectionChanges(es) ==> Run(s, es).wire == s.wire
  }

  /** TX_DONE turns TXFIFO_EMPTY on again, and in every phase the sender then writes: in the
      receive direction too, where the idle phase falls into the default arm. */
  lemma SilentForGoodIff(s: State)
    requires s.Valid() && !s.emptyOn
    ensures SilentForGood(s) <==> !s.doneOn
  {
    if s.doneOn {
      var es := [TICK, EMPTY, EMPTY];
      Runs.Three(Step, s, TICK, EMPTY, EMPTY);
      EmptyWrites(TxDone(s), 0);
      EmptyWrites(TxEmpty(TxDone(s), 0), 0);
      assert NoDirectionChanges(es);
    } else {
      forall es | NoDirectionChanges(es) ensures Run(s, es).wire == s.wire {
        SilentRun(s, es);
      }
    }
  }

  /** What then goes out: TX_DONE leaves the idle phase, the next service only leaves it, and the one
      after it writes a start code with no break before it. */
  lemma RestartsWithoutBreak(s: State)
    requires s.Valid() && s.doneOn
    ensures var t := StopSending(s);
            Run(t, [TICK]) == t.(doneOn := false, emptyOn := true, sinceDone := 0) && Written(t, [TICK, EMPTY]) == [] &&
            Written(t, [TICK, EMPTY, EMPTY]) == [Symbol(DATA_BAUD, 0)] &&
            Continues(Run(t, [TICK, EMPTY, EMPTY]), 2)
  {
    var t := StopSending(s);
    Runs.Single(Step, t, TICK);
    Runs.Three(Step, t, TICK, EMPTY, EMPTY);
  }

  /** changeDirectionDMXUart(RECEIVE), not interrupted, stops the sender for good if and only if
      TX_DONE is masked when it is called. Otherwise a frame goes out in the receive direction. */
  lemma StopStaysSilentIffDoneMasked(s: State)
    requires s.Valid()
    ensures StopSending(s).wire == s.wire && (SilentForGood(StopSending(s)) <==> !s.doneOn)
  {
    SilentForGoodIff(StopSending(s));
  }

  /** The event writes a break, or the byte after which the slots are complete, and leaves the
      handler to wait for TX_DONE. */
  predicate BeginsWait(s: State, e: Event) { e.Isr? && Leaves(s, e.r) }

  /** A wait for TX_DONE, under way at `s` or begun in the run, that no TX_DONE in the run ends. */
  ghost predicate WaitsAfter(s: State, es: seq<Event>) {
    Runs.Since(Step, s, es, s.doneOn, BeginsWait, ServicesDone)
  }

  lemma DoneOnStep(t: State, e: Event)
    ensures Step(t, e).doneOn <==> BeginsWait(t, e) || (t.doneOn && !ServicesDone(t, e))
  {
  }

  lemma {:induction false} DoneOnIffWaits(s: State, es: seq<Event>)
    ensures Run(s, es).doneOn <==> WaitsAfter(s, es)
    decreases |es|
  {
    if es == [] {
      Runs.SinceNothing(Step, s, s.doneOn, BeginsWait, ServicesDone);
    } else {
      var init, e := es[..|es| - 1], es[|es| - 1];
      assert es == init + [e];
      DoneOnIffWaits(s, init);
      Runs.Last(Step, s, es);
      Runs.SinceSnoc(Step, s, init, e, s.doneOn, BeginsWait, ServicesDone);
      DoneOnStep(Run(s, init), e);
    }
  }

  /** changeDirectionDMXUart(RECEIVE) with other events between its statements: the baud rate, the two
      globals, the mask. */
  function StopCall(l: seq<Event>, m: seq<Event>, n: seq<Event>): seq<Event> {
    [SetDataBaud] + l + [MarkIdle] + m + [MarkStopped] + n + [MaskEmpty]
  }

  /** Until the phase is set an interrupted stop goes on with the frame where it stood. */
  lemma StopGoesOn(s: State, l: seq<Event>)
    requires Synced(s) && s.sending && NoDirectionChanges(l)
    ensures FramesFrom(Position(Cycle(s)), Written(s, [SetDataBaud] + l))
    ensures Synced(Run(s, [SetDataBaud] + l))
  {
    var t := Step(s, SetDataBaud);
    assert Synced(t) && t.sending && Cycle(t) == Cycle(s) && t.wire == s.wire;
    Runs.Cons(Step, s, SetDataBaud, l);
    TransmitRun(t, l);
    assert Written(s, [SetDataBaud] + l) == Expected(t, l);
  }

  /** Whatever comes inside the call: it stops the sender for good if and only if every wait for
      TX_DONE, under way when it is called or begun inside it, ends inside it. */
  lemma InterruptedStopSilencesIff(s: State, l: seq<Event>, m: seq<Event>, n: seq<Event>)
    requires s.Valid()
    ensures SilentForGood(Run(s, StopCall(l, m, n))) <==> !WaitsAfter(s, StopCall(l, m, n))
  {
    var call := StopCall(l, m, n);
    RunValid(s, call);
    DoneOnIffWaits(s, call);
    Runs.Last(Step, s, call);
    SilentForGoodIff(Run(s, call));
  }

  /** If no transmit interrupt is serviced inside the call: if and only if TX_DONE is masked. */
  lemma QuietStopSilencesIff(s: State, l: seq<Event>, m: seq<Event>, n: seq<Event>)
    requires s.Valid() && NoDirectionChanges(l) && NoDirectionChanges(m) && NoDirectionChanges(n)
    requires NothingServiced(s, StopCall(l, m, n))
    ensures var t := Run(s, StopCall(l, m, n));
            t.wire == s.wire && (SilentForGood(t) <==> !s.doneOn)
  {
    var call := StopCall(l, m, n);
    var init := [SetDataBaud] + l + [MarkIdle] + m + [MarkStopped] + n;
    assert call[..|call| - 1] == init;
    Runs.Last(Step, s, call);
    forall i | 0 <= i < |init| ensures !Services(Run(s, init[..i]), init[i]) {
      assert init[..i] == call[..i] && init[i] == call[i];
    }
    NothingWritten(s, init);
    RunValid(s, call);
    SilentForGoodIff(Run(s, call));
  }

  /** Once _tx_running is cleared, a received break makes the sender wait for one of its own: TX_DONE is
      masked when the call begins, and the sender still sends on in the receive direction. */
  lemma BreakInsideStopRestarts(s: State)
    requires s.Valid() && s.emptyOn && !s.doneOn
    ensures var brk := Isr(Reading(false, false, true, false, 0, true, 0));
            !SilentForGood(Run(s, StopCall([], [], [brk, EMPTY])))
  {
    var brk := Isr(Reading(false, false, true, false, 0, true, 0));
    Runs.Three(Step, Idled(s), brk, EMPTY, MaskEmpty);
    LateStopCall(s, [brk, EMPTY]);
    Runs.Snoc(Step, Idled(s), [brk, EMPTY], MaskEmpty);
    SilentForGoodIff(Run(s, StopCall([], [], [brk, EMPTY])));
  }

  lemma LateStopCall(s: State, n: seq<Event>)
    ensures Run(s, StopCall([], [], n)) == Step(Run(Idled(s), n), MaskEmpty)
  {
    var front := [SetDataBaud, MarkIdle, MarkStopped];
    assert StopCall([], [], n) == front + n + [MaskEmpty];
    Runs.Snoc(Step, s, front + n, MaskEmpty);
    Runs.Append(Step, s, front, n);
    SwitchesAreRuns(s);
  }
}
