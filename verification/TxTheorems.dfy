/**
 What the transmit path promises over whole runs, and how break messages break it.
 */
module TxTheorems {
  import opened Common
  import Runs
  import opened TxQueue

  /** Main theorem of the transmit path. For every interleaving of one writer with the handler,
      every cutting into chunks and every free space at each interrupt, breaks included: what went
      to the FIFO, then the item in hand, the ring and what the writer still has are all messages
      in order; and tx_len_tot is what is left of the message that is going out. */
  lemma TransmitPreservesStream(s: State, es: seq<Event>)
    requires Installed(s)
    ensures var t := Run(s, es);
            t.wire + InHand(t) + Data(t.ring) + Left(t.writer) == Flat(t.messages) &&
            t.started <= |t.messages| && |t.wire| + t.lenTot == |Flat(t.messages[..t.started])|
  {
    InstalledInv(s);
    RunKeeps(s, es);
  }

  lemma TakeFrame(s: State, rem: nat, en: bool)
    requires s.ring != []
    ensures var t := TakeItem(s, rem, en);
            t.writer == s.writer && t.messages == s.messages && t.fence == s.fence && t.isr.Draining? &&
            t.ring == s.ring[1..]
  {
    var item := s.ring[0];
    if s.lenTot == 0 && item.Desc? {
      var t := TakeDescriptor(s, item.size, item.brk, rem, en);
      assert t.writer == s.writer;
    } else if s.lenTot > 0 && !s.ptr {
      var t := TakeData(s, if item.Chunk? then item.bytes else [], rem);
      assert t.writer == s.writer;
    }
  }

  lemma SendFrame(s: State, rem: nat, en: bool)
    ensures var t := SendSome(s, rem, en);
            t.writer == s.writer && t.messages == s.messages && t.fence == s.fence && t.isr.Draining? &&
            t.ring == s.ring
  {
  }

  /** What a turn leaves alone. */
  lemma TurnFrame(s: State, rem: nat, en: bool)
    requires NeedsItem(s) ==> s.ring != []
    ensures var t := Turn(s, rem, en);
            t.writer == s.writer && t.messages == s.messages && t.fence == s.fence && t.isr.Draining? &&
            t.ring == (if NeedsItem(s) then s.ring[1..] else s.ring)
  {
    var t := if NeedsItem(s) then TakeItem(s, rem, en) else s.(isr := Draining(rem, en));
    if NeedsItem(s) { TakeFrame(s, rem, en); }
    SendFrame(t, rem, t.isr.en);
  }

  lemma TurnRoom(s: State, rem: nat, en: bool)
    requires NeedsItem(s) ==> s.ring != []
    ensures var t := Turn(s, rem, en);
            t.isr.Draining? && |t.wire| + t.isr.rem == |s.wire| + rem && |t.wire| >= |s.wire| &&
            t.fifoCnt + t.isr.rem == s.fifoCnt + rem
  {
    var t := if NeedsItem(s) then TakeItem(s, rem, en) else s.(isr := Draining(rem, en));
    if NeedsItem(s) { TakeRoom(s, rem, en); }
    SendRoom(t, rem, t.isr.en);
  }

  lemma TakeRoom(s: State, rem: nat, en: bool)
    requires s.ring != []
    ensures var t := TakeItem(s, rem, en);
            t.wire == s.wire && t.isr.Draining? && t.isr.rem == rem && t.fifoCnt == s.fifoCnt
  {
    var item := s.ring[0];
    if s.lenTot == 0 && item.Desc? {
      assert TakeItem(s, rem, en) == TakeDescriptor(s, item.size, item.brk, rem, en);
    } else if s.lenTot == 0 || s.ptr {
      assert TakeItem(s, rem, en) == LoseItem(s, rem, en);
    }
  }

  lemma SendRoom(s: State, rem: nat, en: bool)
    ensures var t := SendSome(s, rem, en);
            t.isr.Draining? && |t.wire| + t.isr.rem == |s.wire| + rem && |t.wire| >= |s.wire| &&
            t.fifoCnt + t.isr.rem == s.fifoCnt + rem
  {
  }

  lemma SendingTurn(s: State, rem: nat, en: bool)
    requires Shape(s) && !NeedsItem(s) && rem > 0
    ensures Turn(s, rem, en).isr.Draining? && Turn(s, rem, en).isr.rem < rem
    ensures |Turn(s, rem, en).wire| > |s.wire|
  {
  }

  /** Every turn of the drain loop leaves it, takes an item or writes a byte, and an item is taken
      only when none is in hand: the loop ends, and no item is dropped. */
  lemma DrainLoopEnds(s: State)
    requires Inv(s) && s.isr.Draining?
    ensures var t := DrainStep(s);
            t.isr.Exiting? ||
            (t.isr.Draining? &&
             ((|t.ring| < |s.ring| && !s.ptr) || (t.ring == s.ring && t.isr.rem < s.isr.rem && |t.wire| > |s.wire|)))
  {
    var rem, en := s.isr.rem, s.isr.en;
    if rem > 0 && NeedsItem(s) && s.ring != [] {
      TurnFrame(s, rem, en);
      if s.lenTot == 0 { TakeDesc(s, rem, en); } else { TakeChunk(s, rem, en); }
    } else if rem > 0 && !NeedsItem(s) {
      TurnFrame(s, rem, en);
      SendingTurn(s, rem, en);
    }
  }

  // ----- wake-up -----

  predicate PlainItems(items: seq<Item>) {
    forall i :: 0 <= i < |items| ==> items[i].Chunk? || !items[i].brk
  }

  /** No break message has been written. */
  predicate BreakFree(s: State) {
    !s.brkFlg && !s.waitingBrk && s.isr != Spinning && PlainItems(s.ring) && (s.writer.Describe? ==> !s.writer.brk)
  }

  /** The transmit interrupt is on, or is about to be turned on, or everything that was in the ring
      when the writer last turned it on has gone to the FIFO, or a break is pending. */
  predicate Awake(s: State) {
    s.waitingBrk ||
    match s.isr
    case Quiet => s.emptyOn || |s.wire| >= s.fence
    case Draining(rem, en) => rem == 0 ==> en
    case Exiting(en) => en || s.emptyOn || |s.wire| >= s.fence
    case Spinning => false
  }

  predicate Fenced(s: State) { s.fence <= Enqueued(s) }

  /** TXFIFO_EMPTY comes only with room in the FIFO. */
  ghost predicate Roomy(s: State, es: seq<Event>) {
    forall i :: 0 <= i < |es| && es[i] == Interrupt ==> Run(s, es[..i]).fifoCnt < FIFO_LEN
  }

  /** No message of the run asks for a break. */
  ghost predicate WithoutBreaks(es: seq<Event>) {
    forall i :: 0 <= i < |es| && es[i].Write? ==> !es[i].brk
  }

  lemma TakeBreakFree(s: State, rem: nat, en: bool)
    requires BreakFree(s) && s.ring != []
    ensures BreakFree(TakeItem(s, rem, en))
  {
    assert s.ring[0].Chunk? || !s.ring[0].brk;
  }

  lemma TurnBreakFree(s: State, rem: nat, en: bool)
    requires BreakFree(s) && (NeedsItem(s) ==> s.ring != [])
    ensures BreakFree(Turn(s, rem, en))
  {
    if NeedsItem(s) {
      TakeBreakFree(s, rem, en);
    }
  }

  lemma BreakFreeStep(s: State, e: Event)
    requires BreakFree(s) && (e.Write? ==> !e.brk)
    ensures BreakFree(Step(s, e))
  {
    if e.Drain? && s.isr.Draining? && s.isr.rem > 0 && (NeedsItem(s) ==> s.ring != []) {
      TurnBreakFree(s, s.isr.rem, s.isr.en);
    }
  }

  /** A turn moves bytes along the stream. */
  lemma TurnEnqueued(s: State, rem: nat, en: bool)
    requires Inv(s) && (NeedsItem(s) ==> s.ring != [])
    ensures Enqueued(Turn(s, rem, en)) == Enqueued(s) && Turn(s, rem, en).fence == s.fence
  {
    var t := Turn(s, rem, en);
    TurnKeeps(s, rem, en);
    TurnFrame(s, rem, en);
    assert |Stream(t)| == Enqueued(t) + |Left(t.writer)| && |Stream(s)| == Enqueued(s) + |Left(s.writer)|;
  }

  lemma SendFlag(s: State, rem: nat, en: bool)
    requires CanSend(s) && rem > 0
    ensures var t := SendSome(s, rem, en);
            t.isr.Draining? && (t.isr.en || t.waitingBrk) && (t.isr.en || !t.ptr) && |t.wire| > |s.wire|
    ensures !s.brkFlg && !s.waitingBrk ==> SendSome(s, rem, en).isr.en && !SendSome(s, rem, en).waitingBrk
  {
  }

  lemma TakeFlag(s: State, rem: nat, en: bool)
    requires Inv(s) && NeedsItem(s) && s.ring != []
    ensures var t := TakeItem(s, rem, en);
            t.isr == Draining(rem, en || t.ptr) && (t.ptr ==> CanSend(t)) && t.wire == s.wire
  {
    if s.lenTot == 0 { TakeDesc(s, rem, en); } else { TakeChunk(s, rem, en); }
  }

  lemma TakeMarks(s: State, rem: nat, en: bool)
    requires s.ring != []
    ensures TakeItem(s, rem, en).waitingBrk == s.waitingBrk && TakeItem(s, rem, en).brkOn == s.brkOn
  {
    TakeRoom(s, rem, en);
  }

  /** A turn that sends sets en_tx_flg or requests a break; one that does not leaves the room. */
  lemma TurnFlag(s: State, rem: nat, en: bool)
    requires Inv(s) && rem > 0 && (NeedsItem(s) ==> s.ring != [])
    ensures var t := Turn(s, rem, en);
            t.isr.Draining? && (s.waitingBrk ==> t.waitingBrk) && (t.isr.en ==> en || |t.wire| > |s.wire|) &&
            (!t.isr.en && !t.waitingBrk ==> !t.ptr && t.isr.rem == rem)
    ensures BreakFree(s) ==> !Turn(s, rem, en).waitingBrk
  {
    var t := if NeedsItem(s) then TakeItem(s, rem, en) else s.(isr := Draining(rem, en));
    if NeedsItem(s) {
      TakeFlag(s, rem, en);
      TakeMarks(s, rem, en);
      if BreakFree(s) { TakeBreakFree(s, rem, en); }
    }
    if CanSend(t) {
      SendFlag(t, rem, t.isr.en);
    }
  }

  /** The loop leaves either with the flag set or with nothing left to send. */
  lemma LoopLeavesAwake(s: State)
    requires Inv(s) && Fenced(s) && Awake(s) && s.isr.Draining?
    requires s.isr.rem == 0 || (NeedsItem(s) && s.ring == [])
    ensures Awake(DrainStep(s))
  {
    if s.isr.rem > 0 {
      assert Data(s.ring) == [] && InHand(s) == [];
    }
  }

  lemma DrainAwake(s: State)
    requires Inv(s) && Fenced(s) && Awake(s)
    ensures Awake(DrainStep(s)) && Fenced(DrainStep(s))
  {
    if s.isr.Draining? && s.isr.rem > 0 && (NeedsItem(s) ==> s.ring != []) {
      TurnEnqueued(s, s.isr.rem, s.isr.en);
      TurnFlag(s, s.isr.rem, s.isr.en);
    } else if s.isr.Draining? {
      LoopLeavesAwake(s);
    }
  }

  lemma MoreEnqueued(s: State, t: State, x: Item)
    requires t == s.(ring := s.ring + [x], writer := t.writer)
    ensures Fenced(s) ==> Fenced(t)
    ensures Awake(s) ==> Awake(t)
  {
    DataAppend(s.ring, x);
  }

  lemma WriterAwake(s: State)
    requires Inv(s) && Fenced(s) && Awake(s)
    ensures Awake(WriterNext(s)) && Fenced(WriterNext(s))
  {
    if s.writer.Describe? {
      MoreEnqueued(s, WriterNext(s), Desc(|s.writer.left|, s.writer.brk));
    } else if s.writer.Push? {
      MoreEnqueued(s, WriterNext(s), Chunk(s.writer.left[..Min(s.half, |s.writer.left|)]));
    }
  }

  /** A break is pending while the flag says so, TX_BRK_DONE is on for it, and the handler spins only on
      a pending break. */
  predicate Marked(s: State) {
    s.waitingBrk == s.brkOn && (s.waitingBrk ==> s.brkFlg) && (s.brkFlg && s.lenTot == 0 ==> s.waitingBrk) &&
    (s.isr == Spinning ==> s.waitingBrk)
  }

  lemma SettledMarked(s: State, rem: nat, en: bool)
    requires Shape(s) && Marked(s) && CanSend(s) && rem > 0
    ensures Marked(SendSome(s, rem, en))
  {
    SendFrame(s, rem, en);
  }

  lemma TakeMarked(s: State, rem: nat, en: bool)
    requires Inv(s) && Marked(s) && s.ring != [] && NeedsItem(s)
    ensures Marked(TakeItem(s, rem, en)) && Inv(TakeItem(s, rem, en))
  {
    if s.lenTot == 0 { TakeDesc(s, rem, en); } else { TakeChunk(s, rem, en); }
  }

  lemma TurnMarked(s: State, rem: nat, en: bool)
    requires Inv(s) && Marked(s) && rem > 0 && (NeedsItem(s) ==> s.ring != [])
    ensures Marked(Turn(s, rem, en))
  {
    var t := if NeedsItem(s) then TakeItem(s, rem, en) else s.(isr := Draining(rem, en));
    if NeedsItem(s) { TakeMarked(s, rem, en); } else { SameStreamKeeps(s, t); }
    if CanSend(t) {
      SettledMarked(t, rem, t.isr.en);
    }
  }

  lemma MarkedStep(s: State, e: Event)
    requires Inv(s) && Marked(s)
    ensures Marked(Step(s, e))
  {
    if e.Drain? && s.isr.Draining? && s.isr.rem > 0 && (NeedsItem(s) ==> s.ring != []) {
      TurnMarked(s, s.isr.rem, s.isr.en);
    }
  }

  lemma {:induction false} MarkedRun(s: State, es: seq<Event>)
    requires Installed(s)
    ensures Inv(Run(s, es)) && Marked(Run(s, es))
    decreases |es|
  {
    if es == [] {
      InstalledInv(s);
    } else {
      Runs.Last(Step, s, es);
      MarkedRun(s, es[..|es| - 1]);
      StepKeeps(Run(s, es[..|es| - 1]), es[|es| - 1]);
      MarkedStep(Run(s, es[..|es| - 1]), es[|es| - 1]);
    }
  }

  /** What went to the FIFO ends where a message ends. */
  predicate MessageDone(s: State) {
    s.started <= |s.messages| && |s.wire| == |Flat(s.messages[..s.started])|
  }

  /** Breaks end messages. In every run, with any messages and breaks: a break is requested only by the
      step that sends the last byte of a message, and whenever the message that goes out is complete and
      the flag is set, one has been requested. */
  lemma BreaksEndMessages(s: State, es: seq<Event>, e: Event)
    requires Installed(s)
    ensures var t, u := Run(s, es), Step(Run(s, es), e);
            (t.brkFlg && t.lenTot == 0 ==> t.brkOn && t.waitingBrk) &&
            (!t.brkOn && u.brkOn ==> u.brkFlg && |u.wire| > |t.wire| && MessageDone(u))
  {
    MarkedRun(s, es);
    StepKeeps(Run(s, es), e);
    MarkedStep(Run(s, es), e);
    RequestSends(Run(s, es), e);
  }

  lemma RequestSends(s: State, e: Event)
    requires Inv(s) && Marked(s)
    ensures !s.brkOn && Step(s, e).brkOn ==> Step(s, e).lenTot == 0 && |Step(s, e).wire| > |s.wire|
  {
    if e.Drain? && s.isr.Draining? && s.isr.rem > 0 && (NeedsItem(s) ==> s.ring != []) {
      RequestInTurn(s, s.isr.rem, s.isr.en);
    } else {
      assert Step(s, e).brkOn ==> s.brkOn;
    }
  }

  lemma RequestInTurn(s: State, rem: nat, en: bool)
    requires Inv(s) && Marked(s) && rem > 0 && (NeedsItem(s) ==> s.ring != [])
    ensures var t := Turn(s, rem, en);
            !s.brkOn && t.brkOn ==> t.lenTot == 0 && |t.wire| > |s.wire|
  {
    var t := if NeedsItem(s) then TakeItem(s, rem, en) else s.(isr := Draining(rem, en));
    if NeedsItem(s) { TakeMarks(s, rem, en); TakeFlag(s, rem, en); }
    assert t.brkOn == s.brkOn && t.wire == s.wire;
    if CanSend(t) {
      SendFlag(t, rem, t.isr.en);
      RequestEnds(t, rem, t.isr.en);
    }
  }

  lemma RequestEnds(s: State, rem: nat, en: bool)
    ensures !s.brkOn && SendSome(s, rem, en).brkOn ==> SendSome(s, rem, en).lenTot == 0
  {
  }

  lemma BreakSentWakes(s: State)
    requires Marked(s) && s.isr == Quiet && s.waitingBrk
    ensures s.brkOn && Step(s, BreakSent).emptyOn && !Step(s, BreakSent).waitingBrk
  {
  }

  lemma AwakeStep(s: State, e: Event)
    requires Inv(s) && Marked(s) && Fenced(s) && Awake(s) && (e == Interrupt ==> s.fifoCnt < FIFO_LEN)
    ensures Awake(Step(s, e)) && Fenced(Step(s, e))
  {
    match e
    case WriterStep => WriterAwake(s);
    case Drain => DrainAwake(s);
    case _ => OthersAwake(s, e);
  }

  lemma OthersAwake(s: State, e: Event)
    requires Marked(s) && Fenced(s) && Awake(s) && !e.WriterStep? && !e.Drain?
    requires e == Interrupt ==> s.fifoCnt < FIFO_LEN
    ensures Awake(Step(s, e)) && Fenced(Step(s, e))
  {
    var t := Step(s, e);
    assert t.wire == s.wire && t.ring == s.ring && InHand(t) == InHand(s) && t.fence == s.fence;
  }

  lemma RoomyInit(s: State, es: seq<Event>)
    requires es != [] && Roomy(s, es)
    ensures Roomy(s, es[..|es| - 1]) && (es[|es| - 1] == Interrupt ==> Run(s, es[..|es| - 1]).fifoCnt < FIFO_LEN)
  {
    var init := es[..|es| - 1];
    forall i | 0 <= i < |init| && init[i] == Interrupt ensures Run(s, init[..i]).fifoCnt < FIFO_LEN {
      assert init[..i] == es[..i];
    }
  }

  lemma {:induction false} AwakeRun(s: State, es: seq<Event>)
    requires Installed(s) && Roomy(s, es)
    ensures var t := Run(s, es); Inv(t) && Marked(t) && Fenced(t) && Awake(t)
    decreases |es|
  {
    if es == [] {
      InstalledInv(s);
    } else {
      var init, e := es[..|es| - 1], es[|es| - 1];
      RoomyInit(s, es);
      Runs.Last(Step, s, es);
      AwakeRun(s, init);
      StepKeeps(Run(s, init), e);
      MarkedStep(Run(s, init), e);
      AwakeStep(Run(s, init), e);
    }
  }

  lemma {:induction false} BreakFreeRun(s: State, es: seq<Event>)
    requires BreakFree(s) && WithoutBreaks(es)
    ensures BreakFree(Run(s, es))
    decreases |es|
  {
    if es != [] {
      Runs.Last(Step, s, es);
      BreakFreeRun(s, es[..|es| - 1]);
      BreakFreeStep(Run(s, es[..|es| - 1]), es[|es| - 1]);
    }
  }

  /** No lost wake-up, break messages included: in every run, whenever the handler is not running and
      the transmit interrupt is off, all that was in the ring at the writer's last enable has been moved
      to the FIFO, or a break is going out whose end turns the interrupt on. Without break messages it
      is always the former. */
  lemma NoLostWakeUp(s: State, es: seq<Event>)
    requires Installed(s) && Roomy(s, es)
    ensures var t := Run(s, es);
            Fenced(t) &&
            (t.isr == Quiet && !t.emptyOn ==>
               |t.wire| >= t.fence || (t.brkOn && Step(t, BreakSent).emptyOn && !Step(t, BreakSent).waitingBrk))
    ensures var t := Run(s, es);
            WithoutBreaks(es) ==> BreakFree(t) && (t.isr == Quiet && !t.emptyOn ==> |t.wire| >= t.fence)
  {
    AwakeRun(s, es);
    if Run(s, es).isr == Quiet && Run(s, es).waitingBrk {
      BreakSentWakes(Run(s, es));
    }
    if WithoutBreaks(es) {
      BreakFreeRun(s, es);
    }
  }

  // ----- the hardware FIFO -----

  /** The free places that the loop still counts on are there. */
  predicate FifoFits(s: State) {
    s.fifoCnt <= FIFO_LEN && (s.isr.Draining? ==> s.fifoCnt + s.isr.rem <= FIFO_LEN)
  }

  lemma FifoStep(s: State, e: Event)
    requires FifoFits(s)
    ensures FifoFits(Step(s, e))
  {
    if e.Drain? && s.isr.Draining? && s.isr.rem > 0 && (NeedsItem(s) ==> s.ring != []) {
      TurnRoom(s, s.isr.rem, s.isr.en);
    }
  }

  /** The hardware FIFO never overflows, in any run and however full it is when the handler enters. */
  lemma {:induction false} FifoNeverOverflows(s: State, es: seq<Event>)
    requires Installed(s)
    ensures FifoFits(Run(s, es))
    decreases |es|
  {
    if es != [] {
      Runs.Last(Step, s, es);
      FifoNeverOverflows(s, es[..|es| - 1]);
      FifoStep(Run(s, es[..|es| - 1]), es[|es| - 1]);
    }
  }

  /** The hypothesis is needed: serviced with the FIFO full, the loop is not entered, and the
      interrupt stays off whatever is waiting. */
  lemma FullFifoLosesWakeUp(s: State)
    requires Inv(s) && BreakFree(s) && s.isr == Quiet && s.emptyOn && s.fifoCnt >= FIFO_LEN
    ensures var t := Run(s, [Interrupt, Drain, Drain]);
            t.isr == Quiet && !t.emptyOn && t.wire == s.wire && t.ring == s.ring && InHand(t) == InHand(s)
  {
    var t := s.(emptyOn := false, isr := Draining(0, false));
    Runs.Three(Step, s, Interrupt, Drain, Drain);
    assert Step(s, Interrupt) == t && DrainStep(t) == t.(isr := Exiting(false));
    assert DrainStep(t.(isr := Exiting(false))) == t.(isr := Quiet);
  }

  // ----- breaks -----

  lemma {:induction false} SpinIsForever(s: State, es: seq<Event>)
    requires s.isr == Spinning
    ensures Run(s, es).isr == Spinning
    decreases |es|
  {
    if es != [] {
      Runs.Last(Step, s, es);
      SpinIsForever(s, es[..|es| - 1]);
    }
  }

  lemma ExitReturns(s: State)
    requires s.isr.Exiting?
    ensures DrainStep(s).isr == Quiet
  {
  }

  lemma {:induction false} LoopReturns(s: State) returns (es: seq<Event>)
    requires Inv(s) && s.isr != Spinning
    ensures Run(s, es).isr == Quiet
    decreases if s.isr.Draining? then 2 else if s.isr.Exiting? then 1 else 0, |s.ring|,
              if s.isr.Draining? then s.isr.rem else 0
  {
    es := [];
    if s.isr != Quiet {
      if s.isr.Draining? { DrainLoopEnds(s); } else { ExitReturns(s); }
      StepKeeps(s, Drain);
      var rest := LoopReturns(DrainStep(s));
      Runs.Cons(Step, s, Drain, rest);
      es := [Drain] + rest;
    }
  }

  /** An activation can end if and only if no break is pending. With one pending no event of any run
      gets the handler out: the status it tests is stale. */
  lemma HandlerReturnsIff(s: State)
    requires Inv(s) && s.isr == Quiet && s.emptyOn
    ensures (exists es :: Run(Step(s, Interrupt), es).isr == Quiet) <==> !s.waitingBrk
  {
    if s.waitingBrk {
      forall es ensures Run(Step(s, Interrupt), es).isr == Spinning {
        SpinIsForever(Step(s, Interrupt), es);
      }
    } else {
      StepKeeps(s, Interrupt);
      var es := LoopReturns(Step(s, Interrupt));
    }
  }

  /** Nothing is queued, in hand or pending, and the transmit interrupt is off. */
  predicate Resting(s: State) {
    s.half >= 1 && s.isr == Quiet && s.writer == Idle && s.ring == [] && !s.ptr && s.lenTot == 0 &&
    !s.brkFlg && !s.waitingBrk && !s.brkOn && !s.emptyOn
  }

  ghost predicate WithoutWrites(es: seq<Event>) {
    forall i :: 0 <= i < |es| ==> !es[i].Write?
  }

  /** Every interrupt comes with the FIFO below its threshold. */
  ghost predicate Timely(s: State, es: seq<Event>) {
    forall i :: 0 <= i < |es| && es[i] == Interrupt ==> Run(s, es[..i]).fifoCnt < EMPTY_THRESH
  }

  // A message longer than the FIFO that is one chunk: the phases of its way out.

  predicate BeforeEnable(s: State, m: seq<byte>) {
    s.half >= |m| > 0 && s.isr == Quiet && s.lenTot == 0 && !s.ptr && !s.brkFlg && !s.waitingBrk && !s.brkOn &&
    !s.emptyOn &&
    match s.writer
    case Describe(left, brk) => s.ring == [] && left == m && brk
    case Push(left) => s.ring == [Desc(|m|, true)] && left == m
    case Enable(left) => s.ring == [Desc(|m|, true), Chunk(m)] && left == []
    case Idle => false
  }

  /** The activation that sends the last bytes takes no chunk, so en_tx_flg is false in it. */
  predicate GoingOut(s: State, m: seq<byte>) {
    s.writer == Idle && !s.waitingBrk && !s.brkOn && s.isr != Spinning && (s.isr != Quiet ==> !s.emptyOn) &&
    (s.isr.Draining? ==> s.isr.rem <= FIFO_LEN) &&
    if s.ptr then s.ring == [] && s.brkFlg && |s.cur| == s.lenTot > 0 && (s.isr.Draining? ==> s.isr.rem == 0 || !s.isr.en)
    else if s.lenTot == 0 then s.ring == [Desc(|m|, true), Chunk(m)]
    else s.ring == [Chunk(m)] && s.lenTot == |m| && s.brkFlg
  }

  predicate BreakPending(s: State) {
    s.writer == Idle && s.ring == [] && !s.ptr && s.lenTot == 0 && s.waitingBrk && s.brkFlg && s.brkOn && !s.emptyOn &&
    match s.isr
    case Quiet => true
    case Draining(rem, en) => !en
    case Exiting(en) => !en
    case Spinning => false
  }

  predicate Over(s: State) {
    s.writer == Idle && s.ring == [] && !s.ptr && s.lenTot == 0 && !s.waitingBrk && !s.brkOn && !s.brkFlg &&
    s.isr != Spinning
  }

  predicate OneChunkOut(s: State, m: seq<byte>) {
    BeforeEnable(s, m) || GoingOut(s, m) || BreakPending(s) || Over(s)
  }

  lemma BeforeEnableStep(s: State, e: Event, m: seq<byte>)
    requires BeforeEnable(s, m) && !e.Write?
    ensures BeforeEnable(Step(s, e), m) || GoingOut(Step(s, e), m)
  {
    if e.WriterStep? && s.writer.Push? {
      assert m[..|m|] == m && m[|m|..] == [];
      assert [Desc(|m|, true)] + [Chunk(m)] == [Desc(|m|, true), Chunk(m)];
    }
  }

  lemma GoingOutTakes(s: State, m: seq<byte>)
    requires GoingOut(s, m) && |m| > FIFO_LEN && s.isr.Draining? && s.isr.rem > 0 && !s.ptr
    ensures GoingOut(DrainStep(s), m)
  {
    var rem, en := s.isr.rem, s.isr.en;
    if s.lenTot == 0 {
      assert s.ring[1..] == [Chunk(m)];
      assert DrainStep(s) == TakeDescriptor(s, |m|, true, rem, en);
    } else {
      assert s.ring[1..] == [];
      assert DrainStep(s) == SendSome(TakeData(s, m, rem), rem, true);
      SendsPart(TakeData(s, m, rem), rem, true);
    }
  }

  lemma SendsPart(s: State, rem: nat, en: bool)
    requires CanSend(s) && |s.cur| == s.lenTot && rem < |s.cur|
    ensures SendSome(s, rem, en) == Advanced(s, rem).(isr := Draining(0, true))
    ensures |SendSome(s, rem, en).cur| == SendSome(s, rem, en).lenTot > 0
  {
  }

  lemma GoingOutSends(s: State, m: seq<byte>)
    requires GoingOut(s, m) && s.isr.Draining? && s.isr.rem > 0 && s.ptr
    ensures GoingOut(DrainStep(s), m) || BreakPending(DrainStep(s))
  {
    var rem := s.isr.rem;
    assert DrainStep(s) == SendSome(s, rem, false);
    if rem < |s.cur| {
      SendsPart(s, rem, false);
    } else {
      assert s.cur[|s.cur|..] == [];
      assert SendSome(s, rem, false).isr == Draining(rem - |s.cur|, false);
    }
  }

  lemma GoingOutStep(s: State, e: Event, m: seq<byte>)
    requires GoingOut(s, m) && !e.Write? && |m| > FIFO_LEN
    ensures GoingOut(Step(s, e), m) || BreakPending(Step(s, e))
  {
    if e.Drain? && s.isr.Draining? && s.isr.rem > 0 {
      if s.ptr { GoingOutSends(s, m); } else { GoingOutTakes(s, m); }
    }
  }

  lemma AfterBreakStep(s: State, e: Event)
    requires !e.Write?
    ensures BreakPending(s) ==> BreakPending(Step(s, e)) || Over(Step(s, e))
    ensures Over(s) ==> Over(Step(s, e))
  {
  }

  lemma {:induction false} OneChunkRun(s: State, m: seq<byte>, es: seq<Event>)
    requires OneChunkOut(s, m) && |m| > FIFO_LEN && WithoutWrites(es)
    ensures OneChunkOut(Run(s, es), m)
    decreases |es|
  {
    if es != [] {
      var init, e := es[..|es| - 1], es[|es| - 1];
      OneChunkRun(s, m, init);
      Runs.Last(Step, s, es);
      var t := Run(s, init);
      if BeforeEnable(t, m) {
        BeforeEnableStep(t, e, m);
      } else if GoingOut(t, m) {
        GoingOutStep(t, e, m);
      } else {
        AfterBreakStep(t, e);
      }
    }
  }

  // Any other message: a way into the spin.

  /** Some run without further messages, its interrupts timely, leads to the spin. */
  ghost predicate CanSpin(s: State) {
    exists es :: WithoutWrites(es) && Timely(s, es) && Run(s, es).isr == Spinning
  }

  lemma SpinBefore(s: State, e: Event)
    requires CanSpin(Step(s, e)) && !e.Write? && (e == Interrupt ==> s.fifoCnt < EMPTY_THRESH)
    ensures CanSpin(s)
  {
    var es :| WithoutWrites(es) && Timely(Step(s, e), es) && Run(Step(s, e), es).isr == Spinning;
    Runs.Cons(Step, s, e, es);
    TimelyCons(s, e, es);
    assert WithoutWrites([e] + es);
  }

  lemma TimelyCons(s: State, e: Event, es: seq<Event>)
    requires Timely(Step(s, e), es) && (e == Interrupt ==> s.fifoCnt < EMPTY_THRESH)
    ensures Timely(s, [e] + es)
  {
    var all := [e] + es;
    forall i | 0 <= i < |all| && all[i] == Interrupt ensures Run(s, all[..i]).fifoCnt < EMPTY_THRESH {
      if i > 0 {
        assert all[..i] == [e] + es[..i - 1];
        Runs.Cons(Step, s, e, es[..i - 1]);
      }
    }
  }

  lemma {:induction false} SentSpins(s: State)
    requires CanSpin(s.(fifoCnt := 0))
    ensures CanSpin(s)
    decreases s.fifoCnt
  {
    if s.fifoCnt > 0 {
      SentSpins(Step(s, Sent));
      SpinBefore(s, Sent);
    } else {
      assert s == s.(fifoCnt := 0);
    }
  }

  lemma PendingSpins(s: State)
    requires s.isr == Quiet && s.emptyOn && s.waitingBrk
    ensures CanSpin(s)
  {
    var t := s.(fifoCnt := 0);
    var u := Step(t, Interrupt);
    assert Run(u, []).isr == Spinning && WithoutWrites([]) && Timely(u, []);
    SpinBefore(t, Interrupt);
    SentSpins(s);
  }

  /** Within the FIFO and one chunk: taking the chunk has set en_tx_flg, so the interrupt comes back
      on with tx_waiting_brk set, and it is due before TX_BRK_DONE. */
  lemma ShortSpins(s: State, m: seq<byte>)
    requires s.isr == Quiet && s.emptyOn && s.ring == [Desc(|m|, true), Chunk(m)] && 0 < |m| <= FIFO_LEN
    requires s.lenTot == 0 && !s.ptr && !s.waitingBrk && s.fifoCnt == 0
    ensures CanSpin(s)
  {
    var a := Step(s, Interrupt);
    var b := DrainStep(a);
    var c := DrainStep(b);
    var d := DrainStep(c);
    assert a == s.(emptyOn := false, isr := Draining(FIFO_LEN, false));
    assert s.ring[1..] == [Chunk(m)] && [Chunk(m)][1..] == [];
    assert b == TakeDescriptor(a, |m|, true, FIFO_LEN, false);
    ShortSends(b, m);
    PendingSpins(DrainStep(d));
    SpinBefore(d, Drain);
    SpinBefore(c, Drain);
    SpinBefore(b, Drain);
    SpinBefore(a, Drain);
    SpinBefore(s, Interrupt);
  }

  lemma ShortSends(s: State, m: seq<byte>)
    requires s.ring == [Chunk(m)] && s.lenTot == |m| > 0 && !s.ptr && s.brkFlg
    requires s.isr == Draining(FIFO_LEN, false) && |m| <= FIFO_LEN
    ensures var t := DrainStep(DrainStep(s));
            t.isr == Exiting(true) && t.waitingBrk && DrainStep(t).isr == Quiet && DrainStep(t).emptyOn
  {
    var taken := TakeData(s, m, FIFO_LEN);
    assert taken.ring == [] && m[|m|..] == [];
    assert DrainStep(s) == SendSome(taken, FIFO_LEN, true);
    assert SendSome(taken, FIFO_LEN, true).isr == Draining(FIFO_LEN - |m|, true);
  }

  predicate ChunksOnly(items: seq<Item>) { forall i :: 0 <= i < |items| ==> items[i].Chunk? }

  /** One break message is on its way, and all of it is in the ring or past it. */
  predicate BreakAhead(s: State) {
    if s.lenTot == 0 then s.ring != [] && s.ring[0].Desc? && s.ring[0].brk && ChunksOnly(s.ring[1..])
    else s.brkFlg && ChunksOnly(s.ring)
  }

  /** The handler is at it, and the writer has still to enable the interrupt for the last chunk. */
  predicate Heading(s: State) {
    Inv(s) && s.writer == Enable([]) && !s.waitingBrk && BreakAhead(s) &&
    match s.isr
    case Quiet => s.emptyOn
    case Draining(rem, en) => rem == 0 ==> en
    case Exiting(en) => en
    case Spinning => false
  }

  /** The break has been requested while the writer has still to enable the interrupt. */
  predicate BreakReached(s: State) {
    s.waitingBrk && s.lenTot == 0 && s.ring == [] && !s.ptr && s.writer == Enable([]) && s.isr.Draining?
  }

  lemma NoChunksLeft(items: seq<Item>)
    requires ChunksOnly(items) && Parses(items, 0, 0)
    ensures items == []
  {
  }

  lemma HeadingTakesDesc(s: State)
    requires Heading(s) && s.isr.Draining? && s.isr.rem > 0 && s.lenTot == 0
    ensures Heading(DrainStep(s))
  {
    var rem, en := s.isr.rem, s.isr.en;
    TakeDesc(s, rem, en);
    var t := TakeDescriptor(s, s.ring[0].size, true, rem, en);
    assert !t.ptr && DrainStep(s) == t;
  }

  lemma HeadingSends(s: State, rem: nat, en: bool)
    requires Inv(s) && s.writer == Enable([]) && !s.waitingBrk && s.lenTot > 0 && BreakAhead(s) && s.ptr && rem > 0
    ensures var t := SendSome(s, rem, en);
            Inv(t) && (BreakReached(t) || Heading(t))
  {
    var n := Min(|s.cur|, rem);
    var t := SendSome(s, rem, en);
    SendKeeps(s, rem, en);
    SendAdvances(s, rem, en);
    SendFrame(s, rem, en);
    if t.lenTot == 0 {
      assert t.cur == [];
      NoChunksLeft(t.ring);
      assert t.waitingBrk;
    } else {
      assert t.isr == Draining(rem - n, true) && !t.waitingBrk;
    }
  }

  lemma HeadingTakesChunk(s: State)
    requires Heading(s) && s.isr.Draining? && s.isr.rem > 0 && s.lenTot > 0 && !s.ptr
    ensures BreakReached(DrainStep(s)) || Heading(DrainStep(s))
  {
    var rem, en := s.isr.rem, s.isr.en;
    assert s.ring != [];
    TakeChunk(s, rem, en);
    var t := TakeData(s, s.ring[0].bytes, rem);
    assert TakeItem(s, rem, en) == t;
    HeadingSends(t, rem, true);
    assert DrainStep(s) == SendSome(t, rem, true);
  }

  /** Bytes that have not gone to the FIFO. */
  function Unsent(s: State): nat { |InHand(s)| + |Data(s.ring)| }

  /** A turn sends bytes or takes an item. */
  lemma TurnProgress(s: State)
    requires Inv(s) && s.isr.Draining? && s.isr.rem > 0 && (NeedsItem(s) ==> s.ring != [])
    ensures var t := DrainStep(s);
            Unsent(t) < Unsent(s) || (Unsent(t) == Unsent(s) && |t.ring| < |s.ring|)
  {
    var t := DrainStep(s);
    TurnFrame(s, s.isr.rem, s.isr.en);
    TurnEnqueued(s, s.isr.rem, s.isr.en);
    TurnRoom(s, s.isr.rem, s.isr.en);
    DrainLoopEnds(s);
    assert Enqueued(s) == |s.wire| + Unsent(s) && Enqueued(t) == |t.wire| + Unsent(t);
  }

  lemma HeadingTurn(s: State)
    requires Heading(s) && s.isr.Draining? && s.isr.rem > 0
    ensures BreakReached(DrainStep(s)) || Heading(DrainStep(s))
    ensures NeedsItem(s) ==> s.ring != []
  {
    if s.lenTot == 0 {
      HeadingTakesDesc(s);
    } else if !s.ptr {
      HeadingTakesChunk(s);
    } else {
      HeadingSends(s, s.isr.rem, s.isr.en);
    }
  }

  /** The loop left and the interrupt back on. */
  lemma HeadingLeaves(s: State)
    requires Heading(s) && (s.isr.Exiting? || (s.isr.Draining? && s.isr.rem == 0))
    ensures var t := DrainStep(s);
            Heading(t) && Unsent(t) == Unsent(s) && t.ring == s.ring && t.isr == if s.isr.Exiting? then Quiet else Exiting(true)
  {
    var t := s.(isr := if s.isr.Exiting? then Quiet else Exiting(true), emptyOn := s.emptyOn || s.isr.Exiting?);
    assert DrainStep(s) == t;
    SameStreamKeeps(s, t);
  }

  lemma HeadingEnters(s: State)
    requires Heading(s) && s.isr == Quiet && s.fifoCnt == 0
    ensures var t := Step(s, Interrupt);
            Heading(t) && Unsent(t) == Unsent(s) && t.ring == s.ring && t.isr == Draining(FIFO_LEN, false)
  {
    StepKeeps(s, Interrupt);
  }

  lemma BreakReachedSpins(s: State)
    requires BreakReached(s)
    ensures CanSpin(s)
  {
    var a := DrainStep(s);
    var b := DrainStep(a);
    assert a == s.(isr := Exiting(s.isr.en));
    PendingSpins(WriterNext(b));
    SpinBefore(b, WriterStep);
    SpinBefore(a, Drain);
    SpinBefore(s, Drain);
  }

  /** The handler sends everything, enabling itself after each full FIFO; then the writer's last
      enable comes. */
  lemma {:induction false} HeadingSpins(s: State)
    requires Heading(s)
    ensures CanSpin(s)
    decreases Unsent(s), |s.ring|,
              match s.isr case Draining(rem, _) => (if rem == 0 then 3 else 0) case Exiting(_) => 2 case _ => 1
  {
    if s.isr == Quiet {
      var t := s.(fifoCnt := 0);
      HeadingEnters(t);
      HeadingSpins(Step(t, Interrupt));
      SpinBefore(t, Interrupt);
      SentSpins(s);
    } else {
      if s.isr.Draining? && s.isr.rem > 0 {
        HeadingTurn(s);
        TurnProgress(s);
      } else {
        HeadingLeaves(s);
      }
      if BreakReached(DrainStep(s)) {
        BreakReachedSpins(DrainStep(s));
      } else {
        HeadingSpins(DrainStep(s));
      }
      SpinBefore(s, Drain);
    }
  }

  /** More than one chunk: the interrupt is on before the last one is pushed. */
  lemma {:induction false} LongSpins(s: State)
    requires Inv(s) && s.writer.Push? && s.isr == Quiet && !s.waitingBrk && s.lenTot == 0 && BreakAhead(s)
    requires s.emptyOn || |s.writer.left| > s.half
    ensures CanSpin(s)
    decreases |Left(s.writer)|
  {
    var left := s.writer.left;
    var n := Min(s.half, |left|);
    var t := WriterNext(s);
    assert t == s.(ring := s.ring + [Chunk(left[..n])], writer := Enable(left[n..]));
    StepKeeps(s, WriterStep);
    if left[n..] == [] {
      HeadingSpins(t);
    } else {
      StepKeeps(t, WriterStep);
      LongSpins(WriterNext(t));
      SpinBefore(t, WriterStep);
    }
    SpinBefore(s, WriterStep);
  }

  lemma ShortQueued(s: State, m: seq<byte>)
    requires s.writer == Push(m) && s.ring == [Desc(|m|, true)] && s.half >= |m|
    requires s.isr == Quiet && 0 < |m| <= FIFO_LEN && s.lenTot == 0 && !s.ptr && !s.waitingBrk
    ensures CanSpin(s)
  {
    var t := WriterNext(s);
    var u := WriterNext(t);
    assert m[..|m|] == m && m[|m|..] == [];
    assert u.ring == [Desc(|m|, true), Chunk(m)] && u.emptyOn && u.writer == Idle;
    ShortSpins(u.(fifoCnt := 0), m);
    SentSpins(u);
    SpinBefore(t, WriterStep);
    SpinBefore(s, WriterStep);
  }

  lemma OtherSpins(s: State, m: seq<byte>)
    requires Inv(s) && Resting(s) && m != [] && !(FIFO_LEN < |m| <= s.half)
    ensures CanSpin(Step(s, Write(m, true)))
  {
    var a := Step(s, Write(m, true));
    var b := WriterNext(a);
    StepKeeps(s, Write(m, true));
    StepKeeps(a, WriterStep);
    assert b.ring == [Desc(|m|, true)] && b.writer == Push(m);
    if |m| > s.half {
      LongSpins(b);
    } else {
      ShortQueued(b, m);
    }
    SpinBefore(a, WriterStep);
  }

  /** When a break message sent from rest is safe: in no run does the handler spin on its pending
      break if and only if the message is longer than the FIFO and not longer than one chunk. Whether
      or not every interrupt waits for the FIFO to run low makes no difference. */
  lemma BreakMessageSpinsIff(s: State, m: seq<byte>)
    requires Inv(s) && Resting(s) && m != []
    ensures (forall es :: WithoutWrites(es) ==> Run(Step(s, Write(m, true)), es).isr != Spinning) <==>
            FIFO_LEN < |m| <= s.half
    ensures (forall es :: WithoutWrites(es) && Timely(Step(s, Write(m, true)), es) ==>
               Run(Step(s, Write(m, true)), es).isr != Spinning) <==>
            FIFO_LEN < |m| <= s.half
  {
    if FIFO_LEN < |m| <= s.half {
      forall es | WithoutWrites(es) ensures Run(Step(s, Write(m, true)), es).isr != Spinning {
        OneChunkRun(Step(s, Write(m, true)), m, es);
      }
    } else {
      OtherSpins(s, m);
    }
  }

  lemma InstalledRests(s: State)
    requires Installed(s)
    ensures Inv(s) && Resting(s)
  {
    InstalledInv(s);
  }
}
