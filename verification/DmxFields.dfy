/**
 What every run does to the fields that the handler, its two directions and the tasks share: the
 receive enable, the buffer, _tx_running, the phase and the baud rate. And what follows for a port
 that has sent before it receives.
 */
module DmxFields {
  import opened Common
  import opened DmxPort
  import opened DmxReceiver
  import Runs
  import Sender = DmxTransmitter

  // ----- the receive enable -----

  /** A byte comes in while the port is sending, and the ring buffer refuses it. */
  predicate Refuses(s: State, e: Event) {
    e.Isr? && s.sending && e.r.rx && s.rxOn && !e.r.accepted &&
    !(e.r.txDone && s.doneOn) && !(e.r.txEmpty && s.emptyOn) && !e.r.brk
  }

  ghost predicate NoneRefused(s: State, es: seq<Event>) {
    forall i :: 0 <= i < |es| ==> !Refuses(Run(s, es[..i]), es[i])
  }

  lemma RxPathStep(s: State, e: Event)
    requires s.rxOn == !s.rxFull
    ensures Step(s, e).rxOn == !Step(s, e).rxFull
    ensures Step(s, e).rxOn <==> s.rxOn && !Refuses(s, e)
  {
    if e.Isr? {
      RxPathService(s, e.r);
    }
  }

  lemma RxPathService(s: State, r: Reading)
    requires s.rxOn == !s.rxFull
    ensures Service(s, r).rxOn == !Service(s, r).rxFull
    ensures Service(s, r).rxOn <==> s.rxOn && !Refuses(s, Isr(r))
  {
    if (r.txDone && s.doneOn) || (r.txEmpty && s.emptyOn) {
      assert Service(s, r).rxOn == s.rxOn && Service(s, r).rxFull == s.rxFull;
    }
  }

  lemma NoneRefusedSnoc(s: State, init: seq<Event>, e: Event)
    ensures NoneRefused(s, init + [e]) <==> NoneRefused(s, init) && !Refuses(Run(s, init), e)
  {
    var es := init + [e];
    assert es[..|init|] == init && es[|init|] == e;
    assert forall i :: 0 <= i < |init| ==> es[..i] == init[..i] && es[i] == init[i];
  }

  /** From installation on, whatever happens in either direction: the receive interrupt is on and the
      flag clear if and only if the ring has refused no byte while the port was sending. */
  lemma {:induction false} OnlyRefusalCloses(s: State, es: seq<Event>)
    requires Installed(s)
    ensures Run(s, es).rxOn == !Run(s, es).rxFull
    ensures Run(s, es).rxOn <==> NoneRefused(s, es)
    decreases |es|
  {
    if es != [] {
      var init, e := es[..|es| - 1], es[|es| - 1];
      assert es == init + [e];
      Runs.Last(Step, s, es);
      OnlyRefusalCloses(s, init);
      NoneRefusedSnoc(s, init, e);
      RxPathStep(Run(s, init), e);
    }
  }

  /** Should the two ever disagree, the next receive interrupt masks itself: with the flag raised no
      byte is taken and the interrupt is off after it. */
  lemma RaisedFlagMasks(s: State, r: Reading)
    requires s.rxFull && r.rx && !(r.txDone && s.doneOn) && !(r.txEmpty && s.emptyOn) && !r.brk
    ensures Run(s, [Isr(r)]) == if s.rxOn then s.(rxOn := false) else s
  {
    Runs.Single(Step, s, Isr(r));
  }

  /** So a port that has sent, and whose ring has refused nothing, obeys the parser from a stop with
      TX_DONE masked on, at the rate of the slots. Readings `mid` come between the globals and the
      mask of the switch. */
  lemma ReceivesAfterSending(s: State, es: seq<Event>, mid: seq<Reading>, rs: seq<Reading>)
    requires Installed(s) && NoneRefused(s, es) && !Run(s, es).doneOn
    requires Run(s, es).emptyOn ==> forall i :: 0 <= i < |mid| ==> !mid[i].txEmpty
    ensures var t, u := Run(s, es), Run(s, es + (Sender.StopCall([], [], Isrs(mid)) + Isrs(rs)));
            t.Valid() && u.data == Parse(t.data, Lines(mid + rs)) && Listening(u)
  {
    RunValid(s, es);
    OnlyRefusalCloses(s, es);
    ReceivesAfterSwitch(Run(s, es), mid, rs);
    Runs.Append(Step, s, es, Sender.StopCall([], [], Isrs(mid)) + Isrs(rs));
  }

  // ----- the buffer while sending -----

  /** What the tasks wrote to slot `k` last. */
  function LastWrite(es: seq<Event>, k: nat, before: byte): byte
    decreases |es|
  {
    if es == [] then before
    else if es[|es| - 1].AppWrite? && es[|es| - 1].at == k then es[|es| - 1].value
    else LastWrite(es[..|es| - 1], k, before)
  }

  lemma BufferStep(s: State, e: Event)
    requires s.Valid() && s.sending && e != MarkStopped
    ensures Step(s, e).Valid() && Step(s, e).sending
    ensures forall k: nat :: k < MAX_SLOTS ==>
              Step(s, e).data[k] == if e.AppWrite? && e.at == k then e.value else s.data[k]
  {
  }

  /** While the port sends, each slot of the buffer is what a task wrote to it last: nothing that is
      serviced, received bytes included, touches it. */
  lemma {:induction false} BufferIsLastWritten(s: State, es: seq<Event>)
    requires s.Valid() && s.sending && MarkStopped !in es
    ensures Run(s, es).Valid() && Run(s, es).sending
    ensures forall k: nat :: k < MAX_SLOTS ==> Run(s, es).data[k] == LastWrite(es, k, s.data[k])
    decreases |es|
  {
    if es != [] {
      var init, e := es[..|es| - 1], es[|es| - 1];
      Runs.Last(Step, s, es);
      BufferIsLastWritten(s, init);
      BufferStep(Run(s, init), e);
    }
  }

  /** The `n`-th byte of the run was written after its first `i` events, and `v` is what the tasks had
      written to slot `k` by then. */
  ghost predicate SentAsWritten(s: State, es: seq<Event>, n: nat, k: nat, v: byte)
    requires s.Valid() && k < MAX_SLOTS
  {
    exists i :: 0 <= i < |es| && |Run(s, es[..i]).wire| == |s.wire| + n && |Run(s, es[..i + 1]).wire| == |s.wire| + n + 1 &&
                v == LastWrite(es[..i], k, s.data[k])
  }

  lemma SentIsWritten(s: State, es: seq<Event>, n: nat, k: nat, v: byte)
    requires s.Valid() && s.sending && MarkStopped !in es && k < MAX_SLOTS && SentFromBuffer(s, es, n, k, v)
    ensures SentAsWritten(s, es, n, k, v)
  {
    var i :| 0 <= i < |es| && SendsSlot(Run(s, es[..i]), Run(s, es[..i + 1]), |s.wire| + n, k, v);
    BufferIsLastWritten(s, es[..i]);
    assert v == LastWrite(es[..i], k, s.data[k]);
  }

  /** From task to task: after each complete frame a listening receiver holds in every slot what the
      sender's tasks had written there when the slot was sent. */
  lemma WritesAreDelivered(s: State, es: seq<Event>, r: State, m: nat)
    requires Sender.Synced(s) && s.sending && Sender.NoDirectionChanges(es) && Listening(r)
    requires ToNextFrame(s) + Sender.FRAME * (m + 1) <= |Sender.Written(s, es)|
    ensures var off := ToNextFrame(s) + Sender.FRAME * m;
            var heard := HearAll(r, Feed(Sender.Written(s, es)[..off + Sender.FRAME]));
            heard.Valid() && forall k :: 1 <= k < MAX_SLOTS ==> SentAsWritten(s, es, off + 1 + k, k, heard.data[k])
  {
    var off := ToNextFrame(s) + Sender.FRAME * m;
    Loopback(s, es, r, m);
    assert off + Sender.FRAME == ToNextFrame(s) + Sender.FRAME * (m + 1);
    var heard := HearAll(r, Feed(Sender.Written(s, es)[..off + Sender.FRAME]));
    assert forall e :: e in es ==> Sender.NoDirectionChange(e);
    forall k | 1 <= k < MAX_SLOTS ensures SentAsWritten(s, es, off + 1 + k, k, heard.data[k]) {
      assert SentFromBuffer(s, es, ToNextFrame(s) + Sender.FRAME * m + 1 + k, k, heard.data[k]);
      SentIsWritten(s, es, off + 1 + k, k, heard.data[k]);
    }
  }

  // ----- _tx_running -----

  /** What the calls set _tx_running to last: uart_enable_tx_intr on any port, uart_disable_tx_intr on
      this one. */
  function LastCall(es: seq<Event>, before: bool): bool
    decreases |es|
  {
    if es == [] then before
    else if es[|es| - 1] in {MarkRunning, OtherPortEnable} then true
    else if es[|es| - 1] == MarkStopped then false
    else LastCall(es[..|es| - 1], before)
  }

  lemma {:induction false} RunningIsLastCall(s: State, es: seq<Event>)
    ensures Run(s, es).sending == LastCall(es, s.sending)
    decreases |es|
  {
    if es != [] {
      Runs.Last(Step, s, es);
      RunningIsLastCall(s, es[..|es| - 1]);
      RunningStep(Run(s, es[..|es| - 1]), es[|es| - 1]);
    }
  }

  lemma RunningStep(s: State, e: Event)
    ensures Step(s, e).sending ==
            if e in {MarkRunning, OtherPortEnable} then true else if e == MarkStopped then false else s.sending
  {
    if e.Isr? {
      assert Service(s, e.r).sending == s.sending;
    }
  }

  /** A port that listens goes deaf when the transmit interrupt of any other port is enabled. */
  lemma OtherPortDeafens(s: State, rs: seq<Reading>)
    requires Attentive(s)
    ensures Run(s, [OtherPortEnable] + Isrs(rs)).data == s.data
  {
    Runs.Cons(Step, s, OtherPortEnable, Isrs(rs));
    DeafRun(Step(s, OtherPortEnable), rs);
  }

  // ----- the phase -----

  /** DMX_STATE_RDM and DMX_STATE_MAB are never entered. */
  lemma {:induction false} PhasesInUse(s: State, es: seq<Event>)
    requires Installed(s)
    ensures InUse(Run(s, es).phase)
    decreases |es|
  {
    if es != [] {
      Runs.Last(Step, s, es);
      PhasesInUse(s, es[..|es| - 1]);
      PhaseStep(Run(s, es[..|es| - 1]), es[|es| - 1]);
    }
  }

  predicate InUse(p: Phase) { p in {START, DATA, BREAK, IDLE} }

  lemma PhaseService(s: State, r: Reading)
    requires InUse(s.phase)
    ensures InUse(Service(s, r).phase)
  {
  }

  lemma PhaseStep(s: State, e: Event)
    requires InUse(s.phase)
    ensures InUse(Step(s, e).phase)
  {
    if e.Isr? {
      PhaseService(s, e.r);
    }
  }

  // ----- the baud rate -----

  predicate ServicesEmpty(s: State, e: Event) { Sender.Services(s, e) && !Sender.ServicesDone(s, e) }

  predicate WritesBreak(s: State, e: Event) { ServicesEmpty(s, e) && s.phase == BREAK }

  predicate SetsDataRate(s: State, e: Event) { e == SetDataBaud || (ServicesEmpty(s, e) && s.phase == START) }

  lemma RateStep(s: State, e: Event)
    ensures Step(s, e).baud != DATA_BAUD <==> WritesBreak(s, e) || (s.baud != DATA_BAUD && !SetsDataRate(s, e))
  {
    if ServicesEmpty(s, e) {
      assert Step(s, e) == TxEmpty(s, e.r.stray);
    } else if e != SetDataBaud {
      assert Step(s, e).baud == s.baud;
    }
  }

  /** In every run the port is off the rate of the slots if and only if a break was written, or it was
      off it to begin with, and since then neither a start code was written nor a switch to receive
      set the rate. */
  lemma {:induction false} OffRateIff(s: State, es: seq<Event>)
    ensures Run(s, es).baud != DATA_BAUD <==>
            Runs.Since(Step, s, es, s.baud != DATA_BAUD, WritesBreak, SetsDataRate)
    decreases |es|
  {
    if es == [] {
      Runs.SinceNothing(Step, s, s.baud != DATA_BAUD, WritesBreak, SetsDataRate);
    } else {
      var init, e := es[..|es| - 1], es[|es| - 1];
      assert es == init + [e];
      OffRateIff(s, init);
      Runs.Last(Step, s, es);
      Runs.SinceSnoc(Step, s, init, e, s.baud != DATA_BAUD, WritesBreak, SetsDataRate);
      RateStep(Run(s, init), e);
    }
  }

  /** An uninterrupted stop with TX_DONE masked leaves the rate of the slots for good, whatever rate it
      was called at. */
  lemma {:induction false} StopSetsRate(s: State, es: seq<Event>)
    requires s.Valid() && !s.doneOn && Sender.NoDirectionChanges(es)
    ensures Sender.Silent(Run(StopSending(s), es)) && Run(StopSending(s), es).baud == DATA_BAUD
    decreases |es|
  {
    Sender.SilentRun(StopSending(s), es);
    if es != [] {
      var init, e := es[..|es| - 1], es[|es| - 1];
      Runs.Last(Step, StopSending(s), es);
      StopSetsRate(s, init);
      RateStep(Run(StopSending(s), init), e);
    }
  }

  /** An interrupted one may not: a break that goes out after the rate was set leaves a silent port
      that listens at the rate of breaks. */
  lemma StopCanLeaveBreakRate(s: State)
    requires s.Valid() && s.phase == BREAK && s.emptyOn && !s.doneOn
    ensures var t := Run(s, Sender.StopCall([Sender.EMPTY, Sender.TICK], [], []));
            Sender.Silent(t) && t.baud == BREAK_BAUD
  {
    var l, rest := [SetDataBaud, Sender.EMPTY, Sender.TICK], [MarkIdle, MarkStopped, MaskEmpty];
    assert Sender.StopCall([Sender.EMPTY, Sender.TICK], [], []) == l + rest;
    BreakAfterRate(s);
    Runs.Append(Step, s, l, rest);
    SilentAtRate(Run(s, l));
  }

  lemma BreakAfterRate(s: State)
    requires s.Valid() && s.phase == BREAK && s.emptyOn && !s.doneOn
    ensures var u := Run(s, [SetDataBaud, Sender.EMPTY, Sender.TICK]);
            u.Valid() && u.baud == BREAK_BAUD && !u.doneOn
  {
    Runs.Three(Step, s, SetDataBaud, Sender.EMPTY, Sender.TICK);
    assert Step(s.(baud := DATA_BAUD), Sender.EMPTY) == TxEmpty(s.(baud := DATA_BAUD), 0);
  }

  lemma SilentAtRate(u: State)
    requires u.Valid() && !u.doneOn
    ensures var t := Run(u, [MarkIdle, MarkStopped, MaskEmpty]); Sender.Silent(t) && t.baud == u.baud
  {
    Runs.Three(Step, u, MarkIdle, MarkStopped, MaskEmpty);
  }
}
