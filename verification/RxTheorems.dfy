/**
 What the receive path promises over whole runs, and the interleavings that break it.
 */
module RxTheorems {
  import opened Common
  import Runs
  import opened RxQueue

  // ----- FIFO refinement -----

  /** Bytes that arrive during a run. */
  function Arrivals(es: seq<Event>): seq<byte>
    decreases |es|
  {
    if es == [] then [] else
    var e := es[|es| - 1];
    Arrivals(es[..|es| - 1]) + if e.Arrive? then [e.b] else []
  }

  // ----- one activation -----

  function Steps(n: nat): (es: seq<Event>)
    ensures |es| == n && forall i :: 0 <= i < n ==> es[i] == IsrStep(0)
  {
    seq(n, i => IsrStep(0))
  }

  lemma {:induction false} DrainsAll(s: State)
    requires s.isr == Draining(|s.fifo|)
    ensures Run(s, Steps(|s.fifo|)) == s.(stash := s.stash + s.fifo, fifo := [], isr := Draining(0))
    decreases |s.fifo|
  {
    var n := |s.fifo|;
    if n == 0 {
      assert s.stash + s.fifo == s.stash;
    } else {
      DrainsAll(Step(s, IsrStep(0)));
      assert s.stash + [s.fifo[0]] + s.fifo[1..] == s.stash + s.fifo;
      assert Steps(n) == [IsrStep(0)] + Steps(n - 1);
      Runs.Cons(Step, s, IsrStep(0), Steps(n - 1));
    }
  }

  /** What an activation is for: the FIFO is empty and its bytes are in the ring, or, if they do not
      fit, in the stash with the interrupt masked; behind a raised flag the interrupt is masked and the
      bytes stay where they are. */
  predicate Attended(s: State, t: State) {
    if s.full then !t.rxOn && t.full && t.fifo == s.fifo && t.ring == s.ring && t.stash == s.stash && t.buffered == s.buffered
    else if |s.ring| + s.reserved + |s.fifo| <= s.cap then
      t.rxOn && !t.full && t.fifo == [] && t.ring == s.ring + s.fifo && t.buffered == s.buffered + |s.fifo|
    else !t.rxOn && t.full && t.fifo == [] && t.ring == s.ring && t.stash == s.fifo && t.buffered == s.buffered
  }

  /** The steps of one activation in a row, with nothing between them, are the RX arm in one piece. */
  lemma ActivationIsServed(s: State) returns (es: seq<Event>)
    requires s.isr == Quiet && s.rxOn
    ensures Run(s, es) == Served(s) == Step(s, IsrWhole) && Attended(s, Run(s, es))
    ensures forall i :: 0 <= i < |es| ==> es[i].IsrStart? || es[i].IsrStep?
  {
    var g := IsrStep(0);
    if s.full {
      es := [IsrStart, g, g];
      Runs.Three(Step, s, IsrStart, g, g);
    } else {
      var counted := s.(stash := [], isr := Draining(|s.fifo|));
      Runs.Three(Step, s, IsrStart, g, g);
      assert Run(s, [IsrStart, g]) == counted;
      DrainsAll(counted);
      assert [] + s.fifo == s.fifo;
      var sends := SendsDrained(s.(stash := s.fifo, fifo := [], isr := Draining(0)));
      es := [IsrStart, g] + Steps(|s.fifo|) + sends;
      Runs.Append(Step, s, [IsrStart, g], Steps(|s.fifo|));
      Runs.Append(Step, s, [IsrStart, g] + Steps(|s.fifo|), sends);
    }
  }

  lemma SendsDrained(s: State) returns (es: seq<Event>)
    requires s.isr == Draining(0)
    ensures Run(s, es) ==
            if Fits(s, |s.stash|) then s.(ring := s.ring + s.stash, buffered := s.buffered + |s.stash|, isr := Quiet)
            else s.(rxOn := false, full := true, isr := Quiet)
    ensures forall i :: 0 <= i < |es| ==> es[i].IsrStep?
  {
    var g := IsrStep(0);
    Runs.Three(Step, s, g, g, g);
    if Fits(s, |s.stash|) {
      assert Step(s, g) == s.(ring := s.ring + s.stash, isr := Pushed(|s.stash|));
      es := [g, g];
    } else {
      assert Step(s, g) == s.(isr := Refused) && Step(Step(s, g), g) == s.(rxOn := false, isr := Raising);
      es := [g, g, g];
    }
  }

  // ----- lossless runs -----

  /** The handler has not counted more bytes than there are in the FIFO. */
  predicate Honest(s: State) { s.isr.Draining? ==> s.isr.left <= |s.fifo| }

  /** No flush, and the hardware FIFO never overflows. */
  ghost predicate Lossless(s: State, es: seq<Event>)
    decreases |es|
  {
    if es == [] then !s.holder.Flusher? && Honest(s) else
    var e := es[|es| - 1];
    Lossless(s, es[..|es| - 1]) && e != Overflow && e != StartFlush &&
    (e.Arrive? ==> |Run(s, es[..|es| - 1]).fifo| < FIFO_LEN)
  }

  lemma ReadAccepts(s: State, k: nat)
    requires s.holder.Reader?
    ensures var t := ReadStep(s, k);
            !t.holder.Flusher? && t.accepted == s.accepted && t.isr == s.isr && t.fifo == s.fifo
  {
  }

  lemma HandlerAccepts(s: State, g: byte)
    requires Honest(s)
    ensures var t := IsrNext(s, g);
            t.holder == s.holder && t.accepted == s.accepted && Honest(t)
  {
  }

  lemma LosslessStep(s: State, e: Event)
    requires !s.holder.Flusher? && Honest(s) && e != Overflow && e != StartFlush
    requires e.Arrive? ==> |s.fifo| < FIFO_LEN
    ensures !Step(s, e).holder.Flusher? && Honest(Step(s, e))
    ensures Step(s, e).accepted == s.accepted + if e.Arrive? then [e.b] else []
  {
    assert s.accepted + [] == s.accepted;
    if e.HolderStep? && s.holder.Reader? {
      ReadAccepts(s, e.k);
    } else if e.IsrStep? {
      HandlerAccepts(s, e.g);
    }
  }

  lemma {:induction false} LosslessRun(s: State, es: seq<Event>)
    requires Lossless(s, es)
    ensures !Run(s, es).holder.Flusher? && Honest(Run(s, es))
    ensures Run(s, es).accepted == s.accepted + Arrivals(es)
    decreases |es|
  {
    if es != [] {
      var init := es[..|es| - 1];
      Runs.Last(Step, s, es);
      LosslessRun(s, init);
      LosslessStep(Run(s, init), es[|es| - 1]);
    }
  }

  /** Main theorem of the receive path. For every interleaving of the handler and of readers on
      two cores, and for every way the ring buffer hands out its bytes: what was read, then the
      held item, the ring, the stash and the hardware FIFO are the bytes that arrived, in order,
      none lost and none twice. */
  lemma ReceiveRefinesFifo(s: State, es: seq<Event>)
    requires Installed(s) && Lossless(s, es)
    ensures Run(s, es).taken + Queue(Run(s, es)) == Arrivals(es)
    ensures OwnBytes(Run(s, es))
  {
    InstalledInv(s);
    RunKeeps(s, es);
    LosslessRun(s, es);
  }

  /** What readers get does not depend on scheduling or on item boundaries: of two runs with the
      same arrivals, the one that took less took a prefix of what the other took. */
  lemma ScheduleIndependence(s: State, es: seq<Event>, fs: seq<Event>)
    requires Inv(s) && Lossless(s, es) && Lossless(s, fs) && Arrivals(es) == Arrivals(fs)
    requires |Run(s, es).taken| <= |Run(s, fs).taken|
    ensures Run(s, es).taken == Run(s, fs).taken[..|Run(s, es).taken|]
  {
    RunKeeps(s, es);
    RunKeeps(s, fs);
    LosslessRun(s, es);
    LosslessRun(s, fs);
    var a, b := Run(s, es), Run(s, fs);
    assert a.taken == Flow(a)[..|a.taken|] && b.taken == Flow(b)[..|b.taken|];
  }

  /** The two steps that reset the hardware FIFO. */
  predicate Resets(s: State, e: Event) {
    (e == Overflow && s.isr == Quiet) || (e.HolderStep? && s.holder == Flusher(Reset))
  }

  /** The handler reads a byte it has counted out of a FIFO that another core has emptied since. */
  predicate Invents(s: State, e: Event) {
    e.IsrStep? && s.isr.Draining? && s.isr.left > 0 && s.fifo == []
  }

  lemma OthersAccept(s: State, e: Event)
    requires !Resets(s, e) && !Invents(s, e)
    ensures Step(s, e).accepted == if e.Arrive? && |s.fifo| < FIFO_LEN then s.accepted + [e.b] else s.accepted
  {
    if e.HolderStep? && s.holder.Reader? {
      ReadAccepts(s, e.k);
    }
  }

  lemma ResetLoses(s: State, e: Event)
    requires Shape(s) && Flow(s) == s.accepted && Resets(s, e)
    ensures Step(s, e).accepted + s.fifo == s.accepted
  {
    LoseFlow(s);
  }

  /** Bytes are lost in no other way, and made up in no other way: a reset loses what is in the
      hardware FIFO and nothing else, a read behind it adds what an empty FIFO reads as, and every
      other step keeps exactly what has arrived. */
  lemma OnlyResetsLose(s: State, e: Event)
    requires Inv(s)
    ensures var t := Step(s, e);
            if Resets(s, e) then t.accepted + s.fifo == s.accepted
            else if Invents(s, e) then t.accepted == s.accepted + [e.g]
            else if e.Arrive? && |s.fifo| < FIFO_LEN then t.accepted == s.accepted + [e.b]
            else t.accepted == s.accepted
  {
    if Resets(s, e) {
      ResetLoses(s, e);
    } else if !Invents(s, e) {
      OthersAccept(s, e);
    }
  }

  // ----- the byte count -----

  /** Over every run with flushes and overflows: rx_buffered_len is what is unread plus what
      readers have yet to subtract, less what has yet to be added. */
  lemma CountConserved(s: State, es: seq<Event>)
    requires Installed(s)
    ensures Counted(Run(s, es))
    ensures !Run(s, es).isr.Pushed? ==> Run(s, es).buffered >= 0
    ensures Run(s, es).isr.Pushed? ==> Run(s, es).buffered + Run(s, es).isr.n >= 0
  {
    InstalledInv(s);
    RunKeeps(s, es);
  }

  /** The count does go negative while the handler is between its send and its addition: a reader
      on the other core takes the byte and subtracts first. */
  lemma CountCanBeNegative(s: State, b: byte) returns (es: seq<Event>)
    requires Installed(s)
    ensures Run(s, es).buffered == -1 && Lossless(s, es)
  {
    var h := HolderStep(1);
    var g := IsrStep(0);
    var push := [Arrive(b), IsrStart, g] + [g, g, StartRead(1)];
    var read := [h, h, h] + [h, h, Subtract(0)];
    var t := s.(ring := [b], stash := [b], isr := Pushed(1), holder := Reader(Loop, 1, []), accepted := [b]);
    PushesOneByte(s, b);
    ReadsItsByte(t, b);
    Runs.Append(Step, t, [h, h, h], [h, h, Subtract(0)]);
    Runs.Append(Step, s, push, read);
    es := push + read;
    LosslessUnlessLost(s, es);
  }

  /** The handler's half of it. */
  lemma PushesOneByte(s: State, b: byte)
    requires Installed(s)
    ensures var g := IsrStep(0);
            Run(s, [Arrive(b), IsrStart, g] + [g, g, StartRead(1)]) ==
            s.(ring := [b], stash := [b], isr := Pushed(1), holder := Reader(Loop, 1, []), accepted := [b])
  {
    var g := IsrStep(0);
    var counted := s.(fifo := [b], accepted := [b], isr := Draining(1));
    Runs.Three(Step, s, Arrive(b), IsrStart, g);
    assert Run(s, [Arrive(b), IsrStart, g]) == counted;
    Runs.Three(Step, counted, g, g, StartRead(1));
    var read := counted.(stash := [b], fifo := [], isr := Draining(0));
    assert Step(counted, g) == read;
    assert Step(read, g) == read.(ring := [b], isr := Pushed(1));
    Runs.Append(Step, s, [Arrive(b), IsrStart, g], [g, g, StartRead(1)]);
  }

  /** The reader's half of it. */
  lemma ReadsItsByte(t: State, b: byte)
    requires t.ring == [b] && t.rest == [] && !t.full && t.owed == [] && t.taken == []
    requires t.holder == Reader(Loop, 1, [])
    ensures var h := HolderStep(1);
            Run(Run(t, [h, h, h]), [h, h, Subtract(0)]).buffered == t.buffered - 1
  {
    var h := HolderStep(1);
    var fetched := t.(head := true, rest := [b], ring := [], reserved := 1, holder := Reader(Copy, 1, []));
    assert Step(t, h) == fetched;
    var copied := fetched.(rest := [], taken := [b], holder := Reader(Return, 0, [b]));
    assert [b][..1] == [b] && [b][1..] == [] && fetched.taken + [b] == [b];
    assert Step(fetched, h) == copied;
    var returned := copied.(reserved := 0, head := false, holder := Reader(Check, 0, [b]));
    assert Step(copied, h) == returned;
    Runs.Three(Step, t, h, h, h);
    LeavesAndSubtracts(returned);
  }

  lemma LeavesAndSubtracts(r: State)
    requires r.holder.Reader? && r.holder.rpc == Check && r.holder.want == 0 && !r.full && r.owed == []
    ensures var h := HolderStep(1);
            Run(r, [h, h, Subtract(0)]).buffered == r.buffered - |r.holder.buf|
  {
    var h := HolderStep(1);
    Runs.Three(Step, r, h, h, Subtract(0));
    assert Step(Step(r, h), h).owed == [|r.holder.buf|];
  }

  /** One arrival into an empty FIFO is lossless. */
  lemma {:induction false} LosslessUnlessLost(s: State, es: seq<Event>)
    requires !s.holder.Flusher? && |s.fifo| < FIFO_LEN && Honest(s)
    requires forall i :: 0 <= i < |es| ==> es[i] != Overflow && es[i] != StartFlush && (es[i].Arrive? ==> i == 0)
    ensures Lossless(s, es)
    decreases |es|
  {
    if es != [] {
      LosslessUnlessLost(s, es[..|es| - 1]);
      if |es| == 1 {
        assert es[..0] == [];
      }
    }
  }

  // ----- stalls -----

  /** Whoever holds the mutex is past the return of an item and about to look at the flag. */
  predicate WillResend(h: Holder) {
    (h.Reader? && h.rpc in {Check, Resend, Count, Clear}) ||
    (h.Flusher? && h.fpc in {Drop, Look, Again, Recount, Unset})
  }

  /** The stash can still be reached: it is sent when the next item is returned. */
  predicate Reachable(s: State) {
    s.full ==> s.ring != [] || s.head || WillResend(s.holder)
  }

  /** The two steps that strand the stash: the handler raises the flag after another core has
      drained the ring behind its failed send, and a flush returns the held item of a port whose
      ring is empty, then breaks out of its loop without looking at the flag. */
  predicate Strands(s: State, e: Event) {
    (e.IsrStep? && s.isr == Raising && s.ring == [] && !s.head && !WillResend(s.holder)) ||
    (e.HolderStep? && s.holder == Flusher(Top) && s.head && s.ring == [] && s.full)
  }

  lemma ReadReachable(s: State, k: nat)
    requires Shape(s) && Reachable(s) && s.holder.Reader?
    ensures Reachable(ReadStep(s, k))
  {
  }

  lemma FlushReachable(s: State, k: nat)
    requires Shape(s) && Reachable(s) && s.holder.Flusher?
    ensures Reachable(FlushStep(s, k)) <==> !Strands(s, HolderStep(k))
  {
  }

  /** Exactly those steps: any other keeps the stash reachable. */
  lemma ReachableStep(s: State, e: Event)
    requires Shape(s) && Reachable(s)
    ensures Reachable(Step(s, e)) <==> !Strands(s, e)
  {
    if e.HolderStep? {
      if s.holder.Reader? { ReadReachable(s, e.k); }
      else if s.holder.Flusher? { FlushReachable(s, e.k); }
    }
  }

  lemma OneCoreStep(s: State, e: Event)
    requires Shape(s) && Reachable(s) && s.isr == Quiet && !s.holder.Flusher?
    requires !e.IsrStart? && !e.IsrStep? && e != StartFlush
    ensures !Strands(s, e) && Step(s, e).isr == Quiet && !Step(s, e).holder.Flusher?
  {
    if e.HolderStep? && s.holder.Reader? {
      ReadAccepts(s, e.k);
    }
  }

  /** On a single core, and without a flush, the receive path never stalls. */
  lemma {:induction false} NeverStallsOnOneCore(s: State, es: seq<Event>)
    requires Installed(s)
    requires forall i :: 0 <= i < |es| ==> !es[i].IsrStart? && !es[i].IsrStep? && es[i] != StartFlush
    ensures Inv(Run(s, es)) && Reachable(Run(s, es))
    ensures Run(s, es).isr == Quiet && !Run(s, es).holder.Flusher?
    decreases |es|
  {
    if es == [] {
      InstalledInv(s);
    } else {
      var init, e := es[..|es| - 1], es[|es| - 1];
      Runs.Last(Step, s, es);
      NeverStallsOnOneCore(s, init);
      StepKeeps(Run(s, init), e);
      ReachableStep(Run(s, init), e);
      OneCoreStep(Run(s, init), e);
    }
  }

  lemma StalledHolderStep(s: State, k: nat)
    requires Shape(s) && !Reachable(s)
    ensures var t := Step(s, HolderStep(k)); !Reachable(t) && t.taken == s.taken
  {
  }

  lemma StalledStep(s: State, e: Event)
    requires Shape(s) && !Reachable(s)
    ensures !Reachable(Step(s, e)) && Step(s, e).taken == s.taken
  {
    if e.HolderStep? {
      StalledHolderStep(s, e.k);
    }
  }

  /** A stall is for good: no later read, interrupt or flush takes another byte. */
  lemma {:induction false} StallIsForever(s: State, es: seq<Event>)
    requires Shape(s) && !Reachable(s)
    ensures Shape(Run(s, es)) && !Reachable(Run(s, es)) && Run(s, es).taken == s.taken
    decreases |es|
  {
    if es != [] {
      var init, e := es[..|es| - 1], es[|es| - 1];
      Runs.Last(Step, s, es);
      StallIsForever(s, init);
      StalledStep(Run(s, init), e);
      StepShape(Run(s, init), e);
    }
  }

  // ----- the receive interrupt -----

  /** The receive interrupt is off only while the flag says full or the handler is about to raise it,
      or while the holder of the mutex is on its way to turn the interrupt on. */
  predicate Listens(s: State) {
    s.rxOn || s.full || s.isr == Raising || (s.holder.Reader? && s.holder.rpc == Enable) ||
    (s.holder.Flusher? && s.holder.fpc != Mask)
  }

  /** The handler masks for a flag that says full only behind a stall; and nothing gets in between
      the last statements of a resend, of a flush and of a refused send. */
  predicate Ordered(s: State) {
    (s.full && (s.rxOn || s.isr == Seen) ==> !Reachable(s)) &&
    (s.isr == Masking ==> s.full && !Reachable(s)) &&
    (s.isr == Raising && s.rxOn ==> s.ring == [] && !s.head && !WillResend(s.holder)) &&
    (s.holder.Reader? && s.holder.rpc == Enable ==> s.isr == Quiet && !s.full && !s.rxOn) &&
    (s.holder.Flusher? && s.holder.fpc in {Reset, Leave} && s.ring != [] ==> !s.full && (s.isr == Quiet || s.isr.Pushed?))
  }

  lemma IsrNextOrdered(s: State, g: byte)
    requires Shape(s) && Ordered(s)
    ensures Ordered(IsrNext(s, g))
  {
  }

  lemma ReadOrdered(s: State, k: nat)
    requires Shape(s) && Ordered(s) && s.holder.Reader?
    ensures Ordered(ReadStep(s, k))
  {
  }

  lemma FlushOrdered(s: State, k: nat)
    requires Shape(s) && Ordered(s) && s.holder.Flusher?
    ensures Ordered(FlushStep(s, k))
  {
  }

  lemma OrderedStep(s: State, e: Event)
    requires Shape(s) && Ordered(s)
    ensures Ordered(Step(s, e))
  {
    match e
    case HolderStep(k) =>
      if s.holder.Reader? { ReadOrdered(s, k); } else if s.holder.Flusher? { FlushOrdered(s, k); }
    case IsrStep(g) => IsrNextOrdered(s, g);
    case _ =>
  }

  lemma ListensStep(s: State, e: Event)
    requires Ordered(s) && Listens(s)
    ensures Listens(Step(s, e))
  {
    if e.HolderStep? {
      ListensHolderStep(s, e.k);
    }
  }

  lemma ListensHolderStep(s: State, k: nat)
    requires Ordered(s) && Listens(s)
    ensures Listens(Step(s, HolderStep(k)))
  {
  }

  /** In every run of both cores the port goes on listening: nothing else can turn its interrupt off
      for good. */
  lemma {:induction false} OffOnlyWhileFull(s: State, es: seq<Event>)
    requires Installed(s)
    ensures Shape(Run(s, es)) && Ordered(Run(s, es)) && Listens(Run(s, es))
    decreases |es|
  {
    if es != [] {
      var init, e := es[..|es| - 1], es[|es| - 1];
      Runs.Last(Step, s, es);
      OffOnlyWhileFull(s, init);
      StepShape(Run(s, init), e);
      OrderedStep(Run(s, init), e);
      ListensStep(Run(s, init), e);
    }
  }

  // ----- flush -----

  /** An activation that read its status before the interrupt was masked, and may yet push. */
  predicate Racing(s: State) {
    (s.isr == Seen && !s.full) || (s.isr.Draining? && |s.stash| + s.isr.left > 0)
  }

  /** uart_flush keeps the mutex throughout. */
  ghost predicate WithinFlush(s: State, es: seq<Event>) {
    forall i :: 0 <= i <= |es| ==> Run(s, es[..i]).holder.Flusher?
  }

  /** The interrupt is masked and no activation is racing; once the ring is found empty it stays so. */
  predicate Calm(s: State) {
    s.holder.Flusher? && s.holder.fpc != Mask && !Racing(s) &&
    (s.isr == Seen ==> !Reachable(s)) && (s.holder.fpc in {Reset, Leave} ==> s.ring == [])
  }

  lemma CalmFlusherStep(s: State, k: nat)
    requires Shape(s) && Calm(s) && FlushStep(s, k).holder.Flusher?
    ensures Calm(FlushStep(s, k))
  {
    if s.isr == Seen {
      StalledHolderStep(s, k);
    }
  }

  lemma CalmStep(s: State, e: Event)
    requires Shape(s) && Calm(s) && Step(s, e).holder.Flusher?
    ensures Calm(Step(s, e))
  {
    if e.HolderStep? {
      CalmFlusherStep(s, e.k);
    } else if e.IsrStep? && s.isr == Draining(0) {
      assert s.stash == [];
      assert s.ring + s.stash == s.ring;
    }
  }

  lemma {:induction false} CalmRun(s: State, es: seq<Event>)
    requires Inv(s) && Calm(s) && WithinFlush(s, es)
    ensures Inv(Run(s, es)) && Calm(Run(s, es))
    decreases |es|
  {
    if es != [] {
      var init, e := es[..|es| - 1], es[|es| - 1];
      Runs.Last(Step, s, es);
      assert es[..|es|] == es && Run(s, es[..|es|]).holder.Flusher?;
      forall i | 0 <= i <= |init| ensures Run(s, init[..i]).holder.Flusher? {
        assert init[..i] == es[..i];
      }
      CalmRun(s, init);
      StepKeeps(Run(s, init), e);
      CalmStep(Run(s, init), e);
    }
  }

  /** In no run does the flush leave a byte in the ring. */
  ghost predicate AlwaysEmpties(s: State) {
    forall es :: WithinFlush(s, es) && Run(s, es).holder == Flusher(Leave) ==> Run(s, es).ring == []
  }

  /** When a flush that masked the interrupt in `s` empties the ring: in every run if and only if no
      activation was racing with the mask. */
  lemma FlushEmptiesIff(s: State)
    requires Inv(s) && Ordered(s) && s.holder == Flusher(Top)
    ensures AlwaysEmpties(s) <==> !Racing(s)
  {
    if Racing(s) {
      var es := FlushLeavesBytes(s);
    } else {
      forall es | WithinFlush(s, es) && Run(s, es).holder == Flusher(Leave) ensures Run(s, es).ring == [] {
        CalmRun(s, es);
      }
    }
  }

  /** What it then leaves: nothing is unread, and the count is what readers that already gave the
      mutex back have yet to subtract, less what the handler has yet to add: 0 if there are none. */
  lemma FlushLeavesNothing(s: State, es: seq<Event>, k: nat)
    requires Inv(s) && Ordered(s) && s.holder == Flusher(Top) && !Racing(s)
    requires WithinFlush(s, es) && Run(s, es).holder == Flusher(Leave)
    ensures var t := Step(Run(s, es), HolderStep(k));
            t.holder == Nobody && t.rest + t.ring == [] &&
            t.buffered == Sum(t.owed) - if t.isr.Pushed? then t.isr.n else 0
  {
    CalmRun(s, es);
  }

  // The race.

  /** Some run of this flush leaves a byte in the ring. */
  ghost predicate CanLeave(s: State) {
    exists es :: WithinFlush(s, es) && Run(s, es).holder == Flusher(Leave) && Run(s, es).ring != []
  }

  lemma CanLeaveBefore(s: State, e: Event)
    requires s.holder.Flusher? && CanLeave(Step(s, e))
    ensures CanLeave(s)
  {
    var es :| WithinFlush(Step(s, e), es) && Run(Step(s, e), es).holder == Flusher(Leave) && Run(Step(s, e), es).ring != [];
    var all := [e] + es;
    Runs.Cons(Step, s, e, es);
    forall i | 0 <= i <= |all| ensures Run(s, all[..i]).holder.Flusher? {
      if i > 0 {
        assert all[..i] == [e] + es[..i - 1];
        Runs.Cons(Step, s, e, es[..i - 1]);
      } else {
        assert Run(s, all[..0]) == s;
      }
    }
    assert WithinFlush(s, all);
  }

  /** At the end of a flush a racing activation pushes what it counted, bytes that an emptied FIFO
      reads as included. */
  lemma {:induction false} RacePushes(s: State)
    requires s.holder == Flusher(Leave) && s.ring == [] && s.reserved == 0 && s.cap >= FIFO_LEN
    requires s.isr.Draining? && 0 < |s.stash| + s.isr.left <= FIFO_LEN
    ensures CanLeave(s)
    decreases s.isr.left
  {
    var t := IsrNext(s, 0);
    if s.isr.left > 0 {
      RacePushes(t);
    } else {
      assert t.ring == s.stash;
      EndsHere(t);
    }
    CanLeaveBefore(s, IsrStep(0));
  }

  lemma EndsHere(s: State)
    requires s.holder == Flusher(Leave) && s.ring != []
    ensures CanLeave(s)
  {
    var es: seq<Event> := [];
    assert Run(s, es) == s && es[..0] == es;
    assert WithinFlush(s, es);
  }

  lemma RaceCounts(s: State)
    requires s.holder == Flusher(Leave) && s.ring == [] && s.reserved == 0 && s.cap >= FIFO_LEN
    requires s.isr == Seen && !s.full && s.fifo == []
    ensures CanLeave(s)
  {
    var t := Step(s, Arrive(0));
    RacePushes(IsrNext(t, 0));
    CanLeaveBefore(t, IsrStep(0));
    CanLeaveBefore(s, Arrive(0));
  }

  lemma RaceAfterFetch(s: State)
    requires Shape(s) && s.holder == Flusher(Fetch) && s.ring == [] && Racing(s)
    ensures CanLeave(s)
  {
    var h := HolderStep(0);
    var t := FlushStep(s, 0);
    var u := FlushStep(t, 0);
    assert u.holder == Flusher(Leave) && u.ring == [] && u.reserved == 0 && u.fifo == [] && u.isr == s.isr;
    assert u.stash == s.stash && u.full == s.full && u.cap == s.cap;
    if s.isr == Seen { RaceCounts(u); } else { RacePushes(u); }
    CanLeaveBefore(t, h);
    CanLeaveBefore(s, h);
  }

  lemma RaceAfterDrop(s: State)
    requires Shape(s) && s.holder == Flusher(Drop) && s.ring == [] && Racing(s)
    ensures CanLeave(s)
  {
    var h := HolderStep(0);
    var a := FlushStep(s, 0);
    var b := FlushStep(a, 0);
    var c := FlushStep(b, 0);
    FlushShape(s, 0);
    FlushShape(a, 0);
    FlushShape(b, 0);
    RaceAfterFetch(c);
    CanLeaveBefore(b, h);
    CanLeaveBefore(a, h);
    CanLeaveBefore(s, h);
  }

  lemma FlushLeavesBytes(s: State) returns (es: seq<Event>)
    requires Shape(s) && s.holder == Flusher(Top) && Racing(s)
    ensures WithinFlush(s, es) && Run(s, es).holder == Flusher(Leave) && Run(s, es).ring != []
  {
    var t := FlushStep(s, 0);
    FlushShape(s, 0);
    if t.ring == [] {
      RaceAfterFetch(t);
    } else {
      FlushShape(t, |t.ring|);
      RaceAfterDrop(FlushStep(t, |t.ring|));
      CanLeaveBefore(t, HolderStep(|t.ring|));
    }
    CanLeaveBefore(s, HolderStep(0));
    es :| WithinFlush(s, es) && Run(s, es).holder == Flusher(Leave) && Run(s, es).ring != [];
  }

  /** The race does happen: a byte is counted, the flush empties the FIFO under the handler, and what
      is then read and pushed, and left in the ring, is a byte that never arrived. */
  lemma FlushCanInvent(s: State, b: byte, g: byte) returns (es: seq<Event>)
    requires Installed(s)
    ensures Run(s, es).ring == [g] && Run(s, es).holder == Nobody && Run(s, es).isr == Quiet
    ensures Arrivals(es) == [b]
  {
    var h, i := HolderStep(0), IsrStep(g);
    var a, c, d, f := [Arrive(b), IsrStart, i], [StartFlush, h, h], [h, h, i], [i, i, h];
    var counted := s.(fifo := [b], accepted := [b], isr := Draining(1));
    Runs.Three(Step, s, Arrive(b), IsrStart, i);
    assert Run(s, a) == counted;
    FlushBehind(counted, b, g);
    Runs.Parts(Step, s, a, c, d, f);
    es := a + c + d + f;
    assert es == [Arrive(b)] + [IsrStart, i, StartFlush, h, h, h, h, i, i, i, h];
    ArrivalsOf([Arrive(b)], [IsrStart, i, StartFlush, h, h, h, h, i, i, i, h]);
    assert [Arrive(b)][..0] == [];
  }

  lemma FlushBehind(s: State, b: byte, g: byte)
    requires s.isr == Draining(1) && s.fifo == [b] && s.accepted == [b] && s.stash == [] && s.ring == [] && s.rest == []
    requires s.holder == Nobody && !s.head && !s.full && s.reserved == 0 && s.cap >= FIFO_LEN
    ensures var h, i := HolderStep(0), IsrStep(g);
            var t := Run(Run(Run(s, [StartFlush, h, h]), [h, h, i]), [i, i, h]);
            t.ring == [g] && t.holder == Nobody && t.isr == Quiet
  {
    var h, i := HolderStep(0), IsrStep(g);
    var fetching := s.(rxOn := false, holder := Flusher(Fetch));
    Runs.Three(Step, s, StartFlush, h, h);
    assert Run(s, [StartFlush, h, h]) == fetching;
    Runs.Three(Step, fetching, h, h, i);
    var reset := fetching.(fifo := [], accepted := [], holder := Flusher(Leave));
    assert Step(Step(fetching, h), h) == reset;
    PushesInvented(reset, g);
  }

  lemma PushesInvented(s: State, g: byte)
    requires s.isr == Draining(1) && s.fifo == [] && s.stash == [] && s.ring == [] && s.accepted == []
    requires s.holder == Flusher(Leave) && s.reserved == 0 && s.cap >= FIFO_LEN
    ensures var h, i := HolderStep(0), IsrStep(g);
            var t := Run(Step(s, i), [i, i, h]);
            t.ring == [g] && t.holder == Nobody && t.isr == Quiet
  {
    var h, i := HolderStep(0), IsrStep(g);
    var read := s.(accepted := [g], stash := [g], isr := Draining(0));
    assert Step(s, i) == read;
    Runs.Three(Step, read, i, i, h);
    assert Step(read, i) == read.(ring := [g], isr := Pushed(1));
  }

  /** Nothing more arrives in `fs`. */
  lemma {:induction false} ArrivalsOf(es: seq<Event>, fs: seq<Event>)
    requires forall i :: 0 <= i < |fs| ==> !fs[i].Arrive?
    ensures Arrivals(es + fs) == Arrivals(es)
    decreases |fs|
  {
    if fs == [] {
      assert es + fs == es;
    } else {
      ArrivalsOf(es, fs[..|fs| - 1]);
      assert (es + fs)[..|es + fs| - 1] == es + fs[..|fs| - 1];
    }
  }

  // ----- both stalls do happen -----

  function Arrives(bs: seq<byte>): (es: seq<Event>)
    ensures |es| == |bs| && forall i :: 0 <= i < |es| ==> es[i].Arrive?
  {
    seq(|bs|, i requires 0 <= i < |bs| => Arrive(bs[i]))
  }

  lemma {:induction false} ArriveAll(s: State, bs: seq<byte>)
    requires |s.fifo| + |bs| <= FIFO_LEN
    ensures Run(s, Arrives(bs)) == s.(fifo := s.fifo + bs, accepted := s.accepted + bs)
    decreases |bs|
  {
    if bs == [] {
      assert s.fifo + bs == s.fifo && s.accepted + bs == s.accepted;
    } else {
      var init, b := bs[..|bs| - 1], bs[|bs| - 1];
      ArriveAll(s, init);
      assert Arrives(bs) == Arrives(init) + [Arrive(b)];
      Runs.Snoc(Step, s, Arrives(init), Arrive(b));
      assert s.fifo + init + [b] == s.fifo + bs && s.accepted + init + [b] == s.accepted + bs;
    }
  }

  /** Nobody reads, and the handler keeps up. */
  predicate Undisturbed(t: State) {
    t.reserved == 0 && !t.head && t.rest == [] && !t.full && t.fifo == [] && t.rxOn && t.isr == Quiet &&
    t.holder == Nobody && t.taken == [] && t.owed == [] && |t.ring| <= t.cap && t.cap >= FIFO_LEN
  }

  /** Only arrivals and undivided activations. */
  ghost predicate Feeding(es: seq<Event>) {
    forall i :: 0 <= i < |es| ==> es[i].Arrive? || es[i] == IsrWhole
  }

  lemma PushesAll(s: State, bs: seq<byte>)
    requires Undisturbed(s) && |bs| <= FIFO_LEN && |s.ring| + |bs| <= s.cap
    ensures var t := Run(s, Arrives(bs) + [IsrWhole]);
            Undisturbed(t) && |t.ring| == |s.ring| + |bs| && t.cap == s.cap
  {
    ArriveAll(s, bs);
    Runs.Snoc(Step, s, Arrives(bs), IsrWhole);
    assert s.fifo + bs == bs;
    var arrived := s.(fifo := bs, accepted := s.accepted + bs);
    assert Step(arrived, IsrWhole) == Served(arrived);
  }

  /** A ring of any size fills up when nobody reads. */
  lemma {:induction false} FillRing(s: State) returns (es: seq<Event>)
    requires Undisturbed(s)
    ensures Feeding(es) && Undisturbed(Run(s, es)) && |Run(s, es).ring| == s.cap == Run(s, es).cap
    decreases s.cap - |s.ring|
  {
    es := [];
    if |s.ring| < s.cap {
      var bs: seq<byte> := seq(Min(FIFO_LEN, s.cap - |s.ring|), _ => 0);
      var first := Arrives(bs) + [IsrWhole];
      PushesAll(s, bs);
      var rest := FillRing(Run(s, first));
      Runs.Append(Step, s, first, rest);
      es := first + rest;
    }
  }

  /** A port can be stalled by flushing it, whatever the size of its ring: one byte is read out of a
      full ring, the next byte to arrive is stashed, and the flush returns the held item but not the
      stash. Nothing but the flush is needed, and one core is enough. */
  lemma FlushCanStall(s: State, b: byte) returns (es: seq<Event>)
    requires Installed(s)
    ensures !Reachable(Run(s, es)) && Run(s, es).isr == Quiet
    ensures forall i :: 0 <= i < |es| ==> !es[i].IsrStart? && !es[i].IsrStep? && es[i] != Overflow
  {
    var fill := FillRing(s);
    var t := Run(s, fill);
    var h := HolderStep(t.cap);
    ReadOneByte(t);
    FlushStrands(Run(t, [StartRead(1), h, h]), b);
    es := fill + [StartRead(1), h, h] + [h, Arrive(b), IsrWhole] + [StartFlush, h, h];
    Runs.Parts(Step, s, fill, [StartRead(1), h, h], [h, Arrive(b), IsrWhole], [StartFlush, h, h]);
  }

  lemma FlushStrands(t: State, b: byte)
    requires t.cap == t.reserved && t.head && t.rest != [] && t.ring == [] && t.fifo == []
    requires !t.full && t.isr == Quiet && t.rxOn && t.holder.Reader? && t.holder.rpc == Loop && t.holder.want == 0
    ensures var h := HolderStep(t.cap);
            var u := Run(Run(t, [h, Arrive(b), IsrWhole]), [StartFlush, h, h]);
            !Reachable(u) && u.isr == Quiet
  {
    var h := HolderStep(t.cap);
    Runs.Three(Step, t, h, Arrive(b), IsrWhole);
    var u := Run(t, [h, Arrive(b), IsrWhole]);
    assert u.full && u.stash == [b] && u.head && u.ring == [] && u.holder == Nobody && u.isr == Quiet;
    Runs.Three(Step, u, StartFlush, h, h);
  }

  lemma ReadOneByte(t: State)
    requires Undisturbed(t) && |t.ring| == t.cap
    ensures var h := HolderStep(t.cap);
            Run(t, [StartRead(1), h, h]) ==
            t.(head := true, rest := t.ring[1..], ring := [], reserved := t.cap, taken := [t.ring[0]],
               holder := Reader(Loop, 0, [t.ring[0]]))
  {
    var h, bs := HolderStep(t.cap), t.ring;
    Runs.Three(Step, t, StartRead(1), h, h);
    var fetched := t.(head := true, rest := bs, ring := [], reserved := t.cap, holder := Reader(Copy, 1, []));
    assert bs[..t.cap] == bs && bs[t.cap..] == [];
    assert Step(Step(t, StartRead(1)), h) == fetched;
    assert bs[..1] == [bs[0]];
    assert [] + bs[..1] == [bs[0]];
  }

  /** Two cores can stall it without a flush, whatever the size of its ring: the ring is drained and
      the reader leaves between the handler's failed send and its raising of the flag. */
  lemma TwoCoresCanStall(s: State, b: byte) returns (es: seq<Event>)
    requires Installed(s)
    ensures !Reachable(Run(s, es)) && Run(s, es).isr == Quiet
    ensures forall i :: 0 <= i < |es| ==> es[i] != StartFlush && es[i] != Overflow
  {
    var fill := FillRing(s);
    var t := Run(s, fill);
    var g, h := IsrStep(0), HolderStep(t.cap);
    RefusesByte(t, b);
    var u := Run(t, [Arrive(b), IsrStart, g] + [g, g, StartRead(t.cap)]);
    DrainRing(u);
    RaceStrands(Run(u, [h, h, h]));
    es := fill + ([Arrive(b), IsrStart, g] + [g, g, StartRead(t.cap)]) + [h, h, h] + ([h, h, g] + [g]);
    Runs.Parts(Step, s, fill, [Arrive(b), IsrStart, g] + [g, g, StartRead(t.cap)], [h, h, h], [h, h, g] + [g]);
  }

  lemma RefusesByte(t: State, b: byte)
    requires Undisturbed(t) && |t.ring| == t.cap
    ensures var g := IsrStep(0);
            Run(t, [Arrive(b), IsrStart, g] + [g, g, StartRead(t.cap)]) ==
            t.(stash := [b], accepted := t.accepted + [b], isr := Refused, holder := Reader(Loop, t.cap, []))
  {
    var g := IsrStep(0);
    var counted := t.(fifo := [b], stash := [], accepted := t.accepted + [b], isr := Draining(1));
    Runs.Three(Step, t, Arrive(b), IsrStart, g);
    assert Run(t, [Arrive(b), IsrStart, g]) == counted;
    Runs.Three(Step, counted, g, g, StartRead(t.cap));
    var read := counted.(stash := [b], fifo := [], isr := Draining(0));
    assert Step(counted, g) == read;
    Runs.Append(Step, t, [Arrive(b), IsrStart, g], [g, g, StartRead(t.cap)]);
  }

  lemma RaceStrands(t: State)
    requires t.isr == Refused && !t.full && t.ring == [] && !t.head
    requires t.holder.Reader? && t.holder.rpc == Check && t.holder.want == 0
    ensures var h, g := HolderStep(t.cap), IsrStep(0);
            var u := Run(t, [h, h, g] + [g]);
            !Reachable(u) && u.isr == Quiet
  {
    var h, g := HolderStep(t.cap), IsrStep(0);
    Runs.Three(Step, t, h, h, g);
    Runs.Snoc(Step, t, [h, h, g], g);
    var u := Run(t, [h, h, g]);
    assert u.isr == Raising && u.ring == [] && !u.head && u.holder == Nobody;
  }

  lemma DrainRing(t: State)
    requires |t.ring| == t.cap >= FIFO_LEN && t.rest == [] && t.taken == []
    requires t.holder == Reader(Loop, t.cap, [])
    ensures var h := HolderStep(t.cap);
            Run(t, [h, h, h]) ==
            t.(ring := [], taken := t.ring, reserved := 0, head := false, holder := Reader(Check, 0, t.ring))
  {
    var h, bs := HolderStep(t.cap), t.ring;
    Runs.Three(Step, t, h, h, h);
    var fetched := t.(head := true, rest := bs, ring := [], reserved := t.cap, holder := Reader(Copy, t.cap, []));
    assert bs[..t.cap] == bs && bs[t.cap..] == [];
    assert Step(t, h) == fetched;
    assert [] + bs == bs;
    assert Step(fetched, h) == fetched.(rest := [], taken := bs, holder := Reader(Return, 0, bs));
  }
}
