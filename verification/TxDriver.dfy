/**
 The transmit fields of uart_obj_t and the functions that update them in place on a port with a
 transmit ring buffer, proved against the interleaving model.
 */
module TxDriver {
  import opened Common
  import opened TxQueue
  import opened TxTheorems
  import Runs

  /** `t` is where some run from the installed state `s` leads. */
  ghost predicate Reached(s: State, t: State) {
    Installed(s) && Runs.Leads(Step, s, t)
  }

  lemma ReachedInv(s: State, t: State)
    requires Reached(s, t)
    ensures Inv(t)
  {
    var es: seq<Event> :| Runs.Run(Step, s, es) == t;
    assert Run(s, es) == t;
    InstalledInv(s);
    RunKeeps(s, es);
  }

  /** Chunks of at most `half` bytes. */
  function Cut(src: seq<byte>, half: nat): seq<Item>
    requires half >= 1
  {
    if src == [] then [] else
    var n := Min(half, |src|);
    [Chunk(src[..n])] + Cut(src[n..], half)
  }

  lemma CutNext(before: seq<Item>, left: seq<byte>, half: nat, n: nat)
    requires half >= 1 && left != [] && n == Min(half, |left|)
    ensures before + Cut(left, half) == before + [Chunk(left[..n])] + Cut(left[n..], half)
  {
    assert before + ([Chunk(left[..n])] + Cut(left[n..], half)) == before + [Chunk(left[..n])] + Cut(left[n..], half);
  }

  /** Cutting loses nothing and makes no empty chunk. */
  lemma {:induction false} CutKeepsData(src: seq<byte>, half: nat)
    requires half >= 1
    ensures Data(Cut(src, half)) == src
    ensures forall i :: 0 <= i < |Cut(src, half)| ==>
              Cut(src, half)[i].Chunk? && 1 <= |Cut(src, half)[i].bytes| <= half
    decreases |src|
  {
    if src != [] {
      var n := Min(half, |src|);
      CutKeepsData(src[n..], half);
      assert Cut(src, half)[1..] == Cut(src[n..], half);
      assert src[..n] + src[n..] == src;
    }
  }

  /** What the handler can still send without the writer. */
  function Available(s: State): seq<byte> { InHand(s) + Data(s.ring) }

  /** A turn only moves bytes from what is available to the wire, each through a free place. */
  lemma TurnMoves(s: State, rem: nat, en: bool)
    requires Inv(s) && rem > 0 && (NeedsItem(s) ==> s.ring != [])
    ensures var t := Turn(s, rem, en);
            t.wire + Available(t) == s.wire + Available(s) && t.isr.Draining? &&
            |t.wire| + t.isr.rem == |s.wire| + rem && |t.wire| >= |s.wire| && t.fifoCnt + t.isr.rem == s.fifoCnt + rem
  {
    TurnKeeps(s, rem, en);
    TurnFrame(s, rem, en);
    TurnRoom(s, rem, en);
    SameAvailable(s, Turn(s, rem, en));
  }

  lemma StreamSplit(s: State)
    ensures Stream(s) == s.wire + Available(s) + Left(s.writer)
  {
  }

  lemma SameAvailable(s: State, t: State)
    requires Stream(t) == Stream(s) && t.writer == s.writer
    ensures t.wire + Available(t) == s.wire + Available(s)
  {
    StreamSplit(s);
    StreamSplit(t);
    CutSuffix(t.wire + Available(t), s.wire + Available(s), Left(s.writer));
  }

  /** One turn of the loop continues the run. */
  lemma TurnStep(birth: State, s: State, rem: nat, en: bool)
    requires Reached(birth, s) && BreakFree(s) && s.isr == Draining(rem, en) && rem > 0
    requires NeedsItem(s) ==> s.ring != []
    ensures var t := Turn(s, rem, en);
            Reached(birth, t) && BreakFree(t) && t.wire + Available(t) == s.wire + Available(s) &&
            t.isr.Draining? && |t.wire| + t.isr.rem == |s.wire| + rem && |t.wire| >= |s.wire| &&
            t.fifoCnt + t.isr.rem == s.fifoCnt + rem &&
            (t.isr.en ==> en || |t.wire| > |s.wire|) && (!t.isr.en ==> !t.ptr && t.isr.rem == rem)
    ensures var t := Turn(s, rem, en);
            |t.ring| < |s.ring| || (t.ring == s.ring && t.isr.rem < rem)
  {
    ReachedInv(birth, s);
    Runs.LeadsOn(Step, birth, s, Drain);
    TurnMoves(s, rem, en);
    TurnBreakFree(s, rem, en);
    TurnFlag(s, rem, en);
    DrainLoopEnds(s);
  }

  /** Where the loop leaves with room to spare, nothing is available. */
  lemma LoopLeft(birth: State, s: State)
    requires Reached(birth, s) && s.isr.Draining? && (s.isr.rem == 0 || (NeedsItem(s) && s.ring == []))
    ensures Reached(birth, s.(isr := Exiting(s.isr.en)))
    ensures s.isr.rem > 0 ==> Available(s) == []
  {
    ReachedInv(birth, s);
    Runs.LeadsOn(Step, birth, s, Drain);
  }

  /** One chunk sent and the interrupt enabled (uart.c:978-982). */
  function ChunkSent(s: State, n: nat): State
    requires s.writer.Push? && n <= |s.writer.left|
  {
    var left := s.writer.left;
    var t := s.(ring := s.ring + [Chunk(left[..n])]);
    t.(emptyOn := true, fence := Enqueued(t), writer := if n == |left| then Idle else Push(left[n..]))
  }

  lemma CoversAll(s: State, n: nat)
    requires s.writer.Push? && n <= |s.writer.left|
    ensures ChunkSent(s, n).emptyOn && ChunkSent(s, n).fence == Enqueued(ChunkSent(s, n))
  {
  }

  lemma ChunkSteps(birth: State, s: State)
    requires Reached(birth, s) && s.writer.Push?
    ensures Reached(birth, ChunkSent(s, Min(s.half, |s.writer.left|)))
  {
    Runs.LeadsOn(Step, birth, s, WriterStep);
    Runs.LeadsOn(Step, birth, WriterNext(s), WriterStep);
    var n := Min(s.half, |s.writer.left|);
    assert s.writer.left[n..] == [] <==> n == |s.writer.left|;
  }

  /** Progress of the drain loop since `s`: `rem` of `room` places are left. */
  predicate Moving(s: State, t: State, room: nat, rem: nat, en: bool) {
    BreakFree(t) && t.wire + Available(t) == s.wire + Available(s) &&
    |t.wire| + rem == |s.wire| + room && t.fifoCnt + rem == s.fifoCnt + room && (if en then |t.wire| > |s.wire| else rem == room)
  }

  /** What one activation does with `room` free places: exactly the next bytes available go out, as
      many as there are places, and `en` tells whether there were any of both. */
  predicate Drained(s: State, t: State, room: nat, en: bool) {
    var n := Min(room, |Available(s)|);
    BreakFree(t) && t.wire == s.wire + Available(s)[..n] && Available(t) == Available(s)[n..] &&
    t.fifoCnt == s.fifoCnt + n && (en <==> room > 0 && Available(s) != [])
  }

  /** Neither the interrupt enable nor the handler's place matters to it. */
  lemma DrainedSame(s: State, s': State, t: State, t': State, room: nat, en: bool)
    requires Drained(s', t, room, en)
    requires s'.wire == s.wire && s'.ptr == s.ptr && s'.cur == s.cur && s'.ring == s.ring && s'.fifoCnt == s.fifoCnt
    requires t' == t.(isr := t'.isr, emptyOn := t'.emptyOn) && t'.isr != Spinning
    ensures Drained(s, t', room, en)
  {
  }

  lemma FillsUp(birth: State, s: State, t: State, en: bool)
    requires Reached(birth, s) && Drained(s, t, FreePlaces(s.fifoCnt), en)
    ensures t.fifoCnt == s.fifoCnt + |t.wire| - |s.wire| <= FIFO_LEN && (t.fifoCnt == FIFO_LEN || Available(t) == [])
  {
    var es: seq<Event> :| Runs.Run(Step, birth, es) == s;
    assert Run(birth, es) == s;
    FifoNeverOverflows(birth, es);
  }

  /** UART_FIFO_LEN - status.txfifo_cnt. */
  function FreePlaces(fifoCnt: nat): nat { if fifoCnt <= FIFO_LEN then FIFO_LEN - fifoCnt else 0 }

  lemma EnterReached(birth: State, s: State)
    requires Reached(birth, s) && s.isr == Quiet && s.emptyOn && BreakFree(s)
    ensures var t := s.(emptyOn := false, isr := Draining(FreePlaces(s.fifoCnt), false));
            Reached(birth, t) && BreakFree(t)
  {
    Runs.LeadsOn(Step, birth, s, Interrupt);
  }

  lemma MovedExactly(s: State, t: State, room: nat, rem: nat, en: bool)
    requires Moving(s, t, room, rem, en) && rem <= room && (rem > 0 ==> Available(t) == [])
    ensures Drained(s, t, room, en)
  {
    var n := |t.wire| - |s.wire|;
    var both := s.wire + Available(s);
    assert t.wire == both[..|t.wire|] && Available(t) == both[|t.wire|..];
    assert |both| == |t.wire| + |Available(t)|;
  }

  lemma MovingTurn(birth: State, s0: State, s: State, room: nat, rem: nat, en: bool)
    requires Reached(birth, s) && Moving(s0, s, room, rem, en) && s.isr == Draining(rem, en) && 0 < rem <= room
    requires NeedsItem(s) ==> s.ring != []
    ensures var t := Turn(s, rem, en);
            Reached(birth, t) && t.isr.Draining? && t.isr.rem <= room &&
            Moving(s0, t, room, t.isr.rem, t.isr.en) &&
            (|t.ring| < |s.ring| || (t.ring == s.ring && t.isr.rem < rem))
  {
    TurnStep(birth, s, rem, en);
  }

  class TxPort {
    const half: nat
    var ring: seq<Item>          // tx_ring_buf
    var ptr: bool                // tx_ptr != NULL
    var cur: seq<byte>           // the bytes from tx_ptr to the end of its item
    var lenTot: nat              // tx_len_tot
    var brkFlg: bool
    var waitingBrk: bool
    var emptyOn: bool
    var brkOn: bool
    var fifoCnt: nat
    ghost var isr: IsrPc
    ghost var writer: Writer
    ghost var wire: seq<byte>
    ghost var messages: seq<seq<byte>>
    ghost var started: nat
    ghost var fence: nat
    ghost const birth: State

    ghost function S(): State
      reads this
    {
      State(half, ring, ptr, cur, lenTot, brkFlg, waitingBrk, emptyOn, brkOn, fifoCnt, isr, writer, wire,
            messages, started, fence)
    }

    ghost predicate Valid()
      reads this
    {
      Reached(birth, S())
    }

    /** Between calls. */
    ghost predicate AtRest()
      reads this
    {
      isr == Quiet && writer == Idle
    }

    /** The transmit half of uart_driver_install. */
    constructor (maxItemSize: nat)
      requires maxItemSize >= 2
      ensures Valid() && AtRest() && Installed(S()) && half == maxItemSize / 2
    {
      half := maxItemSize / 2;
      ring, ptr, cur, lenTot := [], false, [], 0;
      brkFlg, waitingBrk, emptyOn, brkOn, fifoCnt := false, false, false, false, 0;
      isr, writer, wire, messages, started, fence := Quiet, Idle, [], [], 0, 0;
      birth := State(maxItemSize / 2, [], false, [], 0, false, false, false, false, 0, Quiet, Idle, [], [], 0, 0);
      new;
      Runs.LeadsNowhere(Step, S());
    }

    /** The transmit interrupt is on, and the writer's last enable covers all that is in the ring. */
    ghost predicate Covered()
      reads this
    {
      emptyOn && fence == Enqueued(S())
    }

    /** One chunk of the loop in uart_tx_all, and the enable after it (uart.c:978-982). */
    method PushChunk(src: array<byte>, offset: nat, sendSize: nat)
      requires writer.Push? && offset + sendSize <= src.Length && writer.left == src[..][offset..]
      modifies this`ring, this`emptyOn, this`fence, this`writer
      ensures S() == ChunkSent(old(S()), sendSize)
    {
      ghost var left := writer.left;
      ring := ring + [Chunk(src[offset..][..sendSize])];
      fence := Enqueued(S());
      emptyOn := true;
      writer := if sendSize == |left| then Idle else Push(left[sendSize..]);
    }

    method SendChunk(src: array<byte>, offset: nat, ghost left: seq<byte>) returns (sendSize: nat)
      requires offset < src.Length && left == src[..][offset..] && writer == Push(left)
      requires Valid()
      modifies this`ring, this`emptyOn, this`fence, this`writer
      ensures Valid() && Covered() && sendSize == Min(half, |left|)
      ensures ring == old(ring) + [Chunk(left[..sendSize])]
      ensures writer == if sendSize == |left| then Idle else Push(left[sendSize..])
    {
      sendSize := if src.Length - offset > half then half else src.Length - offset;
      ChunkSteps(birth, S());
      CoversAll(S(), sendSize);
      PushChunk(src, offset, sendSize);
    }

    /** The loop of uart_tx_all (uart.c:977-983). */
    method SendChunks(src: array<byte>)
      requires Valid() && half >= 1 && src.Length > 0 && writer == Push(src[..])
      modifies this`ring, this`emptyOn, this`fence, this`writer
      ensures Valid() && writer == Idle && Covered()
      ensures ring == old(ring) + Cut(src[..], half)
    {
      var offset := 0;
      ghost var msg := src[..];
      ghost var all := ring + Cut(msg, half);
      assert msg[0..] == msg;
      while offset < src.Length
        invariant 0 <= offset <= |msg| == src.Length && Valid()
        invariant writer == if offset < |msg| then Push(msg[offset..]) else Idle
        invariant ring + Cut(msg[offset..], half) == all
        invariant offset > 0 ==> Covered()
      {
        ghost var left := msg[offset..];
        CutNext(ring, left, half, Min(half, |left|));
        var n := SendChunk(src, offset, left);
        assert left[n..] == msg[offset + n..];
        offset := offset + n;
      }
    }

    /** uart_tx_all on the ring path, not interrupted. It returns the size, and the ring has got one
        descriptor and the message cut into chunks. */
    method TxAll(src: array<byte>, brk: bool) returns (sent: nat)
      requires Valid() && AtRest()
      modifies this`ring, this`emptyOn, this`fence, this`writer, this`messages
      ensures Valid() && AtRest() && sent == src.Length
      ensures src.Length == 0 ==> S() == old(S())
      ensures src.Length > 0 ==>
                half >= 1 && ring == old(ring) + [Desc(src.Length, brk)] + Cut(src[..], half) &&
                messages == old(messages) + [src[..]] && Covered()
    {
      sent := src.Length;
      if src.Length == 0 {
        return;
      }
      ReachedInv(birth, S());
      StartWriting(birth, S(), src[..], brk);
      messages := messages + [src[..]];
      ring := ring + [Desc(src.Length, brk)];
      writer := Push(src[..]);
      SendChunks(src);
    }

    // ----- the TXFIFO_EMPTY arm -----

    /** uart.c:618-622. */
    method RecordBreak(brk: bool)
      modifies this`brkFlg
      ensures brkFlg == (old(brkFlg) || brk)
    {
      if brk {
        brkFlg := true;
      }
    }

    /** uart.c:614-626. */
    method TakeDescriptorItem(size: nat, brk: bool, ghost rem: nat, ghost en: bool)
      requires ring != []
      modifies this`ring, this`ptr, this`lenTot, this`brkFlg, this`started, this`isr
      ensures S() == TakeDescriptor(old(S()), size, brk, rem, en)
    {
      RecordBreak(brk);
      ring := ring[1..];
      ptr := false;
      lenTot := size;
      started := started + 1;
      isr := Draining(rem, en);
    }

    /** uart.c:609-632. */
    method TakeNext(rem: nat, en: bool) returns (enTx: bool)
      requires ring != []
      modifies this`ring, this`ptr, this`cur, this`lenTot, this`brkFlg, this`started, this`isr
      ensures S() == TakeItem(old(S()), rem, en) && isr == Draining(rem, enTx)
    {
      enTx := en;
      var item := ring[0];
      if lenTot == 0 && item.Desc? {
        TakeDescriptorItem(item.size, item.brk, rem, en);
      } else {
        ring := ring[1..];
        if lenTot > 0 && !ptr {
          ptr := true;
          enTx := true;
          cur := if item.Chunk? then item.bytes else [];
        }
        isr := Draining(rem, enTx);
      }
    }

    /** uart.c:641-646: the bytes go out one by one. */
    method WriteFifo(sendLen: nat)
      requires sendLen <= |cur|
      modifies this`cur, this`wire, this`fifoCnt, this`lenTot
      ensures S() == Advanced(old(S()), sendLen)
    {
      var bufIdx := 0;
      while bufIdx < sendLen
        invariant bufIdx <= sendLen && fifoCnt == old(fifoCnt) + bufIdx && lenTot == old(lenTot)
        invariant wire == old(wire) + old(cur)[..bufIdx] && cur == old(cur)[bufIdx..]
      {
        wire := wire + [cur[0]];
        cur := cur[1..];
        fifoCnt := fifoCnt + 1;
        bufIdx := bufIdx + 1;
      }
      lenTot := Sub32(lenTot, sendLen);
    }

    /** uart.c:647-674. */
    method Settle(rem: nat, en: bool) returns (enTx: bool)
      modifies this`ptr, this`brkOn, this`waitingBrk, this`isr
      ensures S() == Settled(old(S()), rem, en) && isr == Draining(rem, enTx)
    {
      enTx := true;
      if cur == [] {
        ptr := false;
        if brkFlg && lenTot == 0 {
          brkOn := true;
          waitingBrk := true;
          enTx := en;
        }
      }
      isr := Draining(rem, enTx);
    }

    /** uart.c:641-674. */
    method SendOut(rem: nat, en: bool) returns (remLeft: nat, enTx: bool)
      modifies this`cur, this`wire, this`fifoCnt, this`lenTot, this`ptr, this`brkOn, this`waitingBrk, this`isr
      ensures S() == SendSome(old(S()), rem, en) && isr == Draining(remLeft, enTx)
    {
      var sendLen := if |cur| > rem then rem else |cur|;
      ghost var s := S();
      assert sendLen == Min(|s.cur|, rem);
      WriteFifo(sendLen);
      remLeft := rem - sendLen;
      assert SendSome(s, rem, en) == Settled(S(), remLeft, en);
      enTx := Settle(remLeft, en);
    }

    /** uart.c:608-675: one turn of the loop. */
    method TurnOnce(rem: nat, en: bool) returns (remLeft: nat, enTx: bool)
      requires isr == Draining(rem, en) && (NeedsItem(S()) ==> ring != [])
      modifies this`ring, this`ptr, this`cur, this`lenTot, this`brkFlg, this`started, this`isr, this`wire,
               this`fifoCnt, this`brkOn, this`waitingBrk
      ensures S() == Turn(old(S()), rem, en) && isr == Draining(remLeft, enTx)
    {
      remLeft, enTx := rem, en;
      if lenTot == 0 || !ptr || cur == [] {
        enTx := TakeNext(rem, en);
      }
      if lenTot > 0 && ptr && cur != [] {
        remLeft, enTx := SendOut(rem, enTx);
      }
    }

    /** Inside the drain loop that was entered in `s0` with `room` free places. */
    ghost predicate InDrain(s0: State, room: nat, rem: nat, en: bool)
      reads this
    {
      Valid() && isr == Draining(rem, en) && rem <= room && Moving(s0, S(), room, rem, en)
    }

    method TurnInDrain(rem: nat, en: bool, ghost s0: State, ghost room: nat) returns (remLeft: nat, enTx: bool)
      requires InDrain(s0, room, rem, en) && rem > 0 && (NeedsItem(S()) ==> ring != [])
      modifies this`ring, this`ptr, this`cur, this`lenTot, this`brkFlg, this`started, this`isr, this`wire,
               this`fifoCnt, this`brkOn, this`waitingBrk
      ensures InDrain(s0, room, remLeft, enTx)
      ensures |ring| < |old(ring)| || (ring == old(ring) && remLeft < rem)
    {
      MovingTurn(birth, s0, S(), room, rem, en);
      remLeft, enTx := TurnOnce(rem, en);
    }

    /** uart.c:607-676. The loop ends because each turn takes an item or a free place, and it ends
        with the FIFO full or with nothing available. */
    method DrainLoop(room: nat) returns (enTx: bool)
      requires Valid() && isr == Draining(room, false) && BreakFree(S())
      modifies this`ring, this`ptr, this`cur, this`lenTot, this`brkFlg, this`started, this`isr, this`wire,
               this`fifoCnt, this`brkOn, this`waitingBrk
      ensures Valid() && isr == Exiting(enTx) && Drained(old(S()), S(), room, enTx)
    {
      ghost var s0 := S();
      var rem: nat := room;
      enTx := false;
      while rem > 0
        invariant InDrain(s0, room, rem, enTx)
        decreases |ring|, rem
      {
        if (lenTot == 0 || !ptr || cur == []) && ring == [] {
          break;
        }
        rem, enTx := TurnInDrain(rem, enTx, s0, room);
      }
      LoopLeft(birth, S());
      MovedExactly(s0, S(), room, rem, enTx);
      ghost var t := S();
      isr := Exiting(enTx);
      DrainedSame(s0, s0, t, S(), room, enTx);
    }

    /** The TXFIFO_EMPTY arm on a port without breaks. It moves exactly as much as there is room for,
        and leaves the interrupt on if and only if it had room and something to send. */
    method OnTxEmpty()
      requires Valid() && isr == Quiet && emptyOn && BreakFree(S())
      modifies this
      ensures Valid() && isr == Quiet && writer == old(writer)
      ensures Drained(old(S()), S(), FreePlaces(old(fifoCnt)), emptyOn)
      ensures fifoCnt == old(fifoCnt) + |wire| - |old(wire)| <= FIFO_LEN
      ensures fifoCnt == FIFO_LEN || Available(S()) == []
    {
      ghost var s0 := S();
      EnterReached(birth, s0);
      emptyOn := false;
      var room := FreePlaces(fifoCnt);
      isr := Draining(room, false);
      ghost var s1 := S();
      var enTx := DrainLoop(room);
      ghost var t1 := S();
      Runs.LeadsOn(Step, birth, t1, Drain);
      if enTx {
        emptyOn := true;
      }
      isr := Quiet;
      DrainedSame(s0, s1, t1, S(), room, enTx);
      FillsUp(birth, s0, S(), enTx);
    }
  }

  lemma StartWriting(birth: State, s: State, msg: seq<byte>, brk: bool)
    requires Reached(birth, s) && s.writer == Idle && msg != []
    ensures Reached(birth, s.(messages := s.messages + [msg], ring := s.ring + [Desc(|msg|, brk)], writer := Push(msg)))
  {
    Runs.LeadsOn(Step, birth, s, Write(msg, brk));
    Runs.LeadsOn(Step, birth, Step(s, Write(msg, brk)), WriterStep);
  }
}
