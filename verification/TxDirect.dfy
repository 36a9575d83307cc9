/**
 uart_tx_all on a port without a transmit ring buffer: the writer fills the hardware FIFO itself,
 and a semaphore token travels between it and the interrupt handler.
 */
module TxDirect {
  import opened Common
  import Runs

  /** The writer between the statements of uart.c:986-1003, with `left` still to go. */
  datatype Writer =
    | Idle
    | Want(left: seq<byte>)      // blocked on tx_fifo_sem
    | Fill(left: seq<byte>)      // has the token
    | Mark(left: seq<byte>)      // about to set tx_waiting_fifo
    | Enable(left: seq<byte>)    // about to enable the interrupt
    | Give                       // about to give the token back

  datatype State = State(
    token: bool,          // tx_fifo_sem is available
    waiting: bool,        // tx_waiting_fifo
    emptyOn: bool,        // int_ena.txfifo_empty
    fifoCnt: nat,         // status.txfifo_cnt
    spinning: bool,       // the handler is caught in uart.c:599-601
    writer: Writer,
    wire: seq<byte>,      // history: bytes written to the FIFO
    asked: seq<byte>      // history: bytes handed to uart_tx_all
  )

  datatype Event =
    | Write(msg: seq<byte>)
    | WriterStep
    | Interrupt            // TXFIFO_EMPTY is serviced
    | Sent                 // a byte leaves the FIFO

  /** What uart_fill_fifo takes of `n` bytes. */
  function Room(s: State, n: nat): nat {
    if s.fifoCnt <= FIFO_LEN then Min(n, FIFO_LEN - s.fifoCnt) else 0
  }

  function WriterNext(s: State): State {
    match s.writer
    case Idle => s
    case Want(left) => if s.token then s.(token := false, writer := Fill(left)) else s
    case Fill(left) =>
      var n := Room(s, |left|);
      s.(wire := s.wire + left[..n], fifoCnt := s.fifoCnt + n,
         writer := if n < |left| then Mark(left[n..]) else Give)
    case Mark(left) => s.(waiting := true, writer := Enable(left))
    case Enable(left) => s.(emptyOn := true, writer := Want(left))
    case Give => s.(token := true, writer := Idle)
  }

  /** uart.c:581-601 with tx_buf_size 0. */
  function Serve(s: State): State {
    if s.spinning || !s.emptyOn then s
    else if s.waiting then s.(emptyOn := false, waiting := false, token := true)
    else s.(emptyOn := false, spinning := true)
  }

  function Step(s: State, e: Event): State {
    match e
    case Write(msg) =>
      if s.writer == Idle && msg != [] then s.(writer := Want(msg), asked := s.asked + msg) else s
    case WriterStep => WriterNext(s)
    case Interrupt => Serve(s)
    case Sent => if s.fifoCnt > 0 then s.(fifoCnt := s.fifoCnt - 1) else s
  }

  function Run(s: State, es: seq<Event>): State {
    Runs.Run(Step, s, es)
  }

  predicate Installed(s: State) {
    s.token && !s.waiting && !s.emptyOn && s.fifoCnt == 0 && !s.spinning && s.writer == Idle &&
    s.wire == [] && s.asked == []
  }

  function Left(w: Writer): seq<byte> { if w == Idle || w == Give then [] else w.left }

  predicate Holds(w: Writer) { w.Fill? || w.Mark? || w.Give? }

  /** The token is in exactly one place: available, held, or owed by the handler. */
  predicate OneToken(s: State) {
    (if s.token then 1 else 0) + (if Holds(s.writer) then 1 else 0) + (if s.waiting then 1 else 0) == 1
  }

  /** A writer that waits for the token is owed it by an interrupt that is on, and the interrupt is
      on only when a token is owed. */
  predicate Answered(s: State) {
    (s.writer.Want? ==> s.token || (s.waiting && s.emptyOn)) && (s.emptyOn ==> s.waiting) &&
    (s.writer.Enable? ==> s.waiting && !s.emptyOn) && (s.writer.Idle? ==> s.token) && !s.spinning
  }

  predicate Inv(s: State) {
    OneToken(s) && Answered(s) && s.fifoCnt <= FIFO_LEN && s.wire + Left(s.writer) == s.asked
  }

  lemma StepKeeps(s: State, e: Event)
    requires Inv(s)
    ensures Inv(Step(s, e))
  {
    if e.WriterStep? && s.writer.Fill? {
      var left := s.writer.left;
      var n := Room(s, |left|);
      assert left[..n] + left[n..] == left;
      assert s.wire + left[..n] + left[n..] == s.wire + (left[..n] + left[n..]);
    } else if e.Write? {
      assert s.writer == Idle ==> s.wire + e.msg == s.asked + e.msg;
    }
  }

  /** In every run of one writer: the token is in one place, every wait has an answering interrupt,
      the handler never spins on an unanswered status, the FIFO does not overflow, and what went out
      is exactly what was asked for, less what the writer still has. */
  lemma {:induction false} TokenAndStreamKept(s: State, es: seq<Event>)
    requires Installed(s)
    ensures Inv(Run(s, es))
    ensures Run(s, es).writer == Idle ==> Run(s, es).wire == Run(s, es).asked
    decreases |es|
  {
    if es != [] {
      Runs.Last(Step, s, es);
      TokenAndStreamKept(s, es[..|es| - 1]);
      StepKeeps(Run(s, es[..|es| - 1]), es[|es| - 1]);
    }
  }

  /** The writer fills the FIFO as far as it goes: after its turn with the token the FIFO is full, or
      everything is out; and every byte written to the FIFO is counted there until it leaves. */
  lemma FillsUp(s: State, es: seq<Event>)
    requires Installed(s) && Run(s, es).writer.Fill?
    ensures var t := Run(s, es);
            var u := Step(t, WriterStep);
            u.fifoCnt == t.fifoCnt + (|u.wire| - |t.wire|) && (u.fifoCnt == FIFO_LEN || Left(u.writer) == [])
  {
    TokenAndStreamKept(s, es);
  }

  // ----- a stray enable -----

  ghost predicate WithoutWrites(es: seq<Event>) {
    forall i :: 0 <= i < |es| ==> !es[i].Write?
  }

  /** The handler spins, and the writer, once it has to wait for room, waits for ever. */
  predicate Starved(s: State, msg: seq<byte>) {
    s.spinning &&
    match s.writer
    case Want(left) => (left == msg && s.token) || (left != [] && !s.token)
    case Fill(left) => left == msg && !s.token
    case Mark(left) => left != [] && !s.token
    case Enable(left) => left != [] && !s.token
    case _ => false
  }

  lemma {:induction false} StarvedRun(s: State, msg: seq<byte>, es: seq<Event>)
    requires Starved(s, msg) && |msg| > FIFO_LEN && WithoutWrites(es)
    ensures Starved(Run(s, es), msg)
    decreases |es|
  {
    if es != [] {
      Runs.Last(Step, s, es);
      StarvedRun(s, msg, es[..|es| - 1]);
    }
  }

  lemma {:induction false} EmptiesFifo(s: State) returns (es: seq<Event>)
    ensures WithoutWrites(es) && Run(s, es) == s.(fifoCnt := 0)
    decreases s.fifoCnt
  {
    es := [];
    if s.fifoCnt > 0 {
      var rest := EmptiesFifo(Step(s, Sent));
      Runs.Cons(Step, s, Sent, rest);
      es := [Sent] + rest;
    }
  }

  lemma FitsInOneGo(s: State, msg: seq<byte>) returns (es: seq<Event>)
    requires s.writer == Want(msg) && s.token && |msg| <= FIFO_LEN
    ensures WithoutWrites(es) && Run(s, es).writer == Idle
  {
    var sent := EmptiesFifo(s);
    var t := s.(fifoCnt := 0);
    Runs.Three(Step, t, WriterStep, WriterStep, WriterStep);
    Runs.Append(Step, s, sent, [WriterStep, WriterStep, WriterStep]);
    es := sent + [WriterStep, WriterStep, WriterStep];
  }

  /** Let the transmit interrupt be enabled by anyone else, with uart_enable_tx_intr say, while no
      uart_tx_all is waiting, and be serviced: the next message can be completed in some run if and
      only if it fits the FIFO. */
  lemma StrayEnableStarves(s: State, msg: seq<byte>)
    requires Inv(s) && s.writer == Idle && msg != []
    ensures var t := Step(Serve(s.(emptyOn := true)), Write(msg));
            (exists es :: WithoutWrites(es) && Run(t, es).writer == Idle) <==> |msg| <= FIFO_LEN
  {
    var t := Step(Serve(s.(emptyOn := true)), Write(msg));
    assert t.spinning && t.token && t.writer == Want(msg);
    if |msg| <= FIFO_LEN {
      var es := FitsInOneGo(t, msg);
    } else {
      forall es | WithoutWrites(es) ensures Run(t, es).writer != Idle {
        StarvedRun(t, msg, es);
      }
    }
  }

  // ----- the port -----

  /** `t` is where some run from the installed state `s` leads. */
  ghost predicate Reached(s: State, t: State) {
    Installed(s) && Runs.Leads(Step, s, t)
  }

  lemma ReachedInv(s: State, t: State)
    requires Reached(s, t)
    ensures Inv(t)
  {
    var es: seq<Event> :| Runs.Run(Step, s, es) == t;
    assert Run(s, es) == t;
    TokenAndStreamKept(s, es);
  }

  lemma ReachedAtRest(s: State, t: State)
    requires Reached(s, t) && t.writer == Idle
    ensures t.wire == t.asked && t.token
  {
    ReachedInv(s, t);
    assert t.wire + [] == t.wire;
  }

  lemma {:induction false} ReachedSent(s: State, t: State, n: nat)
    requires Reached(s, t) && n <= t.fifoCnt
    ensures Reached(s, t.(fifoCnt := t.fifoCnt - n))
  {
    if n > 0 {
      ReachedSent(s, t, n - 1);
      Runs.LeadsOn(Step, s, t.(fifoCnt := t.fifoCnt - (n - 1)), Sent);
    } else {
      assert t == t.(fifoCnt := t.fifoCnt - n);
    }
  }

  /** Bytes leave until `n` are in the FIFO, and TXFIFO_EMPTY is serviced. */
  function Answer(s: State, n: nat): State {
    s.(fifoCnt := n, emptyOn := false, waiting := false, token := true)
  }

  lemma AnswerReached(birth: State, s: State, n: nat)
    requires Reached(birth, s) && s.writer.Want? && !s.token && n <= s.fifoCnt
    ensures s.waiting && s.emptyOn && Reached(birth, Answer(s, n))
  {
    ReachedInv(birth, s);
    ReachedSent(birth, s, s.fifoCnt - n);
    Runs.LeadsOn(Step, birth, s.(fifoCnt := n), Interrupt);
  }

  /** One turn of the loop that has got the token: `n` bytes go out, and if any are left a wait
      begins. */
  function Filled(s: State, n: nat): State
    requires s.writer.Want? && n <= |s.writer.left|
  {
    var left := s.writer.left;
    var t := s.(wire := s.wire + left[..n], fifoCnt := s.fifoCnt + n);
    if n < |left| then t.(token := false, waiting := true, emptyOn := true, writer := Want(left[n..]))
    else t.(writer := Idle)
  }

  lemma FilledReached(birth: State, s: State)
    requires Reached(birth, s) && s.writer.Want? && s.token
    ensures Reached(birth, Filled(s, Room(s, |s.writer.left|)))
  {
    var left := s.writer.left;
    var n := Room(s, |left|);
    var a := Step(s, WriterStep);
    var b := Step(a, WriterStep);
    var c := Step(b, WriterStep);
    Runs.LeadsOn(Step, birth, s, WriterStep);
    Runs.LeadsOn(Step, birth, a, WriterStep);
    Runs.LeadsOn(Step, birth, b, WriterStep);
    if n < |left| {
      Runs.LeadsOn(Step, birth, c, WriterStep);
      assert Step(c, WriterStep) == Filled(s, n);
    } else {
      assert c == Filled(s, n);
    }
  }

  class DirectPort {
    var token: bool
    var waiting: bool
    var emptyOn: bool
    var fifoCnt: nat
    ghost var writer: Writer
    ghost var wire: seq<byte>
    ghost var asked: seq<byte>
    ghost const birth: State

    ghost function S(): State
      reads this
    {
      State(token, waiting, emptyOn, fifoCnt, false, writer, wire, asked)
    }

    ghost predicate Valid()
      reads this
    {
      Reached(birth, S())
    }

    /** Between calls. */
    ghost predicate AtRest()
      reads this
    {
      writer == Idle
    }

    constructor ()
      ensures Valid() && AtRest() && Installed(S())
    {
      token, waiting, emptyOn, fifoCnt := true, false, false, 0;
      writer, wire, asked := Idle, [], [];
      birth := State(true, false, false, 0, false, Idle, [], []);
      new;
      Runs.LeadsNowhere(Step, S());
    }

    /** uart_fill_fifo. */
    method FillFifo(buffer: array<byte>, from: nat) returns (copyCnt: nat)
      requires from <= buffer.Length && fifoCnt <= FIFO_LEN
      modifies this`fifoCnt, this`wire
      ensures copyCnt == Min(buffer.Length - from, FIFO_LEN - old(fifoCnt))
      ensures fifoCnt == old(fifoCnt) + copyCnt && wire == old(wire) + buffer[from..from + copyCnt]
    {
      var len := buffer.Length - from;
      var remain := FIFO_LEN - fifoCnt;
      copyCnt := if len >= remain then remain else len;
      for i := 0 to copyCnt
        invariant fifoCnt == old(fifoCnt) + i && wire == old(wire) + buffer[from..from + i]
      {
        wire := wire + [buffer[from + i]];
        fifoCnt := fifoCnt + 1;
      }
    }

    /** What ends a wait: bytes leave until the FIFO is below its threshold, and TXFIFO_EMPTY is
        serviced. */
    method AwaitToken()
      requires Valid() && writer.Want? && !token
      modifies this`token, this`waiting, this`emptyOn, this`fifoCnt
      ensures Valid() && token && fifoCnt < EMPTY_THRESH && S() == Answer(old(S()), fifoCnt)
    {
      ghost var s := S();
      var cnt: nat :| cnt <= fifoCnt && cnt < EMPTY_THRESH;
      AnswerReached(birth, s, cnt);
      fifoCnt := cnt;
      emptyOn := false;
      waiting := false;
      token := true;
    }

    /** One turn of the loop of uart_tx_all, with the token available. */
    method FillOnce(src: array<byte>, from: nat) returns (sent: nat)
      requires Valid() && from < src.Length && writer == Want(src[from..]) && token
      modifies this
      ensures Valid() && from + sent <= src.Length && S() == Filled(old(S()), sent)
      ensures old(fifoCnt) < FIFO_LEN ==> sent > 0
    {
      ghost var s := S();
      ReachedInv(birth, s);
      FilledReached(birth, s);
      token := false;
      sent := FillFifo(src, from);
      assert src[from..][..sent] == src[from..from + sent];
      if sent < src.Length - from {
        waiting := true;
        emptyOn := true;
        writer := Want(src[from..][sent..]);
      } else {
        token := true;
        writer := Idle;
      }
      assert S() == Filled(s, sent);
    }

    /** uart_tx_all: exactly the given bytes go out, in order, however full the FIFO is. */
    method TxAll(src: array<byte>) returns (sent: nat)
      requires Valid() && AtRest()
      modifies this
      ensures Valid() && AtRest() && sent == src.Length && wire == old(wire) + src[..] && asked == old(asked) + src[..]
    {
      sent := src.Length;
      if src.Length == 0 {
        assert src[..] == [];
        return;
      }
      ReachedAtRest(birth, S());
      Runs.LeadsOn(Step, birth, S(), Write(src[..]));
      writer := Want(src[..]);
      asked := asked + src[..];
      var from := 0;
      assert src[0..] == src[..];
      while from < src.Length
        invariant 0 <= from <= src.Length && Valid() && asked == old(asked) + src[..]
        invariant writer == if from < src.Length then Want(src[from..]) else Idle
        decreases src.Length - from, token
      {
        if !token {
          AwaitToken();
        }
        var n := FillOnce(src, from);
        from := from + n;
      }
      ReachedAtRest(birth, S());
    }
  }
}
