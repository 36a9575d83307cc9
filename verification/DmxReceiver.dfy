/**
 The receiving half of the DMX port refines a packet-level parser, and it undoes the sender.
 */
module DmxReceiver {
  import opened Common
  import opened DmxPort
  import Runs
  import Sender = DmxTransmitter

  /** What the line delivers, in the order in which the handler services it. */
  datatype Line = Break | Data(value: byte)

  // ----- packets, independently of the machine -----

  /** The bytes up to the next break. */
  function Segment(ls: seq<Line>): (seg: seq<byte>)
    ensures |seg| <= |ls|
  {
    if ls == [] || ls[0].Break? then [] else [ls[0].value] + Segment(ls[1..])
  }

  /** A packet is a zero byte (the break itself as the UART reads it), a zero start code and the
      slots. It overwrites the buffer from index 0; a longer one is cut. */
  function Store(data: seq<byte>, seg: seq<byte>): (r: seq<byte>)
    requires |data| == MAX_SLOTS
    ensures |r| == MAX_SLOTS
  {
    if |seg| < 2 || seg[0] != 0 || seg[1] != 0 then data
    else if |seg| > MAX_SLOTS then seg[1..MAX_SLOTS + 1]
    else seg[1..] + data[|seg| - 1..]
  }

  /** Split at breaks, ignore what comes before the first, store each packet in turn. */
  function Parse(data: seq<byte>, ls: seq<Line>): (r: seq<byte>)
    requires |data| == MAX_SLOTS
    ensures |r| == MAX_SLOTS
    decreases |ls|
  {
    if ls == [] then data
    else if ls[0].Data? then Parse(data, ls[1..])
    else
      var seg := Segment(ls[1..]);
      Parse(Store(data, seg), ls[1 + |seg|..])
  }

  // ----- the machine -----

  /** The receive path is open: nothing is being sent, TX_DONE is masked and the driver's ring buffer
      is not in the way. */
  predicate Open(s: State) {
    s.Valid() && !s.doneOn && !s.sending && s.rxOn && !s.rxFull
  }

  /** And no transmit interrupt will disturb it. */
  predicate Attentive(s: State) { Open(s) && !s.emptyOn }

  /** And the receiver runs at the rate of the slots. */
  predicate Listening(s: State) { Attentive(s) && s.baud == DATA_BAUD }

  /** The line event that one reading of the status register makes the handler consume. */
  function Heard(r: Reading): seq<Line> {
    if r.brk then [Break] else if r.rx then [Data(r.rxByte)] else []
  }

  function Lines(rs: seq<Reading>): seq<Line>
    decreases |rs|
  {
    if rs == [] then [] else Lines(rs[..|rs| - 1]) + Heard(rs[|rs| - 1])
  }

  function Hear(s: State, l: Line): (t: State)
    ensures |t.data| == |s.data|
  {
    match l
    case Break => BreakDetected(s)
    case Data(b) => DmxByte(s, b)
  }

  function HearAll(s: State, ls: seq<Line>): State {
    Runs.Run(Hear, s, ls)
  }

  lemma HearSnoc(s: State, ls: seq<Line>, l: Line)
    ensures HearAll(s, ls + [l]) == Hear(HearAll(s, ls), l)
  {
    Runs.Snoc(Hear, s, ls, l);
  }

  lemma HearAppend(s: State, ls: seq<Line>, ms: seq<Line>)
    ensures HearAll(s, ls + ms) == HearAll(HearAll(s, ls), ms)
  {
    Runs.Append(Hear, s, ls, ms);
  }

  lemma HearReading(s: State, ls: seq<Line>, r: Reading)
    requires Open(HearAll(s, ls)) && !(r.txEmpty && HearAll(s, ls).emptyOn)
    ensures Step(HearAll(s, ls), Isr(r)) == HearAll(s, ls + Heard(r))
  {
    HearAppend(s, ls, Heard(r));
    if r.brk || r.rx {
      Runs.Single(Hear, HearAll(s, ls), Heard(r)[0]);
    }
  }

  lemma {:induction false} HearingKeepsReceiving(s: State, ls: seq<Line>)
    requires Open(s)
    ensures Open(HearAll(s, ls)) && HearAll(s, ls).emptyOn == s.emptyOn && HearAll(s, ls).baud == s.baud
    decreases |ls|
  {
    if ls != [] {
      Runs.Last(Hear, s, ls);
      HearingKeepsReceiving(s, ls[..|ls| - 1]);
    }
  }

  /** A receiving port services readings that report no empty transmit FIFO by consuming their line
      events, and goes on receiving. */
  lemma {:induction false} ReceivingRun(s: State, rs: seq<Reading>)
    requires Open(s) && forall i :: 0 <= i < |rs| ==> !(rs[i].txEmpty && s.emptyOn)
    ensures Run(s, Isrs(rs)) == HearAll(s, Lines(rs)) && Open(Run(s, Isrs(rs)))
    decreases |rs|
  {
    HearingKeepsReceiving(s, Lines(rs));
    if rs != [] {
      Runs.Last(Step, s, Isrs(rs));
      var init, r := rs[..|rs| - 1], rs[|rs| - 1];
      ReceivingRun(s, init);
      assert Isrs(rs)[..|rs| - 1] == Isrs(init);
      HearingKeepsReceiving(s, Lines(init));
      HearReading(s, Lines(init), r);
    }
  }

  lemma ListeningRun(s: State, rs: seq<Reading>)
    requires Attentive(s)
    ensures Run(s, Isrs(rs)) == HearAll(s, Lines(rs)) && Attentive(Run(s, Isrs(rs)))
  {
    ReceivingRun(s, rs);
    HearingKeepsReceiving(s, Lines(rs));
  }

  function AsLines(bs: seq<byte>): (ls: seq<Line>)
    ensures |ls| == |bs|
  {
    seq(|bs|, i requires 0 <= i < |bs| => Data(bs[i]))
  }

  /** Where the machine is after a break and the bytes `seg`. */
  function AfterSegment(s: State, seg: seq<byte>): State
    requires s.Valid()
  {
    var d := s.(data := Store(s.data, seg));
    if seg == [] then d.(phase := BREAK, slot := 0)
    else if seg[0] != 0 then d.(phase := IDLE, slot := 0)
    else if |seg| == 1 then d.(phase := DATA, slot := 0)
    else if seg[1] != 0 then d.(phase := IDLE, slot := 0)
    else if |seg| <= MAX_SLOTS then d.(phase := DATA, slot := |seg| - 1)
    else d.(phase := IDLE, slot := MAX_SLOTS)
  }

  lemma StoreFirst(data: seq<byte>)
    requires |data| == MAX_SLOTS
    ensures Store(data, [0, 0]) == data[0 := 0]
  {
    assert [0, 0][1..] == [0];
  }

  lemma StoreNext(data: seq<byte>, seg: seq<byte>, b: byte)
    requires |data| == MAX_SLOTS && 2 <= |seg| <= MAX_SLOTS && seg[0] == 0 && seg[1] == 0
    ensures Store(data, seg + [b]) == Store(data, seg)[|seg| - 1 := b]
  {
    var all := seg + [b];
    assert all[1..] == seg[1..] + [b];
    assert Store(data, all) == seg[1..] + [b] + data[|seg|..];
  }

  lemma StoreCuts(data: seq<byte>, seg: seq<byte>, b: byte)
    requires |data| == MAX_SLOTS && |seg| > MAX_SLOTS && seg[0] == 0 && seg[1] == 0
    ensures Store(data, seg + [b]) == Store(data, seg)
  {
    assert (seg + [b])[1..MAX_SLOTS + 1] == seg[1..MAX_SLOTS + 1];
  }

  lemma SegmentNextIgnored(s: State, seg: seq<byte>, b: byte)
    requires s.Valid() && seg != [] && (seg[0] != 0 || (|seg| > 1 && seg[1] != 0))
    ensures DmxByte(AfterSegment(s, seg), b) == AfterSegment(s, seg + [b])
  {
    var all := seg + [b];
    assert all[0] == seg[0] && (|seg| > 1 ==> all[1] == seg[1]);
    assert AfterSegment(s, seg).phase == IDLE;
  }

  lemma SegmentBegins(s: State, b: byte)
    requires s.Valid()
    ensures DmxByte(AfterSegment(s, []), b) == AfterSegment(s, [b])
    ensures DmxByte(AfterSegment(s, [0]), b) == AfterSegment(s, [0, b])
  {
    StoreFirst(s.data);
  }

  lemma SegmentNextStored(s: State, seg: seq<byte>, b: byte)
    requires s.Valid() && 2 <= |seg| && seg[0] == 0 && seg[1] == 0
    ensures DmxByte(AfterSegment(s, seg), b) == AfterSegment(s, seg + [b])
  {
    var all := seg + [b];
    assert |all| == |seg| + 1 && all[0] == 0 && all[1] == 0;
    if |seg| <= MAX_SLOTS {
      StoreNext(s.data, seg, b);
    } else {
      StoreCuts(s.data, seg, b);
    }
  }

  lemma SegmentNext(s: State, seg: seq<byte>, b: byte)
    requires s.Valid()
    ensures DmxByte(AfterSegment(s, seg), b) == AfterSegment(s, seg + [b])
  {
    if seg == [] || (|seg| == 1 && seg[0] == 0) {
      SegmentBegins(s, b);
      assert seg + [b] == if seg == [] then [b] else [0, b];
      assert seg == if seg == [] then [] else [0];
    } else if seg[0] != 0 || seg[1] != 0 {
      SegmentNextIgnored(s, seg, b);
    } else {
      SegmentNextStored(s, seg, b);
    }
  }

  lemma {:induction false} SegmentHeard(s: State, seg: seq<byte>)
    requires Attentive(s)
    ensures HearAll(s, [Break] + AsLines(seg)) == AfterSegment(s, seg)
    decreases |seg|
  {
    if seg == [] {
      assert [Break] + AsLines(seg) == [Break];
      Runs.Single(Hear, s, Break);
    } else {
      var init, b := seg[..|seg| - 1], seg[|seg| - 1];
      SegmentHeard(s, init);
      HearSnoc(s, [Break] + AsLines(init), Data(b));
      SegmentNext(s, init, b);
      assert init + [b] == seg;
      assert [Break] + AsLines(init) + [Data(b)] == [Break] + AsLines(seg);
    }
  }

  lemma {:induction false} SegmentSplits(ls: seq<Line>)
    ensures ls[..|Segment(ls)|] == AsLines(Segment(ls))
    ensures var rest := ls[|Segment(ls)|..]; rest == [] || rest[0].Break?
  {
    if ls != [] && ls[0].Data? {
      SegmentSplits(ls[1..]);
      assert ls[1..][|Segment(ls[1..])|..] == ls[|Segment(ls)|..];
      assert ls[..|Segment(ls)|] == [ls[0]] + ls[1..][..|Segment(ls[1..])|];
    }
  }

  lemma PacketHeard(s: State, ls: seq<Line>)
    requires Attentive(s) && ls != [] && ls[0].Break?
    ensures var seg := Segment(ls[1..]);
            Attentive(AfterSegment(s, seg)) &&
            HearAll(s, ls) == HearAll(AfterSegment(s, seg), ls[1 + |seg|..])
  {
    var seg := Segment(ls[1..]);
    SegmentSplits(ls[1..]);
    var head, rest := ls[..1 + |seg|], ls[1 + |seg|..];
    assert head == [Break] + ls[1..][..|seg|];
    assert head + rest == ls;
    SegmentHeard(s, seg);
    HearAppend(s, head, rest);
  }

  lemma FirstIgnored(s: State, ls: seq<Line>)
    requires s.Valid() && s.phase == IDLE && ls != [] && ls[0].Data?
    ensures HearAll(s, ls) == HearAll(s, ls[1..])
  {
    HearAppend(s, [ls[0]], ls[1..]);
    Runs.Single(Hear, s, ls[0]);
    assert [ls[0]] + ls[1..] == ls;
  }

  /** Main theorem of the receiver: for every line history, and from a break on whatever state
      the earlier traffic left, the buffer is what the packet parser says. */
  lemma {:induction false} ReceiverRefinesParser(s: State, ls: seq<Line>)
    requires Attentive(s) && (s.phase == IDLE || (ls != [] && ls[0].Break?))
    ensures HearAll(s, ls).data == Parse(s.data, ls)
    decreases |ls|
  {
    if ls != [] && ls[0].Data? {
      FirstIgnored(s, ls);
      ReceiverRefinesParser(s, ls[1..]);
    } else if ls != [] {
      var seg := Segment(ls[1..]);
      var rest := ls[1 + |seg|..];
      PacketHeard(s, ls);
      RestBegins(ls);
      if rest != [] {
        ReceiverRefinesParser(AfterSegment(s, seg), rest);
      }
    }
  }

  lemma RestBegins(ls: seq<Line>)
    requires ls != []
    ensures var rest := ls[1 + |Segment(ls[1..])|..]; rest == [] || rest[0].Break?
  {
    SegmentSplits(ls[1..]);
    assert ls[1..][|Segment(ls[1..])|..] == ls[1 + |Segment(ls[1..])|..];
  }

  lemma {:induction false} LinesAppend(rs: seq<Reading>, qs: seq<Reading>)
    ensures Lines(rs + qs) == Lines(rs) + Lines(qs)
    decreases |qs|
  {
    if qs == [] {
      assert rs + qs == rs;
    } else {
      LinesAppend(rs, qs[..|qs| - 1]);
      assert (rs + qs)[..|rs + qs| - 1] == rs + qs[..|qs| - 1] && (rs + qs)[|rs + qs| - 1] == qs[|qs| - 1];
      assert Lines(rs) + Lines(qs[..|qs| - 1]) + Heard(qs[|qs| - 1]) == Lines(rs) + Lines(qs);
    }
  }

  lemma SlotIgnoresMask(s: State, b: byte)
    requires s.phase == DATA && (s.slot > 0 || b == 0)
    ensures DmxByte(s.(emptyOn := false), b) == DmxByte(s, b).(emptyOn := false)
  {
    if s.slot < |s.data| {
      assert DmxByte(s.(emptyOn := false), b).data == s.data[s.slot := b];
    }
  }

  lemma StartIgnoresMask(s: State, b: byte)
    requires s.phase == BREAK
    ensures DmxByte(s.(emptyOn := false), b) == DmxByte(s, b).(emptyOn := false)
  {
  }

  lemma OtherIgnoresMask(s: State, b: byte)
    requires s.phase != BREAK && !(s.phase == DATA && (s.slot > 0 || b == 0))
    ensures DmxByte(s.(emptyOn := false), b) == DmxByte(s, b).(emptyOn := false)
  {
  }

  lemma HearIgnoresMask(s: State, l: Line)
    ensures Hear(Step(s, MaskEmpty), l) == Step(Hear(s, l), MaskEmpty)
  {
    if l.Data? {
      if s.phase == BREAK {
        StartIgnoresMask(s, l.value);
      } else if s.phase == DATA && (s.slot > 0 || l.value == 0) {
        SlotIgnoresMask(s, l.value);
      } else {
        OtherIgnoresMask(s, l.value);
      }
    }
  }

  lemma {:induction false} HearingIgnoresMask(s: State, ls: seq<Line>)
    ensures HearAll(Step(s, MaskEmpty), ls) == Step(HearAll(s, ls), MaskEmpty)
    decreases |ls|
  {
    if ls != [] {
      Runs.Last(Hear, s, ls);
      Runs.Last(Hear, Step(s, MaskEmpty), ls);
      HearingIgnoresMask(s, ls[..|ls| - 1]);
      HearIgnoresMask(HearAll(s, ls[..|ls| - 1]), ls[|ls| - 1]);
    }
  }

  lemma MaskedRun(s: State, mid: seq<Reading>)
    requires Open(s) && (s.emptyOn ==> forall i :: 0 <= i < |mid| ==> !mid[i].txEmpty)
    ensures Step(Run(s, Isrs(mid)), MaskEmpty) == HearAll(Step(s, MaskEmpty), Lines(mid))
  {
    ReceivingRun(s, mid);
    HearingIgnoresMask(s, Lines(mid));
  }

  /** The same for the interrupt handler: after a switch to receive with TX_DONE masked, every
      sequence of status readings, those that come between the globals and the mask included, leaves the
      buffer as the parser has it, unless one of them there is an empty transmit FIFO. In particular
      nothing is stored before the first break. */
  lemma ReceivesAfterSwitch(s: State, mid: seq<Reading>, rs: seq<Reading>)
    requires s.Valid() && !s.doneOn && s.rxOn && !s.rxFull
    requires s.emptyOn ==> forall i :: 0 <= i < |mid| ==> !mid[i].txEmpty
    ensures Run(s, Sender.StopCall([], [], Isrs(mid)) + Isrs(rs)).data == Parse(s.data, Lines(mid + rs))
    ensures Listening(Run(s, Sender.StopCall([], [], Isrs(mid)) + Isrs(rs)))
  {
    Sender.LateStopCall(s, Isrs(mid));
    Runs.Append(Step, s, Sender.StopCall([], [], Isrs(mid)), Isrs(rs));
    SwitchedRun(s, Idled(s), mid, rs);
  }

  lemma SwitchedRun(s: State, t: State, mid: seq<Reading>, rs: seq<Reading>)
    requires Open(t) && t.phase == IDLE && t.data == s.data
    requires t.emptyOn ==> forall i :: 0 <= i < |mid| ==> !mid[i].txEmpty
    ensures var u := Run(Step(Run(t, Isrs(mid)), MaskEmpty), Isrs(rs));
            u.data == Parse(s.data, Lines(mid + rs)) && Attentive(u) && u.baud == t.baud
  {
    var u := Step(t, MaskEmpty);
    MaskedRun(t, mid);
    HearingKeepsReceiving(u, Lines(mid));
    ListeningRun(HearAll(u, Lines(mid)), rs);
    HearingKeepsReceiving(HearAll(u, Lines(mid)), Lines(rs));
    HearAppend(u, Lines(mid), Lines(rs));
    LinesAppend(mid, rs);
    ReceiverRefinesParser(u, Lines(mid + rs));
  }

  /** A packet that the RDM phase takes is counted to 513 bytes and leaves the buffer alone. */
  lemma {:induction false} RdmPacketEnds(s: State, bs: seq<byte>)
    requires s.phase == RDM && |bs| > 0 && s.slot + |bs| == MAX_SLOTS
    ensures HearAll(s, AsLines(bs)).phase == IDLE && HearAll(s, AsLines(bs)).data == s.data
    decreases |bs|
  {
    assert AsLines(bs) == [Data(bs[0])] + AsLines(bs[1..]);
    HearAppend(s, [Data(bs[0])], AsLines(bs[1..]));
    Runs.Single(Hear, s, Data(bs[0]));
    if |bs| > 1 {
      RdmPacketEnds(DmxByte(s, bs[0]), bs[1..]);
    } else {
      assert AsLines(bs[1..]) == [];
    }
  }

  // ----- a port that does not hear -----

  /** The receive path is cut: another port's write has set _tx_running, or a stash from sending
      still sits in the driver. */
  predicate Deaf(s: State) {
    Sender.Silent(s) && (s.sending || s.rxFull || !s.rxOn)
  }

  lemma {:induction false} DeafRun(s: State, rs: seq<Reading>)
    requires Deaf(s)
    ensures Deaf(Run(s, Isrs(rs))) && Run(s, Isrs(rs)).data == s.data
    decreases |rs|
  {
    if rs != [] {
      Runs.Last(Step, s, Isrs(rs));
      DeafRun(s, rs[..|rs| - 1]);
      assert Isrs(rs)[..|rs| - 1] == Isrs(rs[..|rs| - 1]);
    }
  }

  /** A byte that comes in while the port is sending goes to the driver's ring buffer, which nobody
      reads. When the ring refuses it, the port is deaf from the next switch to receive on. */
  lemma RefusedByteDeafens(s: State, b: byte, rs: seq<Reading>)
    requires s.Valid() && s.sending && s.rxOn && !s.rxFull && !s.doneOn
    ensures var t := StopSending(Step(s, Isr(Reading(false, false, false, true, b, false, 0))));
            Deaf(t) && Run(t, Isrs(rs)).data == s.data
  {
    DeafRun(StopSending(Step(s, Isr(Reading(false, false, false, true, b, false, 0)))), rs);
  }

  /** A whole packet with `fill` in every slot. */
  function Packet(fill: byte): seq<Line> {
    [Break] + AsLines(seq(MAX_SLOTS + 1, i => if i <= 1 then 0 else fill))
  }

  function ReadingOf(l: Line): Reading {
    match l
    case Break => Reading(false, false, true, false, 0, true, 0)
    case Data(b) => Reading(false, false, false, true, b, true, 0)
  }

  function Readings(ls: seq<Line>): (rs: seq<Reading>)
    ensures |rs| == |ls| && forall i :: 0 <= i < |rs| ==> rs[i] == ReadingOf(ls[i])
  {
    seq(|ls|, i requires 0 <= i < |ls| => ReadingOf(ls[i]))
  }

  lemma {:induction false} LinesOfReadings(ls: seq<Line>)
    ensures Lines(Readings(ls)) == ls
    decreases |ls|
  {
    if ls != [] {
      LinesOfReadings(ls[..|ls| - 1]);
      assert Readings(ls)[..|ls| - 1] == Readings(ls[..|ls| - 1]);
    }
  }

  /** Exactly when a silent port in the receive direction obeys the parser. The missing braces in
      uart_enable_tx_intr break it from any other port. */
  lemma ReceivesIffNotDeaf(s: State)
    requires Sender.Silent(s) && s.phase == IDLE
    ensures (!s.sending && !s.rxFull && s.rxOn) <==>
            forall rs :: Run(s, Isrs(rs)).data == Parse(s.data, Lines(rs))
  {
    if Attentive(s) {
      forall rs ensures Run(s, Isrs(rs)).data == Parse(s.data, Lines(rs)) {
        ListeningRun(s, rs);
        ReceiverRefinesParser(s, Lines(rs));
      }
    } else {
      var fill: byte := if s.data[1] == 0 then 1 else 0;
      var ls := Packet(fill);
      var rs := Readings(ls);
      LinesOfReadings(ls);
      DeafRun(s, rs);
      WholePacketParses(s.data, fill);
      assert Parse(s.data, Lines(rs)) != s.data;
    }
  }

  lemma {:induction false} SegmentOfBytes(bs: seq<byte>)
    ensures Segment(AsLines(bs)) == bs
  {
    if bs != [] {
      assert AsLines(bs)[1..] == AsLines(bs[1..]);
      SegmentOfBytes(bs[1..]);
    }
  }

  lemma WholePacketParses(data: seq<byte>, fill: byte)
    requires |data| == MAX_SLOTS
    ensures Parse(data, Packet(fill))[1] == fill
  {
    var seg: seq<byte> := seq(MAX_SLOTS + 1, i => if i <= 1 then 0 else fill);
    assert Packet(fill)[1..] == AsLines(seg);
    SegmentOfBytes(seg);
    assert Packet(fill)[1 + |seg|..] == [];
  }

  // ----- loopback -----

  /** A byte at the break rate is heard as a break and a zero byte, any other as itself. */
  function Feed(log: seq<Symbol>): seq<Line>
    decreases |log|
  {
    if log == [] then [] else
    var sym := log[|log| - 1];
    Feed(log[..|log| - 1]) + if sym.baud == BREAK_BAUD then [Break, Data(sym.value)] else [Data(sym.value)]
  }

  function Values(log: seq<Symbol>): (bs: seq<byte>)
    ensures |bs| == |log|
  {
    seq(|log|, i requires 0 <= i < |log| => log[i].value)
  }

  lemma {:induction false} FeedAppend(a: seq<Symbol>, b: seq<Symbol>)
    ensures Feed(a + b) == Feed(a) + Feed(b)
    decreases |b|
  {
    if b == [] {
      assert a + b == a;
    } else {
      FeedAppend(a, b[..|b| - 1]);
      assert (a + b)[..|a + b| - 1] == a + b[..|b| - 1];
    }
  }

  lemma {:induction false} FeedFramePrefix(log: seq<Symbol>)
    requires |log| > 0 && log[0].baud == BREAK_BAUD
    requires forall p :: 0 < p < |log| ==> log[p].baud == DATA_BAUD
    ensures Feed(log) == [Break] + AsLines(Values(log))
    decreases |log|
  {
    var init := log[..|log| - 1];
    if init == [] {
      assert AsLines(Values(log)) == [Data(log[0].value)];
    } else {
      FeedFramePrefix(init);
      assert AsLines(Values(log)) == AsLines(Values(init)) + [Data(log[|log| - 1].value)];
    }
  }

  /** One frame off the wire replaces the whole buffer, whatever was heard before it. */
  lemma FrameHeard(r: State, before: seq<Line>, frame: seq<Symbol>)
    requires Attentive(r) && Sender.IsFrame(frame)
    ensures HearAll(r, before + Feed(frame)).data == Values(frame)[1..]
  {
    var t := HearAll(r, before);
    HearAppend(r, before, Feed(frame));
    HearingKeepsReceiving(r, before);
    forall p | 0 < p < |frame| ensures frame[p].baud == DATA_BAUD {
      assert Sender.Fits(frame[p], p);
    }
    assert Sender.Fits(frame[0], 0) && Sender.Fits(frame[1], 1);
    FeedFramePrefix(frame);
    SegmentHeard(t, Values(frame));
  }

  /** The `m`-th frame of a log. */
  function FrameAt(log: seq<Symbol>, m: nat): (f: seq<Symbol>)
    requires Sender.FRAME * (m + 1) <= |log|
    ensures |f| == Sender.FRAME
  {
    log[Sender.FRAME * m..Sender.FRAME * m + Sender.FRAME]
  }

  lemma FrameAtIsFrame(log: seq<Symbol>, m: nat)
    requires Sender.FramesFrom(0, log) && Sender.FRAME * (m + 1) <= |log|
    ensures Sender.IsFrame(FrameAt(log, m))
  {
    var at, f := Sender.FRAME * m, FrameAt(log, m);
    forall p | 0 <= p < Sender.FRAME ensures Sender.Fits(f[p], p) {
      assert f[p] == log[at + p];
    }
  }

  lemma FramesHeard(r: State, log: seq<Symbol>, m: nat)
    requires Attentive(r) && Sender.FramesFrom(0, log) && Sender.FRAME * (m + 1) <= |log|
    ensures HearAll(r, Feed(log[..Sender.FRAME * (m + 1)])).data == Values(FrameAt(log, m))[1..]
  {
    var before := log[..Sender.FRAME * m];
    assert before + FrameAt(log, m) == log[..Sender.FRAME * (m + 1)];
    FrameAtIsFrame(log, m);
    FeedAppend(before, FrameAt(log, m));
    FrameHeard(r, Feed(before), FrameAt(log, m));
  }

  /** Going from `t` to `u` writes byte `n` of the wire: what the buffer holds for slot `k` then. */
  ghost predicate SendsSlot(t: State, u: State, n: nat, k: nat, v: byte) {
    |t.wire| == n && u.wire == t.wire + [Symbol(DATA_BAUD, v)] &&
    t.phase == DATA && t.slot == k && k < |t.data| && t.data[k] == v
  }

  /** The `n`-th byte that the run writes is slot `k`, and `v` is the value that the sender's buffer
      had for it at that moment. */
  ghost predicate SentFromBuffer(s: State, es: seq<Event>, n: nat, k: nat, v: byte) {
    exists i :: 0 <= i < |es| && SendsSlot(Run(s, es[..i]), Run(s, es[..i + 1]), |s.wire| + n, k, v)
  }

  /** When the `n`-th symbol was written. */
  lemma {:induction false} Moment(s: State, es: seq<Event>, n: nat) returns (i: nat)
    requires n < |Sender.Expected(s, es)|
    ensures i < |es| && |Sender.Expected(s, es[..i])| == n
    ensures Sender.Emits(Run(s, es[..i]), es[i]) == [Sender.Expected(s, es)[n]]
    decreases |es|
  {
    var init := es[..|es| - 1];
    if n < |Sender.Expected(s, init)| {
      i := Moment(s, init, n);
      assert init[..i] == es[..i];
    } else {
      i := |es| - 1;
    }
  }

  lemma SlotMoment(s: State, es: seq<Event>, n: nat, k: nat)
    requires Sender.Synced(s) && s.sending && Sender.NoDirectionChanges(es)
    requires n < |Sender.Written(s, es)| && 1 <= k < MAX_SLOTS
    requires Sender.IndexAfter(Sender.Position(Sender.Cycle(s)), n) == 1 + k
    ensures SentFromBuffer(s, es, n, k, Sender.Written(s, es)[n].value)
  {
    Sender.TransmitRun(s, es);
    SlotExpected(s, es, n, k);
  }

  lemma SlotExpected(s: State, es: seq<Event>, n: nat, k: nat)
    requires Sender.Synced(s) && s.sending && Sender.NoDirectionChanges(es)
    requires n < |Sender.Expected(s, es)| && 1 <= k < MAX_SLOTS
    requires Sender.IndexAfter(Sender.Position(Sender.Cycle(s)), n) == 1 + k
    ensures SentFromBuffer(s, es, n, k, Sender.Expected(s, es)[n].value)
  {
    var i := Moment(s, es, n);
    Sender.PositionReached(s, es[..i]);
    Runs.Snoc(Step, s, es[..i], es[i]);
    assert es[..i + 1] == es[..i] + [es[i]];
    EmitsSlot(Run(s, es[..i]), es[i], k);
    assert SendsSlot(Run(s, es[..i]), Run(s, es[..i + 1]), |s.wire| + n, k, Sender.Expected(s, es)[n].value);
  }

  lemma EmitsSlot(t: State, e: Event, k: nat)
    requires Sender.Synced(t) && t.sending && Sender.NoDirectionChange(e) && 1 <= k < MAX_SLOTS
    requires Sender.Emits(t, e) != [] && Sender.Position(Sender.Cycle(t)) == 1 + k
    ensures SendsSlot(t, Step(t, e), |t.wire|, k, Sender.Emits(t, e)[0].value)
  {
    Sender.SyncedStep(t, e);
  }

  lemma SentLater(s: State, a: seq<Event>, b: seq<Event>, n: nat, k: nat, v: byte)
    requires SentFromBuffer(Run(s, a), b, n, k, v)
    ensures SentFromBuffer(s, a + b, |Sender.Written(s, a)| + n, k, v)
  {
    var t := Run(s, a);
    var i :| 0 <= i < |b| && SendsSlot(Run(t, b[..i]), Run(t, b[..i + 1]), |t.wire| + n, k, v);
    PrefixRuns(s, a, b, i);
    PrefixRuns(s, a, b, i + 1);
    assert Run(s, a).wire == s.wire + Sender.Written(s, a);
  }

  lemma PrefixRuns(s: State, a: seq<Event>, b: seq<Event>, i: nat)
    requires i <= |b|
    ensures Run(s, (a + b)[..|a| + i]) == Run(Run(s, a), b[..i])
  {
    assert (a + b)[..|a| + i] == a + b[..i];
    Runs.Append(Step, s, a, b[..i]);
  }

  /** A receiver that hears what the run writes, up to the end of the `m`-th frame after the first
      `off` bytes, then holds the 512 values that the sender's buffer had when it sent them. */
  ghost predicate Delivers(s: State, es: seq<Event>, off: nat, r: State, m: nat)
    requires off + Sender.FRAME * (m + 1) <= |Sender.Written(s, es)|
  {
    var heard := HearAll(r, Feed(Sender.Written(s, es)[..off + Sender.FRAME * (m + 1)]));
    heard.Valid() && heard.data[0] == START_CODE &&
    forall k :: 1 <= k < MAX_SLOTS ==>
      SentFromBuffer(s, es, off + Sender.FRAME * m + 1 + k, k, heard.data[k])
  }

  /** After `a` the sender is in step, and its next frame begins `off` bytes after `s`. */
  ghost predicate ReadyAt(s: State, a: seq<Event>, off: nat) {
    var t, w := Run(s, a), |Sender.Written(s, a)|;
    Sender.Synced(t) && t.sending && w <= off &&
    Sender.IndexAfter(Sender.Position(Sender.Cycle(t)), off - w) == 0
  }

  lemma FrameDelivered(s: State, a: seq<Event>, b: seq<Event>, off: nat, r: State, m: nat)
    requires ReadyAt(s, a, off) && Sender.NoDirectionChanges(b) && Attentive(r)
    requires off + Sender.FRAME * (m + 1) <= |Sender.Written(s, a + b)|
    ensures Delivers(s, a + b, off, r, m)
  {
    var log := Sender.Written(s, a + b);
    var heard := HearAll(r, Feed(log[..off + Sender.FRAME * (m + 1)]));
    FramesFromReady(s, a, b, off);
    LaterFrameHeard(r, log, off, m);
    forall k | 1 <= k < MAX_SLOTS ensures SentFromBuffer(s, a + b, off + Sender.FRAME * m + 1 + k, k, heard.data[k]) {
      FrameSlotSent(s, a, b, off, m, k);
    }
  }

  lemma FramesFromReady(s: State, a: seq<Event>, b: seq<Event>, off: nat)
    requires ReadyAt(s, a, off) && Sender.NoDirectionChanges(b) && off <= |Sender.Written(s, a + b)|
    ensures Sender.FramesFrom(0, Sender.Written(s, a + b)[off..])
  {
    var t := Run(s, a);
    Sender.WrittenAppend(s, a, b);
    Sender.TransmitRun(t, b);
    assert Sender.Written(t, b) == Sender.Expected(t, b);
    FrameResumes(Sender.Position(Sender.Cycle(t)), Sender.Written(s, a), Sender.Expected(t, b), off);
  }

  lemma FrameResumes(p: nat, early: seq<Symbol>, sent: seq<Symbol>, off: nat)
    requires p < Sender.FRAME && |early| <= off <= |early + sent|
    requires Sender.FramesFrom(p, sent) && Sender.IndexAfter(p, off - |early|) == 0
    ensures Sender.FramesFrom(0, (early + sent)[off..])
  {
    var n := off - |early|;
    assert sent[..n] + sent[n..] == sent;
    Sender.FramesOfRest(p, sent[..n], sent[n..]);
    SliceAppend(early, sent, n);
  }

  lemma FrameSlotSent(s: State, a: seq<Event>, b: seq<Event>, off: nat, m: nat, k: nat)
    requires ReadyAt(s, a, off) && Sender.NoDirectionChanges(b) && 1 <= k < MAX_SLOTS
    requires off + Sender.FRAME * m + 1 + k < |Sender.Written(s, a + b)|
    ensures SentFromBuffer(s, a + b, off + Sender.FRAME * m + 1 + k, k,
                           Sender.Written(s, a + b)[off + Sender.FRAME * m + 1 + k].value)
  {
    var t, n := Run(s, a), off - |Sender.Written(s, a)| + (Sender.FRAME * m + (1 + k));
    Sender.WrittenAppend(s, a, b);
    SlotMoment(t, b, n, k);
    SentLater(s, a, b, n, k, Sender.Written(t, b)[n].value);
  }

  lemma LaterFrameHeard(r: State, log: seq<Symbol>, off: nat, m: nat)
    requires Attentive(r) && off + Sender.FRAME * (m + 1) <= |log| && Sender.FramesFrom(0, log[off..])
    ensures var heard := HearAll(r, Feed(log[..off + Sender.FRAME * (m + 1)]));
            heard.Valid() && heard.data[0] == START_CODE &&
            forall k :: 0 <= k < MAX_SLOTS ==> heard.data[k] == log[off + Sender.FRAME * m + 1 + k].value
  {
    var first, rest := log[..off], log[off..][..Sender.FRAME * (m + 1)];
    assert first + rest == log[..off + Sender.FRAME * (m + 1)];
    FeedAppend(first, rest);
    HearAppend(r, Feed(first), Feed(rest));
    HearingKeepsReceiving(r, Feed(first));
    FramesHeard(HearAll(r, Feed(first)), log[off..], m);
    FrameAtIsFrame(log[off..], m);
    var frame := FrameAt(log[off..], m);
    assert Sender.Fits(frame[1], 1);
    assert forall k :: 0 <= k < MAX_SLOTS ==> Values(frame)[1..][k] == frame[1 + k].value;
  }

  /** How many bytes the sender has left to write of the frame it is in. */
  function ToNextFrame(s: State): nat
    requires Sender.Synced(s)
  {
    var p := Sender.Position(Sender.Cycle(s));
    if p == 0 then 0 else Sender.FRAME - p
  }

  /** Loopback. A receiver listening to the whole wire of a sender in step, from any state of both
      and for every run, holds after each complete frame exactly the 512 values that the sender's
      buffer had for that frame, each at the moment it was sent. */
  lemma Loopback(s: State, es: seq<Event>, r: State, m: nat)
    requires Sender.Synced(s) && s.sending && Sender.NoDirectionChanges(es)
    requires Listening(r)
    requires ToNextFrame(s) + Sender.FRAME * (m + 1) <= |Sender.Written(s, es)|
    ensures Delivers(s, es, ToNextFrame(s), r, m)
  {
    var none: seq<Event> := [];
    assert Run(s, none) == s && none + es == es;
    FrameDelivered(s, none, es, ToNextFrame(s), r, m);
  }

  /** The same right from the start of the sender, in any state, with TX_DONE enabled or not and with
      any interrupts inside the call: after what those wrote and the frame that was under way, whatever
      that does to the receiver, every whole frame delivers the sender's buffer. */
  lemma LoopbackFromStart(s: State, m: seq<Event>, n: seq<Event>, es: seq<Event>, r: State) returns (off: nat)
    requires s.Valid() && Sender.NoDirectionChanges(m) && Sender.NoDirectionChanges(n)
    requires Sender.NoDirectionChanges(es) && Listening(r)
    ensures var log := Sender.Written(s, Sender.StartCall(m, n) + es);
            var early := |Sender.Written(s, Sender.StartCall(m, n))|;
            early <= off <= |log| && off <= early + Sender.FRAME && Sender.FramesFrom(0, log[off..])
    ensures forall k: nat :: off + Sender.FRAME * (k + 1) <= |Sender.Written(s, Sender.StartCall(m, n) + es)| ==>
              Delivers(s, Sender.StartCall(m, n) + es, off, r, k)
  {
    var call := Sender.StartCall(m, n);
    var t := Run(s, call);
    Sender.StartCallStarts(s, m, n);
    var a, b, cut, synced := Sender.BegunRun(t, es);
    var first := Sender.FirstWholeFrame(t, a, b, cut, synced);
    off := |Sender.Written(s, call)| + first;
    SkipWritten(s, call, es, first);
    LaterFramesDelivered(s, call, a, b, first, off, r);
  }

  lemma SkipWritten(s: State, a: seq<Event>, b: seq<Event>, n: nat)
    requires n <= |Sender.Written(Run(s, a), b)|
    ensures var log := Sender.Written(s, a + b);
            |Sender.Written(s, a)| + n <= |log| && log[|Sender.Written(s, a)| + n..] == Sender.Written(Run(s, a), b)[n..]
  {
    Sender.WrittenAppend(s, a, b);
    SliceAppend(Sender.Written(s, a), Sender.Written(Run(s, a), b), n);
  }

  lemma LaterFramesDelivered(s: State, call: seq<Event>, a: seq<Event>, b: seq<Event>, first: nat, off: nat, r: State)
    requires first + Sender.FRAME <= |Sender.Written(Run(s, call), a + b)| ==> ReadyAt(Run(s, call), a, first)
    requires Sender.NoDirectionChanges(b) && Attentive(r) && off == |Sender.Written(s, call)| + first
    ensures forall m: nat :: off + Sender.FRAME * (m + 1) <= |Sender.Written(s, call + (a + b))| ==>
              Delivers(s, call + (a + b), off, r, m)
  {
    Sender.WrittenAppend(s, call, a + b);
    forall m: nat | off + Sender.FRAME * (m + 1) <= |Sender.Written(s, call + (a + b))|
      ensures Delivers(s, call + (a + b), off, r, m)
    {
      DeliversFrom(s, call, a, b, first, r, m);
    }
  }

  lemma DeliversFrom(s: State, call: seq<Event>, a: seq<Event>, b: seq<Event>, first: nat, r: State, m: nat)
    requires ReadyAt(Run(s, call), a, first) && Sender.NoDirectionChanges(b) && Attentive(r)
    requires |Sender.Written(s, call)| + first + Sender.FRAME * (m + 1) <= |Sender.Written(s, call + (a + b))|
    ensures Delivers(s, call + (a + b), |Sender.Written(s, call)| + first, r, m)
  {
    Sender.WrittenAppend(s, call, a);
    Runs.Append(Step, s, call, a);
    assert call + (a + b) == call + a + b;
    FrameDelivered(s, call + a, b, |Sender.Written(s, call)| + first, r, m);
  }

  // ----- a switch that an interrupt cuts in two -----

  /** Two TXFIFO_EMPTY services before the mask of uart_disable_tx_intr leave the phase at DATA in the
      receive direction: a byte is then stored though no break was heard. */
  lemma InterruptedStopStoresWithoutBreak(s: State, b: byte)
    requires s.Valid() && s.emptyOn && s.rxOn && !s.rxFull
    ensures var byteIn := Isr(Reading(false, false, false, true, b, true, 0));
            var t := Run(s, Sender.StopCall([], [], [Sender.EMPTY, Sender.EMPTY]) + [byteIn]);
            !t.sending && !t.emptyOn && t.data == s.data[1 := b]
  {
    var byteIn := Isr(Reading(false, false, false, true, b, true, 0));
    var n := [Sender.EMPTY, Sender.EMPTY];
    Sender.LateStopCall(s, n);
    Runs.Three(Step, Idled(s), Sender.EMPTY, Sender.EMPTY, MaskEmpty);
    Runs.Snoc(Step, s, Sender.StopCall([], [], n), byteIn);
  }
}
