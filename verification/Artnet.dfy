/**
 The ArtDmx sender and receiver of the Art-Net node: a packet printer and a packet parser over the
 shared DMX buffer (Art-Net 4 specification, ArtDmx packet definition).
 */
module Artnet {
  import opened Common

  const MAX_BUFFER := 530
  const DATA_INDEX := 18
  const OP_DMX: word := 0x5000
  const PROTO_VER: word := 14
  const ID: seq<byte> := [0x41, 0x72, 0x74, 0x2D, 0x4E, 0x65, 0x74, 0]   // "Art-Net"

  /** What the receive callback does with a packet. `Overrun`: it would read past the packet or
      write past the buffer, which is where this model stops. */
  datatype Outcome = Accepted | NotMine(universe: word) | NotArtnet | NotReceiving | OtherOpcode(op: word) | Overrun

  // ----- the printer -----

  /** The packed, little-endian image of the first 18 bytes of ARTNETPACKET. */
  function Image(opcode: word, version: word, sequence: byte, physical: byte,
                 low: byte, high: byte, lengthHi: byte, lengthLo: byte): (h: seq<byte>)
    ensures |h| == DATA_INDEX
  {
    ID + [LowByte(opcode), HighByte(opcode), LowByte(version), HighByte(version), sequence, physical,
          low, high, lengthHi, lengthLo]
  }

  /** The packet that goes out for `universe` with `data` in the buffer. */
  function Sent(universe: word, sequence: byte, data: seq<byte>): (p: seq<byte>)
    requires |data| == MAX_SLOTS
    ensures |p| == MAX_BUFFER
  {
    Image(OP_DMX, PROTO_VER, sequence, 1, LowByte(universe), HighByte(universe),
          HighByte(MAX_SLOTS - 1), LowByte(MAX_SLOTS - 1)) + data[1..]
  }

  // ----- the parser -----

  /** dmx_artnet.c:380-381: the low byte goes through `&& 0xFF`. */
  function ReadUniverse(p: seq<byte>): word
    requires |p| >= DATA_INDEX
  {
    Join(p[15], LogicalAnd(p[14]))
  }

  /** dmx_artnet.c:391-392. */
  function ReadSlots(p: seq<byte>): word
    requires |p| >= DATA_INDEX
  {
    Join(p[16], LogicalAnd(p[17]))
  }

  /** parseDMXDataPacketArtnet. */
  function Parse(p: seq<byte>, own: word, data: seq<byte>): (r: (Outcome, seq<byte>))
    requires |data| == MAX_SLOTS
    ensures |r.1| == MAX_SLOTS && (r.0 != Accepted ==> r.1 == data)
  {
    if |p| < DATA_INDEX then (Overrun, data)
    else if ReadUniverse(p) != own then (NotMine(ReadUniverse(p)), data)
    else
      var slots := ReadSlots(p);
      if slots >= MAX_SLOTS || DATA_INDEX + slots > |p| then (Overrun, data)
      else (Accepted, data[..1] + p[DATA_INDEX..DATA_INDEX + slots] + data[1 + slots..])
  }

  /** The first `n` bytes of the id compared, as far as they agree. */
  function CompareId(p: seq<byte>, n: nat): Outcome
    requires n <= |ID|
    decreases |ID| - n
  {
    if n == |ID| then Accepted
    else if n >= |p| then Overrun
    else if p[n] != ID[n] then NotArtnet
    else CompareId(p, n + 1)
  }

  /** recieveDMXArtnet up to the handling of the other opcodes. */
  function Receive(p: seq<byte>, receiving: bool, own: word, data: seq<byte>): (r: (Outcome, seq<byte>))
    requires |data| == MAX_SLOTS
    ensures |r.1| == MAX_SLOTS
  {
    var id := CompareId(p, 0);
    if id != Accepted then (id, data)
    else if |p| < 10 then (Overrun, data)
    else
      var opcode := Join(p[9], p[8]);
      if opcode != OP_DMX then (OtherOpcode(opcode), data)
      else if !receiving then (NotReceiving, data)
      else Parse(p, own, data)
  }

  // ----- the round trip -----

  lemma {:induction false} IdMatches(p: seq<byte>, n: nat)
    requires n <= |ID| <= |p| && p[..|ID|] == ID
    ensures CompareId(p, n) == Accepted
    decreases |ID| - n
  {
    if n < |ID| {
      assert p[n] == p[..|ID|][n];
      IdMatches(p, n + 1);
    }
  }

  /** The universe that a receiver sees in a packet sent for `v`. */
  function Seen(v: word): word { Join(HighByte(v), if LowByte(v) == 0 then 0 else 1) }

  /** For every pair of nodes: a receiver takes the 512 slots of a packet, and leaves slot 0, exactly
      if its own universe is the one seen; from any other packet it takes nothing. */
  lemma RoundTrip(v: word, own: word, sequence: byte, sender: seq<byte>, receiver: seq<byte>)
    requires |sender| == MAX_SLOTS && |receiver| == MAX_SLOTS
    ensures Receive(Sent(v, sequence, sender), true, own, receiver) ==
            if own == Seen(v) then (Accepted, receiver[..1] + sender[1..]) else (NotMine(Seen(v)), receiver)
  {
    var p := Sent(v, sequence, sender);
    SentHeader(v, sequence, sender);
    IdMatches(p, 0);
    assert Join(p[9], p[8]) == OP_DMX && ReadSlots(p) == 512 && ReadUniverse(p) == Seen(v);
    if own == Seen(v) {
      assert p[DATA_INDEX..DATA_INDEX + 512] == sender[1..];
      assert receiver[..1] + sender[1..] + receiver[513..] == receiver[..1] + sender[1..];
    }
  }

  lemma SentHeader(v: word, sequence: byte, data: seq<byte>)
    requires |data| == MAX_SLOTS
    ensures var p := Sent(v, sequence, data);
            p[..8] == ID && p[8] == 0 && p[9] == 0x50 && p[14] == LowByte(v) && p[15] == HighByte(v) &&
            p[16] == 2 && p[17] == 0 && p[DATA_INDEX..] == data[1..]
  {
  }

  /** "Art-Net" and a zero byte. */
  predicate IsArtnet(p: seq<byte>) {
    |p| >= 8 && p[0] == 'A' as int && p[1] == 'r' as int && p[2] == 't' as int && p[3] == '-' as int &&
    p[4] == 'N' as int && p[5] == 'e' as int && p[6] == 't' as int && p[7] == 0
  }

  function Number(high: int, low: int): int { high * 256 + low }

  /** The packet as a reader of the ArtDmx definition finds it: opcode 0x5000 low byte first, version 14
      high byte first, sequence, physical port, the port address low byte first, length 512 high byte
      first, and the slots. The sender puts the version low byte first. */
  lemma SentByIndex(v: word, sequence: byte, data: seq<byte>)
    requires |data| == MAX_SLOTS
    ensures var p := Sent(v, sequence, data);
            |p| == 530 && IsArtnet(p) && Number(p[9], p[8]) == 0x5000 && Number(p[11], p[10]) == 14 &&
            p[12] == sequence && p[13] == 1 && Number(p[15], p[14]) == v && Number(p[16], p[17]) == 512 &&
            forall k :: 1 <= k <= 512 ==> p[17 + k] == data[k]
  {
    SentHead(v, sequence, data);
    SentAddress(v, sequence, data);
    SentSlots(v, sequence, data);
  }

  lemma SentHead(v: word, sequence: byte, data: seq<byte>)
    requires |data| == MAX_SLOTS
    ensures var p := Sent(v, sequence, data);
            IsArtnet(p) && Number(p[9], p[8]) == 0x5000 && Number(p[11], p[10]) == 14 && p[12] == sequence && p[13] == 1
  {
    ImageByIndex(OP_DMX, PROTO_VER, sequence, 1, LowByte(v), HighByte(v), HighByte(MAX_SLOTS - 1), LowByte(MAX_SLOTS - 1));
    SentBegins(v, sequence, data);
  }

  lemma SentAddress(v: word, sequence: byte, data: seq<byte>)
    requires |data| == MAX_SLOTS
    ensures var p := Sent(v, sequence, data);
            Number(p[15], p[14]) == v && Number(p[16], p[17]) == 512
  {
    SentHeader(v, sequence, data);
    JoinParts(v);
  }

  lemma SentBegins(v: word, sequence: byte, data: seq<byte>)
    requires |data| == MAX_SLOTS
    ensures var h := Image(OP_DMX, PROTO_VER, sequence, 1, LowByte(v), HighByte(v),
                           HighByte(MAX_SLOTS - 1), LowByte(MAX_SLOTS - 1));
            forall i :: 0 <= i < DATA_INDEX ==> Sent(v, sequence, data)[i] == h[i]
  {
  }

  lemma ImageByIndex(opcode: word, version: word, sequence: byte, physical: byte,
                     low: byte, high: byte, lengthHi: byte, lengthLo: byte)
    ensures var h := Image(opcode, version, sequence, physical, low, high, lengthHi, lengthLo);
            IsArtnet(h) && h[8] == LowByte(opcode) && h[9] == HighByte(opcode) && h[10] == LowByte(version) &&
            h[11] == HighByte(version) && h[12] == sequence && h[13] == physical && h[14] == low && h[15] == high &&
            h[16] == lengthHi && h[17] == lengthLo
  {
    assert ID[0] == 'A' as int;
  }

  lemma SentSlots(v: word, sequence: byte, data: seq<byte>)
    requires |data| == MAX_SLOTS
    ensures forall k :: 1 <= k <= 512 ==> Sent(v, sequence, data)[17 + k] == data[k]
  {
    SentHeader(v, sequence, data);
    forall k | 1 <= k <= 512 ensures Sent(v, sequence, data)[17 + k] == data[k] {
      assert Sent(v, sequence, data)[DATA_INDEX..][k - 1] == data[1..][k - 1];
    }
  }

  // ----- any packet -----

  /** The length that the parser reads from a packet. */
  function SlotsRead(p: seq<byte>): int
    requires |p| >= 18
  {
    Number(p[16], if p[17] != 0 then 1 else 0)
  }

  /** A packet that a node takes: ArtDmx, the node receives, the universe is its own, and the slots are
      all there and fit the buffer. */
  predicate ForMe(p: seq<byte>, receiving: bool, own: word) {
    |p| >= 18 && IsArtnet(p) && p[8] == 0 && p[9] == 0x50 && receiving &&
    own == Number(p[15], if p[14] != 0 then 1 else 0) && SlotsRead(p) <= 512 && 18 + SlotsRead(p) <= |p|
  }

  lemma {:induction false} IdIff(p: seq<byte>, n: nat)
    requires n <= |ID| && forall i :: 0 <= i < n ==> i < |p| && p[i] == ID[i]
    ensures CompareId(p, n) == Accepted <==> IsArtnet(p)
    decreases |ID| - n
  {
    assert IsArtnet(p) ==> p[..8] == ID;
    if n < |ID| && n < |p| {
      assert IsArtnet(p) ==> p[..8][n] == ID[n];
      if p[n] == ID[n] {
        IdIff(p, n + 1);
      }
    }
  }

  lemma TakenByIndex(p: seq<byte>, slots: nat, data: seq<byte>)
    requires |data| == MAX_SLOTS && slots <= 512 && 18 + slots <= |p|
    ensures var d := data[..1] + p[18..18 + slots] + data[1 + slots..];
            |d| == MAX_SLOTS && forall k :: 0 <= k < MAX_SLOTS ==> d[k] == if 1 <= k <= slots then p[17 + k] else data[k]
  {
  }

  /** What any node does with any packet: it accepts exactly the packets for it, and then slot k of its
      buffer is slot k of the packet, as far as the length goes, and every other slot is kept; from all
      other packets it keeps every slot. */
  lemma AnyPacket(p: seq<byte>, receiving: bool, own: word, data: seq<byte>)
    requires |data| == MAX_SLOTS
    ensures var r := Receive(p, receiving, own, data);
            (r.0 == Accepted <==> ForMe(p, receiving, own)) &&
            forall k :: 0 <= k < MAX_SLOTS ==>
              r.1[k] == if ForMe(p, receiving, own) && 1 <= k <= SlotsRead(p) then p[17 + k] else data[k]
  {
    IdIff(p, 0);
    if CompareId(p, 0) == Accepted && |p| >= DATA_INDEX && ForMe(p, receiving, own) {
      var slots := SlotsRead(p);
      var taken := p[DATA_INDEX..DATA_INDEX + slots];
      assert ReadSlots(p) == slots && ReadUniverse(p) == own;
      assert Receive(p, receiving, own, data).1 == data[..1] + taken + data[1 + slots..];
      TakenByIndex(p, slots, data);
    }
  }

  /** What the other outcomes say of the packet. */
  lemma OtherOutcomes(p: seq<byte>, receiving: bool, own: word, data: seq<byte>)
    requires |data| == MAX_SLOTS && |p| >= 18
    ensures var r := Receive(p, receiving, own, data).0;
            (r == NotArtnet <==> !IsArtnet(p)) &&
            (r.OtherOpcode? <==> IsArtnet(p) && Number(p[9], p[8]) != 0x5000) &&
            (r.OtherOpcode? ==> r.op == Number(p[9], p[8])) &&
            (r == NotReceiving <==> IsArtnet(p) && Number(p[9], p[8]) == 0x5000 && !receiving) &&
            (r.NotMine? ==> r.universe != own && r.universe == Number(p[15], if p[14] != 0 then 1 else 0)) &&
            (r == Overrun ==> receiving && 18 + SlotsRead(p) > if |p| < 530 then |p| else 530)
  {
    IdIff(p, 0);
    LongEnough(p, 0);
  }

  lemma {:induction false} LongEnough(p: seq<byte>, n: nat)
    requires n <= |ID| <= |p|
    ensures CompareId(p, n) in {Accepted, NotArtnet}
    decreases |ID| - n
  {
    if n < |ID| {
      LongEnough(p, n + 1);
    }
  }

  /** A node hears another of its own universe if and only if the universe's low byte is 0 or 1. */
  lemma SameUniverseIff(u: word, sequence: byte, sender: seq<byte>, receiver: seq<byte>)
    requires |sender| == MAX_SLOTS && |receiver| == MAX_SLOTS
    ensures Receive(Sent(u, sequence, sender), true, u, receiver) == (Accepted, receiver[..1] + sender[1..])
            <==> LowByte(u) <= 1
  {
    RoundTrip(u, u, sequence, sender, receiver);
    JoinParts(u);
  }

  lemma JoinParts(u: word)
    ensures Join(HighByte(u), LowByte(u)) == u
  {
  }

  /** The parser confuses 255 universes with one: a node of universe 0xhh01 takes the slots meant for
      any universe 0xhhll with ll > 1. */
  lemma UniversesConflated(v: word, sequence: byte, sender: seq<byte>, receiver: seq<byte>)
    requires |sender| == MAX_SLOTS && |receiver| == MAX_SLOTS && LowByte(v) > 1
    ensures var own := Join(HighByte(v), 1);
            own != v && Receive(Sent(v, sequence, sender), true, own, receiver).0 == Accepted
  {
    RoundTrip(v, Join(HighByte(v), 1), sequence, sender, receiver);
    JoinParts(v);
  }

  /** A packet's length field is read right if and only if its low byte is 0 or 1; every other
      length that fits the buffer is cut to a multiple of 256, plus one. */
  lemma SlotCountIff(p: seq<byte>)
    requires |p| >= DATA_INDEX
    ensures ReadSlots(p) == Join(p[16], p[17]) <==> p[17] <= 1
    ensures p[17] > 1 ==> ReadSlots(p) == Join(p[16], 1) < Join(p[16], p[17])
  {
  }

  // ----- the code -----

  class Node {
    const data: array<byte>            // getDMXBuffer()
    var id: seq<byte>
    var opcode: word
    var version: word
    var sequence: byte
    var physical: byte
    var universeSubnet: byte           // low byte
    var universe: byte                 // high byte
    var slotLengthHi: byte
    var slotLengthLo: byte
    var enabled: bool
    var receiving: bool                // _direction == RECEIVE

    /** ARTNETPACKET as createPacketArtnet leaves it and sendDMXDataArtnet keeps it. */
    ghost predicate Valid()
      reads this
    {
      data.Length == MAX_SLOTS && id == ID && opcode == OP_DMX && version == PROTO_VER && physical == 1 &&
      slotLengthHi == HighByte(MAX_SLOTS - 1) && slotLengthLo == LowByte(MAX_SLOTS - 1)
    }

    /** startDMXArtnet, with createPacketArtnet. */
    constructor (buffer: array<byte>, receive: bool)
      requires buffer.Length == MAX_SLOTS
      ensures Valid() && data == buffer && enabled && receiving == receive && sequence == 1
    {
      data := buffer;
      enabled, receiving := true, receive;
      opcode, version, sequence, physical := OP_DMX, PROTO_VER, 1, 1;
      universeSubnet, universe := 0, 0;
      slotLengthHi := ((MAX_SLOTS - 1) / 0x100) % 0x100;
      slotLengthLo := (MAX_SLOTS - 1) % 0x100;
      id := [];
      new;
      for i := 0 to 8
        invariant id == ID[..i] && data == buffer
        invariant enabled && receiving == receive && opcode == OP_DMX && version == PROTO_VER && sequence == 1
        invariant physical == 1 && slotLengthHi == HighByte(MAX_SLOTS - 1) && slotLengthLo == LowByte(MAX_SLOTS - 1)
      {
        id := id + [ID[i]];
      }
    }

    /** Byte `i` of the packed struct. */
    function HeaderByte(i: nat): byte
      reads this
      requires |id| == 8 && i < DATA_INDEX
    {
      (id + [LowByte(opcode), HighByte(opcode), LowByte(version), HighByte(version), sequence, physical,
             universeSubnet, universe, slotLengthHi, slotLengthLo])[i]
    }

    /** sendDMXDataArtnet, up to the UDP calls. Nothing is sent when the node is not enabled. */
    method SendData(target: word) returns (payload: array?<byte>)
      requires Valid()
      modifies this`universe, this`universeSubnet, this`sequence
      ensures Valid() && enabled == old(enabled) && receiving == old(receiving)
      ensures if old(enabled) then
                payload != null && fresh(payload) && payload[..] == Sent(target, old(sequence), old(data[..])) &&
                sequence == (if old(sequence) == 0 then 1 else (old(sequence) + 1) % 0x100)
              else payload == null && sequence == old(sequence)
    {
      if !enabled {
        return null;
      }
      var p := new byte[MAX_BUFFER];
      universe := HighByte(target);
      universeSubnet := LowByte(target);
      var i, j := 0, 1;
      ghost var whole := Sent(target, sequence, data[..]);
      while i < MAX_BUFFER
        invariant 0 <= i <= MAX_BUFFER && j == if i < DATA_INDEX then 1 else i - DATA_INDEX + 1
        invariant p[..i] == whole[..i]
        invariant universe == HighByte(target) && universeSubnet == LowByte(target)
        invariant sequence == old(sequence) && data[..] == old(data[..])
      {
        assert whole[i] == if i < DATA_INDEX then HeaderByte(i) else data[j];
        if i < DATA_INDEX {
          p[i] := HeaderByte(i);
        } else {
          p[i] := data[j];
          j := j + 1;
        }
        i := i + 1;
      }
      assert p[..] == p[..i] && whole[..i] == whole;
      sequence := if sequence == 0 then 1 else (sequence + 1) % 0x100;
      payload := p;
    }

    /** parseDMXDataPacketArtnet. */
    method ParseData(payload: array<byte>, own: word) returns (outcome: Outcome)
      requires data.Length == MAX_SLOTS && payload != data
      modifies data
      ensures (outcome, data[..]) == Parse(payload[..], own, old(data[..]))
    {
      if payload.Length < DATA_INDEX {
        return Overrun;
      }
      var target := Join(payload[15], LogicalAnd(payload[14]));
      if target != own {
        return NotMine(target);
      }
      var slots := Join(payload[16], LogicalAnd(payload[17]));
      if slots >= MAX_SLOTS || DATA_INDEX + slots > payload.Length {
        return Overrun;
      }
      for i := 0 to slots
        invariant data[..] == old(data[..])[..1] + payload[DATA_INDEX..DATA_INDEX + i] + old(data[..])[1 + i..]
      {
        data[i + 1] := payload[DATA_INDEX + i];
      }
      outcome := Accepted;
    }

    /** recieveDMXArtnet for a packet taken from the UDP layer. */
    method OnPacket(payload: array<byte>, own: word) returns (outcome: Outcome)
      requires data.Length == MAX_SLOTS && payload != data
      modifies data
      ensures (outcome, data[..]) == Receive(payload[..], receiving, own, old(data[..]))
    {
      for i := 0 to 8
        invariant CompareId(payload[..], 0) == CompareId(payload[..], i)
        invariant data[..] == old(data[..])
      {
        if i >= payload.Length {
          return Overrun;
        }
        if payload[i] != ID[i] {
          return NotArtnet;
        }
      }
      if payload.Length < 10 {
        return Overrun;
      }
      var op := Join(payload[9], payload[8]);
      if op != OP_DMX {
        return OtherOpcode(op);
      }
      if !receiving {
        return NotReceiving;
      }
      outcome := ParseData(payload, own);
    }
  }
}
