/**
 The E1.31 data packet that the sACN sender builds, and its nested length fields (ANSI E1.31,
 sections 4 to 7).
 */
module Sacn {
  import opened Common

  const MIN_SLOTS := 24
  const MAX_BUFFER := 638
  const START_INDEX := 125
  const NAME_LENGTH := 64
  const ACN_ID: seq<byte> := [0x41, 0x53, 0x43, 0x2D, 0x45, 0x31, 0x2E, 0x33, 0x31, 0, 0, 0]   // "ASC-E1.31"
  const CID: seq<byte> :=                                                                  // "BeepBeepBlizzard"
    [0x42, 0x65, 0x65, 0x70, 0x42, 0x65, 0x65, 0x70, 0x42, 0x6C, 0x69, 0x7A, 0x7A, 0x61, 0x72, 0x64]

  const ROOT_AT := 16
  const FRAME_AT := 38
  const DMP_AT := 115
  const COUNT_AT := 123

  function FlagsAndLength(slots: word, overhead: nat): word
    requires slots < MAX_SLOTS && overhead <= 110
  {
    slots + overhead + 0x7000
  }

  function Word16(w: word): seq<byte> { [HighByte(w), LowByte(w)] }

  function RootLayer(slots: word): (s: seq<byte>)
    requires slots < MAX_SLOTS
    ensures |s| == 38
  {
    [0, 0x10, 0, 0] + ACN_ID + Word16(FlagsAndLength(slots, 110)) + [0, 0, 0, 4] + CID
  }

  function FrameLayer(slots: word, name: seq<byte>, sequence: byte, universe: word): (s: seq<byte>)
    requires slots < MAX_SLOTS && |name| == NAME_LENGTH
    ensures |s| == 77
  {
    Word16(FlagsAndLength(slots, 88)) + [0, 0, 0, 2] + name + [100, 0, 0, sequence, 0] + Word16(universe)
  }

  /** dmx_sACN.c:174-176: the low byte of the count goes through `&& 0xFF`. */
  function DmpLayer(slots: word): (s: seq<byte>)
    requires slots < MAX_SLOTS
    ensures |s| == 10
  {
    Word16(FlagsAndLength(slots, 11)) + [2, 0xA1, 0, 0, 0, 1] + [HighByte(slots + 1), LogicalAnd(slots + 1)]
  }

  /** The packet that goes out. */
  function Sent(slots: word, name: seq<byte>, sequence: byte, universe: word, data: seq<byte>): (p: seq<byte>)
    requires slots < MAX_SLOTS && |name| == NAME_LENGTH && |data| == MAX_SLOTS
    ensures |p| == MAX_BUFFER
  {
    RootLayer(slots) + FrameLayer(slots, name, sequence, universe) + DmpLayer(slots) + data
  }

  // ----- reading a packet as the standard has it -----

  /** The top four bits of a flags-and-length field. */
  function Flags(p: seq<byte>, at: nat): nat
    requires at < |p|
  {
    p[at] / 0x10
  }

  /** The low twelve bits: the length of the PDU that begins at `at`. */
  function PduLength(p: seq<byte>, at: nat): nat
    requires at + 1 < |p|
  {
    var high: nat := p[at] % 0x10;
    high * 0x100 + p[at + 1]
  }

  function PropertyCount(p: seq<byte>): word
    requires |p| == MAX_BUFFER
  {
    Join(p[COUNT_AT], p[COUNT_AT + 1])
  }

  lemma LengthDecodes(slots: word, overhead: nat)
    requires slots < MAX_SLOTS && overhead <= 110
    ensures var w := FlagsAndLength(slots, overhead);
            HighByte(w) / 0x10 == 7 && (HighByte(w) % 0x10) as nat * 0x100 + LowByte(w) == slots + overhead
  {
  }

  lemma SentParts(slots: word, name: seq<byte>, sequence: byte, universe: word, data: seq<byte>)
    requires slots < MAX_SLOTS && |name| == NAME_LENGTH && |data| == MAX_SLOTS
    ensures var p := Sent(slots, name, sequence, universe, data);
            p[ROOT_AT..ROOT_AT + 2] == Word16(FlagsAndLength(slots, 110)) &&
            p[FRAME_AT..FRAME_AT + 2] == Word16(FlagsAndLength(slots, 88)) &&
            p[DMP_AT..DMP_AT + 2] == Word16(FlagsAndLength(slots, 11)) &&
            p[113..115] == Word16(universe) && p[44..108] == name &&
            p[COUNT_AT] == HighByte(slots + 1) && p[COUNT_AT + 1] == LogicalAnd(slots + 1) &&
            p[START_INDEX..] == data
  {
  }

  /** For every slot count that setSlots admits: the three layers carry flags 7, the frame layer
      begins 22 and the DMP layer 77 bytes further in, and all three end at the same byte, which is
      the end of the packet if and only if the count is 512. */
  lemma LayersNest(slots: word, name: seq<byte>, sequence: byte, universe: word, data: seq<byte>)
    requires slots < MAX_SLOTS && |name| == NAME_LENGTH && |data| == MAX_SLOTS
    ensures var p := Sent(slots, name, sequence, universe, data);
            Flags(p, ROOT_AT) == 7 && Flags(p, FRAME_AT) == 7 && Flags(p, DMP_AT) == 7 &&
            PduLength(p, ROOT_AT) == PduLength(p, FRAME_AT) + 22 &&
            PduLength(p, FRAME_AT) == PduLength(p, DMP_AT) + 77 &&
            ROOT_AT + PduLength(p, ROOT_AT) == FRAME_AT + PduLength(p, FRAME_AT) == DMP_AT + PduLength(p, DMP_AT) &&
            (ROOT_AT + PduLength(p, ROOT_AT) == |p| <==> slots == 512)
  {
    var p := Sent(slots, name, sequence, universe, data);
    SentParts(slots, name, sequence, universe, data);
    LengthDecodes(slots, 110);
    LengthDecodes(slots, 88);
    LengthDecodes(slots, 11);
    FieldAt(p, ROOT_AT, FlagsAndLength(slots, 110));
    FieldAt(p, FRAME_AT, FlagsAndLength(slots, 88));
    FieldAt(p, DMP_AT, FlagsAndLength(slots, 11));
  }

  lemma FieldAt(p: seq<byte>, at: nat, w: word)
    requires at + 2 <= |p| && p[at..at + 2] == Word16(w)
    ensures p[at] == HighByte(w) && p[at + 1] == LowByte(w)
  {
    assert p[at..at + 2][0] == p[at] && p[at..at + 2][1] == p[at + 1];
  }

  /** The property count is the number of values after the start code, plus one for it, if and only
      if the slot count is a multiple of 256. */
  lemma PropertyCountIff(slots: word, name: seq<byte>, sequence: byte, universe: word, data: seq<byte>)
    requires MIN_SLOTS <= slots < MAX_SLOTS && |name| == NAME_LENGTH && |data| == MAX_SLOTS
    ensures var p := Sent(slots, name, sequence, universe, data);
            PropertyCount(p) == slots + 1 <==> slots == 256 || slots == 512
  {
    SentParts(slots, name, sequence, universe, data);
  }

  // ----- a reader -----

  /** A data packet as a receiver reads it. */
  datatype Packet = Packet(name: seq<byte>, priority: byte, sequence: byte, universe: word, count: word, values: seq<byte>)

  datatype Reading = Read(packet: Packet) | Malformed

  function At16(p: seq<byte>, at: nat): word
    requires at + 1 < |p|
  {
    Join(p[at], p[at + 1])
  }

  /** The packet spells `text` at index `at`. */
  predicate Spells(p: seq<byte>, at: nat, text: string) {
    at + |text| <= |p| && forall i :: 0 <= i < |text| ==> p[at + i] == text[i] as int
  }

  /** The root layer's fixed fields: preamble 16, postamble 0, the packet identifier, vector 4. */
  predicate RootReads(p: seq<byte>, id: string)
    requires |p| == MAX_BUFFER
  {
    At16(p, 0) == 16 && At16(p, 2) == 0 && Spells(p, 4, id) && p[13..16] == [0, 0, 0] &&
    At16(p, 18) == 0 && At16(p, 20) == 4 && Flags(p, 16) == 7
  }

  /** Those of the framing layer and of the DMP layer: vector 2, no synchronisation, no options; vector 2,
      type 0xA1, first address 0, increment 1. */
  predicate LayersRead(p: seq<byte>)
    requires |p| == MAX_BUFFER
  {
    Flags(p, 38) == 7 && At16(p, 40) == 0 && At16(p, 42) == 2 && At16(p, 109) == 0 && p[112] == 0 &&
    Flags(p, 115) == 7 && p[117] == 2 && p[118] == 0xA1 && At16(p, 119) == 0 && At16(p, 121) == 1
  }

  /** A receiver that checks the fixed fields, with `id` for the packet identifier, and believes the
      property count. */
  function ReadPacket(p: seq<byte>, id: string): Reading
    requires |p| == MAX_BUFFER
  {
    if !RootReads(p, id) || !LayersRead(p) || 125 + At16(p, 123) > |p| then Malformed
    else Read(Packet(p[44..108], p[108], p[111], At16(p, 113), At16(p, 123), p[125..125 + At16(p, 123)]))
  }

  lemma RootFields(slots: word, rest: seq<byte>)
    requires slots < MAX_SLOTS && |rest| == MAX_BUFFER - 38
    ensures var p := RootLayer(slots) + rest;
            RootReads(p, "ASC-E1.31") && !Spells(p, 4, "ASC-E1.17") && Spells(p, 22, "BeepBeepBlizzard")
  {
    var p := RootLayer(slots) + rest;
    assert p[4..16] == ACN_ID && p[22..38] == CID;
    IdFields(p);
    assert p[16..18] == Word16(FlagsAndLength(slots, 110));
    FieldAt(p, 16, FlagsAndLength(slots, 110));
    LengthDecodes(slots, 110);
  }

  lemma IdFields(p: seq<byte>)
    requires |p| >= 38 && p[4..16] == ACN_ID && p[22..38] == CID
    ensures Spells(p, 4, "ASC-E1.31") && !Spells(p, 4, "ASC-E1.17") && p[13..16] == [0, 0, 0]
    ensures Spells(p, 22, "BeepBeepBlizzard")
  {
    var id, cid := "ASC-E1.31", "BeepBeepBlizzard";
    assert forall i :: 0 <= i < 9 ==> p[4 + i] == p[4..16][i];
    assert forall i :: 0 <= i < 9 ==> ACN_ID[i] == id[i] as int;
    assert p[11] == p[4..16][7] && "ASC-E1.17"[7] == '1';
    assert forall i :: 0 <= i < 3 ==> p[13..16][i] == p[4..16][9 + i];
    assert forall i :: 0 <= i < 16 ==> p[22 + i] == p[22..38][i];
    assert forall i :: 0 <= i < 16 ==> CID[i] == cid[i] as int;
  }

  lemma LayerFields(root: seq<byte>, slots: word, name: seq<byte>, sequence: byte, universe: word, data: seq<byte>)
    requires |root| == 38 && slots < MAX_SLOTS && |name| == NAME_LENGTH && |data| == MAX_SLOTS
    ensures var p := root + FrameLayer(slots, name, sequence, universe) + DmpLayer(slots) + data;
            LayersRead(p) && p[44..108] == name && p[108] == 100 && p[111] == sequence && p[113..115] == Word16(universe) &&
            p[123] == HighByte(slots + 1) && p[124] == LogicalAnd(slots + 1) && p[125..] == data
  {
    var p := root + FrameLayer(slots, name, sequence, universe) + DmpLayer(slots) + data;
    assert p[38..40] == Word16(FlagsAndLength(slots, 88)) && p[115..117] == Word16(FlagsAndLength(slots, 11));
    FieldAt(p, 38, FlagsAndLength(slots, 88));
    FieldAt(p, 115, FlagsAndLength(slots, 11));
    LengthDecodes(slots, 88);
    LengthDecodes(slots, 11);
  }

  /** What the packet's count makes of a slot count. */
  function CountSent(slots: word): (c: word)
    requires slots < MAX_SLOTS
    ensures c == if slots + 1 >= 512 then 513 else if slots + 1 >= 256 then 257 else 1
  {
    Join(HighByte(slots + 1), LogicalAnd(slots + 1))
  }

  /** A receiver that takes "ASC-E1.31" for the packet identifier reads back the name, the sequence
      number, the universe and the buffer's values from the start code on, but of these only 1, 257 or
      513. */
  lemma ReadsBack(slots: word, name: seq<byte>, sequence: byte, universe: word, data: seq<byte>)
    requires slots < MAX_SLOTS && |name| == NAME_LENGTH && |data| == MAX_SLOTS
    ensures ReadPacket(Sent(slots, name, sequence, universe, data), "ASC-E1.31") ==
            Read(Packet(name, 100, sequence, universe, CountSent(slots), data[..CountSent(slots)]))
  {
    var p := Sent(slots, name, sequence, universe, data);
    SentRoot(slots, name, sequence, universe, data);
    LayerFields(RootLayer(slots), slots, name, sequence, universe, data);
    FieldAt(p, 113, universe);
    assert p[125..125 + At16(p, 123)] == p[125..][..At16(p, 123)];
  }

  lemma SentRoot(slots: word, name: seq<byte>, sequence: byte, universe: word, data: seq<byte>)
    requires slots < MAX_SLOTS && |name| == NAME_LENGTH && |data| == MAX_SLOTS
    ensures var p := Sent(slots, name, sequence, universe, data);
            RootReads(p, "ASC-E1.31") && !Spells(p, 4, "ASC-E1.17") && Spells(p, 22, "BeepBeepBlizzard")
  {
    var rest := FrameLayer(slots, name, sequence, universe) + DmpLayer(slots) + data;
    assert Sent(slots, name, sequence, universe, data) == RootLayer(slots) + rest;
    RootFields(slots, rest);
  }

  /** One that goes by the standard, where the identifier is "ASC-E1.17", reads no packet of this
      sender. */
  lemma StandardReadsNothing(slots: word, name: seq<byte>, sequence: byte, universe: word, data: seq<byte>)
    requires slots < MAX_SLOTS && |name| == NAME_LENGTH && |data| == MAX_SLOTS
    ensures ReadPacket(Sent(slots, name, sequence, universe, data), "ASC-E1.17") == Malformed
    ensures Spells(Sent(slots, name, sequence, universe, data), 22, "BeepBeepBlizzard")
  {
    SentRoot(slots, name, sequence, universe, data);
  }

  // ----- the code -----

  class Sender {
    const data: array<byte>              // getDMXBuffer()
    var root: seq<byte>
    var frameLength: seq<byte>
    var frameVector: seq<byte>
    var sourceName: seq<byte>
    var frameTail: seq<byte>             // priority, sync address
    var sequence: byte
    var options: byte
    var universeH: byte
    var universeL: byte
    var dmp: seq<byte>
    ghost var slots: word
    ghost var name: seq<byte>

    ghost predicate Valid()
      reads this
    {
      data.Length == MAX_SLOTS && slots < MAX_SLOTS && |name| == NAME_LENGTH && root == RootLayer(slots) &&
      frameLength == Word16(FlagsAndLength(slots, 88)) && frameVector == [0, 0, 0, 2] && sourceName == name &&
      frameTail == [100, 0, 0] && options == 0 && dmp == DmpLayer(slots)
    }

    /** createDataPacketsACN with `count` for getSlots() and `title` for getName(). `flagLength` is
        the one local that all four fields are computed in. */
    constructor (buffer: array<byte>, count: word, title: seq<byte>)
      requires buffer.Length == MAX_SLOTS && count < MAX_SLOTS && |title| == NAME_LENGTH
      ensures Valid() && data == buffer && slots == count && name == title && sequence == 1
    {
      data := buffer;
      var flagLength: word := count + 110 + 0x7000;
      root := [0, 0x10, 0, 0] + ACN_ID + [flagLength / 0x100, flagLength % 0x100] + [0, 0, 0, 4] + CID;
      flagLength := count + 88 + 0x7000;
      frameLength := [flagLength / 0x100, flagLength % 0x100];
      frameVector := [0, 0, 0, 2];
      frameTail := [100, 0, 0];
      sequence, options, universeH, universeL := 1, 0, 0, 0;
      flagLength := count + 11 + 0x7000;
      var head: seq<byte> := [flagLength / 0x100, flagLength % 0x100];
      flagLength := count + 1;
      dmp := head + [2, 0xA1, 0, 0, 0, 1] + [flagLength / 0x100, LogicalAnd(flagLength)];
      slots, name := count, title;
      sourceName := [];
      new;
      for i := 0 to NAME_LENGTH
        invariant sourceName == title[..i] && data == buffer && slots == count && name == title && sequence == 1
        invariant root == RootLayer(count) && frameLength == Word16(FlagsAndLength(count, 88)) && options == 0
        invariant frameVector == [0, 0, 0, 2] && frameTail == [100, 0, 0] && dmp == DmpLayer(count)
      {
        sourceName := sourceName + [title[i]];
      }
    }

    /** The packed struct, up to its pointer. */
    function Image(): seq<byte>
      reads this
    {
      root + frameLength + frameVector + sourceName + frameTail + [sequence, options, universeH, universeL] + dmp
    }

    lemma ImageIsHeader(u: word)
      requires Valid() && universeH == HighByte(u) && universeL == LowByte(u)
      ensures Image() + data[..] == Sent(slots, name, sequence, u, data[..])
    {
    }

    /** sendDMXDatasACN, up to udp_send. */
    method SendData(universe: word) returns (payload: array<byte>)
      requires Valid()
      modifies this`universeH, this`universeL, this`sequence
      ensures Valid() && fresh(payload)
      ensures payload[..] == Sent(slots, name, old(sequence), universe, old(data[..]))
      ensures sequence == if old(sequence) == 0 then 1 else (old(sequence) + 1) % 0x100
    {
      payload := new byte[MAX_BUFFER];
      universeH := universe / 0x100;
      universeL := universe % 0x100;
      ImageIsHeader(universe);
      var image := Image();
      ghost var whole := image + data[..];
      var i, j := 0, 0;
      while i < MAX_BUFFER
        invariant 0 <= i <= MAX_BUFFER && j == if i < START_INDEX then 0 else i - START_INDEX
        invariant payload[..i] == whole[..i] && whole == image + data[..]
        invariant sequence == old(sequence) && data[..] == old(data[..])
      {
        if i < START_INDEX {
          payload[i] := image[i];
        } else {
          payload[i] := data[j];
          j := j + 1;
        }
        i := i + 1;
      }
      assert payload[..] == payload[..i] && whole[..i] == whole;
      sequence := if sequence == 0 then 1 else (sequence + 1) % 0x100;
    }
  }
}
