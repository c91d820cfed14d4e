/** Decoding of the MIDI channel-voice messages the synthesizer listens to
    (9/scripts/midi.js, `handleMidi`), following the Channel Voice
    Messages of the MIDI 1.0 Detailed Specification: the high nibble of
    the status byte is the message type and the low nibble the channel,
    which the synthesizer ignores. */
module MidiMessages {

  /** A byte of a MIDI message as delivered in a `Uint8Array`. */
  type Byte = x: int | 0 <= x < 256

  /** A data byte proper: MIDI data bytes have the high bit clear. */
  predicate IsData(b: Byte)
  {
    b < 128
  }

  /** The bitwise `&` of two non-negative integers, bit by bit from the
      lowest. */
  function BitAnd(a: nat, b: nat): nat
  {
    if a == 0 || b == 0 then 0
    else 2 * BitAnd(a / 2, b / 2) + (if a % 2 == 1 && b % 2 == 1 then 1 else 0)
  }

  /** Masking with the low four bits keeps the value below 16. */
  lemma {:induction false} AndLowNibble(v: nat)
    requires v < 16
    ensures BitAnd(v, 15) == v
  {
    var b0, v1 := v % 2, v / 2;
    var b1, v2 := v1 % 2, v1 / 2;
    var b2, v3 := v2 % 2, v2 / 2;
    assert v3 < 2 && v2 == 2 * v3 + b2 && v1 == 2 * v2 + b1 && v == 2 * v1 + b0;
    AndOdd(0, 0, v3);
    assert BitAnd(v3, 1) == v3;
    AndOdd(v3, 1, b2);
    assert BitAnd(v2, 3) == v2;
    AndOdd(v2, 3, b1);
    assert BitAnd(v1, 7) == v1;
    AndOdd(v1, 7, b0);
  }

  /** Doubling both operands, adding a low bit to one and a set low bit to
      the other, doubles the `&` and keeps that bit. */
  lemma AndOdd(a: nat, b: nat, bit: nat)
    requires bit < 2
    ensures BitAnd(2 * a + bit, 2 * b + 1) == 2 * BitAnd(a, b) + bit
  {
    if 2 * a + bit != 0 {
      assert (2 * a + bit) / 2 == a && (2 * a + bit) % 2 == bit;
      assert (2 * b + 1) / 2 == b && (2 * b + 1) % 2 == 1;
    }
  }

  /** Doubling both operands, and adding a low bit to one, doubles the `&`. */
  lemma AndDouble(a: nat, b: nat, bit: nat)
    requires bit < 2
    ensures BitAnd(2 * a + bit, 2 * b) == 2 * BitAnd(a, b)
  {
    if a == 0 && bit == 0 {
    } else if b == 0 {
    } else {
      assert (2 * a + bit) / 2 == a && (2 * b) / 2 == b;
    }
  }

  /** `status & 0xf0`. */
  function CommandOf(status: Byte): Byte
  {
    var c := BitAnd(status, 0xF0);
    CommandNibble(status);
    c
  }

  /** Masking with 0xF0 keeps the high nibble and clears the channel. */
  lemma CommandNibble(status: Byte)
    ensures BitAnd(status, 0xF0) == status / 16 * 16
  {
    var b0, s1 := status % 2, status / 2;
    var b1, s2 := s1 % 2, s1 / 2;
    var b2, s3 := s2 % 2, s2 / 2;
    var b3, q := s3 % 2, s3 / 2;
    assert q == status / 16;
    AndLowNibble(q);
    AndDouble(q, 15, b3);
    AndDouble(s3, 30, b2);
    AndDouble(s2, 60, b1);
    AndDouble(s1, 120, b0);
  }

  const NoteOffStatus: Byte := 0x80
  const NoteOnStatus: Byte := 0x90
  const ControlChangeStatus: Byte := 0xB0
  const PitchBendStatus: Byte := 0xE0
  /** Controller 64, the damper (sustain) pedal. */
  const DamperPedal: Byte := 64

  /** What a message asks the synthesizer to do. */
  datatype Event =
    | NoteOn(note: Byte, velocity: real)
    | NoteOff(note: Byte)
    | Sustain(down: bool)
    | Bend(amount: int)
    | Ignore

  /** The dispatch of `onmidimessage` on `[status, data1, data2]`. */
  function Decode(status: Byte, data1: Byte, data2: Byte): Event
  {
    var command := CommandOf(status);
    if command == NoteOnStatus && data2 > 0 then NoteOn(data1, data2 as real / 127.0)
    else if command == NoteOffStatus || (command == NoteOnStatus && data2 == 0) then NoteOff(data1)
    else if command == ControlChangeStatus && data1 == DamperPedal then Sustain(data2 >= 64)
    else if command == PitchBendStatus then Bend(data2 * 128 + data1 - 8192)
    else Ignore
  }

  /** The message types, stated on the high nibble of the status byte:
      note-on needs a non-zero velocity, a zero-velocity note-on is a
      note-off, only controller 64 is heard, and the pedal is down from
      value 64 on. */
  lemma DecodeByNibble(status: Byte, data1: Byte, data2: Byte)
    ensures Decode(status, data1, data2).NoteOn? <==> status / 16 == 9 && data2 > 0
    ensures Decode(status, data1, data2).NoteOff? <==>
              (status / 16 == 8 || (status / 16 == 9 && data2 == 0))
    ensures Decode(status, data1, data2).Sustain? <==> status / 16 == 11 && data1 == 64
    ensures Decode(status, data1, data2).Bend? <==> status / 16 == 14
    ensures Decode(status, data1, data2) == Ignore <==>
              (status / 16 !in {8, 9, 14} && !(status / 16 == 11 && data1 == 64))
    ensures Decode(status, data1, data2) == Sustain(true) <==> status / 16 == 11 && data1 == 64 && data2 >= 64
  {
    CommandNibble(status);
  }

  /** The channel (low nibble) never changes what a message means. */
  lemma ChannelIgnored(status: Byte, channel: nat, data1: Byte, data2: Byte)
    requires channel < 16
    ensures status / 16 * 16 + channel < 256
    ensures Decode(status / 16 * 16 + channel, data1, data2) == Decode(status, data1, data2)
  {
    var q := status / 16;
    var other: Byte := q * 16 + channel;
    assert other / 16 == q;
    CommandNibble(status);
    CommandNibble(other);
    assert CommandOf(other) == CommandOf(status);
  }

  /** A note-on's velocity, scaled to (0, 1] for a proper data byte. */
  lemma VelocityRange(status: Byte, data1: Byte, data2: Byte)
    requires IsData(data2) && Decode(status, data1, data2).NoteOn?
    ensures 0.0 < Decode(status, data1, data2).velocity <= 1.0
    ensures Decode(status, data1, data2).note == data1
  {
  }

  /** The 14-bit pitch-bend value from its two 7-bit data bytes, centred
      on 8192: it lies in [-8192, 8191] and is zero exactly for the
      centre message (LSB 0, MSB 64). */
  lemma BendRange(status: Byte, data1: Byte, data2: Byte)
    requires IsData(data1) && IsData(data2) && Decode(status, data1, data2).Bend?
    ensures -8192 <= Decode(status, data1, data2).amount <= 8191
    ensures Decode(status, data1, data2).amount == 0 <==> data1 == 0 && data2 == 64
  {
  }

  /** `pitchBendSemitones`: the bend scaled to plus or minus two semitones. */
  function BendSemitones(amount: int): real
  {
    amount as real / 8192.0 * 2.0
  }

  /** A proper bend message moves the pitch by at least -2 and less than
      +2 semitones, and the larger bend value bends higher. */
  lemma SemitoneRange(a: int, b: int)
    requires -8192 <= a <= b <= 8191
    ensures -2.0 <= BendSemitones(a) <= BendSemitones(b) < 2.0
  {
  }
}
