/** The input snapshot InputData that `pollInputOutput` fills from the pin
    registers PINB and PINC. The bit expressions are evaluated as the C
    compiler does: each GETBIT is an `int` (16 bits on this target), `~` and
    `<<` work on that `int` in two's complement, and the assignment to an
    `unsigned char` element keeps the low 8 bits. */
module Inputs {
  import opened Bytes

  /** Size of InputData, and the filler value the start-up loop stores. */
  const SnapshotSize: nat := 8
  const Filler: bv8 := 0xFF

  // Pin of each input (the GET_* macros) ...
  const PinLU: nat := 0
  const PinRU: nat := 1
  const PinCN: nat := 2
  const PinLD: nat := 3
  const PinRD: nat := 4
  const PinTest: nat := 5      // on PINB
  const PinService: nat := 5   // on PINC
  // ... and the bit it is shifted to (SENSOR_* and BTN_*).
  const SensorLU: nat := 0
  const SensorRU: nat := 1
  const SensorCN: nat := 2
  const SensorLD: nat := 3
  const SensorRD: nat := 4
  const BtnTest: nat := 1
  const BtnService: nat := 6

  /** GETBIT(port, bit): the port value promoted to `int`, masked with 0x01 << bit. */
  function GetBit(port: bv8, bit: nat): (r: bv16)
    requires bit < 8
    ensures r == 0 || r == (1 as bv16) << bit
    ensures r != 0 <==> port & ((1 as bv8) << bit) != 0
  {
    (port as bv16) & ((1 as bv16) << bit)
  }

  /** The 16-bit value that the outer `~` of a player line complements, for the
      player wired to `pin`. */
  function PlayerWord(pin: bv8): bv16
  {
    ((!GetBit(pin, PinLU)) << SensorLU) | ((!GetBit(pin, PinRU)) << SensorRU) |
    ((!GetBit(pin, PinCN)) << SensorCN) | ((!GetBit(pin, PinLD)) << SensorLD) |
    ((!GetBit(pin, PinRD)) << SensorRD)
  }

  /** InputData[0] (pin = PINB) and InputData[2] (pin = PINC). The complement of
      the upper-left term already sets bits 1..15, so every other sensor term is
      absorbed and only bit 0 of the port survives. */
  function PlayerByte(pin: bv8): (r: bv8)
    ensures r == pin & 0x01
  {
    ToUnsignedChar(!PlayerWord(pin))
  }

  /** The 16-bit value that the outer `~` of the button line complements. */
  function ButtonWord(pinb: bv8, pinc: bv8): bv16
  {
    (GetBit(pinb, PinTest) << BtnTest) | (GetBit(pinc, PinService) << BtnService)
  }

  /** InputData[1]: 0xFF, with bit 6 cleared exactly when PINB bit 5 (TEST) is
      set; PINC plays no part. */
  function ButtonByte(pinb: bv8, pinc: bv8): (r: bv8)
    ensures r == if pinb & 0x20 == 0 then 0xFF else 0xBF
  {
    ToUnsignedChar(!ButtonWord(pinb, pinc))
  }

  /** The SERVICE button reaches bit 11 of the `int`, which the conversion to
      `unsigned char` drops. */
  lemma ServiceLandsAtBit11(pinb: bv8, pinc: bv8)
    ensures (!ButtonWord(pinb, pinc)) & 0x0800 == 0 <==> pinc & 0x20 != 0
    ensures ButtonByte(pinb, pinc) == ButtonByte(pinb, 0)
  {
  }

  /** Toggling one pin of a player port changes that player's byte only for pin
      0, and then exactly in bit 0. */
  lemma OnlyPinZeroIsSeen(pin: bv8, k: nat)
    requires k < 8
    ensures PlayerByte(pin ^ ((1 as bv8) << k)) ==
      if k == 0 then PlayerByte(pin) ^ 1 else PlayerByte(pin)
  {
  }

  /** The snapshot after `pollInputOutput`: bytes 0..3 are rewritten, byte 3 with
      the filler, and bytes 4..7 keep their value. */
  function Polled(input: seq<bv8>, pinb: bv8, pinc: bv8): (r: seq<bv8>)
    requires |input| == SnapshotSize
    ensures |r| == SnapshotSize
    ensures r[0] == pinb & 0x01 && r[2] == pinc & 0x01
    ensures r[1] == (if pinb & 0x20 == 0 then 0xFF else 0xBF)
    ensures r[3] == Filler
    ensures r[4..] == input[4..]
  {
    input[0 := PlayerByte(pinb)][1 := ButtonByte(pinb, pinc)][2 := PlayerByte(pinc)][3 := Filler]
  }

  /** The snapshot the start-up loop in `main` leaves. */
  function StartUpSnapshot(): (r: seq<bv8>)
    ensures |r| == SnapshotSize && forall k :: 0 <= k < SnapshotSize ==> r[k] == Filler
  {
    seq(SnapshotSize, _ => Filler)
  }

  /** Bytes 3..7 hold the filler. */
  predicate FillerKept(input: seq<bv8>)
    requires |input| == SnapshotSize
  {
    forall k :: 3 <= k < SnapshotSize ==> input[k] == Filler
  }

  /** One pair of pin readings, as sampled by one call of `pollInputOutput`. */
  datatype Pins = Pins(pinb: bv8, pinc: bv8)

  /** The snapshot after one poll per element of `history`, in order; no poll
      ever writes bytes 4..7. */
  function PollAll(input: seq<bv8>, history: seq<Pins>): (r: seq<bv8>)
    requires |input| == SnapshotSize
    ensures |r| == SnapshotSize && r[4..] == input[4..]
    decreases history
  {
    if history == [] then input
    else PollAll(Polled(input, history[0].pinb, history[0].pinc), history[1..])
  }

  /** Poll footprint over the device's lifetime: from the start-up snapshot,
      bytes 3..7 stay the filler, and after at least one poll bytes 0..2 are
      exactly what the last poll computed from its pins. */
  lemma {:induction false} PollHistory(input: seq<bv8>, history: seq<Pins>)
    requires |input| == SnapshotSize && FillerKept(input)
    ensures FillerKept(PollAll(input, history))
    ensures history != [] ==>
      var last := history[|history| - 1];
      var r := PollAll(input, history);
      r[0] == PlayerByte(last.pinb) && r[1] == ButtonByte(last.pinb, last.pinc) &&
      r[2] == PlayerByte(last.pinc)
    decreases history
  {
    if history != [] {
      var next := Polled(input, history[0].pinb, history[0].pinc);
      assert forall k :: 4 <= k < SnapshotSize ==> next[k] == next[4..][k - 4] == input[k];
      PollHistory(next, history[1..]);
      if |history| == 1 {
        assert history[1..] == [];
      } else {
        assert history[1..][|history[1..]| - 1] == history[|history| - 1];
      }
    }
  }

  /** What a host reads after start-up and any number of polls: byte 3 and
      bytes 4..7 are 0xFF and byte 1 is 0xFF or 0xBF. */
  lemma ReadSnapshotShape(history: seq<Pins>)
    ensures var r := PollAll(StartUpSnapshot(), history);
      FillerKept(r) && (r[1] == 0xFF || r[1] == 0xBF)
  {
    PollHistory(StartUpSnapshot(), history);
  }
}
