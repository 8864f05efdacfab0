/** The firmware's static state and the three routines of main.c that work on
    it: the V-USB callbacks `usbFunctionSetup` and `usbFunctionWrite`, and
    `pollInputOutput`, plus the start-up loop of `main` that fills InputData. */
module Device {
  import opened Bytes
  import opened Setup
  import opened LampWrite
  import opened Inputs

  /** What `usbFunctionSetup` returns to the USB driver: `Deferred` is
      USB_NO_MSG (the data stage goes to `usbFunctionWrite`), `Send(n)` sends n
      bytes from usbMsgPtr; `Send(0)` answers a request with no data. */
  datatype SetupReply = Deferred | Send(count: uint8)

  class Piuio {
    var lampData: array<bv8>      // LampData[8]
    var inputData: array<bv8>     // InputData[8]
    var output: array<bv8>        // Output[2]
    var dataReceived: uint8       // datareceived
    var dataLength: uint8         // dataLength
    var usbMsgPtr: array?<bv8>    // the driver's usbMsgPtr; null until first set

    ghost predicate Valid()
      reads this
    {
      lampData.Length == Capacity && inputData.Length == SnapshotSize && output.Length == 2 &&
      lampData != inputData && lampData != output && inputData != output &&
      dataReceived <= Capacity
    }

    /** The write transaction as a value. */
    function CurrentTransfer(): (t: Transfer)
      requires Valid()
      reads this, lampData, output
      ensures WellFormed(t)
    {
      Transfer(lampData[..], dataReceived, dataLength, output[..])
    }

    /** Static storage before `main` runs: every buffer and counter is zero. */
    constructor ()
      ensures Valid() && fresh(lampData) && fresh(inputData) && fresh(output)
      ensures lampData[..] == seq(Capacity, _ => 0) && output[..] == [0, 0]
      ensures inputData[..] == seq(SnapshotSize, _ => 0)
      ensures dataReceived == 0 && dataLength == 0 && usbMsgPtr == null
    {
      lampData := new bv8[Capacity](_ => 0);
      inputData := new bv8[SnapshotSize](_ => 0);
      output := new bv8[2](_ => 0);
      dataReceived, dataLength := 0, 0;
      usbMsgPtr := null;
    }

    /** The loop in `main` that sets every byte of InputData to 0xFF. */
    method InitInputData()
      requires Valid()
      modifies inputData
      ensures inputData[..] == StartUpSnapshot()
    {
      for i := 0 to SnapshotSize
        invariant forall k :: 0 <= k < i ==> inputData[k] == Filler
      {
        inputData[i] := Filler;
      }
    }

    /** One data chunk of a lamp write. Bytes are copied into LampData from
        index datareceived on while datareceived < 8; when datareceived equals
        dataLength, Output takes LampData[0] and LampData[2] and 1 is returned,
        otherwise 0. */
    method UsbFunctionWrite(data: seq<bv8>) returns (r: uint8)
      requires Valid() && |data| < 256
      modifies lampData, output, this`dataReceived
      ensures Valid()
      ensures CurrentTransfer() == Write(old(CurrentTransfer()), data)
      ensures r == if Done(CurrentTransfer()) then 1 else 0
    {
      var i: uint8 := 0;
      while dataReceived < Capacity && i < |data|
        invariant Valid() && i <= |data|
        invariant dataReceived == old(dataReceived) + i
        invariant Staged(lampData[..], dataReceived, data[i..]) ==
                  Staged(old(lampData[..]), old(dataReceived), data)
        invariant output[..] == old(output[..])
      {
        assert data[i..][1..] == data[i + 1..];
        lampData[dataReceived] := data[i];
        i, dataReceived := i + 1, dataReceived + 1;
      }
      if dataReceived == dataLength {
        output[0] := lampData[0];
        output[1] := lampData[2];
      }
      r := if dataReceived == dataLength then 1 else 0;
    }

    /** A control setup packet. Request 0xAE with type 0x40 starts a lamp write
        of wLength (as `unsigned char`) bytes; with type 0xC0 it points
        usbMsgPtr at InputData and sends 8 bytes; anything else gets 0. */
    method UsbFunctionSetup(data: seq<bv8>) returns (reply: SetupReply)
      requires Valid() && |data| == 8
      modifies this`dataReceived, this`dataLength, this`usbMsgPtr
      ensures Valid()
      ensures match Classify(DecodeSetup(data))
        case WriteOutputs(declared) =>
          reply == Deferred && usbMsgPtr == old(usbMsgPtr) &&
          CurrentTransfer() == Begin(old(CurrentTransfer()), declared)
        case ReadInputs =>
          reply == Send(SnapshotSize) && usbMsgPtr == inputData &&
          dataReceived == old(dataReceived) && dataLength == old(dataLength)
        case Unsupported =>
          reply == Send(0) && unchanged(this)
    {
      var rq := DecodeSetup(data);
      if rq.bRequest == AccessGameIO {
        if rq.bmRequestType == VendorOut {
          dataReceived := 0;
          dataLength := ToUnsignedChar(rq.wLength) as int;
          return Deferred;
        } else if rq.bmRequestType == VendorIn {
          usbMsgPtr := inputData;
          return Send(8);
        }
      }
      return Send(0);
    }

    /** Samples the pins into InputData[0..3]; bytes 4..7 are not written. */
    method PollInputOutput(pinb: bv8, pinc: bv8)
      requires Valid()
      modifies inputData
      ensures inputData[..] == Polled(old(inputData[..]), pinb, pinc)
    {
      inputData[0] := PlayerByte(pinb);
      inputData[1] := ButtonByte(pinb, pinc);
      inputData[2] := PlayerByte(pinc);
      inputData[3] := Filler;
    }
  }

  /** A host writing four lamp bytes in two chunks of two, seen through the
      contracts alone: the setup defers to the data stage, the first chunk
      returns 0, the second 1, and Output
      holds the first byte of each chunk; InputData is untouched throughout. */
  method TwoChunkLampWrite(d: Piuio) returns (reply: SetupReply, first: uint8, second: uint8)
    requires d.Valid()
    modifies d, d.lampData, d.output
    ensures reply == Deferred && first == 0 && second == 1
    ensures d.output[..] == [0xAA, 0xBB]
    ensures d.inputData[..] == old(d.inputData[..])
  {
    reply := d.UsbFunctionSetup([VendorOut, AccessGameIO, 0, 0, 0, 0, 4, 0]);
    first := d.UsbFunctionWrite([0xAA, 0x00]);
    second := d.UsbFunctionWrite([0xBB, 0x00]);
  }

  /** A setup whose wLength is 0x0104 declares 4 bytes once truncated to
      `unsigned char`; a single 8-byte chunk then runs past 4 and the write
      never completes. */
  lemma TruncatedLengthSkipsCompletion(t0: Transfer, chunk: seq<bv8>)
    requires WellFormed(t0) && |chunk| == 8
    ensures Classify(DecodeSetup([VendorOut, AccessGameIO, 0, 0, 0, 0, 0x04, 0x01])) == WriteOutputs(4)
    ensures !Done(Write(Begin(t0, 4), chunk))
  {
    var p := DecodeSetup([VendorOut, AccessGameIO, 0, 0, 0, 0, 0x04, 0x01]);
    assert p.wLength as int == 260;
    OverrunSkipsCompletion(t0, 4, [chunk]);
    assert [chunk][1..] == [];
  }
}
