# PIUIO clone firmware, simple branch: a Dafny model

This project models the device side of the PIUIO clone firmware (`main.c`), an
ATmega board that presents itself over V-USB as a vendor-specific input/output
device. In this branch the pads are read straight from two GPIO ports and no
lamp is driven. The model covers three pieces that share the firmware's static
buffers:

- **The lamp write.** `usbFunctionSetup` with request `0xAE` and type `0x40`
  resets `datareceived` and records `dataLength`. Each data chunk then goes to
  `usbFunctionWrite`, which copies it into the 8-byte `LampData` buffer, never
  at index 8 or above. When `datareceived == dataLength` it copies bytes 0 and
  2 into `Output` and returns 1.
- **Request classification.** Only request `0xAE` is served. Type `0x40` is a
  vendor request from host to device, `0xC0` the same from device to host
  (Table 9-2 in section 9.3 of the USB 2.0 specification). Type `0xC0` points
  `usbMsgPtr` at `InputData` and sends 8 bytes. Everything else returns 0.
- **The input snapshot.** `pollInputOutput` rewrites `InputData[0..3]` from the
  PINB and PINC registers. Bytes 4..7 keep the `0xFF` that `main`'s start-up
  loop stores.

Files:

- `bytes.dfy` (module `Bytes`): `unsigned char` counters, little-endian words,
  and the conversion to `unsigned char`.
- `setup.dfy` (module `Setup`): the 8-byte setup packet read as
  `usbRequest_t`, the bmRequestType fields, and request classification.
- `lamp_write.dfy` (module `LampWrite`): the write transaction as a function on
  values. It holds the properties of one call and of any sequence of chunks.
- `inputs.dfy` (module `Inputs`): the C bit expressions of `pollInputOutput`,
  evaluated on a 16-bit `int` and truncated to `unsigned char`, and the
  snapshot over a history of polls.
- `device.dfy` (module `Device`): class `Piuio`, whose fields are the static
  variables. Its methods are the two callbacks, the poll and the start-up
  loop. Each method is proved to move the state exactly as the functions above
  say.

What the C code really computes differs from what its comments suggest.
`InputData[0]` is `PINB & 0x01` and `InputData[2]` is `PINC & 0x01`. The
complement of the first shifted term already sets bits 1..15, so it absorbs
all the other sensor terms. `InputData[1]` is `0xFF`, with bit 6 cleared
exactly when PINB bit 5 (TEST) is set. The SERVICE term lands at bit 11 of the
`int` and the conversion to `unsigned char` drops it.

Other consequences of the code as written, which the model keeps:

- The declared length is `wLength` truncated to 8 bits. It is not clamped to
  the 8-byte buffer. A declared length above 8 therefore never completes and
  never updates `Output` (`OversizedNeverCompletes`).
- In the read reply, byte 1 is not always `0xFF`: it is `0xBF` while PINB
  bit 5 reads 1. `main.c` does not fix whether a pressed TEST button reads 1
  or 0 on that pin.
- This branch has no multiplexed sensor scan and no lamp-latch cycle, so
  neither is modelled.
- A setup with declared length 0 leaves the transaction in the "complete"
  state (`datareceived == dataLength`). The setup itself still returns
  USB_NO_MSG, and `Output` changes only inside `usbFunctionWrite`.
- A zero-length chunk is not always a no-op. After a setup that declares 0
  bytes, an empty chunk returns 1 and copies `LampData[0]` and `LampData[2]`
  into `Output`. Those bytes may be left over from an abandoned transfer, so
  `Output` can change (`EmptyChunkAfterZeroSetup`,
  `AbandonedBytesReachOutput`).
- Completion does not happen just once. After completion with a declared
  length below 8, an empty chunk returns 1 again and rewrites `Output`
  (`EmptyChunkRepeatsCompletion`). The next non-empty chunk carries
  `datareceived` past `dataLength`; from then on no call of the transaction
  returns 1 and `Output` keeps its value (`CompletesOnce`,
  `CompletionEndsAfterOverrun`, `PastLengthNeverCompletes`). At a declared
  length of 8 the counter stops at 8, so every further chunk stores nothing,
  returns 1 again and rewrites `Output` with the same bytes
  (`CompletesAgainAtCapacity`).
- A chunk that runs past a declared length below 8 skips completion
  altogether: `datareceived` jumps over `dataLength` and the transaction never
  returns 1 (`OverrunSkipsCompletion`). A host reaches this with a `wLength`
  above 255 whose low byte is small: `wLength` 0x0104 declares 4 bytes, and a
  single 8-byte chunk then never completes (`TruncatedLengthSkipsCompletion`).

## Model

| member | source | states |
|---|---|---|
| `Bytes.Word` | main.c:97 | a 16-bit word read from two bytes, low byte first, is `lo + 256 * hi` |
| `Bytes.ToUnsignedChar` | main.c:97 | the conversion to `unsigned char` keeps the low byte: together with the dropped high byte it rebuilds the 16-bit word |
| `Bytes.ToUnsignedCharIsMod` | main.c:97 | the cast of a 16-bit value to `unsigned char` is reduction modulo 256 |
| `Setup.DecodeSetup` | main.c:91-92 | reading the 8 raw bytes as `usbRequest_t`: byte 0 is bmRequestType, byte 1 bRequest; wValue, wIndex and wLength are the little-endian words at bytes 2, 4 and 6 |
| `Setup.DecodeEncode` | main.c:92 | decoding the bytes of an encoded packet gives back the packet |
| `Setup.EncodeDecode` | main.c:92 | every 8-byte packet is the encoding of what it decodes to |
| `Setup.DecodeRequestType` | main.c:94-100 | per Table 9-2: the direction is device-to-host exactly when bit 7 is set; the type is standard, class or vendor exactly when bits 6..5 are 0, 1 or 2; the recipient is the device exactly when bits 4..0 are 0, and is below 32 |
| `Setup.VendorRequestTypes` | main.c:94-100 | 0x40 is exactly "host to device, vendor, device" and 0xC0 exactly "device to host, vendor, device" |
| `Setup.Classify` | main.c:93-106 | a write request iff bRequest is 0xAE and bmRequestType is 0x40, with declared length wLength mod 256; a read request iff 0xAE and 0xC0; anything else is rejected |
| `Setup.DeclaredLengthIsLowByte` | main.c:97 | the declared length is raw byte 6: the high byte of wLength is dropped and there is no clamp to 8 |
| `LampWrite.Done` | main.c:83-88 | the state in which `usbFunctionWrite` returns 1 (datareceived == dataLength); with at most 8 bytes staged it cannot hold for a declared length above 8 |
| `LampWrite.Accepted` | main.c:81 | the number of bytes a chunk stores is at most its length, never takes datareceived past 8, and is the whole chunk unless the buffer fills |
| `LampWrite.Staged` | main.c:81-82 | after the copy loop, byte k of LampData is chunk byte k - datareceived inside the stored window and its old value outside it |
| `LampWrite.Begin` | main.c:95-98 | the write setup sets datareceived to 0 and dataLength to the declared length, and leaves LampData and Output alone |
| `LampWrite.Write` | main.c:77-89 | one chunk keeps the state well formed and adds the stored count to datareceived; Output becomes (LampData[0], LampData[2]) when datareceived equals dataLength and is otherwise unchanged |
| `LampWrite.WriteBound` | main.c:81-82 | exactly min(len, 8 - datareceived) chunk bytes land, in order, at LampData[datareceived..]; datareceived stays at most 8; the bytes before and after are unchanged |
| `LampWrite.CompletionFlag` | main.c:83-88 | the call completes iff datareceived plus the stored count equals dataLength, and only then does Output change |
| `LampWrite.StagedConcat` | main.c:81-82 | staging two chunks in turn stores the same buffer as staging their concatenation |
| `LampWrite.WriteTwice` | main.c:81-88 | two calls that stay within dataLength, or whose dataLength exceeds 8, give the same state as one call with both chunks |
| `LampWrite.WriteAll` | main.c:77-89 | repeated calls of `usbFunctionWrite`, one per chunk: the state stays well formed, dataLength is kept and datareceived never decreases; the sequence properties are the lemmas below |
| `LampWrite.WriteAllIsOneWrite` | main.c:77-89 | any non-empty sequence of chunks within dataLength, or with dataLength above 8, ends in exactly the state of one call with the whole stream |
| `LampWrite.ChunkSplitIndependence` | main.c:81-88 | after a setup with L <= 8 and chunks summing to L (last one non-empty), every call before the last returns 0 and the last returns 1; LampData[0..L) is the stream and the rest of LampData is unchanged; Output is (LampData[0], LampData[2]), which is (stream[0], stream[2]) when L >= 3 |
| `LampWrite.OversizedNeverCompletes` | main.c:81-88 | with dataLength above 8, no sequence of chunks ever completes or changes Output |
| `LampWrite.CompletesOnce` | main.c:83-88 | after completion with dataLength below 8, a further non-empty chunk does not complete again and keeps Output |
| `LampWrite.EmptyChunk` | main.c:81 | a zero-length chunk stores nothing and moves no counter |
| `LampWrite.CompletesAgainAtCapacity` | main.c:81-88 | with dataLength 8 and the buffer full, any further chunk stores nothing, completes again and sets Output to (LampData[0], LampData[2]) |
| `LampWrite.EmptyChunkAfterZeroSetup` | main.c:83-88 | after a setup declaring 0 bytes, an empty chunk completes and sets Output to the bytes already at LampData[0] and LampData[2] |
| `LampWrite.AbandonedBytesReachOutput` | main.c:81-97 | concrete case: bytes from an abandoned 8-byte write reach Output through a 0-byte setup and an empty chunk, so Output changes |
| `LampWrite.EmptyChunkRepeatsCompletion` | main.c:81-88 | after completion, an empty chunk completes again, stores nothing and sets Output to (LampData[0], LampData[2]) |
| `LampWrite.PastLengthNeverCompletes` | main.c:81-88 | once datareceived exceeds dataLength, no sequence of further chunks completes or changes Output |
| `LampWrite.CompletionEndsAfterOverrun` | main.c:81-88 | after completion with dataLength below 8, any sequence of chunks whose first one is non-empty never completes again and keeps Output |
| `LampWrite.OverrunSkipsCompletion` | main.c:81-98 | after a setup declaring fewer than 8 bytes, a first chunk longer than that means the transaction never completes and Output never changes |
| `Inputs.GetBit` | main.c:33 | GETBIT is 0 or 1 << bit, and non-zero exactly when that bit of the port is set |
| `Inputs.PlayerByte` | main.c:113-115 | the player line evaluates to port & 0x01, using C promotion to a 16-bit `int` and truncation to `unsigned char` |
| `Inputs.ButtonByte` | main.c:114 | the button line is 0xFF with bit 6 cleared exactly when PINB bit 5 is set |
| `Inputs.ServiceLandsAtBit11` | main.c:114 | the SERVICE term is bit 11 of the complemented `int`, and the byte does not depend on PINC |
| `Inputs.OnlyPinZeroIsSeen` | main.c:113 | toggling pin k of a player port toggles bit 0 of that player's byte when k = 0 and changes nothing otherwise |
| `Inputs.Polled` | main.c:113-116 | a poll sets bytes 0..2 from those formulas and byte 3 to 0xFF, and leaves bytes 4..7 unchanged |
| `Inputs.StartUpSnapshot` | main.c:126-127 | after the start-up loop all 8 bytes are 0xFF |
| `Inputs.PollAll` | main.c:109-117 | repeated calls of `pollInputOutput`: the snapshot keeps its 8 bytes and bytes 4..7 are never written; the other properties are `PollHistory`'s |
| `Inputs.PollHistory` | main.c:109-117 | starting with bytes 3..7 at 0xFF, any number of polls keeps them so; after at least one poll, bytes 0..2 are what the last poll computed |
| `Inputs.ReadSnapshotShape` | main.c:109-127 | after start-up and any number of polls, bytes 3..7 are 0xFF and byte 1 is 0xFF or 0xBF |
| `Device.Piuio.constructor` | main.c:69-75 | the static buffers and counters of main.c start zeroed; usbMsgPtr, a variable of the driver rather than of main.c, starts as a null pointer, as static storage does |
| `Device.Piuio.InitInputData` | main.c:126-127 | the loop leaves InputData as the all-0xFF start-up snapshot |
| `Device.Piuio.UsbFunctionWrite` | main.c:77-89 | the copy loop and completion test act on the fields exactly as `Write` does; the result is 1 iff datareceived equals dataLength, else 0; InputData is not touched |
| `Device.Piuio.UsbFunctionSetup` | main.c:91-107 | write request: USB_NO_MSG, with the transfer state Begin gives and usbMsgPtr unchanged; read request: 8 bytes with usbMsgPtr at InputData and the counters unchanged; other requests: 0, with no state change; no buffer is ever touched |
| `Device.Piuio.PollInputOutput` | main.c:109-117 | InputData becomes `Polled` of its old value; no other state changes |
| `Device.TruncatedLengthSkipsCompletion` | main.c:81-98 | a setup with wLength 0x0104 is a write request declaring 4 bytes, and a single 8-byte chunk after it does not complete |
| `Device.TwoChunkLampWrite` | main.c:77-98 | setup of a 4-byte write returns USB_NO_MSG; then chunks (0xAA, 0x00) and (0xBB, 0x00) return 0 and 1; Output ends as (0xAA, 0xBB), and InputData is unchanged |

## Left out

- The V-USB driver is not part of this model. This covers `usbInit`,
  `usbPoll`, `usbDeviceDisconnect`/`usbDeviceConnect`, and how the driver
  splits a data stage into chunks and sends what `usbMsgPtr` points at. The
  driver is a foreign library whose source is not available. `usbMsgPtr` is
  modelled only as a field that ends up referring to `InputData`.
- `usbdrv.h` is not part of this model. USB_NO_MSG is therefore the
  constructor `Deferred`, distinct from `Send(0)` and `Send(8)`, and not a
  number. The layout of `usbRequest_t` follows the USB 2.0 setup packet.
- `Arduino_uno/usbconfig.h` and `Arduino_mega/usbconfig.h` hold only
  compile-time configuration, with no logic.
- The watchdog, the start-up delay loop and `sei` (main.c:121, 131-136) are
  timing and hardware bring-up. Nothing about them can be stated on values.
- The `DDRB`/`DDRC` writes (main.c:123-124) are hardware I/O. PINB and PINC
  are method parameters.
- `PollInputOutput` takes one PINB value and one PINC value per call. In C,
  each GETBIT reads the volatile register again, so a pin that changes during
  the poll could be seen with two values. The model does not capture that.
- `PlayerByte`: a left shift of a negative `int` is undefined in ISO C. It is
  modelled as the two's-complement shift that avr-gcc performs on its 16-bit
  `int`.
- `Device.Piuio.UsbFunctionWrite` takes the `(data, len)` pair as one
  sequence whose length is `len`; `len` is an `unsigned char`, so it is below
  256.
- The endless loop of `main` (main.c:137-141) is a pure interleaving of driver
  callbacks and polls. It has no method of its own. `Inputs.PollAll` and
  `LampWrite.WriteAll` only spell out a sequence of polls and a sequence of
  chunks; what holds over such sequences is stated by the lemmas about them
  (`PollHistory`, `WriteAllIsOneWrite`, `ChunkSplitIndependence`,
  `OversizedNeverCompletes`, `PastLengthNeverCompletes`). The callbacks never
  touch `InputData` and the poll touches nothing else, so the two sequences
  are independent, as the methods' `modifies` clauses show.
- The multiplexed sensor scan and the lamp-latch drive are absent from the
  simple branch, and `Output` is never sent to any pin in it.
