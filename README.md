# InstaxLink protocol engine in Dafny

This project models the protocol engine of `InstaxLink.py`, a client for Fujifilm Instax Link printers. It
covers the byte-level protocol and the command sequences of a printing session. Bluetooth discovery and
transport, PIL and the command line are not part of it.

- `wrappers.dfy`: `Option` and `Result`. It also defines `Fault`, which names each Python exception the
  engine can raise:
  - `struct.pack` out of range;
  - `unpack_from` on a short buffer;
  - an `Enum(...)` lookup of an unknown value;
  - an attribute read on the wrong response object or on `None`;
  - `% 0` in `slice_image`;
  - `'%i' %` applied to an object.
- `bytes.dfy`: bytes, big-endian 16- and 32-bit fields as `struct.pack`/`unpack_from` lay them out, and
  byte sums.
- `bits.dfy`: Python's `&` and `>>` on non-negative integers, `isKthBitSet`, and their meaning as binary
  digits.
- `catalog.dfy`: the enumerations.
  - `SID` and `ResultCode` are subset types over their value tables. Every other enumeration is a
    datatype with a value function.
  - Each lookup `X(value)` is a partial function that returns `None` exactly for values outside the table.
- `frame.dfy`: `Message`, `OutboundMessage`, `InboundMessage`, and `Response.parse`/`Response.validate`.
- `requests.dfy`: every request and its `struct.pack` payload. The encoder raises when a field does not
  fit its format.
- `responses.dfy`: every response decoder and the bit-field helpers:
  - `setFilmData`, `setStatusData` and `is_good`;
  - the capability bits and `is3DLutAvailable`.

  It also holds the SID dispatch of `response_callback`, and `Callback`, its verdict on one notification.
- `chunking.dfy`: `slice_image` as a loop method, proved against a chunking function. It also holds the
  182-byte packet slicing of `send_command`.
- `session.dfy`: the printer's session over values. `PrinterState` holds the fields of `InstaxPrinter`.
  `Link` holds the connection:
  - the verdicts on the notifications the device will send;
  - the commands sent so far;
  - the response last stored by `response_callback`.

  The file models `connect`, the three setters, `check_image` and `print_image`. The lemmas state the
  order of the commands.
- `connection.dfy`: class `InstaxConnection`. `send_command` writes a command's frame as packets. Then it
  hands notifications to `response_callback` until one raises the `responseReceived` flag. Each method is
  proved to compute what the session functions say.
- `printer.dfy`: class `InstaxPrinter`, whose setters update its fields in place. Its `connect` and
  `print_image` run over an `InstaxConnection` and are proved equal to the session functions.

The device is modelled as the list of notifications it sends. A notification reaches `response_callback`
only while `send_command` waits. A callback that raises is lost and the wait goes on. An invalid frame
ends the wait, and the previously stored response is returned. When no notification is left, the wait
never ends (`Hangs`).

Where the code and its description differ, this model follows the code:
- **The response slot is not cleared on an invalid reply.** `send_command` returns whatever the slot held
  before. So a device error answering a frame after the first goes unnoticed
  (`Session.StaleFrameAckTolerated`). A device error answering the transfer start raises at
  `set_image_transfer_info` (`Session.RejectedStartRaises`).
- **`Response.parse` reads the checksum at offset `size - 1`.** For `size == 0` that offset is -1, which
  `unpack_from` takes from the end of the buffer, so the last byte is read.
- **The echoed frame number is only printed.** But reading `.frameNumber` raises when the reply is not a
  frame acknowledgement.

## Model

| member | source | states |
|---|---|---|
| Bits.KthBit | InstaxLink.py:177-178 | isKthBitSet(b, k) holds iff binary digit k of b is 1 |
| Responses.FilmDataDecomposes | InstaxLink.py:396-400 | setFilmData gives film = byte mod 16, battery = (byte div 16) mod 8 and charging = (byte ≥ 128), so film + 16·battery + 128·charging == byte with each field within its width |
| Responses.FilmDataExample | InstaxLink.py:396-400 | 0b1_011_0101 decodes to 5 films, battery level 3, charging |
| Responses.StatusDataBits | InstaxLink.py:402-407 | setStatusData: back cover, operating and error flags are exactly bits 0, 1 and 2 of the byte, and the operation info is its high nibble |
| Responses.IsGoodLowBits | InstaxLink.py:378-383 | is_good holds iff level & 7 is 1, 2 or 3 |
| Responses.IsGoodExamples | InstaxLink.py:378-383 | low bits 010 are good and 000, 111 are not, whatever the high bits |
| Responses.CapabilityBits | InstaxLink.py:328-341 | each capability predicate holds iff its own bit (0..4) of supportFunctionInfo is 1 |
| Responses.Is3DLutBit | InstaxLink.py:365-366 | is3DLutAvailable holds iff bit 3 of picOption is 1 |
| Bytes.BE16RoundTrip | InstaxLink.py:210 | unpacking a packed '>H' field gives the value back, and packing an unpacked field gives its two bytes |
| Bytes.BE32RoundTrip | InstaxLink.py:273 | unpacking a packed '>I' field gives the value back, and packing an unpacked field gives its four bytes |
| Catalog.SidOf | InstaxLink.py:14-76 | SID((category, operation)) succeeds iff the pair is in the table, and returns the member with that pair |
| Catalog.SidOfValue | InstaxLink.py:14-76 | each SID is found again from its own pair |
| Catalog.ResultCodeValue | InstaxLink.py:78-109 | every result code except UNKNOWN is a byte value |
| Catalog.ResultCodeOf | InstaxLink.py:78-109 | ResultCode(value) succeeds iff the value is in the table, and returns the member with that value |
| Catalog.ResultCodeOfValue | InstaxLink.py:78-109 | each result code is found again from its value |
| Catalog.DeviceInfoTypeOf | InstaxLink.py:111-120 | the lookup returns the member with that value, and fails only for values no member has |
| Catalog.SupportFunctionInfoTypeOf | InstaxLink.py:122-128 | the lookup returns the member with that value, and fails only for values no member has |
| Catalog.PictureTypeOf | InstaxLink.py:130-135 | the lookup returns the member with that value, and fails only for values no member has |
| Catalog.PicturePrintOptionOf | InstaxLink.py:137-143 | the lookup returns the member with that value, and fails only for values no member has |
| Catalog.PrinterResultOf | InstaxLink.py:145-151 | the lookup returns the member with that value, and fails only for values no member has |
| Catalog.AdditionalPrinterInfoTypeOf | InstaxLink.py:153-155 | the lookup returns the member with that value, and fails only for values no member has |
| Catalog.CameraColorOf | InstaxLink.py:157-160 | the lookup returns the member with that value, and fails only for values no member has |
| Catalog.AutoSleepSettingsModeOf | InstaxLink.py:162-168 | the lookup returns the member with that value, and fails only for values no member has |
| Catalog.PrinterMountedHeadTypeOf | InstaxLink.py:170-173 | the lookup returns the member with that value, and fails only for values no member has |
| Catalog.DeviceInfoTypeOfValue | InstaxLink.py:111-120 | each device-info type is found again from its own value |
| Catalog.CameraColorOfValue | InstaxLink.py:157-160 | each camera colour is found again from its own value |
| Catalog.PrinterMountedHeadTypeOfValue | InstaxLink.py:170-173 | each head type is found again from its own value |
| Frame.ChecksumCompletes | InstaxLink.py:212-213 | a byte is the checksum of some content iff the content plus that byte sums to 255 mod 256 |
| Frame.NewOutbound | InstaxLink.py:215-220 | OutboundMessage succeeds iff 7 + len(data) fits '>H'. It then has signature 41 62, size 7 + len(data), result code UNKNOWN and its own checksum |
| Frame.OutboundLayout | InstaxLink.py:209-225 | get_payload is 7 + len(data) bytes. The size field in bytes 2..3 equals that length. The frame starts 41 62, carries the SID pair and the data with no result-code byte, and sums to 255 mod 256 |
| Frame.Parse | InstaxLink.py:302-306 | parse succeeds iff the buffer holds the header and the checksum offset, and the SID and result code are in their tables. Every field is then read from its place; data is payload[7:-1] |
| Frame.ParsedContent | InstaxLink.py:209-210 | for a buffer of at least 8 bytes that parses, the checksum check covers exactly the buffer without its last byte |
| Frame.ValidateFrame | InstaxLink.py:308-319 | for a frame whose size field is its length, validate holds iff the signature is 61 42, the bytes sum to 255 mod 256 and the result code byte is OK |
| Frame.ParseRoundTrip | InstaxLink.py:302-313 | parsing a well-formed inbound frame recovers exactly its fields. The checks pass, or the first failing one is the device error named by the result code |
| Requests.RequestData | InstaxLink.py:239-290 | packing a request's payload succeeds iff every field fits its struct format |
| Requests.EncodeSucceeds | InstaxLink.py:239-290 | a request's frame exists iff its fields fit and its frame size fits '>H'. Otherwise the encoder raises out-of-range; the frame has 7 + payload bytes |
| Requests.TransferStartLayout | InstaxLink.py:270-273 | the transfer-start payload is [type, option, 0, 0] followed by BE32(size), 8 bytes |
| Requests.FrameTransferLayout | InstaxLink.py:275-278 | the frame-transfer payload is BE32(index) followed by the chunk |
| Requests.AutoSleepLayout | InstaxLink.py:265-268 | the auto-sleep payload is [mode, 0, 0, 0] followed by four BE16 timers, 12 bytes |
| Responses.DecodeVersionInfo | InstaxLink.py:321-323 | decoding succeeds iff at least 8 bytes are present, and the capability byte the predicates read is data[0] |
| Responses.DecodeDeviceInfo | InstaxLink.py:343-349 | decoding succeeds iff the type byte is in the table and the announced length is present. The type is the table member for data[0], and the value is exactly the announced bytes |
| Responses.DecodePrinterFunction | InstaxLink.py:385-407 | decoding the printer-function info succeeds iff its result byte is in the PrinterResults table |
| Responses.DecodeFunctionInfo | InstaxLink.py:417-433 | decoding succeeds iff the sub-type is in the table, the sub-type's fields are present (11, 5, 9 or 9 bytes for image support, battery, printer function and print history) and, for printer function, the result byte is in its table. The reply carries the sub-type read from data[0], and an info object exactly for those four sub-types |
| Responses.DecodeAdditionalInfo | InstaxLink.py:456-466 | decoding succeeds iff the sub-type is in the table, that sub-type's fields are present and the colour is in its table. The reply carries the sub-type read from data[0], and voltage info exactly for the voltage sub-type |
| Responses.DecodeLightCorrectInfo | InstaxLink.py:499-502 | decoding succeeds iff 13 bytes are present and the head type is in its table, and the head type is the member for data[0] |
| Responses.DecodeAutoSleepSettings | InstaxLink.py:471-473 | decoding succeeds iff the four '>H' timers are present, and gives an auto-sleep reply |
| Responses.DecodeImageTransferStart | InstaxLink.py:478-480 | decoding succeeds iff four bytes are present, and the frame size is a 32-bit value |
| Responses.DecodeImageFrameTransfer | InstaxLink.py:485-487 | decoding succeeds iff four bytes are present, and the echoed frame number is a 32-bit value |
| Responses.DecodeImagePrint | InstaxLink.py:492-494 | decoding succeeds iff one byte is present, and the end time is data[0] |
| Responses.AckRoundTrip | InstaxLink.py:478-487 | the transfer-start and frame-transfer decoders invert BE32, whatever follows |
| Responses.VersionInfoRoundTrip | InstaxLink.py:321-323 | the eight version bytes a device sends decode back to exactly those eight fields, whatever follows |
| Responses.DeviceInfoRoundTrip | InstaxLink.py:343-349 | a type byte, a length byte and a value decode back to that type and exactly that value, whatever follows |
| Responses.ImageSupportRoundTrip | InstaxLink.py:422-424 | an image-support reply [0] + BE16(width) + BE16(height) + [type, option] + BE32(size) decodes back to exactly those five fields |
| Responses.BatteryRoundTrip | InstaxLink.py:425-427 | a battery reply [1, level, capacity, charger type, charger state] decodes back to exactly those four fields |
| Responses.PrintHistoryRoundTrip | InstaxLink.py:431-433 | a print-history reply [3] + BE32(prints) + BE32(ejects) decodes back to exactly those two counts |
| Responses.VoltageRoundTrip | InstaxLink.py:461-463 | a voltage reply [0] + BE16(voltage) + BE16(temperature) decodes back to exactly those two values |
| Responses.ColorRoundTrip | InstaxLink.py:464-466 | a colour reply [1] + BE32(attempts) + [battery type, colour, film] decodes back to exactly those fields, the colour through its table |
| Responses.LightCorrectRoundTrip | InstaxLink.py:499-501 | a light-correction reply decodes back to exactly its fields: the year is read after the padding byte, whatever that byte holds, and the three intensities follow month and day |
| Responses.AutoSleepRoundTrip | InstaxLink.py:471-473 | four BE16 timers decode back to exactly those four timers, in order |
| Responses.ImagePrintRoundTrip | InstaxLink.py:492-494 | a print reply decodes back to its end-time byte, whatever follows |
| Responses.PrinterFunctionRoundTrip | InstaxLink.py:385-407 | a printer-function info built from film, status, result, wait and error decodes back to them: film count = film mod 16, battery = (film div 16) mod 8, charging = film ≥ 128; the back-cover, operating and error flags are bits 0, 1 and 2 of status and the operation info its high nibble; result, wait time and error code are recovered exactly |
| Responses.Callback | InstaxLink.py:618-649 | response_callback raises exactly when parsing raises or a valid frame's decoding raises, with that fault. A frame that parses but fails validation keeps the previous response. A valid frame whose decoding succeeds delivers exactly the SID dispatch of its data |
| Responses.DeviceErrorIsRejected | InstaxLink.py:308-319 | a well-formed frame with a result code other than OK is rejected |
| Responses.PrinterFunctionDelivered | InstaxLink.py:618-649 | a well-formed, OK printer-function frame is delivered as that info, with its print result |
| Chunking.ChunksCount | InstaxLink.py:180-193 | slice_image gives ceil(n / frameSize) chunks, so none for empty input |
| Chunking.ChunksSize | InstaxLink.py:180-193 | every chunk has exactly frameSize bytes |
| Chunking.ChunksFlatten | InstaxLink.py:180-193 | the concatenated chunks are the image followed by fewer than frameSize zero bytes |
| Chunking.ChunksExample | InstaxLink.py:180-193 | 3000 bytes in 1024-byte frames give two full chunks and the last 952 bytes padded with 72 zeros |
| Chunking.SliceImage | InstaxLink.py:180-193 | the byte-by-byte loop computes exactly the chunks. An empty image gives no chunks; a non-empty image with frameSize 0 raises, as `% 0` does |
| Chunking.PacketsLaws | InstaxLink.py:604-607 | a payload goes out in ceil(n / 182) packets, each of 1..182 bytes, whose concatenation is the payload |
| Connection.InstaxConnection.constructor | InstaxLink.py:510-521 | a new connection has sent nothing, stored no response, and its flag is down |
| Connection.InstaxConnection.ResponseCallback | InstaxLink.py:618-649 | a callback that raises changes nothing. An invalid frame only raises the flag. A valid frame stores its dispatched response and raises the flag |
| Connection.InstaxConnection.WritePackets | InstaxLink.py:604-607 | the write loop appends exactly the 182-byte packets of the payload |
| Connection.InstaxConnection.AwaitResponse | InstaxLink.py:611-616 | the spin-wait consumes notifications until one raises the flag. It lowers the flag and returns the stored response, as Session.Await says |
| Connection.InstaxConnection.SendCommand | InstaxLink.py:603-616 | send_command does what Session.Command says. It keeps the written packets equal to the frames of the commands sent |
| Session.Await | InstaxLink.py:611-649 | the wait sends nothing and only consumes notifications. An answer consumes at least one and returns what the response slot then holds. The wait hangs only once no notification is left, and then the slot is unchanged |
| Session.Command | InstaxLink.py:651-697 | a request_* call raises out-of-range iff its request cannot be encoded. Otherwise it is appended to the commands sent |
| Session.Ask | InstaxLink.py:651-697 | a command either answers, having sent it and consumed a notification, or ends the session by raising or waiting forever |
| Session.SetDeviceInfo | InstaxLink.py:736-742 | the model, serial or revision is set from a reply of that type, and nothing else changes. Reading the type off an untyped reply raises |
| Session.SetFunctionInfo | InstaxLink.py:744-753 | an image-support reply sets exactly the image limits, and a printer-function reply exactly battery, film and status. Other typed replies change nothing; a missing info raises |
| Session.SetImageTransferInfo | InstaxLink.py:755-756 | the frame size is taken from a transfer-start reply and nothing else changes. Any other reply raises |
| Session.Upload | InstaxLink.py:771-782 | a failing check_image issues no command and changes nothing. Otherwise the upload changes only the frame size |
| Session.Poll | InstaxLink.py:786-789 | polling stops at once when the status is not PRINTER_PROCESSING. A finished poll leaves it not PRINTER_PROCESSING |
| Session.PrintSequence | InstaxLink.py:770-792 | a failing check_image issues no command and changes nothing |
| Session.PrintSequenceAsWritten | InstaxLink.py:770-792 | print_image as written: a failing check_image issues no command and changes nothing. Session.AsWrittenNeverPolls and Session.FormatFaultWitness state the rest |
| Session.CheckImageAgainstReply | InstaxLink.py:758-762 | after an image-support reply, check_image accepts exactly the JPEG images whose width and height are the reported ones and whose file fits the reported maximum size |
| Session.NoPrintBeforeConnect | InstaxLink.py:770-792 | before connect, the limits are zero, so print_image, as written and as intended, refuses every non-empty image and sends nothing |
| Session.ConnectOrder | InstaxLink.py:725-731 | connect sends model, serial, revision, image-support and printer-function requests in this order and stops at the first that fails: it has sent a non-empty prefix of the five, and all five when it finishes |
| Session.Connect | InstaxLink.py:725-731 | connect never reports an unprintable image and leaves the frame size alone. What it sends and stores is stated by Session.ConnectOrder and Session.ConnectStoresReplies |
| Session.ConnectStoresReplies | InstaxLink.py:725-731 | when each request gets a reply of its kind, connect finishes. The printer then holds exactly the reported fields, and exactly five notifications are consumed |
| Session.DeviceQueryReply | InstaxLink.py:736-742 | a device-info request with a typed reply stores the reply and applies set_device_info to it |
| Session.FunctionQueryReply | InstaxLink.py:744-753 | a function-info request with an accepted reply stores the reply and applies set_function_info to it |
| Session.ImageSupportApplied | InstaxLink.py:745-749 | an image-support reply sets exactly width, height, maximum size and picture type |
| Session.PrinterFunctionApplied | InstaxLink.py:750-753 | a printer-function reply sets exactly battery, film count and print status |
| Session.SendFramesCount | InstaxLink.py:780-782 | the frame loop sends at most one command per remaining frame, and exactly one per frame when it finishes |
| Session.SendFramesOrder | InstaxLink.py:780-782 | the frame loop sends frames i, i+1, … in order, numbered by their index |
| Session.TransferOrder | InstaxLink.py:780-783 | a finished transfer sent every frame in order and then the end request, and never a status request |
| Session.UploadOrder | InstaxLink.py:771-783 | the first command is the start request carrying len(image). A finished upload sent start, every frame of the sliced image and end; no status request is sent |
| Session.PollOrder | InstaxLink.py:786-789 | polling sends nothing but printer-function requests |
| Session.PrintAndPollOrder | InstaxLink.py:784-789 | after the upload, a finished print sends the print request and then at least one status request |
| Session.PrintOrder | InstaxLink.py:770-792 | a finished print passed check_image and left the status not PRINTER_PROCESSING. It issued start(len), frames 0..n-1 of the sliced image, end, print, and k ≥ 1 status requests, exactly |
| Session.AsWrittenNeverPolls | InstaxLink.py:784-785 | as written, print_image never finishes and never sends a status request |
| Session.FormatFaultWitness | InstaxLink.py:784-786 | after a finished upload and an acknowledged print, the as-written sequence raises at the %i format. The corrected one sends the status request next |
| Session.PrintAcknowledged | InstaxLink.py:784-786 | after an acknowledged print command, the as-written step raises the format error and the corrected step sends the status request next |
| Session.StaleFrameAckTolerated | InstaxLink.py:780-782 | a device error answering a frame after an acknowledged one goes unnoticed, and the loop continues with the next frame |
| Session.RejectedStartRaises | InstaxLink.py:776 | a device error answering the transfer start raises in set_image_transfer_info, and no frame is sent |
| Printer.InstaxPrinter.constructor | InstaxLink.py:702-719 | the printer fields start at their initial values over a fresh connection |
| Printer.InstaxPrinter.SetDeviceInfo | InstaxLink.py:736-742 | the in-place setter leaves the fields as Session.SetDeviceInfo says. When that raises, no field changes |
| Printer.InstaxPrinter.SetFunctionInfo | InstaxLink.py:744-753 | the in-place setter leaves the fields as Session.SetFunctionInfo says. When that raises, no field changes |
| Printer.InstaxPrinter.SetImageTransferInfo | InstaxLink.py:755-756 | the in-place setter leaves the fields as Session.SetImageTransferInfo says. When that raises, no field changes |
| Printer.InstaxPrinter.Ask | InstaxLink.py:651-697 | one request_* call over the connection gives what Session.Ask says |
| Printer.InstaxPrinter.RequestDeviceInfo | InstaxLink.py:726-728 | request and set_device_info leave the printer and connection as Session.DeviceQuery says |
| Printer.InstaxPrinter.RequestFunctionInfo | InstaxLink.py:729-730 | request and set_function_info leave the printer and connection as Session.FunctionQuery says |
| Printer.InstaxPrinter.Connect | InstaxLink.py:725-731 | connect leaves the printer and connection as Session.Connect says |
| Printer.InstaxPrinter.TransferFrames | InstaxLink.py:780-783 | the frame loop and transfer end leave the connection as Session.Transfer says |
| Printer.InstaxPrinter.UploadImage | InstaxLink.py:771-783 | check, start, slice and transfer leave the printer and connection as Session.Upload says |
| Printer.InstaxPrinter.PollStatus | InstaxLink.py:786-789 | the while loop over printerStatus leaves the printer and connection as Session.Poll says |
| Printer.InstaxPrinter.PrintImageAsWritten | InstaxLink.py:770-792 | print_image as written leaves the printer and connection as Session.PrintSequenceAsWritten says |
| Printer.InstaxPrinter.PrintImage | InstaxLink.py:770-792 | print_image with the print answer read as intended leaves the printer and connection as Session.PrintSequence says |

## Left out

- Bluetooth transport (`discover`, `connect`, `get_info`, `disconnect`, the GATT writes): these are foreign
  calls into `bleak`. Writes are recorded as packets and the device is a given list of notifications.
- Concurrency: a notification reaches `response_callback` only while `send_command` waits. An unsolicited
  notification between commands, which could overwrite the response slot, is not modelled.
- The 0.1-second spin-wait sleep and the 1-second sleep between polls: these are wall-clock timing.
- `check_image`'s PIL `Image.open`, `os.path.getsize`, file reading and `prepare_image`. The image is given
  as its decoded width, height, format name and file bytes.
- `DeviceInfoResponse`'s `.decode()`: device strings are kept as raw bytes.
- All `__str__` methods, `print` output and debug output. This includes the debug line that reads
  `frames[0]`, which raises on an empty image only in debug mode.
- `SID.UNKNOWN` (-1, -1): it is never sent or parsed.
- `main` and `argparse`.
- The request_* wrappers that `InstaxPrinter` never calls: request_version_info, battery, print history,
  voltage, colour, head calibration and sleep extension. Each is one `Session.Ask` of its `Request`
  constructor, and every request's encoding is modelled.
- Session.Connect: its own contract states only that connect never reports an unprintable image and keeps
  the frame size. The order of its commands and what it stores are stated by Session.ConnectOrder and
  Session.ConnectStoresReplies.
- Session.Await, Session.Command, Session.Ask: they do not state the contents of the response slot beyond
  what the answer returns. Those contents are fixed by their definitions and used by the lemmas above.

## Findings

| source | as written | input that shows it | evidently intended | confidence | as-written member | corrected member |
|---|---|---|---|---|---|---|
| InstaxLink.py:784-785 | `endTime` is the response object returned by `request_print`, formatted with `%i`. That raises TypeError, so `print_image` stops before the status refresh and the polling loop | any image that passes check_image, whose upload finishes and whose print command the device acknowledges (an `ImagePrintResponse` delivered after the transfer end) | format the response's `endTime` field, then refresh the status and poll while PRINTER_PROCESSING | not executed | Session.PrintSequenceAsWritten (with Session.AsWrittenNeverPolls, Session.FormatFaultWitness), Printer.InstaxPrinter.PrintImageAsWritten | Session.PrintSequence (with Session.PrintOrder), Printer.InstaxPrinter.PrintImage |
