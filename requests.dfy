/** The request payload encoders: the Request subclasses and their struct.pack layouts (InstaxLink.py:239-290). */
module Requests {
  import opened Wrappers
  import opened Faults
  import opened Bytes
  import opened Catalog
  import Frame

  datatype Request =
    | VersionInfoRequest                  // SupportFunctionaAndVersionInfoRequest
    | DeviceInfoRequest(infoType: DeviceInfoType)
    | SupportFunctionInfoRequest(functionType: SupportFunctionInfoType)
    | AdditionalPrinterInfoRequest(printerInfoType: AdditionalPrinterInfoType)
    | AutoSleepSettingsRequest(mode: AutoSleepSettingsMode, time1: int, time2: int, time3: int, time4: int)
    | ImageTransferStartRequest(pictureType: PictureType, printOption: PicturePrintOption, imageSize: int)
    | ImageFrameTransferRequest(frameNumber: int, frameData: seq<byte>)
    | ImageTransferEndRequest
    | ImagePrintRequest
    | LightCorrectInfoRequest

  /** The SID each request class passes to Request.__init__. */
  function RequestSid(r: Request): Sid
  {
    match r
    case VersionInfoRequest => SupportFunctionAndVersionInfo
    case DeviceInfoRequest(_) => DeviceInfoService
    case SupportFunctionInfoRequest(_) => SupportFunctionInfo
    case AdditionalPrinterInfoRequest(_) => AdditionalPrinterInfo
    case AutoSleepSettingsRequest(_, _, _, _, _) => AutoSleepSettings
    case ImageTransferStartRequest(_, _, _) => PrintImageDownloadStart
    case ImageFrameTransferRequest(_, _) => PrintImageDownloadData
    case ImageTransferEndRequest => PrintImageDownloadEnd
    case ImagePrintRequest => PrintImage
    case LightCorrectInfoRequest => PrinterHeadLightCorrectInfo
  }

  predicate IsU16(x: int) { 0 <= x < 0x1_0000 }
  predicate IsU32(x: int) { 0 <= x < 0x1_0000_0000 }

  /** Whether every integer field fits the struct.pack format of its request; pack raises otherwise. */
  predicate FieldsFit(r: Request)
  {
    match r
    case AutoSleepSettingsRequest(_, t1, t2, t3, t4) => IsU16(t1) && IsU16(t2) && IsU16(t3) && IsU16(t4)
    case ImageTransferStartRequest(_, _, size) => IsU32(size)
    case ImageFrameTransferRequest(n, _) => IsU32(n)
    case _ => true
  }

  /** The data bytes of each request, as its struct.pack call lays them out. */
  function RequestData(r: Request): (d: Result<seq<byte>, Fault>)
    ensures d.Success? <==> FieldsFit(r)
  {
    match r
    case VersionInfoRequest => Success([])
    case DeviceInfoRequest(t) => Success([DeviceInfoTypeValue(t)])
    case SupportFunctionInfoRequest(t) => Success([SupportFunctionInfoTypeValue(t)])
    case AdditionalPrinterInfoRequest(t) => Success([AdditionalPrinterInfoTypeValue(t)])
    case AutoSleepSettingsRequest(mode, t1, t2, t3, t4) =>
      // '>BBBBHHHH'
      if !FieldsFit(r) then Failure(OutOfRange)
      else Success([AutoSleepSettingsModeValue(mode), 0, 0, 0] + BE16(t1) + BE16(t2) + BE16(t3) + BE16(t4))
    case ImageTransferStartRequest(pictureType, option, size) =>
      // '>BBBBI'
      if !IsU32(size) then Failure(OutOfRange)
      else Success([PictureTypeValue(pictureType), PicturePrintOptionValue(option), 0, 0] + BE32(size))
    case ImageFrameTransferRequest(n, frame) =>
      // '>I' followed by the frame bytes
      if !IsU32(n) then Failure(OutOfRange) else Success(BE32(n) + frame)
    case ImageTransferEndRequest => Success([])
    case ImagePrintRequest => Success([])
    case LightCorrectInfoRequest => Success([])
  }

  /** Request(...).message.get_payload(): the outbound frame of a request. */
  function Encode(r: Request): Result<seq<byte>, Fault>
  {
    var data :- RequestData(r);
    Frame.OutboundFrame(RequestSid(r), data)
  }

  /** The number of data bytes each request's layout takes. */
  function DataSize(r: Request): nat
  {
    match r
    case DeviceInfoRequest(_) => 1
    case SupportFunctionInfoRequest(_) => 1
    case AdditionalPrinterInfoRequest(_) => 1
    case AutoSleepSettingsRequest(_, _, _, _, _) => 12
    case ImageTransferStartRequest(_, _, _) => 8
    case ImageFrameTransferRequest(_, frame) => 4 + |frame|
    case _ => 0
  }

  /** Whether a request's frame can be built: its fields fit their formats and the frame fits a 16-bit size. */
  predicate Encodable(r: Request)
  {
    FieldsFit(r) && 7 + DataSize(r) < 0x1_0000
  }

  /** Encode succeeds exactly on the encodable requests, and otherwise reports an out-of-range field. */
  lemma EncodeSucceeds(r: Request)
    ensures Encode(r).Success? <==> Encodable(r)
    ensures Encode(r).Failure? ==> Encode(r).error == OutOfRange
    ensures Encode(r).Success? ==> |Encode(r).value| == 7 + DataSize(r)
  {
    if FieldsFit(r) {
      assert |RequestData(r).value| == DataSize(r);
      if 7 + DataSize(r) < 0x1_0000 {
        Frame.OutboundLayout(RequestSid(r), RequestData(r).value);
      }
    }
  }

  /** ImageTransferStartRequest data is exactly [type, option, 0, 0] followed by the image size in BE32. */
  lemma TransferStartLayout(t: PictureType, o: PicturePrintOption, size: int)
    requires IsU32(size)
    ensures var d := RequestData(ImageTransferStartRequest(t, o, size)).value;
      |d| == 8 && d[..4] == [PictureTypeValue(t), PicturePrintOptionValue(o), 0, 0] && ReadBE32(d, 4) == size
  {
    var d := RequestData(ImageTransferStartRequest(t, o, size)).value;
    BE32RoundTrip(size, d, 4);
    assert d[4..8] == BE32(size);
  }

  /** ImageFrameTransferRequest data is the frame number in BE32 followed by the frame bytes. */
  lemma FrameTransferLayout(n: int, frame: seq<byte>)
    requires IsU32(n)
    ensures var d := RequestData(ImageFrameTransferRequest(n, frame)).value;
      |d| == 4 + |frame| && ReadBE32(d, 0) == n && d[4..] == frame
  {
    var d := RequestData(ImageFrameTransferRequest(n, frame)).value;
    BE32RoundTrip(n, d, 0);
    assert d[..4] == BE32(n);
  }

  /** AutoSleepSettingsRequest data is [mode, 0, 0, 0] followed by the four timers in BE16: 12 bytes. */
  lemma AutoSleepLayout(mode: AutoSleepSettingsMode, t1: int, t2: int, t3: int, t4: int)
    requires IsU16(t1) && IsU16(t2) && IsU16(t3) && IsU16(t4)
    ensures var d := RequestData(AutoSleepSettingsRequest(mode, t1, t2, t3, t4)).value;
      && |d| == 12 && d[..4] == [AutoSleepSettingsModeValue(mode), 0, 0, 0]
      && ReadBE16(d, 4) == t1 && ReadBE16(d, 6) == t2 && ReadBE16(d, 8) == t3 && ReadBE16(d, 10) == t4
  {
    var d := RequestData(AutoSleepSettingsRequest(mode, t1, t2, t3, t4)).value;
    BE16RoundTrip(t1, d, 4);
    BE16RoundTrip(t2, d, 6);
    BE16RoundTrip(t3, d, 8);
    BE16RoundTrip(t4, d, 10);
  }
}
