/**
 * The response decoders and their bit-field helpers (InstaxLink.py:321-505), and the dispatch that
 * response_callback performs on a validated frame (InstaxLink.py:618-649).
 */
module Responses {
  import opened Wrappers
  import opened Faults
  import opened Bytes
  import opened Bits
  import opened Catalog
  import opened Frame

  /** SupportFunctionaAndVersionInfoResponse: a capability byte followed by seven version bytes. */
  datatype VersionInfo = VersionInfo(
    supportFunctionInfo: byte, deviceInfoVersion: byte, supportImgInfoVersion: byte, batteryInfoVersion: byte,
    printerFuncInfoVersion: byte, printerHistoryInfoVersion: byte, cameraFuncInfoVersion: byte, cameraHistoryInfoVersion: byte)

  /** The info object of a SupportFunctionInfoResponse, one variant per Python class. */
  datatype FunctionInfo =
    | ImageSupport(width: int, height: int, picType: byte, picOption: byte, size: int)        // ImageSupportInfo
    | Battery(batteryLevel: byte, batteryCapacity: byte, chargerType: byte, chargerState: byte)  // BatteryInfo
    | PrinterFunction(                                                                         // PrinterFunctionInfo
        filmRemain: int, batteryRemain: int, chargeFlg: bool,
        backCoverState: bool, printerOperationFlg: bool, printerErrFlg: bool, printerOperationInfo: int,
        printWaitTime: byte, printerErrType: int, resultPrintRequest: PrinterResult)
    | PrintHistory(totalPrintNum: int, totalEjectFCNum: int)                                   // PrintHistoryInfo

  /** The info object of an AdditionalPrinterInfoResponse. */
  datatype AdditionalInfo =
    | Voltage(batteryVoltage: int, printerTemperature: int)                                    // VoltageInfo
    | Color(totalNumberOfPrintAttempts: int, batteryType: byte,                                // ColorInfo
            colorVariationInformation: CameraColor, withOrWithoutFilmPI: byte)

  /** LightCorrectInfoResponse; the padding byte is read and dropped. */
  datatype LightCorrectInfo = LightCorrectInfo(
    printerHeadType: PrinterMountedHeadType, printingDateJudgeFlag: byte, year: int, month: byte, day: byte,
    rIntensity: int, gIntensity: int, bIntensity: int)

  /** The decoded response objects that response_callback stores. */
  datatype Response =
    | VersionInfoResponse(versions: VersionInfo)
    | DeviceInfoResponse(infoType: DeviceInfoType, value: seq<byte>)
    | SupportFunctionInfoResponse(functionType: SupportFunctionInfoType, info: Option<FunctionInfo>)
    | AdditionalPrinterInfoResponse(printerInfoType: AdditionalPrinterInfoType, printerInfo: AdditionalInfo)
    | LightCorrectInfoResponse(correction: LightCorrectInfo)
    | AutoSleepSettingsResponse(autoSleepTime1: int, autoSleepTime2: int, autoSleepTime3: int, autoSleepTime4: int)
    | ImageTransferStartResponse(frameSize: nat)
    | ImageFrameTransferResponse(frameNumber: nat)
    | ImagePrintResponse(endTime: byte)

  // ---- Bit fields ----

  /** setFilmData: film count in bits 0-3, battery level in bits 4-6, charging flag in bit 7. */
  function FilmData(b: byte): (int, int, bool)
  {
    (And(b, 15), And(Shr(b, 4), 7), IsKthBitSet(b, 7))
  }

  /** setStatusData: bits 0, 1 and 2, and the high nibble. */
  function StatusData(b: byte): (bool, bool, bool, int)
  {
    (IsKthBitSet(b, 0), IsKthBitSet(b, 1), IsKthBitSet(b, 2), And(Shr(b, 4), 15))
  }

  /** The film byte is exactly film + 16 * battery + 128 * charging, each field within its width. */
  lemma FilmDataDecomposes(b: byte)
    ensures var (film, battery, charging) := FilmData(b);
      && 0 <= film < 16 && 0 <= battery < 8
      && film + 16 * battery + (if charging then 128 else 0) == b
    ensures FilmData(b) == (b % 16, (b / 16) % 8, b >= 128)
  {
    FilmFields(b);
    SplitByte(b);
    assert FilmData(b) == (b % 16, (b / 16) % 8, b / 128 == 1);
  }

  /** The status byte's low three bits are the three flags and its high nibble is the operation info. */
  lemma StatusDataBits(b: byte)
    ensures var (backCover, operating, error, info) := StatusData(b);
      && info == b / 16
      && (if backCover then 1 else 0) + (if operating then 2 else 0) + (if error then 4 else 0) == b % 8
      && backCover == (b % 2 == 1) && operating == ((b / 2) % 2 == 1) && error == ((b / 4) % 2 == 1)
  {
    StatusFields(b);
    LowThreeBits(b);
  }

  /** filmByte = 0b1_011_0101 decodes to 5 films, battery level 3, charging. */
  lemma FilmDataExample()
    ensures FilmData(0xB5) == (5, 3, true)
  {
    FilmDataDecomposes(0xB5);
    Pow2Values();
    Masks(0xB5);
    Masks(0xB5 / 16);
  }

  /** BatteryInfo.is_good: the low three bits of the level are 1, 2 or 3. */
  predicate IsGood(info: FunctionInfo)
    requires info.Battery?
  {
    var i2 := And(info.batteryLevel, 7);
    if i2 != 0 then i2 == 1 || i2 == 2 || i2 == 3 else false
  }

  lemma IsGoodLowBits(info: FunctionInfo)
    requires info.Battery?
    ensures IsGood(info) <==> 1 <= info.batteryLevel % 8 <= 3
  {
    Masks(info.batteryLevel);
  }

  /** Low bits 010 are good, 000 and 111 are not, whatever the high bits. */
  lemma IsGoodExamples(high: nat)
    requires high < 32
    ensures IsGood(Battery(8 * high + 2, 0, 0, 0))
    ensures !IsGood(Battery(8 * high, 0, 0, 0))
    ensures !IsGood(Battery(8 * high + 7, 0, 0, 0))
  {
    IsGoodLowBits(Battery(8 * high + 2, 0, 0, 0));
    DivModUnique(8 * high + 2, 8, high, 2);
    IsGoodLowBits(Battery(8 * high, 0, 0, 0));
    DivModUnique(8 * high, 8, high, 0);
    IsGoodLowBits(Battery(8 * high + 7, 0, 0, 0));
    DivModUnique(8 * high + 7, 8, high, 7);
  }

  /** The capability bits of SupportFunctionaAndVersionInfoResponse. */
  predicate IsPrintFunctionAvailable(v: VersionInfo) { IsKthBitSet(v.supportFunctionInfo, 0) }
  predicate IsLiveViewAvailable(v: VersionInfo) { IsKthBitSet(v.supportFunctionInfo, 1) }
  predicate IsUrlUploadAvailable(v: VersionInfo) { IsKthBitSet(v.supportFunctionInfo, 2) }
  predicate IsFrameSetAvailable(v: VersionInfo) { IsKthBitSet(v.supportFunctionInfo, 3) }
  predicate IsCameraLogAvailable(v: VersionInfo) { IsKthBitSet(v.supportFunctionInfo, 4) }

  /** Each capability predicate reads its own binary digit of the capability byte. */
  lemma CapabilityBits(v: VersionInfo)
    ensures IsPrintFunctionAvailable(v) <==> Bit(v.supportFunctionInfo, 0) == 1
    ensures IsLiveViewAvailable(v) <==> Bit(v.supportFunctionInfo, 1) == 1
    ensures IsUrlUploadAvailable(v) <==> Bit(v.supportFunctionInfo, 2) == 1
    ensures IsFrameSetAvailable(v) <==> Bit(v.supportFunctionInfo, 3) == 1
    ensures IsCameraLogAvailable(v) <==> Bit(v.supportFunctionInfo, 4) == 1
  {
    KthBit(v.supportFunctionInfo, 0);
    KthBit(v.supportFunctionInfo, 1);
    KthBit(v.supportFunctionInfo, 2);
    KthBit(v.supportFunctionInfo, 3);
    KthBit(v.supportFunctionInfo, 4);
  }

  /** ImageSupportInfo.is3DLutAvailable: bit 3 of the print option, the PICINF_PICOP_3DLUT flag. */
  predicate Is3DLutAvailable(info: FunctionInfo)
    requires info.ImageSupport?
  {
    IsKthBitSet(info.picOption, 3)
  }

  lemma Is3DLutBit(info: FunctionInfo)
    requires info.ImageSupport?
    ensures Is3DLutAvailable(info) <==> (info.picOption / 8) % 2 == 1
  {
    Pow2Values();
    KthBit(info.picOption, 3);
  }

  // ---- Decoders: unpack_from raises Truncated on a short buffer, an Enum lookup raises UnknownValue ----

  function DecodeVersionInfo(data: seq<byte>): (r: Result<Response, Fault>)
    ensures r.Success? <==> |data| >= 8
    ensures r.Success? ==> r.value.VersionInfoResponse? && r.value.versions.supportFunctionInfo == data[0]
  {
    if |data| < 8 then Failure(Truncated)
    else Success(VersionInfoResponse(VersionInfo(data[0], data[1], data[2], data[3], data[4], data[5], data[6], data[7])))
  }

  /** DeviceInfoResponse: type byte, length byte, then that many value bytes (kept as bytes). */
  function DecodeDeviceInfo(data: seq<byte>): (r: Result<Response, Fault>)
    ensures r.Success? <==>
      |data| >= 2 && DeviceInfoTypeOf(data[0]).Some? && |data| >= 2 + data[1] as int
    ensures r.Success? ==> r.value.DeviceInfoResponse? && r.value.value == data[2..2 + data[1]]
    ensures r.Success? ==> r.value.infoType == DeviceInfoTypeOf(data[0]).value
  {
    if |data| < 1 then Failure(Truncated)
    else match DeviceInfoTypeOf(data[0])
      case None => Failure(UnknownValue)
      case Some(t) =>
        if |data| < 2 || |data| < 2 + data[1] as int then Failure(Truncated)
        else Success(DeviceInfoResponse(t, data[2..2 + data[1]]))
  }

  /** The printer function info fields after the type byte: '>BBBBI'. */
  function DecodePrinterFunction(data: seq<byte>): (r: Result<FunctionInfo, Fault>)
    requires |data| >= 9
    ensures r.Success? <==> PrinterResultOf(data[3]).Some?
  {
    var (backCover, operating, error, operationInfo) := StatusData(data[2]);
    var (film, battery, charging) := FilmData(data[1]);
    match PrinterResultOf(data[3])
    case None => Failure(UnknownValue)
    case Some(result) =>
      Success(PrinterFunction(film, battery, charging, backCover, operating, error, operationInfo, data[4], ReadBE32(data, 5), result))
  }

  /** SupportFunctionInfoResponse: a type byte selects the layout; camera info types carry no info. */
  function DecodeFunctionInfo(data: seq<byte>): (r: Result<Response, Fault>)
    ensures r.Success? <==>
      && |data| >= 1 && SupportFunctionInfoTypeOf(data[0]).Some?
      && (data[0] == 0 ==> |data| >= 11)
      && (data[0] == 1 ==> |data| >= 5)
      && (data[0] == 2 ==> |data| >= 9 && PrinterResultOf(data[3]).Some?)
      && (data[0] == 3 ==> |data| >= 9)
    ensures r.Success? ==> r.value.SupportFunctionInfoResponse?
    ensures r.Success? ==> |data| >= 1 && SupportFunctionInfoTypeValue(r.value.functionType) == data[0]
    ensures r.Success? ==> match r.value.functionType
      case ImageSupportInfo => r.value.info.Some? && r.value.info.value.ImageSupport?
      case BatteryInfo => r.value.info.Some? && r.value.info.value.Battery?
      case PrinterFunctionInfo => r.value.info.Some? && r.value.info.value.PrinterFunction?
      case PrintHistoryInfo => r.value.info.Some? && r.value.info.value.PrintHistory?
      case _ => r.value.info.None?
  {
    if |data| < 1 then Failure(Truncated)
    else match SupportFunctionInfoTypeOf(data[0])
      case None => Failure(UnknownValue)
      case Some(t) =>
        match t
        case ImageSupportInfo =>
          // '>HHBBI'
          if |data| < 11 then Failure(Truncated)
          else Success(SupportFunctionInfoResponse(t, Some(ImageSupport(ReadBE16(data, 1), ReadBE16(data, 3), data[5], data[6], ReadBE32(data, 7)))))
        case BatteryInfo =>
          // '>BBBB'
          if |data| < 5 then Failure(Truncated)
          else Success(SupportFunctionInfoResponse(t, Some(Battery(data[1], data[2], data[3], data[4]))))
        case PrinterFunctionInfo =>
          if |data| < 9 then Failure(Truncated)
          else
            var info :- DecodePrinterFunction(data);
            Success(SupportFunctionInfoResponse(t, Some(info)))
        case PrintHistoryInfo =>
          // '>II'
          if |data| < 9 then Failure(Truncated)
          else Success(SupportFunctionInfoResponse(t, Some(PrintHistory(ReadBE32(data, 1), ReadBE32(data, 5)))))
        case _ => Success(SupportFunctionInfoResponse(t, None))
  }

  /** AdditionalPrinterInfoResponse: voltage info '>HH' or colour info '>IBBB' after the type byte. */
  function DecodeAdditionalInfo(data: seq<byte>): (r: Result<Response, Fault>)
    ensures r.Success? <==>
      && |data| >= 1 && AdditionalPrinterInfoTypeOf(data[0]).Some?
      && (data[0] == 0 ==> |data| >= 5)
      && (data[0] == 1 ==> |data| >= 8 && CameraColorOf(data[6]).Some?)
    ensures r.Success? ==>
      && r.value.AdditionalPrinterInfoResponse?
      && AdditionalPrinterInfoTypeValue(r.value.printerInfoType) == data[0]
      && (r.value.printerInfoType == VoltageInfo <==> r.value.printerInfo.Voltage?)
  {
    if |data| < 1 then Failure(Truncated)
    else match AdditionalPrinterInfoTypeOf(data[0])
      case None => Failure(UnknownValue)
      case Some(t) =>
        match t
        case VoltageInfo =>
          if |data| < 5 then Failure(Truncated)
          else Success(AdditionalPrinterInfoResponse(t, Voltage(ReadBE16(data, 1), ReadBE16(data, 3))))
        case ColorInfo =>
          if |data| < 8 then Failure(Truncated)
          else match CameraColorOf(data[6])
            case None => Failure(UnknownValue)
            case Some(color) => Success(AdditionalPrinterInfoResponse(t, Color(ReadBE32(data, 1), data[5], color, data[7])))
  }

  /** LightCorrectInfoResponse: '>BBBHBBHHH', 13 bytes. */
  function DecodeLightCorrectInfo(data: seq<byte>): (r: Result<Response, Fault>)
    ensures r.Success? <==> |data| >= 13 && PrinterMountedHeadTypeOf(data[0]).Some?
    ensures r.Success? ==>
      && r.value.LightCorrectInfoResponse?
      && PrinterMountedHeadTypeValue(r.value.correction.printerHeadType) == data[0]
  {
    if |data| < 13 then Failure(Truncated)
    else match PrinterMountedHeadTypeOf(data[0])
      case None => Failure(UnknownValue)
      case Some(head) =>
        Success(LightCorrectInfoResponse(LightCorrectInfo(head, data[1], ReadBE16(data, 3), data[5], data[6],
          ReadBE16(data, 7), ReadBE16(data, 9), ReadBE16(data, 11))))
  }

  /** AutoSleepSettingsResponse: four BE16 timers. */
  function DecodeAutoSleepSettings(data: seq<byte>): (r: Result<Response, Fault>)
    ensures r.Success? <==> |data| >= 8
    ensures r.Success? ==> r.value.AutoSleepSettingsResponse?
  {
    if |data| < 8 then Failure(Truncated)
    else Success(AutoSleepSettingsResponse(ReadBE16(data, 0), ReadBE16(data, 2), ReadBE16(data, 4), ReadBE16(data, 6)))
  }

  /** ImageTransferStartResponse: the frame size the device asks for, BE32. */
  function DecodeImageTransferStart(data: seq<byte>): (r: Result<Response, Fault>)
    ensures r.Success? <==> |data| >= 4
    ensures r.Success? ==> r.value.ImageTransferStartResponse? && 0 <= r.value.frameSize < 0x1_0000_0000
  {
    if |data| < 4 then Failure(Truncated) else Success(ImageTransferStartResponse(ReadBE32(data, 0)))
  }

  /** ImageFrameTransferResponse: the frame number the device echoes, BE32. */
  function DecodeImageFrameTransfer(data: seq<byte>): (r: Result<Response, Fault>)
    ensures r.Success? <==> |data| >= 4
    ensures r.Success? ==> r.value.ImageFrameTransferResponse? && 0 <= r.value.frameNumber < 0x1_0000_0000
  {
    if |data| < 4 then Failure(Truncated) else Success(ImageFrameTransferResponse(ReadBE32(data, 0)))
  }

  /** ImagePrintResponse: one byte of estimated time. */
  function DecodeImagePrint(data: seq<byte>): (r: Result<Response, Fault>)
    ensures r.Success? <==> |data| >= 1
    ensures r.Success? ==> r.value.ImagePrintResponse? && r.value.endTime == data[0]
  {
    if |data| < 1 then Failure(Truncated) else Success(ImagePrintResponse(data[0]))
  }

  /** The two BE32 acknowledgement decoders invert the BE32 encoding, whatever follows it. */
  lemma AckRoundTrip(x: int, rest: seq<byte>)
    requires 0 <= x < 0x1_0000_0000
    ensures DecodeImageTransferStart(BE32(x) + rest) == Success(ImageTransferStartResponse(x))
    ensures DecodeImageFrameTransfer(BE32(x) + rest) == Success(ImageFrameTransferResponse(x))
  {
    BE32RoundTrip(x, BE32(x) + rest, 0);
  }

  // ---- What a device sends, and the decoders reading it back ----

  /** The eight version bytes of a version-info reply. */
  function VersionInfoData(v: VersionInfo): seq<byte>
  {
    [v.supportFunctionInfo, v.deviceInfoVersion, v.supportImgInfoVersion, v.batteryInfoVersion,
     v.printerFuncInfoVersion, v.printerHistoryInfoVersion, v.cameraFuncInfoVersion, v.cameraHistoryInfoVersion]
  }

  lemma VersionInfoRoundTrip(v: VersionInfo, rest: seq<byte>)
    ensures DecodeVersionInfo(VersionInfoData(v) + rest) == Success(VersionInfoResponse(v))
  {
  }

  /** A device-info reply: type byte, length byte, the value. */
  function DeviceInfoData(t: DeviceInfoType, value: seq<byte>): seq<byte>
    requires |value| < 0x100
  {
    [DeviceInfoTypeValue(t), |value|] + value
  }

  lemma DeviceInfoRoundTrip(t: DeviceInfoType, value: seq<byte>, rest: seq<byte>)
    requires |value| < 0x100
    ensures DecodeDeviceInfo(DeviceInfoData(t, value) + rest) == Success(DeviceInfoResponse(t, value))
  {
    DeviceInfoTypeOfValue(t);
    var d := DeviceInfoData(t, value) + rest;
    assert d[2..2 + |value|] == value;
  }

  /** An image-support reply: type 0, '>HHBBI'. */
  function ImageSupportData(width: int, height: int, picType: byte, picOption: byte, size: int): seq<byte>
    requires 0 <= width < 0x1_0000 && 0 <= height < 0x1_0000 && 0 <= size < 0x1_0000_0000
  {
    [0] + BE16(width) + BE16(height) + [picType, picOption] + BE32(size)
  }

  lemma ImageSupportRoundTrip(width: int, height: int, picType: byte, picOption: byte, size: int, rest: seq<byte>)
    requires 0 <= width < 0x1_0000 && 0 <= height < 0x1_0000 && 0 <= size < 0x1_0000_0000
    ensures DecodeFunctionInfo(ImageSupportData(width, height, picType, picOption, size) + rest)
      == Success(SupportFunctionInfoResponse(ImageSupportInfo, Some(ImageSupport(width, height, picType, picOption, size))))
  {
    var d := ImageSupportData(width, height, picType, picOption, size) + rest;
    ReadBE16At(d, 1, width);
    ReadBE16At(d, 3, height);
    assert d[7..11] == BE32(size);
    ReadBE32At(d, 7, size);
  }

  /** A battery reply: type 1, '>BBBB'. */
  function BatteryData(level: byte, capacity: byte, chargerType: byte, chargerState: byte): seq<byte>
  {
    [1, level, capacity, chargerType, chargerState]
  }

  lemma BatteryRoundTrip(level: byte, capacity: byte, chargerType: byte, chargerState: byte, rest: seq<byte>)
    ensures DecodeFunctionInfo(BatteryData(level, capacity, chargerType, chargerState) + rest)
      == Success(SupportFunctionInfoResponse(BatteryInfo, Some(Battery(level, capacity, chargerType, chargerState))))
  {
  }

  /** A print-history reply: type 3, '>II'. */
  function PrintHistoryData(prints: int, ejects: int): seq<byte>
    requires 0 <= prints < 0x1_0000_0000 && 0 <= ejects < 0x1_0000_0000
  {
    [3] + BE32(prints) + BE32(ejects)
  }

  lemma PrintHistoryRoundTrip(prints: int, ejects: int, rest: seq<byte>)
    requires 0 <= prints < 0x1_0000_0000 && 0 <= ejects < 0x1_0000_0000
    ensures DecodeFunctionInfo(PrintHistoryData(prints, ejects) + rest)
      == Success(SupportFunctionInfoResponse(PrintHistoryInfo, Some(PrintHistory(prints, ejects))))
  {
    var d := PrintHistoryData(prints, ejects) + rest;
    assert d[1..5] == BE32(prints) && d[5..9] == BE32(ejects);
    ReadBE32At(d, 1, prints);
    ReadBE32At(d, 5, ejects);
  }

  /** A voltage reply: type 0, '>HH'. */
  function VoltageData(voltage: int, temperature: int): seq<byte>
    requires 0 <= voltage < 0x1_0000 && 0 <= temperature < 0x1_0000
  {
    [0] + BE16(voltage) + BE16(temperature)
  }

  lemma VoltageRoundTrip(voltage: int, temperature: int, rest: seq<byte>)
    requires 0 <= voltage < 0x1_0000 && 0 <= temperature < 0x1_0000
    ensures DecodeAdditionalInfo(VoltageData(voltage, temperature) + rest)
      == Success(AdditionalPrinterInfoResponse(VoltageInfo, Voltage(voltage, temperature)))
  {
    var d := VoltageData(voltage, temperature) + rest;
    ReadBE16At(d, 1, voltage);
    ReadBE16At(d, 3, temperature);
  }

  /** A colour reply: type 1, '>IBBB'. */
  function ColorData(attempts: int, batteryType: byte, color: CameraColor, film: byte): seq<byte>
    requires 0 <= attempts < 0x1_0000_0000 && color != UnknownColor
  {
    [1] + BE32(attempts) + [batteryType, CameraColorValue(color), film]
  }

  lemma ColorRoundTrip(attempts: int, batteryType: byte, color: CameraColor, film: byte, rest: seq<byte>)
    requires 0 <= attempts < 0x1_0000_0000 && color != UnknownColor
    ensures DecodeAdditionalInfo(ColorData(attempts, batteryType, color, film) + rest)
      == Success(AdditionalPrinterInfoResponse(ColorInfo, Color(attempts, batteryType, color, film)))
  {
    var d := ColorData(attempts, batteryType, color, film) + rest;
    CameraColorOfValue(color);
    assert d[1..5] == BE32(attempts);
    ReadBE32At(d, 1, attempts);
  }

  /** A light-correction reply, '>BBBHBBHHH': the third byte is padding, whatever it holds. */
  function LightCorrectData(c: LightCorrectInfo, padding: byte): seq<byte>
    requires c.printerHeadType != UnknownHead && 0 <= c.year < 0x1_0000
    requires 0 <= c.rIntensity < 0x1_0000 && 0 <= c.gIntensity < 0x1_0000 && 0 <= c.bIntensity < 0x1_0000
  {
    [PrinterMountedHeadTypeValue(c.printerHeadType), c.printingDateJudgeFlag, padding] + BE16(c.year)
      + [c.month, c.day] + BE16(c.rIntensity) + BE16(c.gIntensity) + BE16(c.bIntensity)
  }

  lemma LightCorrectRoundTrip(c: LightCorrectInfo, padding: byte, rest: seq<byte>)
    requires c.printerHeadType != UnknownHead && 0 <= c.year < 0x1_0000
    requires 0 <= c.rIntensity < 0x1_0000 && 0 <= c.gIntensity < 0x1_0000 && 0 <= c.bIntensity < 0x1_0000
    ensures DecodeLightCorrectInfo(LightCorrectData(c, padding) + rest) == Success(LightCorrectInfoResponse(c))
  {
    var d := LightCorrectData(c, padding) + rest;
    PrinterMountedHeadTypeOfValue(c.printerHeadType);
    ReadBE16At(d, 3, c.year);
    ReadBE16At(d, 7, c.rIntensity);
    ReadBE16At(d, 9, c.gIntensity);
    ReadBE16At(d, 11, c.bIntensity);
  }

  /** An auto-sleep reply: four '>H' timers. */
  function AutoSleepData(t1: int, t2: int, t3: int, t4: int): seq<byte>
    requires 0 <= t1 < 0x1_0000 && 0 <= t2 < 0x1_0000 && 0 <= t3 < 0x1_0000 && 0 <= t4 < 0x1_0000
  {
    BE16(t1) + BE16(t2) + BE16(t3) + BE16(t4)
  }

  lemma AutoSleepRoundTrip(t1: int, t2: int, t3: int, t4: int, rest: seq<byte>)
    requires 0 <= t1 < 0x1_0000 && 0 <= t2 < 0x1_0000 && 0 <= t3 < 0x1_0000 && 0 <= t4 < 0x1_0000
    ensures DecodeAutoSleepSettings(AutoSleepData(t1, t2, t3, t4) + rest) == Success(AutoSleepSettingsResponse(t1, t2, t3, t4))
  {
    var d := AutoSleepData(t1, t2, t3, t4) + rest;
    ReadBE16At(d, 0, t1);
    ReadBE16At(d, 2, t2);
    ReadBE16At(d, 4, t3);
    ReadBE16At(d, 6, t4);
  }

  /** A print reply: the estimated time byte. */
  lemma ImagePrintRoundTrip(endTime: byte, rest: seq<byte>)
    ensures DecodeImagePrint([endTime] + rest) == Success(ImagePrintResponse(endTime))
  {
  }

  /** The printer function info a device sends: type 2, film, status, result, wait time, BE32 error code. */
  function PrinterFunctionData(film: byte, status: byte, result: PrinterResult, wait: byte, error: int): (d: seq<byte>)
    requires result != OtherPreliminary && 0 <= error < 0x1_0000_0000
  {
    [2, film, status, PrinterResultValue(result), wait] + BE32(error)
  }

  /** Decoding printer function info recovers the result, wait time and error code, and splits film and status bytes. */
  lemma PrinterFunctionRoundTrip(film: byte, status: byte, result: PrinterResult, wait: byte, error: int)
    requires result != OtherPreliminary && 0 <= error < 0x1_0000_0000
    ensures var r := DecodeFunctionInfo(PrinterFunctionData(film, status, result, wait, error));
      && r.Success? && r.value.functionType == PrinterFunctionInfo
      && r.value.info.Some? && r.value.info.value.PrinterFunction?
      && var info := r.value.info.value;
      && info.resultPrintRequest == result && info.printWaitTime == wait && info.printerErrType == error
      && info.filmRemain + 16 * info.batteryRemain + (if info.chargeFlg then 128 else 0) == film
      && info.filmRemain == film % 16 && info.batteryRemain == (film / 16) % 8 && info.chargeFlg == (film >= 128)
      && info.backCoverState == (status % 2 == 1)
      && info.printerOperationFlg == ((status / 2) % 2 == 1)
      && info.printerErrFlg == ((status / 4) % 2 == 1)
      && info.printerOperationInfo == status / 16
  {
    var d := PrinterFunctionData(film, status, result, wait, error);
    BE32RoundTrip(error, d, 5);
    assert d[5..9] == BE32(error);
    FilmDataDecomposes(film);
    StatusDataBits(status);
  }

  // ---- response_callback ----

  /** The decoder response_callback picks for the SID of a valid frame; unsupported SIDs store None. */
  function Dispatch(sid: Sid, data: seq<byte>): Result<Option<Response>, Fault>
  {
    if sid == SupportFunctionAndVersionInfo then var v :- DecodeVersionInfo(data); Success(Some(v))
    else if sid == DeviceInfoService then var v :- DecodeDeviceInfo(data); Success(Some(v))
    else if sid == SupportFunctionInfo then var v :- DecodeFunctionInfo(data); Success(Some(v))
    else if sid == AdditionalPrinterInfo then var v :- DecodeAdditionalInfo(data); Success(Some(v))
    else if sid == PrinterHeadLightCorrectInfo then var v :- DecodeLightCorrectInfo(data); Success(Some(v))
    else if sid == AutoSleepSettings then var v :- DecodeAutoSleepSettings(data); Success(Some(v))
    else if sid == PrintImageDownloadStart then var v :- DecodeImageTransferStart(data); Success(Some(v))
    else if sid == PrintImageDownloadData then var v :- DecodeImageFrameTransfer(data); Success(Some(v))
    else if sid == PrintImageDownloadEnd then Success(None)
    else if sid == PrintImage then var v :- DecodeImagePrint(data); Success(Some(v))
    else Success(None)
  }

  /**
   * What one notification does to the pending-response slot: the callback raises (the slot and the
   * received flag stay as they were), the frame is invalid (the flag is set, the slot keeps its old
   * response), or the frame is valid and its decoded response (or None) is stored.
   */
  datatype Delivery = Raised(fault: Fault) | Rejected | Delivered(response: Option<Response>)

  function Callback(payload: seq<byte>): (d: Delivery)
    ensures d == Rejected <==> Parse(payload).Success? && !Validate(Parse(payload).value)
    ensures d.Delivered? ==> Parse(payload).Success? && Validate(Parse(payload).value)
    ensures d.Delivered? ==> Dispatch(Parse(payload).value.sid, Parse(payload).value.data) == Success(d.response)
    ensures Parse(payload).Failure? ==> d == Raised(Parse(payload).error)
    ensures Parse(payload).Success? && Validate(Parse(payload).value) ==>
      match Dispatch(Parse(payload).value.sid, Parse(payload).value.data)
      case Failure(f) => d == Raised(f)
      case Success(v) => d == Delivered(v)
  {
    match Parse(payload)
    case Failure(f) => Raised(f)
    case Success(m) =>
      if !Validate(m) then Rejected
      else match Dispatch(m.sid, m.data)
        case Failure(f) => Raised(f)
        case Success(v) => Delivered(v)
  }

  /** A well-formed reply whose result code is not OK leaves the slot alone, whatever its SID and data. */
  lemma DeviceErrorIsRejected(sid: Sid, rc: ResultCode, data: seq<byte>)
    requires rc != Unknown && rc != Ok && 8 + |data| < 0x1_0000
    ensures Callback(InboundFrame(sid, rc, data)) == Rejected
  {
    ParseRoundTrip(sid, rc, data);
  }

  /** A well-formed OK reply carrying printer function info is delivered as that info. */
  lemma PrinterFunctionDelivered(film: byte, status: byte, result: PrinterResult, wait: byte, error: int)
    requires result != OtherPreliminary && 0 <= error < 0x1_0000_0000
    ensures var d := PrinterFunctionData(film, status, result, wait, error);
      && var c := Callback(InboundFrame(SupportFunctionInfo, Ok, d));
      && c.Delivered? && c.response.Some? && c.response.value.SupportFunctionInfoResponse?
      && c.response.value.functionType == PrinterFunctionInfo
      && c.response.value.info.Some? && c.response.value.info.value.PrinterFunction?
      && c.response.value.info.value.resultPrintRequest == result
  {
    var d := PrinterFunctionData(film, status, result, wait, error);
    ParseRoundTrip(SupportFunctionInfo, Ok, d);
    PrinterFunctionRoundTrip(film, status, result, wait, error);
  }
}
