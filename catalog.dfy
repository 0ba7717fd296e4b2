/** The closed tables of the protocol: service identifiers, result codes and the small enumerations (InstaxLink.py:14-173). */
module Catalog {
  import opened Wrappers
  import opened Bytes

  /** SID (InstaxLink.py:14-76): an enumeration whose values are (category, operation) byte pairs. */
  datatype SidPair = SidPair(category: byte, operation: byte)

  /** The pairs the SID table lists, category by category. */
  predicate InSidTable(category: int, operation: int)
  {
    match category
    case 0 => 0 <= operation <= 2
    case 1 => 0 <= operation <= 3
    case 16 => 0 <= operation <= 3 || operation == 128 || operation == 129
    case 32 => 0 <= operation <= 3 || operation == 16 || operation == 128 || operation == 129
    case 48 => 0 <= operation <= 4 || operation == 16 || operation == 128 || operation == 129
    case 128 => 0 <= operation <= 1
    case 129 => 0 <= operation <= 8
    case 138 => 0 <= operation <= 2 || operation == 16 || 32 <= operation <= 34 || operation == 48
    case 131 => 0 <= operation <= 4
    case 132 => 0 <= operation <= 8
    case _ => false
  }

  /** A SID is a pair the table lists; the members are the constants below. */
  type Sid = s: SidPair | InSidTable(s.category, s.operation) witness SidPair(0, 0)

  const SupportFunctionAndVersionInfo: Sid := SidPair(0, 0)
  const DeviceInfoService: Sid := SidPair(0, 1)
  const SupportFunctionInfo: Sid := SidPair(0, 2)
  const ShutDown: Sid := SidPair(1, 0)
  const Reset: Sid := SidPair(1, 1)
  const AutoSleepSettings: Sid := SidPair(1, 2)
  const BleConnect: Sid := SidPair(1, 3)
  const PrintImageDownloadStart: Sid := SidPair(16, 0)
  const PrintImageDownloadData: Sid := SidPair(16, 1)
  const PrintImageDownloadEnd: Sid := SidPair(16, 2)
  const PrintImageDownloadCancel: Sid := SidPair(16, 3)
  const PrintImage: Sid := SidPair(16, 128)
  const RejectFilmCover: Sid := SidPair(16, 129)
  const FwDownloadStart: Sid := SidPair(32, 0)
  const FwDownloadData: Sid := SidPair(32, 1)
  const FwDownloadEnd: Sid := SidPair(32, 2)
  const FwUpgradeExit: Sid := SidPair(32, 3)
  const FwProgramInfo: Sid := SidPair(32, 16)
  const FwDataBackup: Sid := SidPair(32, 128)
  const FwUpdateRequest: Sid := SidPair(32, 129)
  const XyzAxisInfo: Sid := SidPair(48, 0)
  const LedPatternSettings: Sid := SidPair(48, 1)
  const AxisActionSettings: Sid := SidPair(48, 2)
  const LedPatternSettingsDouble: Sid := SidPair(48, 3)
  const PowerOnoffLedSetting: Sid := SidPair(48, 4)
  const AdditionalPrinterInfo: Sid := SidPair(48, 16)
  const PrinterHeadLightCorrectInfo: Sid := SidPair(48, 128)
  const PrinterHeadLightCorrectSettings: Sid := SidPair(48, 129)
  const CameraSettings: Sid := SidPair(128, 0)
  const CameraSettingsGet: Sid := SidPair(128, 1)
  const UrlUploadInfo: Sid := SidPair(129, 0)
  const UrlPictureUploadStart: Sid := SidPair(129, 1)
  const UrlPictureUpload: Sid := SidPair(129, 2)
  const UrlPictureUploadEnd: Sid := SidPair(129, 3)
  const UrlAudioUploadStart: Sid := SidPair(129, 4)
  const UrlAudioUpload: Sid := SidPair(129, 5)
  const UrlAudioUploadEnd: Sid := SidPair(129, 6)
  const UrlUploadAddress: Sid := SidPair(129, 7)
  const UrlUploadDataComplete: Sid := SidPair(129, 8)
  const LiveViewStart: Sid := SidPair(138, 0)
  const LiveViewReceive: Sid := SidPair(138, 1)
  const LiveViewStop: Sid := SidPair(138, 2)
  const LiveViewTakePicture: Sid := SidPair(138, 16)
  const PostViewUploadStart: Sid := SidPair(138, 32)
  const PostViewUpload: Sid := SidPair(138, 33)
  const PostViewUploadEnd: Sid := SidPair(138, 34)
  const PostViewPrint: Sid := SidPair(138, 48)
  const FramePictureDownloadStart: Sid := SidPair(131, 0)
  const FramePictureDownload: Sid := SidPair(131, 1)
  const FramePictureDownloadEnd: Sid := SidPair(131, 2)
  const FramePictureNameSetting: Sid := SidPair(131, 3)
  const FramePictureNameGet: Sid := SidPair(131, 4)
  const CameraLogSubtotalStart: Sid := SidPair(132, 0)
  const CameraLogSubtotalData: Sid := SidPair(132, 1)
  const CameraLogSubtotalClear: Sid := SidPair(132, 2)
  const CameraLogDateStart: Sid := SidPair(132, 3)
  const CameraLogDateData: Sid := SidPair(132, 4)
  const CameraLogDateClear: Sid := SidPair(132, 5)
  const CameraLogFilterStart: Sid := SidPair(132, 6)
  const CameraLogFilterData: Sid := SidPair(132, 7)
  const CameraLogFilterClear: Sid := SidPair(132, 8)

  /** The (category, operation) pair of a SID. */
  function SidValue(s: Sid): (byte, byte)
  {
    (s.category, s.operation)
  }

  /** SID((category, operation)): the table lookup, which raises for a pair not in the table. */
  function SidOf(category: int, operation: int): (r: Option<Sid>)
    ensures r.Some? <==> InSidTable(category, operation)
    ensures r.Some? ==> SidValue(r.value) == (category, operation)
  {
    if InSidTable(category, operation) then Some(SidPair(category, operation)) else None
  }

  /** Every SID is found again from its own pair. */
  lemma SidOfValue(s: Sid)
    ensures SidOf(SidValue(s).0, SidValue(s).1) == Some(s)
  {
  }

  /** The values of the ResultCode table (InstaxLink.py:78-109); -1 (UNKNOWN) marks an outbound message. */
  predicate InResultCodeTable(v: int)
  {
    v == -1 || 0 <= v <= 2 || 127 <= v <= 133 || 144 <= v <= 147 || 160 <= v <= 163
    || 176 <= v <= 181 || 192 <= v <= 194 || 240 <= v <= 242
  }

  /** ResultCode: the device-reported outcome byte of an inbound frame; the members are the constants below. */
  type ResultCode = v: int | InResultCodeTable(v) witness 0

  const Ok: ResultCode := 0
  const PrinterBusy: ResultCode := 1
  const CameraBusy: ResultCode := 2
  const PendingResponse: ResultCode := 127
  const SidNotSupported: ResultCode := 128
  const ParameterError: ResultCode := 129
  const SequenceError: ResultCode := 130
  const OtherUsedError: ResultCode := 131
  const SecurityCodeError: ResultCode := 132
  const TimeOutError: ResultCode := 133
  const LowPowerError: ResultCode := 144
  const BatteryNoMountError: ResultCode := 145
  const BatteryOverheatError: ResultCode := 146
  const BatteryChargeFaultError: ResultCode := 147
  const FirmwareNoUpdateDataError: ResultCode := 160
  const FirmwareUpdateDataError: ResultCode := 161
  const FirmwareUpdateDataFailureError: ResultCode := 162
  const FirmwareUpdateSdcardError: ResultCode := 163
  const CameraCoverOpenError: ResultCode := 176
  const CameraNoFilmError: ResultCode := 177
  const CameraNoPaperError: ResultCode := 178
  const CameraImageError: ResultCode := 179
  const CameraJammedError: ResultCode := 180
  const CameraPrintFaultError: ResultCode := 181
  const MemoryFullError: ResultCode := 192
  const PostViewPrintError: ResultCode := 193
  const NowPrintingError: ResultCode := 194
  const SwAbnormalityError: ResultCode := 240
  const HwAbnormalityError: ResultCode := 241
  const MechaAbnormalityError: ResultCode := 242
  const Unknown: ResultCode := -1

  function ResultCodeValue(rc: ResultCode): (v: int)
    ensures rc != Unknown <==> 0 <= v < 0x100
  {
    assert InResultCodeTable(rc);
    rc
  }

  /** ResultCode(value): the table lookup, which raises for a value not in the table. */
  function ResultCodeOf(value: int): (r: Option<ResultCode>)
    ensures r.Some? <==> InResultCodeTable(value)
    ensures r.Some? ==> ResultCodeValue(r.value) == value
  {
    if InResultCodeTable(value) then Some(value) else None
  }

  /** Every result code is found again from its value. */
  lemma ResultCodeOfValue(rc: ResultCode)
    ensures ResultCodeOf(ResultCodeValue(rc)) == Some(rc)
  {
  }

  /** Which device-information string a device-info request asks for (InstaxLink.py:111-120). */
  datatype DeviceInfoType =
    | ManufacturerName
    | ModelNumber
    | SerialNumber
    | HwRevision
    | FwRevision
    | SwRevision
    | SystemId
    | RegulatoryData
    | PnpId

  function DeviceInfoTypeValue(t: DeviceInfoType): (v: int)
    ensures 0 <= v < 0x100
  {
    match t
    case ManufacturerName => 0
    case ModelNumber => 1
    case SerialNumber => 2
    case HwRevision => 3
    case FwRevision => 4
    case SwRevision => 5
    case SystemId => 6
    case RegulatoryData => 7
    case PnpId => 8
  }

  /** DeviceInfoType(value): raises for a value not in the table. */
  function DeviceInfoTypeOf(value: int): (r: Option<DeviceInfoType>)
    ensures r.Some? ==> DeviceInfoTypeValue(r.value) == value
    ensures r.None? ==> forall t: DeviceInfoType :: DeviceInfoTypeValue(t) != value
  {
    match value
    case 0 => Some(ManufacturerName)
    case 1 => Some(ModelNumber)
    case 2 => Some(SerialNumber)
    case 3 => Some(HwRevision)
    case 4 => Some(FwRevision)
    case 5 => Some(SwRevision)
    case 6 => Some(SystemId)
    case 7 => Some(RegulatoryData)
    case 8 => Some(PnpId)
    case _ => None
  }

  /** Sub-type of a support-function-info request and response (InstaxLink.py:122-128). */
  datatype SupportFunctionInfoType =
    | ImageSupportInfo
    | BatteryInfo
    | PrinterFunctionInfo
    | PrintHistoryInfo
    | CameraFunctionInfo
    | CameraHistoryInfo

  function SupportFunctionInfoTypeValue(t: SupportFunctionInfoType): (v: int)
    ensures 0 <= v < 0x100
  {
    match t
    case ImageSupportInfo => 0
    case BatteryInfo => 1
    case PrinterFunctionInfo => 2
    case PrintHistoryInfo => 3
    case CameraFunctionInfo => 4
    case CameraHistoryInfo => 5
  }

  /** SupportFunctionInfoType(value): raises for a value not in the table. */
  function SupportFunctionInfoTypeOf(value: int): (r: Option<SupportFunctionInfoType>)
    ensures r.Some? ==> SupportFunctionInfoTypeValue(r.value) == value
    ensures r.None? ==> forall t: SupportFunctionInfoType :: SupportFunctionInfoTypeValue(t) != value
  {
    match value
    case 0 => Some(ImageSupportInfo)
    case 1 => Some(BatteryInfo)
    case 2 => Some(PrinterFunctionInfo)
    case 3 => Some(PrintHistoryInfo)
    case 4 => Some(CameraFunctionInfo)
    case 5 => Some(CameraHistoryInfo)
    case _ => None
  }

  /** Picture type byte of an image transfer (the file extension it carries is not modelled) (InstaxLink.py:130-135). */
  datatype PictureType =
    | PicTypeNone
    | Bmp
    | Jpeg
    | Png
    | LineOrder

  function PictureTypeValue(t: PictureType): (v: int)
    ensures 0 <= v < 0x100
  {
    match t
    case PicTypeNone => 0
    case Bmp => 1
    case Jpeg => 2
    case Png => 4
    case LineOrder => 16
  }

  /** PictureType(value): raises for a value not in the table. */
  function PictureTypeOf(value: int): (r: Option<PictureType>)
    ensures r.Some? ==> PictureTypeValue(r.value) == value
    ensures r.None? ==> forall t: PictureType :: PictureTypeValue(t) != value
  {
    match value
    case 0 => Some(PicTypeNone)
    case 1 => Some(Bmp)
    case 2 => Some(Jpeg)
    case 4 => Some(Png)
    case 16 => Some(LineOrder)
    case _ => None
  }

  /** Print option byte of an image transfer (InstaxLink.py:137-143). */
  datatype PicturePrintOption =
    | PicOpNone
    | OneStPrt
    | ForcedPrt
    | OnlyOne
    | NoSave
    | Lut3d

  function PicturePrintOptionValue(t: PicturePrintOption): (v: int)
    ensures 0 <= v < 0x100
  {
    match t
    case PicOpNone => 0
    case OneStPrt => 16
    case ForcedPrt => 32
    case OnlyOne => 64
    case NoSave => 128
    case Lut3d => 8
  }

  /** PicturePrintOption(value): raises for a value not in the table. */
  function PicturePrintOptionOf(value: int): (r: Option<PicturePrintOption>)
    ensures r.Some? ==> PicturePrintOptionValue(r.value) == value
    ensures r.None? ==> forall t: PicturePrintOption :: PicturePrintOptionValue(t) != value
  {
    match value
    case 0 => Some(PicOpNone)
    case 16 => Some(OneStPrt)
    case 32 => Some(ForcedPrt)
    case 64 => Some(OnlyOne)
    case 128 => Some(NoSave)
    case 8 => Some(Lut3d)
    case _ => None
  }

  /** Result of the last print request, as reported in printer function info (InstaxLink.py:145-151). */
  datatype PrinterResult =
    | NormalTermination
    | CameraBackDoorOpen
    | NoFilmError
    | PrinterProcessing
    | ErrorFlag
    | OtherPreliminary

  function PrinterResultValue(t: PrinterResult): int
  {
    match t
    case NormalTermination => 0
    case CameraBackDoorOpen => 1
    case NoFilmError => 2
    case PrinterProcessing => 127
    case ErrorFlag => 240
    case OtherPreliminary => -1
  }

  /** PrinterResult(value): raises for a value not in the table. */
  function PrinterResultOf(value: int): (r: Option<PrinterResult>)
    ensures r.Some? ==> PrinterResultValue(r.value) == value
    ensures r.None? ==> forall t: PrinterResult :: PrinterResultValue(t) != value
  {
    match value
    case 0 => Some(NormalTermination)
    case 1 => Some(CameraBackDoorOpen)
    case 2 => Some(NoFilmError)
    case 127 => Some(PrinterProcessing)
    case 240 => Some(ErrorFlag)
    case -1 => Some(OtherPreliminary)
    case _ => None
  }

  /** Sub-type of an additional-printer-info request and response (InstaxLink.py:153-155). */
  datatype AdditionalPrinterInfoType =
    | VoltageInfo
    | ColorInfo

  function AdditionalPrinterInfoTypeValue(t: AdditionalPrinterInfoType): (v: int)
    ensures 0 <= v < 0x100
  {
    match t
    case VoltageInfo => 0
    case ColorInfo => 1
  }

  /** AdditionalPrinterInfoType(value): raises for a value not in the table. */
  function AdditionalPrinterInfoTypeOf(value: int): (r: Option<AdditionalPrinterInfoType>)
    ensures r.Some? ==> AdditionalPrinterInfoTypeValue(r.value) == value
    ensures r.None? ==> forall t: AdditionalPrinterInfoType :: AdditionalPrinterInfoTypeValue(t) != value
  {
    match value
    case 0 => Some(VoltageInfo)
    case 1 => Some(ColorInfo)
    case _ => None
  }

  /** Colour variant reported in colour info (InstaxLink.py:157-160). */
  datatype CameraColor =
    | White
    | Brown
    | UnknownColor

  function CameraColorValue(t: CameraColor): int
  {
    match t
    case White => 0
    case Brown => 1
    case UnknownColor => -1
  }

  /** CameraColor(value): raises for a value not in the table. */
  function CameraColorOf(value: int): (r: Option<CameraColor>)
    ensures r.Some? ==> CameraColorValue(r.value) == value
    ensures r.None? ==> forall t: CameraColor :: CameraColorValue(t) != value
  {
    match value
    case 0 => Some(White)
    case 1 => Some(Brown)
    case -1 => Some(UnknownColor)
    case _ => None
  }

  /** Mode byte of an auto-sleep settings request (InstaxLink.py:162-168). */
  datatype AutoSleepSettingsMode =
    | GetCurrentSleepSetting
    | GetProvitionalSleepSetting
    | GetDefaultSleepSetting
    | ExtendCurrentSleepSetting
    | SetProvitionalSleepSetting
    | SetDefaultSleepSetting

  function AutoSleepSettingsModeValue(t: AutoSleepSettingsMode): (v: int)
    ensures 0 <= v < 0x100
  {
    match t
    case GetCurrentSleepSetting => 0
    case GetProvitionalSleepSetting => 1
    case GetDefaultSleepSetting => 2
    case ExtendCurrentSleepSetting => 3
    case SetProvitionalSleepSetting => 4
    case SetDefaultSleepSetting => 5
  }

  /** AutoSleepSettingsMode(value): raises for a value not in the table. */
  function AutoSleepSettingsModeOf(value: int): (r: Option<AutoSleepSettingsMode>)
    ensures r.Some? ==> AutoSleepSettingsModeValue(r.value) == value
    ensures r.None? ==> forall t: AutoSleepSettingsMode :: AutoSleepSettingsModeValue(t) != value
  {
    match value
    case 0 => Some(GetCurrentSleepSetting)
    case 1 => Some(GetProvitionalSleepSetting)
    case 2 => Some(GetDefaultSleepSetting)
    case 3 => Some(ExtendCurrentSleepSetting)
    case 4 => Some(SetProvitionalSleepSetting)
    case 5 => Some(SetDefaultSleepSetting)
    case _ => None
  }

  /** Print head type reported in light-correction info (InstaxLink.py:170-173). */
  datatype PrinterMountedHeadType =
    | Futaba
    | Tohoku
    | UnknownHead

  function PrinterMountedHeadTypeValue(t: PrinterMountedHeadType): int
  {
    match t
    case Futaba => 0
    case Tohoku => 1
    case UnknownHead => -1
  }

  /** PrinterMountedHeadType(value): raises for a value not in the table. */
  function PrinterMountedHeadTypeOf(value: int): (r: Option<PrinterMountedHeadType>)
    ensures r.Some? ==> PrinterMountedHeadTypeValue(r.value) == value
    ensures r.None? ==> forall t: PrinterMountedHeadType :: PrinterMountedHeadTypeValue(t) != value
  {
    match value
    case 0 => Some(Futaba)
    case 1 => Some(Tohoku)
    case -1 => Some(UnknownHead)
    case _ => None
  }

  // ---- Each lookup finds a member again from its own value ----

  lemma DeviceInfoTypeOfValue(t: DeviceInfoType)
    ensures DeviceInfoTypeOf(DeviceInfoTypeValue(t)) == Some(t)
  {
  }

  lemma CameraColorOfValue(c: CameraColor)
    ensures CameraColorOf(CameraColorValue(c)) == Some(c)
  {
  }

  lemma PrinterMountedHeadTypeOfValue(h: PrinterMountedHeadType)
    ensures PrinterMountedHeadTypeOf(PrinterMountedHeadTypeValue(h)) == Some(h)
  {
  }
}
