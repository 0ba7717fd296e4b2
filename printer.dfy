/**
 * InstaxPrinter (InstaxLink.py:701-792) as an object: the printer fields its setters update in place,
 * and the connect and print_image command sequences run over an InstaxConnection. Each method is
 * proved to do what the Session function of the same step computes on values.
 */
module Printer {
  import opened Wrappers
  import opened Faults
  import opened Bytes
  import opened Catalog
  import opened Requests
  import opened Responses
  import opened Chunking
  import opened Session
  import opened Connection

  class InstaxPrinter {
    var model: seq<byte>
    var serial: seq<byte>
    var hwRevision: seq<byte>
    var imageWidth: int
    var imageHeight: int
    var maxImageSize: int
    var picType: int
    var batteryLevel: int
    var remainingPictures: int
    var printerStatus: PrinterResult
    var imageFrameSize: nat
    const connection: InstaxConnection

    /** The printer's fields as one value. */
    function State(): PrinterState
      reads this
    {
      PrinterState(model, serial, hwRevision, imageWidth, imageHeight, maxImageSize, picType,
                   batteryLevel, remainingPictures, printerStatus, imageFrameSize)
    }

    predicate Valid()
      reads this, connection
    {
      connection.Valid()
    }

    /** __init__: the fields at their initial values over a fresh connection. */
    constructor(notifications: seq<seq<byte>>)
      ensures State() == InitialState && Valid() && fresh(connection)
      ensures connection.Link() == Link(Verdicts(notifications), [], None) && connection.written == []
    {
      connection := new InstaxConnection(notifications);
      model, serial, hwRevision := [], [], [];
      imageWidth, imageHeight, maxImageSize, picType := 0, 0, 0, 0;
      batteryLevel, remainingPictures, printerStatus := 0, 0, NormalTermination;
      imageFrameSize := 0;
    }

    /** set_device_info; reading `type` off None or an untyped response raises before any field changes. */
    method SetDeviceInfo(data: Option<Response>) returns (fault: Option<Fault>)
      modifies this
      ensures match Session.SetDeviceInfo(old(State()), data)
        case Success(p) => fault == None && State() == p
        case Failure(f) => fault == Some(f) && State() == old(State())
    {
      if !HasType(data) {
        return Some(MissingField);
      }
      var v := data.value;
      if v.DeviceInfoResponse? {
        if v.infoType == ModelNumber {
          model := v.value;
        } else if v.infoType == SerialNumber {
          serial := v.value;
        } else if v.infoType == HwRevision {
          hwRevision := v.value;
        }
      }
      return None;
    }

    /** set_function_info; a reply of the two handled types without its info object raises before any field changes. */
    method SetFunctionInfo(data: Option<Response>) returns (fault: Option<Fault>)
      modifies this
      ensures match Session.SetFunctionInfo(old(State()), data)
        case Success(p) => fault == None && State() == p
        case Failure(f) => fault == Some(f) && State() == old(State())
    {
      if !HasType(data) {
        return Some(MissingField);
      }
      var v := data.value;
      if IsImageSupportReply(v) {
        if !(v.info.Some? && v.info.value.ImageSupport?) {
          return Some(MissingField);
        }
        var info := v.info.value;
        imageWidth := info.width;
        imageHeight := info.height;
        maxImageSize := info.size;
        picType := info.picType as int;
      } else if IsPrinterFunctionReply(v) {
        if !(v.info.Some? && v.info.value.PrinterFunction?) {
          return Some(MissingField);
        }
        var info := v.info.value;
        batteryLevel := info.batteryRemain;
        remainingPictures := info.filmRemain;
        printerStatus := info.resultPrintRequest;
      }
      return None;
    }

    /** set_image_transfer_info; any reply other than a transfer-start acknowledgement raises. */
    method SetImageTransferInfo(data: Option<Response>) returns (fault: Option<Fault>)
      modifies this
      ensures match Session.SetImageTransferInfo(old(State()), data)
        case Success(p) => fault == None && State() == p
        case Failure(f) => fault == Some(f) && State() == old(State())
    {
      if !(data.Some? && data.value.ImageTransferStartResponse?) {
        return Some(MissingField);
      }
      imageFrameSize := data.value.frameSize;
      return None;
    }

    /** One request_* call: send the command and report the answer, or how the session stopped. */
    method Ask(r: Request) returns (x: Exchange)
      requires Valid()
      modifies connection
      ensures Valid()
      ensures x == Session.Ask(State(), old(connection.Link()), r)
      ensures x.Replied? ==> x.link == connection.Link()
      ensures x.Stopped? ==> x.run.link == connection.Link()
    {
      var res := connection.SendCommand(r);
      match res
      case Failure(f) =>
        return Stopped(Run(State(), connection.Link(), Raises(f)));
      case Success(Hung) =>
        return Stopped(Run(State(), connection.Link(), Hangs));
      case Success(Answered(v)) =>
        return Replied(connection.Link(), v);
    }

    /** A device-info request whose answer goes through set_device_info. */
    method RequestDeviceInfo(t: DeviceInfoType) returns (outcome: Outcome)
      requires Valid()
      modifies this, connection
      ensures Valid()
      ensures Run(State(), connection.Link(), outcome) == DeviceQuery(old(State()), old(connection.Link()), t)
    {
      var x := Ask(DeviceInfoRequest(t));
      if x.Stopped? {
        return x.run.outcome;
      }
      var fault := SetDeviceInfo(x.response);
      if fault.Some? {
        return Raises(fault.value);
      }
      return Finished;
    }

    /** A function-info request whose answer goes through set_function_info. */
    method RequestFunctionInfo(t: SupportFunctionInfoType) returns (outcome: Outcome)
      requires Valid()
      modifies this, connection
      ensures Valid()
      ensures Run(State(), connection.Link(), outcome) == FunctionQuery(old(State()), old(connection.Link()), t)
    {
      var x := Ask(SupportFunctionInfoRequest(t));
      if x.Stopped? {
        return x.run.outcome;
      }
      var fault := SetFunctionInfo(x.response);
      if fault.Some? {
        return Raises(fault.value);
      }
      return Finished;
    }

    /** connect, once the link is up: the three device strings, then the image limits and the printer status. */
    method Connect() returns (outcome: Outcome)
      requires Valid()
      modifies this, connection
      ensures Valid()
      ensures Run(State(), connection.Link(), outcome) == Session.Connect(old(State()), old(connection.Link()))
    {
      outcome := RequestDeviceInfo(ModelNumber);
      if outcome != Finished {
        return;
      }
      outcome := RequestDeviceInfo(SerialNumber);
      if outcome != Finished {
        return;
      }
      outcome := RequestDeviceInfo(HwRevision);
      if outcome != Finished {
        return;
      }
      outcome := RequestFunctionInfo(ImageSupportInfo);
      if outcome != Finished {
        return;
      }
      outcome := RequestFunctionInfo(PrinterFunctionInfo);
    }

    /** The frame loop of print_image, then the transfer-end command. */
    method TransferFrames(frames: seq<seq<byte>>) returns (outcome: Outcome)
      requires Valid()
      modifies connection
      ensures Valid()
      ensures Run(State(), connection.Link(), outcome) == Transfer(State(), old(connection.Link()), frames)
    {
      ghost var start := connection.Link();
      var i := 0;
      while i < |frames|
        invariant i <= |frames| && Valid()
        invariant SendFrames(State(), connection.Link(), frames, i) == SendFrames(State(), start, frames, 0)
      {
        var x := Ask(ImageFrameTransferRequest(i, frames[i]));
        if x.Stopped? {
          return x.run.outcome;
        }
        if !(x.response.Some? && x.response.value.ImageFrameTransferResponse?) {
          // reading frameNumber off the answer raises
          return Raises(MissingField);
        }
        i := i + 1;
      }
      var x := Ask(ImageTransferEndRequest);
      if x.Stopped? {
        return x.run.outcome;
      }
      return Finished;
    }

    /** print_image up to the print command: check the image, start the transfer, slice, transfer. */
    method UploadImage(img: ImageFile) returns (outcome: Outcome)
      requires Valid()
      modifies this, connection
      ensures Valid()
      ensures Run(State(), connection.Link(), outcome) == Upload(old(State()), old(connection.Link()), img)
    {
      if !CheckImage(State(), img) {
        return NotPrintable;
      }
      var x := Ask(StartRequest(|img.bytes|));
      if x.Stopped? {
        return x.run.outcome;
      }
      var fault := SetImageTransferInfo(x.response);
      if fault.Some? {
        return Raises(fault.value);
      }
      var frames := SliceImage(img.bytes, imageFrameSize);
      if frames.Failure? {
        return Raises(frames.error);
      }
      outcome := TransferFrames(frames.value);
    }

    /** The polling loop of print_image: refresh the printer function info while the print is processing. */
    method PollStatus() returns (outcome: Outcome)
      requires Valid()
      modifies this, connection
      ensures Valid()
      ensures Run(State(), connection.Link(), outcome) == Poll(old(State()), old(connection.Link()))
    {
      while printerStatus == PrinterProcessing
        invariant Valid()
        invariant Poll(State(), connection.Link()) == Poll(old(State()), old(connection.Link()))
        decreases |connection.notifications|
      {
        outcome := RequestFunctionInfo(PrinterFunctionInfo);
        if outcome != Finished {
          return;
        }
        // the one-second sleep between polls is not modelled
      }
      return Finished;
    }

    /** print_image as written: the print answer is formatted with %i, which raises before any polling. */
    method PrintImageAsWritten(img: ImageFile) returns (outcome: Outcome)
      requires Valid()
      modifies this, connection
      ensures Valid()
      ensures Run(State(), connection.Link(), outcome) == PrintSequenceAsWritten(old(State()), old(connection.Link()), img)
    {
      outcome := UploadImage(img);
      if outcome != Finished {
        return;
      }
      var x := Ask(ImagePrintRequest);
      if x.Stopped? {
        return x.run.outcome;
      }
      return Raises(FormatType);
    }

    /** print_image with the print answer read as intended: print, refresh the status, poll. */
    method PrintImage(img: ImageFile) returns (outcome: Outcome)
      requires Valid()
      modifies this, connection
      ensures Valid()
      ensures Run(State(), connection.Link(), outcome) == PrintSequence(old(State()), old(connection.Link()), img)
    {
      outcome := UploadImage(img);
      if outcome != Finished {
        return;
      }
      var x := Ask(ImagePrintRequest);
      if x.Stopped? {
        return x.run.outcome;
      }
      if !(x.response.Some? && x.response.value.ImagePrintResponse?) {
        // reading the estimated time off the answer raises
        return Raises(MissingField);
      }
      outcome := RequestFunctionInfo(PrinterFunctionInfo);
      if outcome != Finished {
        return;
      }
      outcome := PollStatus();
    }
  }
}
