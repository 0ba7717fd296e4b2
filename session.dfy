/**
 * The printing session of InstaxPrinter (InstaxLink.py:701-792) as a state machine over values: the
 * printer's fields, the link to the device, and the commands print_image issues in order.
 *
 * The device is a script of notifications, each already judged by response_callback (Responses.Callback
 * computes that verdict from the notification's bytes). A command writes its frame and then consumes
 * notifications until one ends the wait (InstaxLink.py:611-649); the script running out is the
 * endless spin-wait of send_command.
 */
module Session {
  import opened Wrappers
  import opened Faults
  import opened Bytes
  import opened Catalog
  import opened Requests
  import opened Responses
  import opened Chunking

  /** The InstaxPrinter fields the protocol reads and writes (device strings kept as raw bytes). */
  datatype PrinterState = PrinterState(
    model: seq<byte>, serial: seq<byte>, hwRevision: seq<byte>,
    imageWidth: int, imageHeight: int, maxImageSize: int, picType: int,
    batteryLevel: int, remainingPictures: int, printerStatus: PrinterResult,
    imageFrameSize: nat)

  /** The fields as InstaxPrinter.__init__ sets them; picType 0 is PICINF_PICTYPE_NONE. */
  const InitialState := PrinterState([], [], [], 0, 0, 0, 0, 0, 0, NormalTermination, 0)

  /**
   * The connection as the printer sees it: the verdicts on the notifications the device will send, in
   * order, the commands written so far, and the response that response_callback last stored.
   */
  datatype Link = Link(inbox: seq<Delivery>, sent: seq<Request>, slot: Option<Response>)

  datatype Answer = Hung | Answered(response: Option<Response>)

  /**
   * send_command's wait: a notification whose callback raises is lost and the wait goes on; an invalid
   * frame ends the wait and send_command returns the response stored before; a valid one is stored and
   * returned. No notification left means the wait never ends.
   */
  function Await(l: Link): (r: (Link, Answer))
    decreases |l.inbox|
    ensures r.0.sent == l.sent && |r.0.inbox| <= |l.inbox|
    ensures r.1.Answered? ==> |r.0.inbox| < |l.inbox| && r.1.response == r.0.slot
    ensures r.1.Hung? ==> r.0.inbox == [] && r.0.slot == l.slot
  {
    if l.inbox == [] then (l, Hung)
    else
      var rest := l.(inbox := l.inbox[1..]);
      match l.inbox[0]
      case Raised(_) => Await(rest)
      case Rejected => (rest, Answered(l.slot))
      case Delivered(v) => (rest.(slot := v), Answered(v))
  }

  /**
   * A request_* call: build the request's frame (struct.pack raises on a field out of range), send it,
   * and wait for the answer.
   */
  function Command(l: Link, r: Request): (res: (Link, Result<Answer, Fault>))
    ensures res.1.Failure? <==> !Encodable(r)
    ensures res.1.Failure? ==> res.0 == l && res.1.error == OutOfRange
    ensures res.1.Success? ==> res.0.sent == l.sent + [r]
    ensures res.1.Success? && res.1.value.Answered? ==> |res.0.inbox| < |l.inbox|
  {
    if !Encodable(r) then (l, Failure(OutOfRange))
    else
      var (l1, a) := Await(l.(sent := l.sent + [r]));
      (l1, Success(a))
  }

  /** How a session ends: it ran to completion, the image was refused, send_command waits forever, or something raised. */
  datatype Outcome = Finished | NotPrintable | Hangs | Raises(fault: Fault)

  datatype Run = Run(printer: PrinterState, link: Link, outcome: Outcome)

  /** One command inside a session: either its answer, or the end of the session. */
  datatype Exchange = Replied(link: Link, response: Option<Response>) | Stopped(run: Run)

  function Ask(p: PrinterState, l: Link, r: Request): (x: Exchange)
    ensures x.Replied? ==> x.link.sent == l.sent + [r] && |x.link.inbox| < |l.inbox|
    ensures x.Stopped? ==> x.run.printer == p && (x.run.outcome.Raises? || x.run.outcome == Hangs)
    ensures x.Stopped? && x.run.outcome.Raises? ==> !Encodable(r) && x.run.link == l
    ensures x.Stopped? && x.run.outcome == Hangs ==> x.run.link.sent == l.sent + [r]
    ensures !Encodable(r) ==> x == Stopped(Run(p, l, Raises(OutOfRange)))
  {
    var (l1, a) := Command(l, r);
    match a
    case Failure(f) => Stopped(Run(p, l1, Raises(f)))
    case Success(Hung) => Stopped(Run(p, l1, Hangs))
    case Success(Answered(v)) => Replied(l1, v)
  }

  // ---- The setters of InstaxPrinter ----

  /** The response objects that have a `type` attribute; reading it on any other object, or on None, raises. */
  predicate HasType(v: Option<Response>)
  {
    v.Some? && (v.value.DeviceInfoResponse? || v.value.SupportFunctionInfoResponse? || v.value.AdditionalPrinterInfoResponse?)
  }

  /** set_device_info: model, serial or hardware revision from a device-info reply of that type; nothing else changes. */
  function SetDeviceInfo(p: PrinterState, data: Option<Response>): (r: Result<PrinterState, Fault>)
    ensures r.Success? <==> HasType(data)
    ensures r.Failure? ==> r.error == MissingField
    ensures r.Success? ==> r.value.(model := p.model, serial := p.serial, hwRevision := p.hwRevision) == p
    ensures r.Success? ==> var v := data.value;
      && r.value.model == (if v.DeviceInfoResponse? && v.infoType == ModelNumber then v.value else p.model)
      && r.value.serial == (if v.DeviceInfoResponse? && v.infoType == SerialNumber then v.value else p.serial)
      && r.value.hwRevision == (if v.DeviceInfoResponse? && v.infoType == HwRevision then v.value else p.hwRevision)
  {
    if !HasType(data) then Failure(MissingField)
    else match data.value
      case DeviceInfoResponse(t, value) =>
        Success(match t
          case ModelNumber => p.(model := value)
          case SerialNumber => p.(serial := value)
          case HwRevision => p.(hwRevision := value)
          case _ => p)
      // a SupportFunctionInfoType or AdditionalPrinterInfoType member never equals a DeviceInfoType member
      case _ => Success(p)
  }

  predicate IsImageSupportReply(v: Response)
  {
    v.SupportFunctionInfoResponse? && v.functionType == ImageSupportInfo
  }

  predicate IsPrinterFunctionReply(v: Response)
  {
    v.SupportFunctionInfoResponse? && v.functionType == PrinterFunctionInfo
  }

  /**
   * set_function_info: image limits from an image-support reply, battery, film and print status from a
   * printer-function reply; any other typed reply changes nothing.
   */
  function SetFunctionInfo(p: PrinterState, data: Option<Response>): (r: Result<PrinterState, Fault>)
    ensures r.Success? <==> (HasType(data)
      && (IsImageSupportReply(data.value) ==> data.value.info.Some? && data.value.info.value.ImageSupport?)
      && (IsPrinterFunctionReply(data.value) ==> data.value.info.Some? && data.value.info.value.PrinterFunction?))
    ensures r.Failure? ==> r.error == MissingField
    ensures r.Success? ==> r.value.(imageWidth := p.imageWidth, imageHeight := p.imageHeight,
      maxImageSize := p.maxImageSize, picType := p.picType, batteryLevel := p.batteryLevel,
      remainingPictures := p.remainingPictures, printerStatus := p.printerStatus) == p
    ensures r.Success? && IsImageSupportReply(data.value) ==> var i := data.value.info.value;
      r.value.imageWidth == i.width && r.value.imageHeight == i.height && r.value.maxImageSize == i.size
      && r.value.picType == i.picType
    ensures r.Success? && IsPrinterFunctionReply(data.value) ==> var i := data.value.info.value;
      r.value.batteryLevel == i.batteryRemain && r.value.remainingPictures == i.filmRemain
      && r.value.printerStatus == i.resultPrintRequest
    ensures r.Success? && !IsImageSupportReply(data.value) && !IsPrinterFunctionReply(data.value) ==> r.value == p
  {
    if !HasType(data) then Failure(MissingField)
    else match data.value
      case SupportFunctionInfoResponse(ImageSupportInfo, info) =>
        (match info
          case Some(ImageSupport(width, height, picType, _, size)) =>
            Success(p.(imageWidth := width, imageHeight := height, maxImageSize := size, picType := picType))
          case _ => Failure(MissingField))
      case SupportFunctionInfoResponse(PrinterFunctionInfo, info) =>
        (match info
          case Some(PrinterFunction(film, battery, _, _, _, _, _, _, _, result)) =>
            Success(p.(batteryLevel := battery, remainingPictures := film, printerStatus := result))
          case _ => Failure(MissingField))
      case _ => Success(p)
  }

  /** set_image_transfer_info: the frame size of a transfer-start reply; any other object raises. */
  function SetImageTransferInfo(p: PrinterState, data: Option<Response>): (r: Result<PrinterState, Fault>)
    ensures r.Success? <==> data.Some? && data.value.ImageTransferStartResponse?
    ensures r.Failure? ==> r.error == MissingField
    ensures r.Success? ==> r.value.imageFrameSize == data.value.frameSize && r.value.(imageFrameSize := p.imageFrameSize) == p
  {
    match data
    case Some(ImageTransferStartResponse(frameSize)) => Success(p.(imageFrameSize := frameSize))
    case _ => Failure(MissingField)
  }

  // ---- check_image and print_image ----

  /** What check_image looks at: the decoded size and format, and the file's size in bytes. */
  datatype ImageFile = ImageFile(width: int, height: int, format: string, bytes: seq<byte>)

  /** check_image: the image has the printer's dimensions, is a JPEG and fits its maximum size. */
  predicate CheckImage(p: PrinterState, img: ImageFile)
  {
    img.width == p.imageWidth && img.height == p.imageHeight && img.format == "JPEG" && |img.bytes| <= p.maxImageSize
  }

  function StartRequest(size: int): Request
  {
    ImageTransferStartRequest(Jpeg, PicOpNone, size)
  }

  const StatusRequest: Request := SupportFunctionInfoRequest(PrinterFunctionInfo)

  /** The frame-transfer commands for the frames of an image, numbered from 0. */
  function FrameRequests(frames: seq<seq<byte>>): (rs: seq<Request>)
    ensures |rs| == |frames|
    ensures forall k :: 0 <= k < |rs| ==> rs[k] == ImageFrameTransferRequest(k, frames[k])
  {
    seq(|frames|, k requires 0 <= k < |frames| => ImageFrameTransferRequest(k, frames[k]))
  }

  function Polls(n: nat): (rs: seq<Request>)
    ensures |rs| == n && forall k :: 0 <= k < n ==> rs[k] == StatusRequest
  {
    seq(n, _ => StatusRequest)
  }

  /** The commands a print is meant to issue: start, every frame, end, print, then the status polls. */
  function PrintRequests(size: int, frames: seq<seq<byte>>, polls: nat): seq<Request>
  {
    [StartRequest(size)] + FrameRequests(frames) + [ImageTransferEndRequest, ImagePrintRequest] + Polls(polls)
  }

  /** The frame loop of print_image: send frame i and read the frame number of the answer. */
  function SendFrames(p: PrinterState, l: Link, frames: seq<seq<byte>>, i: nat): (r: Run)
    requires i <= |frames|
    decreases |frames| - i
    ensures r.printer == p && r.outcome != NotPrintable
  {
    if i == |frames| then Run(p, l, Finished)
    else match Ask(p, l, ImageFrameTransferRequest(i, frames[i]))
      case Stopped(run) => run
      case Replied(l1, v) =>
        if v.Some? && v.value.ImageFrameTransferResponse? then SendFrames(p, l1, frames, i + 1)
        else Run(p, l1, Raises(MissingField))
  }

  /** The frame loop followed by the transfer-end command, whose answer is not looked at. */
  function Transfer(p: PrinterState, l: Link, frames: seq<seq<byte>>): (r: Run)
    ensures r.printer == p && r.outcome != NotPrintable
  {
    var t := SendFrames(p, l, frames, 0);
    if t.outcome != Finished then t
    else match Ask(t.printer, t.link, ImageTransferEndRequest)
      case Stopped(run) => run
      case Replied(l2, _) => Run(t.printer, l2, Finished)
  }

  /**
   * print_image up to the print command: check the image, start the transfer with its size, take the
   * frame size from the answer, slice, then transfer.
   */
  function Upload(p: PrinterState, l: Link, img: ImageFile): (r: Run)
    ensures !CheckImage(p, img) ==> r == Run(p, l, NotPrintable)
    ensures CheckImage(p, img) ==> r.outcome != NotPrintable
    ensures r.printer == p.(imageFrameSize := r.printer.imageFrameSize)
  {
    if !CheckImage(p, img) then Run(p, l, NotPrintable)
    else match Ask(p, l, StartRequest(|img.bytes|))
      case Stopped(run) => run
      case Replied(l1, v) =>
        match SetImageTransferInfo(p, v)
        case Failure(f) => Run(p, l1, Raises(f))
        case Success(p1) =>
          match Slices(img.bytes, p1.imageFrameSize)
          case Failure(f) => Run(p1, l1, Raises(f))
          case Success(frames) => Transfer(p1, l1, frames)
  }

  /** One device-info request whose answer goes through set_device_info. */
  function DeviceQuery(p: PrinterState, l: Link, t: DeviceInfoType): (r: Run)
    ensures r.outcome != NotPrintable
    ensures r.link.sent == l.sent + [DeviceInfoRequest(t)]
    ensures r.printer.imageFrameSize == p.imageFrameSize
  {
    match Ask(p, l, DeviceInfoRequest(t))
    case Stopped(run) => run
    case Replied(l1, v) =>
      match SetDeviceInfo(p, v)
      case Failure(f) => Run(p, l1, Raises(f))
      case Success(p1) => Run(p1, l1, Finished)
  }

  /** One function-info request whose answer goes through set_function_info. */
  function FunctionQuery(p: PrinterState, l: Link, t: SupportFunctionInfoType): (r: Run)
    ensures r.outcome != NotPrintable
    ensures r.link.sent == l.sent + [SupportFunctionInfoRequest(t)]
    ensures r.outcome == Finished ==> |r.link.inbox| < |l.inbox|
    ensures r.printer.imageFrameSize == p.imageFrameSize
  {
    match Ask(p, l, SupportFunctionInfoRequest(t))
    case Stopped(run) => run
    case Replied(l1, v) =>
      match SetFunctionInfo(p, v)
      case Failure(f) => Run(p, l1, Raises(f))
      case Success(p1) => Run(p1, l1, Finished)
  }

  /** The printer-function request print_image repeats while the print is processing. */
  function Refresh(p: PrinterState, l: Link): (r: Run)
    ensures r.outcome != NotPrintable
    ensures r.link.sent == l.sent + [StatusRequest]
    ensures r.outcome == Finished ==> |r.link.inbox| < |l.inbox|
    ensures r.printer.imageFrameSize == p.imageFrameSize
  {
    FunctionQuery(p, l, PrinterFunctionInfo)
  }

  /** The requests connect issues once the link is up. */
  const ConnectRequests: seq<Request> := [
    DeviceInfoRequest(ModelNumber), DeviceInfoRequest(SerialNumber), DeviceInfoRequest(HwRevision),
    SupportFunctionInfoRequest(ImageSupportInfo), StatusRequest]

  /** connect: model, serial and hardware revision, then the image limits and the printer status. */
  function Connect(p: PrinterState, l: Link): (r: Run)
    ensures r.outcome != NotPrintable
    ensures r.printer.imageFrameSize == p.imageFrameSize
  {
    var a := DeviceQuery(p, l, ModelNumber);
    if a.outcome != Finished then a else
    var b := DeviceQuery(a.printer, a.link, SerialNumber);
    if b.outcome != Finished then b else
    var c := DeviceQuery(b.printer, b.link, HwRevision);
    if c.outcome != Finished then c else
    ConnectLimits(c.printer, c.link)
  }

  /** The second half of connect: the image limits, then the printer status. */
  function ConnectLimits(p: PrinterState, l: Link): (r: Run)
    ensures r.outcome != NotPrintable
    ensures r.printer.imageFrameSize == p.imageFrameSize
  {
    var d := FunctionQuery(p, l, ImageSupportInfo);
    if d.outcome != Finished then d else
    FunctionQuery(d.printer, d.link, PrinterFunctionInfo)
  }

  /**
   * The polling loop of print_image: ask for the printer function info while the print is processing.
   * It stops exactly when the status is something else: at once if it already is, and a finished loop
   * always leaves a status other than PRINTER_PROCESSING.
   */
  function Poll(p: PrinterState, l: Link): (r: Run)
    decreases |l.inbox|
    ensures p.printerStatus != PrinterProcessing ==> r == Run(p, l, Finished)
    ensures r.outcome == Finished ==> r.printer.printerStatus != PrinterProcessing
    ensures r.outcome != NotPrintable
    ensures r.printer.imageFrameSize == p.imageFrameSize
  {
    if p.printerStatus != PrinterProcessing then Run(p, l, Finished)
    else
      var q := Refresh(p, l);
      if q.outcome != Finished then q else Poll(q.printer, q.link)
  }

  /** After the upload, as written: the print answer is formatted with %i, which raises before any polling. */
  function PrintAsWritten(p: PrinterState, l: Link): (r: Run)
    ensures r.printer == p && r.outcome != Finished && r.outcome != NotPrintable
  {
    match Ask(p, l, ImagePrintRequest)
    case Stopped(run) => run
    case Replied(l1, _) => Run(p, l1, Raises(FormatType))
  }

  /** After the upload, as intended: read endTime from the print answer, then refresh the status and poll. */
  function PrintAndPoll(p: PrinterState, l: Link): (r: Run)
    ensures r.printer.imageFrameSize == p.imageFrameSize
    ensures r.outcome == Finished ==> r.printer.printerStatus != PrinterProcessing
    ensures r.outcome != NotPrintable
  {
    match Ask(p, l, ImagePrintRequest)
    case Stopped(run) => run
    case Replied(l1, v) =>
      if v.Some? && v.value.ImagePrintResponse? then
        var q := Refresh(p, l1);
        if q.outcome != Finished then q else Poll(q.printer, q.link)
      else Run(p, l1, Raises(MissingField))
  }

  /** print_image as written (InstaxLink.py:770-792). */
  function PrintSequenceAsWritten(p: PrinterState, l: Link, img: ImageFile): (r: Run)
    ensures !CheckImage(p, img) ==> r == Run(p, l, NotPrintable)
  {
    var u := Upload(p, l, img);
    if u.outcome != Finished then u else PrintAsWritten(u.printer, u.link)
  }

  /** print_image with the print answer read as intended. */
  function PrintSequence(p: PrinterState, l: Link, img: ImageFile): (r: Run)
    ensures !CheckImage(p, img) ==> r == Run(p, l, NotPrintable)
  {
    var u := Upload(p, l, img);
    if u.outcome != Finished then u else PrintAndPoll(u.printer, u.link)
  }

  // ---- The order of the commands ----

  lemma SliceCons<T>(s: seq<T>, i: nat, j: nat)
    requires i < j <= |s|
    ensures [s[i]] + s[i + 1..j] == s[i..j]
  {
  }

  lemma AppendAssoc<T>(a: seq<T>, b: seq<T>, c: seq<T>)
    ensures (a + b) + c == a + (b + c)
  {
  }

  /** The planned commands, assembled from the upload's commands, the print request and the polls. */
  lemma PrintRequestsAssembled(pre: seq<Request>, size: int, frames: seq<seq<byte>>, k: nat, u: seq<Request>, r: seq<Request>)
    requires u == pre + [StartRequest(size)] + FrameRequests(frames) + [ImageTransferEndRequest]
    requires r == u + [ImagePrintRequest] + Polls(k)
    ensures r == pre + PrintRequests(size, frames, k)
  {
    var fr := FrameRequests(frames);
    calc {
      r;
      pre + [StartRequest(size)] + fr + [ImageTransferEndRequest] + [ImagePrintRequest] + Polls(k);
      { assert [ImageTransferEndRequest] + [ImagePrintRequest] == [ImageTransferEndRequest, ImagePrintRequest]; }
      pre + ([StartRequest(size)] + fr + [ImageTransferEndRequest, ImagePrintRequest] + Polls(k));
    }
  }

  lemma SuffixAfter<T>(a: seq<T>, x: T, c: seq<T>)
    requires |a| + 1 <= |c| && c[..|a| + 1] == a + [x]
    ensures c[..|a|] == a && c[|a|..] == [x] + c[|a| + 1..]
  {
    assert c[..|a|] == c[..|a| + 1][..|a|];
  }

  /** One more element in front of a run of consecutive elements of s. */
  lemma ConsecutiveStep<T>(pre: seq<T>, mid: seq<T>, post: seq<T>, s: seq<T>, i: nat)
    requires i < |s| && mid == pre + [s[i]]
    requires |mid| <= |post| <= |mid| + |s| - (i + 1)
    requires post == mid + s[i + 1..i + 1 + (|post| - |mid|)]
    ensures |pre| <= |post| <= |pre| + |s| - i
    ensures post == pre + s[i..i + (|post| - |pre|)]
  {
    var n := |post| - |pre|;
    SliceCons(s, i, i + n);
    AppendAssoc(pre, [s[i]], s[i + 1..i + n]);
  }

  /** The frame loop sends at most one command per remaining frame, and one per frame when it finishes. */
  lemma {:induction false} SendFramesCount(p: PrinterState, l: Link, frames: seq<seq<byte>>, i: nat)
    requires i <= |frames|
    ensures var r := SendFrames(p, l, frames, i);
      && |l.sent| <= |r.link.sent| <= |l.sent| + |frames| - i
      && (r.outcome == Finished ==> |r.link.sent| == |l.sent| + |frames| - i)
    decreases |frames| - i
  {
    if i < |frames| {
      var x := Ask(p, l, ImageFrameTransferRequest(i, frames[i]));
      if x.Replied? && x.response.Some? && x.response.value.ImageFrameTransferResponse? {
        SendFramesCount(p, x.link, frames, i + 1);
      }
    }
  }

  /** The frame loop sends frames i, i + 1, ... in order, each once. */
  lemma {:induction false} SendFramesOrder(p: PrinterState, l: Link, frames: seq<seq<byte>>, i: nat)
    requires i <= |frames|
    ensures var r := SendFrames(p, l, frames, i);
      && |l.sent| <= |r.link.sent| <= |l.sent| + |frames| - i
      && r.link.sent == l.sent + FrameRequests(frames)[i..i + (|r.link.sent| - |l.sent|)]
    decreases |frames| - i
  {
    SendFramesCount(p, l, frames, i);
    if i < |frames| {
      var fr := FrameRequests(frames);
      var req := ImageFrameTransferRequest(i, frames[i]);
      var x := Ask(p, l, req);
      if x.Replied? && x.response.Some? && x.response.value.ImageFrameTransferResponse? {
        SendFramesOrder(p, x.link, frames, i + 1);
        ConsecutiveStep(l.sent, x.link.sent, SendFrames(p, x.link, frames, i + 1).link.sent, fr, i);
      } else {
        assert fr[i..i + 1] == [req] && fr[i..i] == [];
      }
    }
  }

  lemma NoStatusAmongFrames(frames: seq<seq<byte>>, n: nat)
    requires n <= |frames|
    ensures StatusRequest !in FrameRequests(frames)[..n]
    ensures StatusRequest !in FrameRequests(frames)[..n] + [ImageTransferEndRequest]
  {
  }

  /** The transfer sends frame requests and then the end request, and no status request. */
  lemma TransferOrder(p: PrinterState, l: Link, frames: seq<seq<byte>>)
    ensures var r := Transfer(p, l, frames);
      && |l.sent| <= |r.link.sent| && r.link.sent[..|l.sent|] == l.sent
      && StatusRequest !in r.link.sent[|l.sent|..]
      && (r.outcome == Finished ==> r.link.sent == l.sent + FrameRequests(frames) + [ImageTransferEndRequest])
  {
    SendFramesCount(p, l, frames, 0);
    SendFramesOrder(p, l, frames, 0);
    var t := SendFrames(p, l, frames, 0);
    var fr := FrameRequests(frames);
    var sent := fr[..|t.link.sent| - |l.sent|];
    NoStatusAmongFrames(frames, |t.link.sent| - |l.sent|);
    assert t.link.sent[|l.sent|..] == sent;
    if t.outcome == Finished {
      match Ask(t.printer, t.link, ImageTransferEndRequest)
      case Stopped(run) =>
        assert run.link.sent[|l.sent|..] == sent + [ImageTransferEndRequest];
      case Replied(l2, _) =>
        assert sent == fr;
        assert l2.sent[|l.sent|..] == sent + [ImageTransferEndRequest];
    }
  }

  /**
   * The upload sends the start request first, carrying the image size; a finished upload has sent
   * start, every frame of the image in order, and end; no upload sends a status request.
   */
  lemma UploadOrder(p: PrinterState, l: Link, img: ImageFile)
    ensures var r := Upload(p, l, img);
      && |l.sent| <= |r.link.sent| && r.link.sent[..|l.sent|] == l.sent
      && StatusRequest !in r.link.sent[|l.sent|..]
      && (|r.link.sent| > |l.sent| ==> r.link.sent[|l.sent|] == StartRequest(|img.bytes|))
      && (r.outcome == Finished ==>
        && Slices(img.bytes, r.printer.imageFrameSize).Success?
        && r.link.sent == l.sent + [StartRequest(|img.bytes|)]
                         + FrameRequests(Slices(img.bytes, r.printer.imageFrameSize).value) + [ImageTransferEndRequest])
  {
    if CheckImage(p, img) {
      match Ask(p, l, StartRequest(|img.bytes|))
      case Stopped(run) =>
      case Replied(l1, v) =>
        match SetImageTransferInfo(p, v)
        case Failure(f) =>
        case Success(p1) =>
          match Slices(img.bytes, p1.imageFrameSize)
          case Failure(f) =>
          case Success(frames) =>
            TransferOrder(p1, l1, frames);
            var t := Transfer(p1, l1, frames);
            SuffixAfter(l.sent, StartRequest(|img.bytes|), t.link.sent);
    }
  }

  /** The polling loop sends nothing but status requests. */
  lemma {:induction false} PollOrder(p: PrinterState, l: Link)
    ensures var r := Poll(p, l);
      |l.sent| <= |r.link.sent| && r.link.sent == l.sent + Polls(|r.link.sent| - |l.sent|)
    decreases |l.inbox|
  {
    if p.printerStatus == PrinterProcessing {
      var q := Refresh(p, l);
      if q.outcome != Finished {
        assert [StatusRequest] == Polls(1);
      } else {
        PollOrder(q.printer, q.link);
        var r := Poll(q.printer, q.link);
        assert [StatusRequest] + Polls(|r.link.sent| - |q.link.sent|) == Polls(|r.link.sent| - |l.sent|);
      }
    }
  }

  /** After the upload, a finished print sent the print request and then k >= 1 status polls. */
  lemma PrintAndPollOrder(p: PrinterState, l: Link)
    ensures var r := PrintAndPoll(p, l);
      r.outcome == Finished ==> |r.link.sent| >= |l.sent| + 2 && r.link.sent == l.sent + [ImagePrintRequest] + Polls(|r.link.sent| - |l.sent| - 1)
  {
    match Ask(p, l, ImagePrintRequest)
    case Stopped(run) =>
    case Replied(l1, v) =>
      if v.Some? && v.value.ImagePrintResponse? {
        var q := Refresh(p, l1);
        if q.outcome == Finished {
          PollOrder(q.printer, q.link);
          var r := Poll(q.printer, q.link);
          var k := |r.link.sent| - |q.link.sent|;
          assert [StatusRequest] + Polls(k) == Polls(k + 1);
        }
      }
  }

  /**
   * A print that finishes has issued exactly: start with the image size, frames 0 .. n-1 of the sliced
   * image, end, print, and k >= 1 status polls, and the printer status is no longer PRINTER_PROCESSING.
   */
  lemma PrintOrder(p: PrinterState, l: Link, img: ImageFile)
    ensures var r := PrintSequence(p, l, img);
      r.outcome == Finished ==>
        && CheckImage(p, img)
        && r.printer.printerStatus != PrinterProcessing
        && Slices(img.bytes, r.printer.imageFrameSize).Success?
        && var frames := Slices(img.bytes, r.printer.imageFrameSize).value;
        && |r.link.sent| >= |l.sent| + |frames| + 4
        && r.link.sent == l.sent + PrintRequests(|img.bytes|, frames, |r.link.sent| - |l.sent| - |frames| - 3)
  {
    var u := Upload(p, l, img);
    UploadOrder(p, l, img);
    if u.outcome == Finished {
      var r := PrintAndPoll(u.printer, u.link);
      assert PrintSequence(p, l, img) == r;
      PrintAndPollOrder(u.printer, u.link);
      if r.outcome == Finished {
        assert CheckImage(p, img);
        assert r.printer.imageFrameSize == u.printer.imageFrameSize;
        var frames := Slices(img.bytes, u.printer.imageFrameSize).value;
        var k := |r.link.sent| - |u.link.sent| - 1;
        assert |u.link.sent| == |l.sent| + |frames| + 2;
        PrintRequestsAssembled(l.sent, |img.bytes|, frames, k, u.link.sent, r.link.sent);
      }
    }
  }

  /**
   * As written, print_image never finishes and never polls: once the print command is answered the
   * format of its answer raises.
   */
  lemma AsWrittenNeverPolls(p: PrinterState, l: Link, img: ImageFile)
    ensures var r := PrintSequenceAsWritten(p, l, img);
      && r.outcome != Finished
      && |l.sent| <= |r.link.sent| && StatusRequest !in r.link.sent[|l.sent|..]
  {
    UploadOrder(p, l, img);
    var u := Upload(p, l, img);
    if u.outcome == Finished {
      var r := PrintAsWritten(u.printer, u.link);
      assert r.link.sent == u.link.sent || r.link.sent == u.link.sent + [ImagePrintRequest];
      assert r.link.sent[|l.sent|..] == u.link.sent[|l.sent|..] || r.link.sent[|l.sent|..] == u.link.sent[|l.sent|..] + [ImagePrintRequest];
    }
  }

  // ---- Device errors and the response slot ----

  /**
   * A device error answering a frame goes unnoticed when the previous frame was acknowledged: the
   * invalid answer leaves that acknowledgement in the slot, send_command returns it, and the loop
   * goes on with the next frame.
   */
  lemma StaleFrameAckTolerated(p: PrinterState, l: Link, frames: seq<seq<byte>>, i: nat, k: nat)
    requires i < |frames| && Encodable(ImageFrameTransferRequest(i, frames[i]))
    requires l.slot == Some(ImageFrameTransferResponse(k)) && |l.inbox| > 0 && l.inbox[0] == Rejected
    ensures SendFrames(p, l, frames, i)
      == SendFrames(p, l.(inbox := l.inbox[1..], sent := l.sent + [ImageFrameTransferRequest(i, frames[i])]), frames, i + 1)
  {
  }

  /**
   * A device error answering the transfer start (MEMORY_FULL_ERROR, say) raises at
   * set_image_transfer_info when no earlier start acknowledgement is in the slot: no frame is sent.
   */
  lemma RejectedStartRaises(p: PrinterState, l: Link, img: ImageFile)
    requires CheckImage(p, img) && |img.bytes| < 0x1_0000_0000
    requires |l.inbox| > 0 && l.inbox[0] == Rejected
    requires !(l.slot.Some? && l.slot.value.ImageTransferStartResponse?)
    ensures PrintSequence(p, l, img)
      == Run(p, l.(inbox := l.inbox[1..], sent := l.sent + [StartRequest(|img.bytes|)]), Raises(MissingField))
  {
    assert Encodable(StartRequest(|img.bytes|));
  }

  /**
   * The input that shows the format fault: an upload that finishes, then an acknowledged print command.
   * As written the session raises right there; the corrected session asks for the status next.
   */
  lemma FormatFaultWitness(p: PrinterState, l: Link, img: ImageFile, endTime: byte)
    requires Upload(p, l, img).outcome == Finished
    requires var u := Upload(p, l, img).link; |u.inbox| > 0 && u.inbox[0] == Delivered(Some(ImagePrintResponse(endTime)))
    ensures var u := Upload(p, l, img);
      && PrintSequenceAsWritten(p, l, img)
         == Run(u.printer, Link(u.link.inbox[1..], u.link.sent + [ImagePrintRequest], Some(ImagePrintResponse(endTime))), Raises(FormatType))
      && var r := PrintSequence(p, l, img);
      && |r.link.sent| >= |u.link.sent| + 2
      && r.link.sent[..|u.link.sent| + 2] == u.link.sent + [ImagePrintRequest, StatusRequest]
  {
    var u := Upload(p, l, img);
    PrintAcknowledged(u.printer, u.link, endTime);
  }

  /** After an acknowledged print command, the next command is the status request. */
  lemma PrintAcknowledged(p: PrinterState, l: Link, endTime: byte)
    requires |l.inbox| > 0 && l.inbox[0] == Delivered(Some(ImagePrintResponse(endTime)))
    ensures var l1 := Link(l.inbox[1..], l.sent + [ImagePrintRequest], Some(ImagePrintResponse(endTime)));
      && PrintAsWritten(p, l) == Run(p, l1, Raises(FormatType))
      && var r := PrintAndPoll(p, l);
      && |r.link.sent| >= |l.sent| + 2
      && r.link.sent[..|l.sent| + 2] == l.sent + [ImagePrintRequest, StatusRequest]
  {
    assert Encodable(ImagePrintRequest);
    var l1 := Link(l.inbox[1..], l.sent + [ImagePrintRequest], Some(ImagePrintResponse(endTime)));
    assert Ask(p, l, ImagePrintRequest) == Replied(l1, Some(ImagePrintResponse(endTime)));
    var q := Refresh(p, l1);
    assert q.link.sent == l.sent + [ImagePrintRequest] + [StatusRequest];
    if q.outcome == Finished {
      PollOrder(q.printer, q.link);
    }
  }

  lemma AppendFive<T>(s: seq<T>, a: T, b: T, c: T, d: T, e: T)
    ensures s + [a] + [b] + [c] + [d] + [e] == s + [a, b, c, d, e]
  {
  }

  /**
   * connect sends its five requests in order and stops at the first one that does not finish: it has
   * sent a non-empty prefix of them, and all five exactly when it finishes.
   */
  lemma ConnectOrder(p: PrinterState, l: Link)
    ensures var r := Connect(p, l);
      && |l.sent| < |r.link.sent| <= |l.sent| + 5
      && r.link.sent == l.sent + ConnectRequests[..|r.link.sent| - |l.sent|]
      && (r.outcome == Finished ==> |r.link.sent| == |l.sent| + 5)
  {
    var a := DeviceQuery(p, l, ModelNumber);
    assert l.sent == l.sent + ConnectRequests[..0];
    ConnectPrefix(l.sent, l.sent, 0);
    if a.outcome != Finished {
      ConnectStage(a, l, 1);
      return;
    }
    var b := DeviceQuery(a.printer, a.link, SerialNumber);
    ConnectPrefix(l.sent, a.link.sent, 1);
    if b.outcome != Finished {
      ConnectStage(b, l, 2);
      return;
    }
    var c := DeviceQuery(b.printer, b.link, HwRevision);
    ConnectPrefix(l.sent, b.link.sent, 2);
    if c.outcome != Finished {
      ConnectStage(c, l, 3);
      return;
    }
    ConnectLimitsOrder(c.printer, c.link, l);
  }

  /** The second half of connect extends the three device-info requests by its one or two requests. */
  lemma ConnectLimitsOrder(p: PrinterState, l: Link, start: Link)
    requires l.sent == start.sent + ConnectRequests[..3]
    ensures var r := ConnectLimits(p, l);
      && |start.sent| < |r.link.sent| <= |start.sent| + 5
      && r.link.sent == start.sent + ConnectRequests[..|r.link.sent| - |start.sent|]
      && (r.outcome == Finished ==> |r.link.sent| == |start.sent| + 5)
  {
    var d := FunctionQuery(p, l, ImageSupportInfo);
    ConnectPrefix(start.sent, l.sent, 3);
    if d.outcome != Finished {
      ConnectStage(d, start, 4);
      return;
    }
    var e := FunctionQuery(d.printer, d.link, PrinterFunctionInfo);
    ConnectPrefix(start.sent, d.link.sent, 4);
    ConnectStage(e, start, 5);
  }

  /** A run that sent the first k connect requests, and finished only if k is 5, is as ConnectOrder says. */
  lemma ConnectStage(r: Run, l: Link, k: nat)
    requires 1 <= k <= 5 && r.link.sent == l.sent + ConnectRequests[..k] && (r.outcome == Finished ==> k == 5)
    ensures |l.sent| < |r.link.sent| <= |l.sent| + 5
    ensures r.link.sent == l.sent + ConnectRequests[..|r.link.sent| - |l.sent|]
    ensures r.outcome == Finished ==> |r.link.sent| == |l.sent| + 5
  {
  }

  /** One more connect request extends the prefix sent so far. */
  lemma ConnectPrefix(pre: seq<Request>, sent: seq<Request>, k: nat)
    requires k < 5 && sent == pre + ConnectRequests[..k]
    ensures sent + [ConnectRequests[k]] == pre + ConnectRequests[..k + 1]
  {
    assert ConnectRequests[..k + 1] == ConnectRequests[..k] + [ConnectRequests[k]];
  }

  /** A device-info request answered with a typed reply stores that reply and applies set_device_info to it. */
  lemma DeviceQueryReply(p: PrinterState, l: Link, t: DeviceInfoType, v: Response)
    requires |l.inbox| > 0 && l.inbox[0] == Delivered(Some(v)) && HasType(Some(v))
    ensures SetDeviceInfo(p, Some(v)).Success?
    ensures DeviceQuery(p, l, t) == Run(SetDeviceInfo(p, Some(v)).value, Link(l.inbox[1..], l.sent + [DeviceInfoRequest(t)], Some(v)), Finished)
  {
    assert Encodable(DeviceInfoRequest(t));
  }

  /** A function-info request answered with a reply set_function_info accepts stores that reply and applies it. */
  lemma FunctionQueryReply(p: PrinterState, l: Link, t: SupportFunctionInfoType, v: Response)
    requires |l.inbox| > 0 && l.inbox[0] == Delivered(Some(v)) && SetFunctionInfo(p, Some(v)).Success?
    ensures FunctionQuery(p, l, t) == Run(SetFunctionInfo(p, Some(v)).value, Link(l.inbox[1..], l.sent + [SupportFunctionInfoRequest(t)], Some(v)), Finished)
  {
    assert Encodable(SupportFunctionInfoRequest(t));
  }

  /** An image-support reply sets exactly the image limits. */
  lemma ImageSupportApplied(p: PrinterState, image: FunctionInfo)
    requires image.ImageSupport?
    ensures SetFunctionInfo(p, Some(SupportFunctionInfoResponse(ImageSupportInfo, Some(image))))
      == Success(p.(imageWidth := image.width, imageHeight := image.height, maxImageSize := image.size, picType := image.picType as int))
  {
  }

  /** After an image-support reply, check_image accepts exactly the JPEG images within the reported limits. */
  lemma CheckImageAgainstReply(p: PrinterState, image: FunctionInfo, img: ImageFile)
    requires image.ImageSupport?
    ensures SetFunctionInfo(p, Some(SupportFunctionInfoResponse(ImageSupportInfo, Some(image)))).Success?
    ensures var q := SetFunctionInfo(p, Some(SupportFunctionInfoResponse(ImageSupportInfo, Some(image)))).value;
      CheckImage(q, img) <==>
        img.width == image.width && img.height == image.height && img.format == "JPEG" && |img.bytes| <= image.size
  {
    ImageSupportApplied(p, image);
  }

  /** Before connect has read the image limits, print_image refuses every non-empty image and sends nothing. */
  lemma NoPrintBeforeConnect(l: Link, img: ImageFile)
    requires |img.bytes| > 0
    ensures PrintSequence(InitialState, l, img) == Run(InitialState, l, NotPrintable)
    ensures PrintSequenceAsWritten(InitialState, l, img) == Run(InitialState, l, NotPrintable)
  {
  }

  /** A printer-function reply sets exactly the battery level, the film count and the print status. */
  lemma PrinterFunctionApplied(p: PrinterState, status: FunctionInfo)
    requires status.PrinterFunction?
    ensures SetFunctionInfo(p, Some(SupportFunctionInfoResponse(PrinterFunctionInfo, Some(status))))
      == Success(p.(batteryLevel := status.batteryRemain, remainingPictures := status.filmRemain, printerStatus := status.resultPrintRequest))
  {
  }

  /**
   * A device that answers each connect request with a reply of the requested kind leaves the printer
   * holding what it reported, and nothing more is consumed than those five replies.
   */
  lemma ConnectStoresReplies(p: PrinterState, l: Link, model: seq<byte>, serial: seq<byte>, hw: seq<byte>,
                             image: FunctionInfo, status: FunctionInfo)
    requires image.ImageSupport? && status.PrinterFunction?
    requires |l.inbox| >= 5
    requires l.inbox[0] == Delivered(Some(DeviceInfoResponse(ModelNumber, model)))
    requires l.inbox[1] == Delivered(Some(DeviceInfoResponse(SerialNumber, serial)))
    requires l.inbox[2] == Delivered(Some(DeviceInfoResponse(HwRevision, hw)))
    requires l.inbox[3] == Delivered(Some(SupportFunctionInfoResponse(ImageSupportInfo, Some(image))))
    requires l.inbox[4] == Delivered(Some(SupportFunctionInfoResponse(PrinterFunctionInfo, Some(status))))
    ensures var r := Connect(p, l);
      && r.outcome == Finished
      && r.printer == p.(model := model, serial := serial, hwRevision := hw,
                         imageWidth := image.width, imageHeight := image.height, maxImageSize := image.size,
                         picType := image.picType as int, batteryLevel := status.batteryRemain,
                         remainingPictures := status.filmRemain, printerStatus := status.resultPrintRequest)
      && r.link == Link(l.inbox[5..], l.sent + ConnectRequests, Some(SupportFunctionInfoResponse(PrinterFunctionInfo, Some(status))))
  {
    var mr, sr, hr := DeviceInfoResponse(ModelNumber, model), DeviceInfoResponse(SerialNumber, serial), DeviceInfoResponse(HwRevision, hw);
    var ir, fr := SupportFunctionInfoResponse(ImageSupportInfo, Some(image)), SupportFunctionInfoResponse(PrinterFunctionInfo, Some(status));
    DeviceQueryReply(p, l, ModelNumber, mr);
    var a := DeviceQuery(p, l, ModelNumber);
    assert a.printer == p.(model := model);
    assert a.link.inbox[0] == l.inbox[1];
    DeviceQueryReply(a.printer, a.link, SerialNumber, sr);
    var b := DeviceQuery(a.printer, a.link, SerialNumber);
    assert b.printer == a.printer.(serial := serial);
    assert b.link.inbox[0] == l.inbox[2];
    DeviceQueryReply(b.printer, b.link, HwRevision, hr);
    var c := DeviceQuery(b.printer, b.link, HwRevision);
    assert c.printer == b.printer.(hwRevision := hw);
    assert c.link.inbox[0] == l.inbox[3];
    ImageSupportApplied(c.printer, image);
    FunctionQueryReply(c.printer, c.link, ImageSupportInfo, ir);
    var d := FunctionQuery(c.printer, c.link, ImageSupportInfo);
    assert d.link.inbox[0] == l.inbox[4];
    PrinterFunctionApplied(d.printer, status);
    FunctionQueryReply(d.printer, d.link, PrinterFunctionInfo, fr);
    var e := FunctionQuery(d.printer, d.link, PrinterFunctionInfo);
    assert e.link.inbox == l.inbox[5..];
    AppendFive(l.sent, ConnectRequests[0], ConnectRequests[1], ConnectRequests[2], ConnectRequests[3], ConnectRequests[4]);
  }
}
