/**
 * InstaxConnection (InstaxLink.py:508-697) as an object: send_command writes a command's frame in
 * packets and waits for response_callback to flag an answer. The BLE transport is replaced by the
 * list of notifications the device will send; a notification is handed to response_callback while
 * send_command waits.
 */
module Connection {
  import opened Wrappers
  import opened Faults
  import opened Bytes
  import opened Frame
  import opened Requests
  import opened Responses
  import opened Chunking
  import Session

  /** What response_callback makes of each notification, in order. */
  function Verdicts(notifications: seq<seq<byte>>): (ds: seq<Delivery>)
    ensures |ds| == |notifications|
    ensures forall i :: 0 <= i < |ds| ==> ds[i] == Callback(notifications[i])
  {
    seq(|notifications|, i requires 0 <= i < |notifications| => Callback(notifications[i]))
  }

  lemma VerdictsTail(notifications: seq<seq<byte>>)
    requires notifications != []
    ensures Verdicts(notifications) == [Callback(notifications[0])] + Verdicts(notifications[1..])
  {
    assert Verdicts(notifications)[1..] == Verdicts(notifications[1..]);
  }

  /** The frame of a command, or nothing for one that cannot be encoded (which is never written). */
  function FrameOf(r: Request): seq<byte>
  {
    match Encode(r)
    case Success(f) => f
    case Failure(_) => []
  }

  /** The bytes the commands put on the wire, in order. */
  function Wire(rs: seq<Request>): (w: seq<byte>)
  {
    if rs == [] then [] else Wire(rs[..|rs| - 1]) + FrameOf(rs[|rs| - 1])
  }

  class InstaxConnection {
    /** The notifications the device has yet to send. */
    var notifications: seq<seq<byte>>
    /** The commands written so far, in order. */
    var sent: seq<Request>
    /** The packets written to the write characteristic, in order. */
    var written: seq<seq<byte>>
    var response: Option<Response>
    var responseReceived: bool

    /** The connection as the session sees it. */
    function Link(): Session.Link
      reads this
    {
      Session.Link(Verdicts(notifications), sent, response)
    }

    /** Between commands: the packets are exactly the frames of the commands sent, and no answer is pending. */
    predicate Valid()
      reads this
    {
      Flatten(written) == Wire(sent) && !responseReceived
    }

    /** __init__: nothing sent, no response stored, the flag down. */
    constructor(notifications: seq<seq<byte>>)
      ensures Link() == Session.Link(Verdicts(notifications), [], None)
      ensures written == [] && Valid()
    {
      this.notifications := notifications;
      sent := [];
      written := [];
      response := None;
      responseReceived := false;
    }

    /**
     * response_callback: parse the notification, and for a valid frame store the response its SID
     * decodes to; flag an answer for any frame that parses. A parse or decode failure raises out of
     * the callback before the flag is set.
     */
    method ResponseCallback(payload: seq<byte>)
      modifies this
      ensures notifications == old(notifications) && sent == old(sent) && written == old(written)
      ensures match Callback(payload)
        case Raised(_) => response == old(response) && responseReceived == old(responseReceived)
        case Rejected => response == old(response) && responseReceived
        case Delivered(v) => response == v && responseReceived
    {
      var parsed := Parse(payload);
      if parsed.Failure? {
        return;
      }
      var message := parsed.value;
      if Validate(message) {
        var decoded := Dispatch(message.sid, message.data);
        if decoded.Failure? {
          return;
        }
        response := decoded.value;
      }
      responseReceived := true;
    }

    /** The write loop of send_command: ceil(n / 182) packets, each a slice of at most 182 bytes. */
    method WritePackets(payload: seq<byte>)
      modifies this
      ensures written == old(written) + Packets(payload)
      ensures notifications == old(notifications) && sent == old(sent)
      ensures response == old(response) && responseReceived == old(responseReceived)
    {
      var numberOfPackets := CeilDiv(|payload|, MaxPacketSize);
      var packetIndex := 0;
      while packetIndex < numberOfPackets
        invariant packetIndex <= numberOfPackets
        invariant packetIndex * MaxPacketSize <= |payload| || packetIndex == numberOfPackets
        invariant old(written) + Packets(payload) == written + Packets(payload[Min(packetIndex * MaxPacketSize, |payload|)..])
        invariant notifications == old(notifications) && sent == old(sent)
        invariant response == old(response) && responseReceived == old(responseReceived)
      {
        var start := packetIndex * MaxPacketSize;
        var packet := payload[start..Min(start + MaxPacketSize, |payload|)];
        PacketsStep(payload, start);
        written := written + [packet];
        packetIndex := packetIndex + 1;
      }
      assert payload[|payload|..] == [];
    }

    /**
     * The wait of send_command: hand notifications to response_callback until one flags an answer,
     * then lower the flag and return the stored response. With no notification left the wait never ends.
     */
    method AwaitResponse() returns (a: Session.Answer)
      requires !responseReceived
      modifies this
      ensures !responseReceived && sent == old(sent) && written == old(written)
      ensures (Link(), a) == Session.Await(old(Link()))
    {
      while !responseReceived
        invariant sent == old(sent) && written == old(written)
        invariant !responseReceived ==> Session.Await(Link()) == Session.Await(old(Link()))
        invariant responseReceived ==> Session.Await(old(Link())) == (Link(), Session.Answered(response))
        decreases |notifications|
      {
        if notifications == [] {
          return Session.Hung;
        }
        var payload := notifications[0];
        VerdictsTail(notifications);
        notifications := notifications[1..];
        ResponseCallback(payload);
      }
      responseReceived := false;
      return Session.Answered(response);
    }

    /**
     * send_command for one command: encode it (a field out of range raises), write its frame in
     * packets, then wait for the answer.
     */
    method SendCommand(r: Request) returns (res: Result<Session.Answer, Fault>)
      requires Valid()
      modifies this
      ensures Valid()
      ensures (Link(), res) == Session.Command(old(Link()), r)
      ensures res.Success? ==> written == old(written) + Packets(FrameOf(r))
    {
      EncodeSucceeds(r);
      var frame := Encode(r);
      if frame.Failure? {
        return Failure(frame.error);
      }
      WritePackets(frame.value);
      sent := sent + [r];
      WireStep(old(written), old(sent), r);
      var a := AwaitResponse();
      return Success(a);
    }
  }

  /** Writing the packets of one more encodable command keeps the packets equal to the frames sent. */
  lemma WireStep(written: seq<seq<byte>>, sent: seq<Request>, r: Request)
    requires Flatten(written) == Wire(sent) && Encode(r).Success?
    ensures Flatten(written + Packets(Encode(r).value)) == Wire(sent + [r])
  {
    PacketsLaws(Encode(r).value);
    FlattenAppend(written, Packets(Encode(r).value));
    assert (sent + [r])[..|sent|] == sent;
  }
}
