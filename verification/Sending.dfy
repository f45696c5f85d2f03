/** The queue that sends frames through a socket that may take only part of what it is offered, and the whole
    way from one peer's queue to the other peer's receiver. */
module Sending {
  import opened Basics
  import opened Framing

  /** How many bytes the socket takes at its `i`-th call, if offered enough; `None` when it raises. */
  type Socket = nat -> Option<nat>

  class SendQueue {
    var sendBuffer: Bytes
    var sendBacklog: seq<Bytes>
    /** Is the selector asked for EVENT_WRITE? */
    var writing: bool
    /** Everything the socket has taken so far. */
    var onWire: Bytes

    /** Nothing waits behind an empty buffer, and the selector is asked to write exactly while there is something to. */
    ghost predicate Valid()
      reads this
    {
      && (sendBuffer == [] ==> sendBacklog == [])
      && (writing <==> sendBuffer != [])
      && (forall f | f in sendBacklog :: f != [])
    }

    /** What has been queued since the beginning, sent or not. */
    ghost function Queued(): Bytes
      reads this
    {
      onWire + sendBuffer + Joined(sendBacklog)
    }

    constructor ()
      ensures Valid() && Queued() == [] && onWire == []
    {
      sendBuffer := [];
      sendBacklog := [];
      writing := false;
      onWire := [];
    }

    method SendMessage(payload: Bytes) returns (r: Result<()>)
      requires Valid()
      modifies this
      ensures Valid() && onWire == old(onWire)
      ensures r.Ok? <==> |payload| < 0x1_0000_0000
      ensures Queued() == if r.Ok? then old(Queued()) + Frame(payload) else old(Queued())
    {
      if |payload| >= 0x1_0000_0000 {
        return Err(StructError);
      }
      var frame := Frame(payload);
      ghost var backlog := sendBacklog;
      JoinedNext(sendBacklog + [frame], |sendBacklog|);
      assert (sendBacklog + [frame])[..|sendBacklog|] == backlog;
      assert (sendBacklog + [frame])[..|sendBacklog| + 1] == sendBacklog + [frame];
      sendBacklog := sendBacklog + [frame];
      assert Queued() == old(Queued()) + frame;
      if |sendBuffer| == 0 {
        NextFrame();
        writing := true;
      }
      r := Ok(());
    }

    /** `send_buffer = send_backlog.pop(0)` */
    method NextFrame()
      requires sendBuffer == [] && sendBacklog != []
      modifies this`sendBuffer, this`sendBacklog
      ensures sendBuffer == old(sendBacklog[0]) && sendBacklog == old(sendBacklog[1..])
      ensures Queued() == old(Queued())
    {
      sendBuffer := sendBacklog[0];
      sendBacklog := sendBacklog[1..];
    }

    /** `i` counts the calls to the socket. */
    method HandleCanSend(socket: Socket, i: nat) returns (r: Result<()>)
      requires Valid()
      modifies this
      ensures Valid() && Queued() == old(Queued()) && old(onWire) <= onWire
      ensures r.Err? ==> r.error == OSError && exists j | j >= i :: socket(j) == None
      ensures (forall j | j >= i :: socket(j).Some? && socket(j).value >= |Queued()|) ==>
                r.Ok? && !writing && onWire == Queued()
      decreases |sendBacklog|
    {
      hide Joined;
      var taken := socket(i);
      if taken == None {
        return Err(OSError);
      }
      var sent: nat := Min(taken.value, |sendBuffer|);
      onWire := onWire + sendBuffer[..sent];
      assert old(sendBuffer) == sendBuffer[..sent] + sendBuffer[sent..];
      sendBuffer := sendBuffer[sent..];
      assert Queued() == old(Queued());
      r := Ok(());
      if |sendBuffer| == 0 {
        if |sendBacklog| == 0 {
          writing := false;
          assert Joined(sendBacklog) == [] by { JoinedNothing(); }
        } else {
          assert sendBacklog[0] in sendBacklog;
          NextFrame();
          assert writing;
          assert sendBuffer != [];
          assert forall f | f in sendBacklog :: f in old(sendBacklog);
          r := HandleCanSend(socket, i + 1);
        }
      }
    }
  }

  lemma JoinedNothing()
    ensures Joined([]) == []
  {
  }

  // ----- from queue to receiver

  datatype Event =
    | Queue(payload: Bytes)
    | CanSend(socket: Socket)
    | Arrive(count: nat)

  /** One connection, one direction: queueing, sending and arriving in any order, with any socket and any chunks. */
  method Converse(sender: SendQueue, receiver: MessageReceiver, events: seq<Event>)
    returns (sent: seq<Sendable>, carried: nat, r: Result<()>)
    requires sender.Valid() && sender.onWire == [] && sender.Queued() == []
    requires receiver.Pending() == [] && receiver.delivered == []
    requires Waiting(receiver.magicRead, receiver.len, receiver.buffer)
    modifies sender, receiver
    ensures sender.Valid() && sender.Queued() == Frames(sent) && carried <= |sender.onWire|
    ensures receiver.delivered == Parse(receiver.accepts, sender.onWire[..carried]).delivered
    ensures AllHandled(receiver.accepts, sent) ==>
              && receiver.delivered <= sent
              && (carried == |sender.onWire| && !sender.writing ==> receiver.delivered == sent)
  {
    hide Parse, Joined, Frame;
    sent, carried, r := [], 0, Ok(());
    ParseNothing(receiver.accepts);
    for i := 0 to |events|
      invariant sender.Valid() && sender.Queued() == Frames(sent) && carried <= |sender.onWire|
      invariant Waiting(receiver.magicRead, receiver.len, receiver.buffer)
      invariant Parse(receiver.accepts, sender.onWire[..carried])
             == Parsed(receiver.delivered, false, receiver.Pending())
    {
      match events[i]
      case Queue(payload) =>
        var queued := sender.SendMessage(payload);
        if queued.Ok? {
          FramesSplit(sent, [payload]);
          FrameAlone(payload);
          sent := sent + [payload];
        }
      case CanSend(socket) =>
        ghost var before := sender.onWire;
        r := sender.HandleCanSend(socket, 0);
        assert sender.onWire[..carried] == before[..carried];
        if r.Err? {
          break;
        }
      case Arrive(count) =>
        var stop := Min(carried + count, |sender.onWire|);
        var chunk := sender.onWire[carried..stop];
        ParseInPieces(receiver.accepts, sender.onWire[..carried], chunk);
        assert sender.onWire[..carried] + chunk == sender.onWire[..stop];
        carried := stop;
        r := receiver.Receive(chunk);
        if r.Err? {
          break;
        }
    }
    WholeWay(receiver.accepts, sent, sender.onWire, carried, sender.sendBuffer, sender.sendBacklog);
  }

  lemma FrameAlone(payload: Sendable)
    ensures Frames([payload]) == Frame(payload)
  {
  }

  lemma WholeWay(
    accepts: Bytes -> bool, sent: seq<Sendable>, onWire: Bytes, carried: nat, buffer: Bytes,
    backlog: seq<Bytes>)
    requires onWire + buffer + Joined(backlog) == Frames(sent) && carried <= |onWire|
    requires buffer == [] ==> backlog == []
    ensures AllHandled(accepts, sent) ==>
              var p := Parse(accepts, onWire[..carried]);
              && p.delivered <= sent
              && (carried == |onWire| && buffer == [] ==> p.delivered == sent)
  {
    hide Parse, Frame, Frames, Joined;
    if AllHandled(accepts, sent) {
      JoinedNothing();
      var rest := onWire[carried..] + buffer + Joined(backlog);
      assert onWire[..carried] + rest == Frames(sent);
      PartialFrames(accepts, sent, onWire[..carried], rest);
    }
  }
}
