/** The horn service's two RPC handlers: each turns a request into one command on the
    bounded command channel and acknowledges once the send has completed. */
module RequestHandler {
  import opened Common
  import opened HornProto
  import opened Channel
  import RequestProcessor

  /** Capacity of the command channel between the handlers and `receive_requests`. */
  const CommandQueueCapacity: nat := 4

  /** One poll of a handler: still awaiting a free slot, or done with its response. */
  datatype Reply = Suspended | Replied(response: HornResponse)

  /** The response both handlers return: a default status, whatever happens to the horn. */
  const Acknowledgement: HornResponse := HornResponse(Some(DefaultStatus))

  /** The channel the service wires between its handlers and `receive_requests`. */
  method NewCommandChannel() returns (ch: Channel<RequestProcessor.Command>)
    ensures fresh(ch) && ch.Valid() && ch.capacity == CommandQueueCapacity
    ensures ch.buffer == [] && ch.sent == [] && ch.receiverOpen && ch.sendersOpen
  {
    ch := new Channel<RequestProcessor.Command>(CommandQueueCapacity);
  }

  /** `ActivateHorn::handle_request`, one poll. The payload must be present and decode as an
      activation request (the source unwraps both). The decoded request is sent unchanged as
      `Some(req)`; the reply comes only after the send completed, and the send's failure on
      a closed channel is ignored. */
  method ActivateHandleRequest(tx: Channel<RequestProcessor.Command>,
                               requestPayload: Option<Result<ActivateHornRequest, DecodeError>>)
    returns (reply: Reply)
    requires tx.Valid()
    requires requestPayload.Some? && requestPayload.value.Ok?
    modifies tx
    ensures tx.Valid() && tx.received == old(tx.received)
    ensures tx.receiverOpen == old(tx.receiverOpen) && tx.sendersOpen == old(tx.sendersOpen)
    ensures !old(tx.receiverOpen) ==>
              reply == Replied(Acknowledgement) && tx.sent == old(tx.sent) && tx.buffer == old(tx.buffer)
    ensures old(tx.receiverOpen) && |old(tx.buffer)| == tx.capacity ==>
              reply == Suspended && tx.sent == old(tx.sent) && tx.buffer == old(tx.buffer)
    ensures old(tx.receiverOpen) && |old(tx.buffer)| < tx.capacity ==>
              reply == Replied(Acknowledgement) &&
              tx.sent == old(tx.sent) + [Some(requestPayload.value.value)] &&
              tx.buffer == old(tx.buffer) + [Some(requestPayload.value.value)]
  {
    var req := requestPayload.value.value;
    var status := tx.Send(Some(req));
    if status == Full {
      reply := Suspended;
    } else {
      reply := Replied(HornResponse(Some(DefaultStatus)));
    }
  }

  /** `DeactivateHorn::handle_request`, one poll. The payload must be present and decode as a
      deactivation request (the source unwraps both), and its content is ignored: `None` is
      sent. The reply comes only after the send completed. */
  method DeactivateHandleRequest(tx: Channel<RequestProcessor.Command>,
                                 requestPayload: Option<Result<DeactivateHornRequest, DecodeError>>)
    returns (reply: Reply)
    requires tx.Valid()
    requires requestPayload.Some? && requestPayload.value.Ok?
    modifies tx
    ensures tx.Valid() && tx.received == old(tx.received)
    ensures tx.receiverOpen == old(tx.receiverOpen) && tx.sendersOpen == old(tx.sendersOpen)
    ensures !old(tx.receiverOpen) ==>
              reply == Replied(Acknowledgement) && tx.sent == old(tx.sent) && tx.buffer == old(tx.buffer)
    ensures old(tx.receiverOpen) && |old(tx.buffer)| == tx.capacity ==>
              reply == Suspended && tx.sent == old(tx.sent) && tx.buffer == old(tx.buffer)
    ensures old(tx.receiverOpen) && |old(tx.buffer)| < tx.capacity ==>
              reply == Replied(Acknowledgement) &&
              tx.sent == old(tx.sent) + [None] && tx.buffer == old(tx.buffer) + [None]
  {
    var status := tx.Send(None);
    if status == Full {
      reply := Suspended;
    } else {
      reply := Replied(HornResponse(Some(DefaultStatus)));
    }
  }

  /** A caller's activation then deactivation, both accepted by an open channel with room,
      reach the sequencer in that order, right after whatever was queued before. */
  method ActivateThenDeactivate(tx: Channel<RequestProcessor.Command>, req: ActivateHornRequest)
    returns (first: Reply, second: Reply)
    requires tx.Valid() && tx.receiverOpen && |tx.buffer| + 2 <= tx.capacity
    modifies tx
    ensures first == Replied(Acknowledgement) && second == Replied(Acknowledgement)
    ensures tx.Valid() && tx.received == old(tx.received)
    ensures tx.buffer == old(tx.buffer) + [Some(req), None]
    ensures tx.sent == old(tx.sent) + [Some(req), None]
  {
    first := ActivateHandleRequest(tx, Some(Ok(req)));
    second := DeactivateHandleRequest(tx, Some(Ok(DeactivateHornRequest)));
  }
}
