/** A bounded multi-producer, single-consumer FIFO with the behaviour of a tokio mpsc
    channel: a send waits while the buffer is full and fails once the receiver is gone;
    a receive takes the oldest value, waits while the buffer is empty, and reports the
    channel closed once every sender is gone and nothing is left. */
module Channel {
  import opened Common

  /** The outcome of one attempt to complete `send(x).await`. */
  datatype SendStatus =
    | Sent    // the value is in the buffer
    | Full    // no free slot: the sender stays suspended and nothing changes
    | Closed  // the receiver is gone: the value is dropped and the error returned

  /** The outcome of one attempt to complete `recv().await`. */
  datatype RecvStatus<T> =
    | Received(value: T)  // the oldest buffered value
    | Pending             // nothing buffered yet: the receiver stays suspended
    | Disconnected        // every sender is gone and nothing is left: `recv` yields `None`

  class Channel<T> {
    const capacity: nat
    var buffer: seq<T>
    var receiverOpen: bool
    var sendersOpen: bool
    /** Every value the channel accepted, and every value it handed out, in order. */
    ghost var sent: seq<T>
    ghost var received: seq<T>

    /** Never more than `capacity` values buffered; what was handed out followed by what is
        buffered is exactly what was accepted, so nothing is lost, duplicated or reordered. */
    ghost predicate Valid()
      reads this
    {
      0 < capacity && |buffer| <= capacity && sent == received + buffer
    }

    /** `tokio::sync::mpsc::channel(capacity)`; a capacity of 0 makes tokio panic. */
    constructor (capacity: nat)
      requires capacity > 0
      ensures Valid() && this.capacity == capacity
      ensures buffer == [] && sent == [] && received == []
      ensures receiverOpen && sendersOpen
    {
      this.capacity := capacity;
      buffer, sent, received := [], [], [];
      receiverOpen, sendersOpen := true, true;
    }

    method Send(x: T) returns (r: SendStatus)
      requires Valid()
      modifies this
      ensures Valid()
      ensures r == (if !old(receiverOpen) then Closed
                    else if |old(buffer)| == capacity then Full
                    else Sent)
      ensures r == Sent ==> buffer == old(buffer) + [x] && sent == old(sent) + [x]
      ensures r != Sent ==> buffer == old(buffer) && sent == old(sent)
      ensures received == old(received)
      ensures receiverOpen == old(receiverOpen) && sendersOpen == old(sendersOpen)
    {
      if !receiverOpen {
        r := Closed;
      } else if |buffer| == capacity {
        r := Full;
      } else {
        buffer := buffer + [x];
        sent := sent + [x];
        r := Sent;
      }
    }

    method Recv() returns (r: RecvStatus<T>)
      requires Valid() && receiverOpen
      modifies this
      ensures Valid()
      ensures old(buffer) != [] ==>
                r == Received(old(buffer)[0]) && buffer == old(buffer)[1..] &&
                received == old(received) + [old(buffer)[0]]
      ensures old(buffer) == [] ==>
                r == (if sendersOpen then Pending else Disconnected) &&
                buffer == old(buffer) && received == old(received)
      ensures sent == old(sent)
      ensures receiverOpen == old(receiverOpen) && sendersOpen == old(sendersOpen)
    {
      if buffer != [] {
        r := Received(buffer[0]);
        received := received + [buffer[0]];
        buffer := buffer[1..];
      } else if sendersOpen {
        r := Pending;
      } else {
        r := Disconnected;
      }
    }

    /** The receiving task returned: later sends fail. */
    method DropReceiver()
      requires Valid()
      modifies this`receiverOpen
      ensures Valid() && !receiverOpen
    {
      receiverOpen := false;
    }

    /** Every sender was dropped: once drained, receives report the channel closed. */
    method DropSenders()
      requires Valid()
      modifies this`sendersOpen
      ensures Valid() && !sendersOpen
    {
      sendersOpen := false;
    }
  }
}
