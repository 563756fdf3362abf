/** The storage queue "ordersqueue": a FIFO of text messages. */
module QueueStore {
  import opened Wrappers

  class QueueClient {
    var messages: seq<string>

    constructor ()
      ensures messages == []
    {
      messages := [];
    }

    /** SendMessageAsync: the message joins the back of the queue. */
    method SendMessage(m: string)
      modifies this
      ensures messages == old(messages) + [m]
    {
      messages := messages + [m];
    }

    /** What the Functions host does before each queue-triggered run: take the front message. */
    method ReceiveMessage() returns (m: Option<string>)
      modifies this
      ensures old(messages) == [] ==> m.None? && messages == []
      ensures old(messages) != [] ==> m == Some(old(messages)[0]) && messages == old(messages)[1..]
    {
      if messages == [] {
        m := None;
      } else {
        m := Some(messages[0]);
        messages := messages[1..];
      }
    }
  }
}
