// nats/client.go, reduced to what the rest of the model observes.
module Nats {
  import opened Models

  /** Every message goes to this subject, whatever its own topic name says. */
  const Subject: string := "create.loyyalchannel"

  datatype Envelope = Envelope(subject: string, request: Request)

  function Envelopes(requests: seq<Request>): (out: seq<Envelope>)
    ensures |out| == |requests|
    ensures forall k :: 0 <= k < |out| ==> out[k] == Envelope(Subject, requests[k])
  {
    if |requests| == 0 then [] else [Envelope(Subject, requests[0])] + Envelopes(requests[1..])
  }

  lemma EnvelopesAppend(a: seq<Request>, b: seq<Request>)
    ensures Envelopes(a + b) == Envelopes(a) + Envelopes(b)
  {
  }

  /**
   * The connection, as the sequence of messages handed to it. Every caller
   * only logs a failed publish, so an attempt is all the model records.
   */
  class Client {
    var outbox: seq<Envelope>

    constructor ()
      ensures outbox == []
    {
      outbox := [];
    }

    method Publish(request: Request)
      modifies this
      ensures outbox == old(outbox) + [Envelope(Subject, request)]
    {
      outbox := outbox + [Envelope(Subject, request)];
    }
  }
}
