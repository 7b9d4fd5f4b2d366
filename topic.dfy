// nats/topic.go: framing of a message with its span context.
module Topic {
  import opened Numeric
  import opened Wrappers

  /**
   * Wrap. None stands for the log.Fatalf branch, which ends the process
   * without producing a frame.
   */
  function Wrap(spanContext: seq<byte>, payload: seq<byte>): (frame: Option<seq<byte>>)
    ensures frame.None? <==> |spanContext| > 255
    ensures frame.Some? ==> |frame.value| == 1 + |spanContext| + |payload|
    ensures frame.Some? ==> frame.value[0] as int == |spanContext|
    ensures frame.Some? ==> frame.value[1..1 + |spanContext|] == spanContext
    ensures frame.Some? ==> frame.value[1 + |spanContext|..] == payload
  {
    if |spanContext| == 0 then Some([0] + payload)
    else if |spanContext| > 255 then None
    else Some([|spanContext| as byte] + spanContext + payload)
  }

  /** The reader's side: a length byte, that many context bytes, the payload. */
  function Unwrap(frame: seq<byte>): Option<(seq<byte>, seq<byte>)>
  {
    if |frame| == 0 then None
    else
      var n := frame[0] as int;
      if |frame| < 1 + n then None else Some((frame[1..1 + n], frame[1 + n..]))
  }

  lemma UnwrapWrap(spanContext: seq<byte>, payload: seq<byte>)
    requires |spanContext| <= 255
    ensures Wrap(spanContext, payload).Some?
    ensures Unwrap(Wrap(spanContext, payload).value) == Some((spanContext, payload))
  {
  }
}
