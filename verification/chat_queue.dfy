/** The chat service's Kafka producer: builds a message from a key and a
    payload, lets the trace propagator inject its headers through the
    carrier, and hands the message to the writer. The writer's outcome is a
    parameter. */
module ChatQueue {
  import opened Results
  import opened Headers
  import opened Wire

  /** An error returned by the Kafka writer. */
  datatype WriteError = WriteError(reason: string)

  /** What Publish handed to the writer, and what it returned. */
  datatype PublishResult = PublishResult(written: KafkaMessage, outcome: Outcome<WriteError>)

  /** The headers the propagator's Inject produces on an empty message: one
      carrier Set per field, in the order the propagator emits them. */
  function Inject(hs: HeaderList, fields: seq<Header>): (r: HeaderList)
    ensures |r| == |hs| + |fields|
    ensures r[..|hs|] == hs
    ensures forall i :: 0 <= i < |fields| ==> r[|hs| + i] == fields[i]
    decreases |fields|
  {
    if |fields| == 0 then hs
    else Inject(Set(hs, fields[0].key, fields[0].value), fields[1..])
  }

  /** KafkaProducer.Publish with the writer's result as `writerError`. */
  function Publish(key: string, payload: Payload, traceFields: seq<Header>, writerError: Option<WriteError>): (r: PublishResult)
    ensures r.written.key == key && r.written.value == payload
    ensures r.written.headers == traceFields
    ensures r.outcome.Fail? <==> writerError.Some?
    ensures r.outcome.Fail? ==> r.outcome.error == writerError.value
  {
    var msg := KafkaMessage(key, payload, Inject([], traceFields));
    match writerError
    case Some(e) => PublishResult(msg, Fail(e))
    case None => PublishResult(msg, Pass)
  }
}
