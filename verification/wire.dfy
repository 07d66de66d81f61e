/** What travels on the `chat.message_posted` topic. JSON is abstract: a
    payload either decodes into the consumer's event record or it is
    malformed. A field absent from the JSON keeps its Go zero value ("" or
    the zero time). */
module Wire {
  import opened Results
  import opened Headers

  /** time.Time as an instant; 0 stands for Go's zero time (IsZero). */
  type Time = int

  const ZeroTime: Time := 0

  /** The consumer's MessagePostedEvent: the canonical fields written by the
      chat domain and the legacy fields written by the chat HTTP handler. */
  datatype EventFields = EventFields(
    messageId: string,
    content: string,
    authorId: string,
    timestamp: Time,
    sender: string,
    text: string,
    ts: Time)

  /** A Kafka message value as json.Unmarshal sees it. */
  datatype Payload = Json(fields: EventFields) | Malformed

  /** A Kafka message: key bytes (as a string), value and ordered headers. */
  datatype KafkaMessage = KafkaMessage(key: string, value: Payload, headers: HeaderList)

  /** json.Unmarshal into the consumer's event record. */
  function Decode(p: Payload): (r: Option<EventFields>)
    ensures r.None? <==> p.Malformed?
    ensures p.Json? ==> r == Some(p.fields)
  {
    match p
    case Json(f) => Some(f)
    case Malformed => None
  }
}
