/** Facts that span services: what the chat service writes to Kafka and
    what the notification consumer makes of it. */
module Pipeline {
  import opened Results
  import opened Headers
  import opened Wire
  import opened ChatDomain
  import opened ChatApplication
  import opened ChatQueue
  import opened NotificationConsumer

  /** The legacy payload the chat HTTP handler publishes: text, the fixed
      sender "http_user" and the current time; no canonical field. */
  function HttpEventPayload(text: string, now: Time): Payload
  {
    Json(EventFields("", "", "", ZeroTime, "http_user", text, now))
  }

  /** Domain events are never ignored: their name is the key the consumer
      dispatches on. */
  lemma DomainEventKeyIsRecognized(e: MessagePosted)
    ensures EventName(e) == MessagePostedKey
  {
  }

  /** A message accepted by the domain and published through the Kafka
      producer reaches the consumer as a notification carrying the
      message's id, content, author and time. */
  lemma PostedMessageIsDelivered(authorId: string, content: string, uuid: string, now: Time,
                                 traceFields: seq<Header>, cancelled: bool)
    requires content != "" && authorId != "" && uuid != ""
    ensures var e := NewMessage(authorId, content, uuid, now).value.events[0];
      var sent := Publish(EventName(e), Marshal(e), traceFields, None).written;
      StepOf(Received(sent), cancelled) == Deliver(Notification(uuid, content, authorId, now))
  {
  }

  /** Messages posted over HTTP reach subscribers with the synthesised id
      "gen-http_user" and the sender "http_user". */
  lemma HttpMessageIsDelivered(text: string, now: Time, traceFields: seq<Header>, cancelled: bool)
    ensures var sent := Publish(MessagePostedKey, HttpEventPayload(text, now), traceFields, None).written;
      StepOf(Received(sent), cancelled) == Deliver(Notification("gen-http_user", text, "http_user", now))
  {
  }

  /** Trace headers across the queue: a header the producer injected under
      a key it did not repeat is read back by the consumer carrier, except
      that a quoted value loses its quotes. */
  lemma {:induction false} TraceHeaderCrossesQueue(key: string, payload: Payload, before: seq<Header>,
                                                  traceKey: string, traceValue: string, after: seq<Header>)
    requires !HasKey(before, traceKey)
    ensures var sent := Publish(key, payload, before + [Header(traceKey, traceValue)] + after, None).written;
      && (ConsumerGet(sent.headers, traceKey) == traceValue <==> !IsQuoted(traceValue))
      && ConsumerGet(sent.headers, traceKey) == Unquote(traceValue)
  {
    var hs := before + [Header(traceKey, traceValue)] + after;
    assert hs[|before|] == Header(traceKey, traceValue);
    assert forall j :: 0 <= j < |before| ==> hs[j] == before[j];
    GetFindsFirstMatch(hs, traceKey, |before|);
    ProducerToConsumer(before, traceKey, traceValue);
    GetFindsFirstMatch(Set(before, traceKey, traceValue), traceKey, |before|);
  }
}
