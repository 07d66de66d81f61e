/** The notification service's Kafka consumer: one iteration of its loop
    (read, dispatch on the message key, decode, normalize) and the loop over
    a sequence of reads. Each read outcome and the cancellation state of the
    loop's context are inputs. */
module NotificationConsumer {
  import opened Results
  import opened Headers
  import opened Wire

  /** The only message key the consumer processes. */
  const MessagePostedKey: string := "chat.message_posted"

  /** The WebSocket payload `{id, msg, sender, ts}`. */
  datatype Notification = Notification(id: string, msg: string, sender: string, ts: Time)

  /** Collapses the canonical and the legacy field groups into one
      notification, field by field; a missing message id is synthesised from
      the resolved sender. */
  function Normalize(e: EventFields): (n: Notification)
    ensures n.id != ""
    ensures n.sender == "" <==> e.authorId == "" && e.sender == ""
    ensures n.msg == "" <==> e.content == "" && e.text == ""
  {
    var author := if e.authorId != "" then e.authorId else e.sender;
    var content := if e.content != "" then e.content else e.text;
    var ts := if e.timestamp != ZeroTime then e.timestamp else e.ts;
    var id := if e.messageId != "" then e.messageId else "gen-" + author;
    Notification(id, content, author, ts)
  }

  /** The resolution policy of the normalizer: each output field comes from
      its canonical field when that is populated and from its legacy field
      otherwise, and the id falls back to "gen-" plus the resolved sender. */
  lemma NormalizeResolution(e: EventFields)
    ensures var n := Normalize(e);
      && (e.authorId != "" ==> n.sender == e.authorId)
      && (e.authorId == "" ==> n.sender == e.sender)
      && (e.content != "" ==> n.msg == e.content)
      && (e.content == "" ==> n.msg == e.text)
      && (e.timestamp != ZeroTime ==> n.ts == e.timestamp)
      && (e.timestamp == ZeroTime ==> n.ts == e.ts)
      && (e.messageId != "" ==> n.id == e.messageId)
      && (e.messageId == "" ==> n.id == "gen-" + n.sender)
  {
  }

  /** A fully canonical event is normalized from its canonical fields alone:
      the legacy fields make no difference. */
  lemma NormalizeCanonical(e: EventFields, legacySender: string, legacyText: string, legacyTs: Time)
    requires e.messageId != "" && e.content != "" && e.authorId != "" && e.timestamp != ZeroTime
    ensures Normalize(e) == Normalize(e.(sender := legacySender, text := legacyText, ts := legacyTs))
    ensures Normalize(e) == Notification(e.messageId, e.content, e.authorId, e.timestamp)
  {
  }

  /** A legacy event (no canonical field populated) is normalized from its
      legacy fields, with a synthesised id. */
  lemma NormalizeLegacy(sender: string, text: string, ts: Time)
    ensures Normalize(EventFields("", "", "", ZeroTime, sender, text, ts))
         == Notification("gen-" + sender, text, sender, ts)
  {
  }

  /** A read from the Kafka reader: an error, or a message. */
  datatype Poll = ReadFailed | Received(message: KafkaMessage)

  /** What one loop iteration does. */
  datatype StepResult =
    | Stop                              // context cancelled: the loop returns
    | Retry                             // transient error: sleep, then read again
    | Ignored                           // unrecognised key: logged and skipped
    | DecodeFailed                      // malformed payload: recorded and skipped
    | Deliver(notification: Notification) // broadcast to the registry

  /** One iteration of KafkaConsumer.Start. */
  function StepOf(poll: Poll, cancelled: bool): (r: StepResult)
    ensures r.Stop? <==> poll.ReadFailed? && cancelled
    ensures r.Retry? <==> poll.ReadFailed? && !cancelled
    ensures r.Ignored? <==> poll.Received? && poll.message.key != MessagePostedKey
    ensures r.DecodeFailed? <==> poll.Received? && poll.message.key == MessagePostedKey && poll.message.value.Malformed?
    ensures r.Deliver? ==> r.notification == Normalize(poll.message.value.fields)
  {
    match poll
    case ReadFailed => if cancelled then Stop else Retry
    case Received(m) =>
      if m.key != MessagePostedKey then Ignored
      else match Decode(m.value)
        case None => DecodeFailed
        case Some(e) => Deliver(Normalize(e))
  }

  /** A read outcome together with whether the context was cancelled when
      it was checked. */
  datatype Tick = Tick(poll: Poll, cancelled: bool)

  /** The notifications the loop broadcasts over a sequence of reads,
      stopping at the first read error observed after cancellation. */
  function Consume(ticks: seq<Tick>): (ns: seq<Notification>)
    ensures |ns| <= |ticks|
    decreases |ticks|
  {
    if |ticks| == 0 then []
    else match StepOf(ticks[0].poll, ticks[0].cancelled)
      case Stop => []
      case Deliver(n) => [n] + Consume(ticks[1..])
      case _ => Consume(ticks[1..])
  }

  /** True when no read in the sequence stops the loop. */
  predicate NeverStops(ticks: seq<Tick>)
  {
    forall i :: 0 <= i < |ticks| ==> !StepOf(ticks[i].poll, ticks[i].cancelled).Stop?
  }

  /** Reads that never stop the loop contribute their notifications and
      let every later read be processed. */
  lemma {:induction false} ConsumeAppend(p: seq<Tick>, q: seq<Tick>)
    requires NeverStops(p)
    ensures Consume(p + q) == Consume(p) + Consume(q)
    decreases |p|
  {
    if |p| == 0 {
      assert p + q == q;
    } else {
      assert !StepOf(p[0].poll, p[0].cancelled).Stop?;
      assert (p + q)[0] == p[0];
      assert (p + q)[1..] == p[1..] + q;
      assert NeverStops(p[1..]) by {
        forall i | 0 <= i < |p[1..]| ensures p[1..][i] == p[i + 1] { }
      }
      ConsumeAppend(p[1..], q);
    }
  }

  /** Resilience: a transient read error (context not cancelled) changes
      nothing about what is broadcast, before or after it. */
  lemma {:induction false} TransientErrorIsTransparent(p: seq<Tick>, q: seq<Tick>)
    ensures Consume(p + [Tick(ReadFailed, false)] + q) == Consume(p + q)
    decreases |p|
  {
    if |p| == 0 {
      assert p + [Tick(ReadFailed, false)] + q == [Tick(ReadFailed, false)] + q;
      assert p + q == q;
      assert ([Tick(ReadFailed, false)] + q)[1..] == q;
    } else {
      assert (p + [Tick(ReadFailed, false)] + q)[0] == p[0];
      assert (p + [Tick(ReadFailed, false)] + q)[1..] == p[1..] + [Tick(ReadFailed, false)] + q;
      assert (p + q)[0] == p[0];
      assert (p + q)[1..] == p[1..] + q;
      TransientErrorIsTransparent(p[1..], q);
    }
  }

  /** A message with any other key produces no broadcast and no error: the
      loop carries on as if it had not been read. */
  lemma {:induction false} OtherKeyIsSkipped(p: seq<Tick>, m: KafkaMessage, cancelled: bool, q: seq<Tick>)
    requires m.key != MessagePostedKey
    ensures Consume(p + [Tick(Received(m), cancelled)] + q) == Consume(p + q)
    decreases |p|
  {
    var t := Tick(Received(m), cancelled);
    if |p| == 0 {
      assert p + [t] + q == [t] + q;
      assert p + q == q;
      assert ([t] + q)[1..] == q;
    } else {
      assert (p + [t] + q)[0] == p[0];
      assert (p + [t] + q)[1..] == p[1..] + [t] + q;
      assert (p + q)[0] == p[0];
      assert (p + q)[1..] == p[1..] + q;
      OtherKeyIsSkipped(p[1..], m, cancelled, q);
    }
  }

  /** A read error after cancellation ends the loop: nothing after it is
      processed. */
  lemma {:induction false} CancellationStops(p: seq<Tick>, q: seq<Tick>)
    requires NeverStops(p)
    ensures Consume(p + [Tick(ReadFailed, true)] + q) == Consume(p)
  {
    ConsumeAppend(p, [Tick(ReadFailed, true)] + q);
    assert p + [Tick(ReadFailed, true)] + q == p + ([Tick(ReadFailed, true)] + q);
    assert Consume(p) + [] == Consume(p);
  }

  /** Every broadcast comes from a read message keyed "chat.message_posted"
      whose payload decoded. */
  lemma {:induction false} BroadcastsComeFromRecognizedMessages(ticks: seq<Tick>, n: Notification)
    requires n in Consume(ticks)
    ensures exists i :: (0 <= i < |ticks| && ticks[i].poll.Received?
      && ticks[i].poll.message.key == MessagePostedKey
      && ticks[i].poll.message.value.Json?
      && Normalize(ticks[i].poll.message.value.fields) == n)
    decreases |ticks|
  {
    var r := StepOf(ticks[0].poll, ticks[0].cancelled);
    if r.Deliver? && r.notification == n {
      assert ticks[0].poll.Received?;
    } else {
      assert n in Consume(ticks[1..]);
      BroadcastsComeFromRecognizedMessages(ticks[1..], n);
      var i :| 0 <= i < |ticks[1..]| && ticks[1..][i].poll.Received?
        && ticks[1..][i].poll.message.key == MessagePostedKey
        && ticks[1..][i].poll.message.value.Json?
        && Normalize(ticks[1..][i].poll.message.value.fields) == n;
      assert ticks[i + 1] == ticks[1..][i];
    }
  }
}
