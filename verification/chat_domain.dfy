/** The chat Message aggregate: it is created from a command by emitting a
    MessagePosted event and is changed only by applying events. The
    generated UUID and the current time are parameters. */
module ChatDomain {
  import opened Results
  import opened Wire

  /** The domain event; its JSON form carries message_id, content,
      author_id and timestamp. */
  datatype MessagePosted = MessagePosted(messageId: string, content: string, authorId: string, timestamp: Time)

  /** The event's name, used as the Kafka message key. */
  function EventName(e: MessagePosted): (name: string)
  {
    "chat.message_posted"
  }

  /** The aggregate's state; `version` counts the events applied. */
  datatype Message = Message(id: string, content: string, authorId: string, timestamp: Time, version: int)

  /** The zero-valued aggregate `&Message{}`. */
  const Blank: Message := Message("", "", "", ZeroTime, 0)

  /** Apply: overwrites every field from the event and bumps the version. */
  function Apply(m: Message, e: MessagePosted): (r: Message)
    ensures r.version == m.version + 1
    ensures r.id == e.messageId && r.content == e.content
    ensures r.authorId == e.authorId && r.timestamp == e.timestamp
  {
    Message(e.messageId, e.content, e.authorId, e.timestamp, m.version + 1)
  }

  /** Rebuilding an aggregate from an event history. */
  function Replay(m: Message, events: seq<MessagePosted>): Message
    decreases |events|
  {
    if |events| == 0 then m else Apply(Replay(m, events[..|events| - 1]), events[|events| - 1])
  }

  /** Rehydration: replaying a non-empty history leaves the fields of the
      last event and a version advanced by the number of events. */
  lemma {:induction false} ReplayHistory(m: Message, events: seq<MessagePosted>)
    ensures Replay(m, events).version == m.version + |events|
    ensures |events| > 0 ==> var last := events[|events| - 1];
      var r := Replay(m, events);
      r.id == last.messageId && r.content == last.content
      && r.authorId == last.authorId && r.timestamp == last.timestamp
    decreases |events|
  {
    if |events| > 0 {
      ReplayHistory(m, events[..|events| - 1]);
    }
  }

  datatype DomainError = EmptyContent | EmptyAuthor

  /** A new aggregate with its not-yet-published events. */
  datatype Created = Created(message: Message, events: seq<MessagePosted>)

  /** NewMessage: content is checked first, then the author; on success one
      event carries the inputs with the generated id and time, and the
      aggregate is that event applied to a blank message. */
  function NewMessage(authorId: string, content: string, uuid: string, now: Time): (r: Result<Created, DomainError>)
    ensures content == "" ==> r == Err(EmptyContent)
    ensures content != "" && authorId == "" ==> r == Err(EmptyAuthor)
    ensures r.Ok? <==> content != "" && authorId != ""
    ensures r.Ok? ==> r.value.events == [MessagePosted(uuid, content, authorId, now)]
    ensures r.Ok? ==> var m := r.value.message;
      m == Message(uuid, content, authorId, now, 1)
  {
    if content == "" then Err(EmptyContent)
    else if authorId == "" then Err(EmptyAuthor)
    else
      var event := MessagePosted(uuid, content, authorId, now);
      Ok(Created(Apply(Blank, event), [event]))
  }

  /** The aggregate NewMessage returns is exactly its events replayed on a
      blank message, so creating and rehydrating agree. */
  lemma NewMessageIsReplay(authorId: string, content: string, uuid: string, now: Time)
    requires content != "" && authorId != ""
    ensures var c := NewMessage(authorId, content, uuid, now).value;
      c.message == Replay(Blank, c.events)
  {
    var c := NewMessage(authorId, content, uuid, now).value;
    assert c.events[..0] == [];
  }

  /** The ID getter. */
  function ID(m: Message): string { m.id }

  /** The Content getter. */
  function ContentOf(m: Message): string { m.content }

  /** The getters read back what NewMessage was given: the generated id
      and the content. */
  lemma GettersReadBack(authorId: string, content: string, uuid: string, now: Time)
    requires content != "" && authorId != ""
    ensures var m := NewMessage(authorId, content, uuid, now).value.message;
      ID(m) == uuid && ContentOf(m) == content
  {
  }
}
