/** The chat command side: PostMessageHandler.Handle creates the aggregate
    and publishes its events on an abstract event bus. The bus's answer to
    its n-th Publish call is the parameter `bus(n)`. */
module ChatApplication {
  import opened Results
  import opened Wire
  import opened ChatDomain

  /** An error returned by the event bus. */
  datatype BusError = BusError(reason: string)

  datatype PostMessageCommand = PostMessageCommand(authorId: string, content: string)

  datatype HandleError = DomainFailure(domainError: DomainError) | PublishFailure(busError: BusError)

  /** One Publish call on the event bus. */
  datatype Publication = Publication(key: string, payload: Payload)

  const Accepted: string := "Message processed async"

  /** json.Marshal of the domain event: the four canonical fields; the
      consumer's legacy fields are absent and decode as zero values. */
  function Marshal(e: MessagePosted): (p: Payload)
    ensures p.Json? && p.fields.sender == "" && p.fields.text == "" && p.fields.ts == ZeroTime
    ensures p.fields.messageId == e.messageId && p.fields.content == e.content
    ensures p.fields.authorId == e.authorId && p.fields.timestamp == e.timestamp
  {
    Json(EventFields(e.messageId, e.content, e.authorId, e.timestamp, "", "", ZeroTime))
  }

  /** The Publish calls made for these events when every call succeeds. */
  function Plan(events: seq<MessagePosted>): (ps: seq<Publication>)
    ensures |ps| == |events|
    ensures forall i :: 0 <= i < |events| ==> ps[i] == Publication(EventName(events[i]), Marshal(events[i]))
    decreases |events|
  {
    if |events| == 0 then [] else [Publication(EventName(events[0]), Marshal(events[0]))] + Plan(events[1..])
  }

  /** The first of the calls 0..n-1 that the bus fails, if any. */
  function FirstFailure(bus: nat -> Option<BusError>, n: nat): (r: Option<nat>)
    ensures r.None? <==> forall i :: 0 <= i < n ==> bus(i).None?
    ensures r.Some? ==> r.value < n && bus(r.value).Some? && forall i :: 0 <= i < r.value ==> bus(i).None?
    decreases n
  {
    if n == 0 then None
    else match FirstFailure(bus, n - 1)
      case Some(i) => Some(i)
      case None => if bus(n - 1).Some? then Some(n - 1) else None
  }

  /** Handle: a domain error returns before anything is published; otherwise
      the events are published in order, keyed by their names, stopping at
      the first failed call. */
  method Handle(cmd: PostMessageCommand, uuid: string, now: Time, bus: nat -> Option<BusError>)
    returns (result: Result<string, HandleError>, published: seq<Publication>)
    ensures NewMessage(cmd.authorId, cmd.content, uuid, now).Err? ==>
      result == Err(DomainFailure(NewMessage(cmd.authorId, cmd.content, uuid, now).error)) && published == []
    ensures NewMessage(cmd.authorId, cmd.content, uuid, now).Ok? ==>
      var plan := Plan(NewMessage(cmd.authorId, cmd.content, uuid, now).value.events);
      match FirstFailure(bus, |plan|)
      case None => result == Ok(Accepted) && published == plan
      case Some(i) => result == Err(PublishFailure(bus(i).value)) && published == plan[..i + 1]
    ensures result.Ok? ==> result.value == Accepted
  {
    var created := NewMessage(cmd.authorId, cmd.content, uuid, now);
    if created.Err? {
      return Err(DomainFailure(created.error)), [];
    }
    var events := created.value.events;
    ghost var plan := Plan(events);
    published := [];
    var n := 0;
    while n < |events|
      invariant 0 <= n <= |events|
      invariant published == plan[..n]
      invariant FirstFailure(bus, n).None?
    {
      var event := events[n];
      published := published + [Publication(EventName(event), Marshal(event))];
      if bus(n).Some? {
        assert published == plan[..n + 1];
        return Err(PublishFailure(bus(n).value)), published;
      }
      n := n + 1;
    }
    assert plan[..n] == plan;
    return Ok(Accepted), published;
  }
}
