/** The chat gRPC adapter: SayHello turns a HelloRequest into a
    PostMessageCommand and maps the handler's errors to gRPC statuses. */
module ChatGrpc {
  import opened Results
  import opened Wire
  import opened ChatDomain
  import opened ChatApplication

  /** The author every gRPC-posted message is attributed to. */
  const GrpcAuthor: string := "grpc-user"

  datatype Status =
    | InvalidArgument(message: string)
    | Internal(cause: HandleError)

  datatype HelloReply = HelloReply(message: string)

  /** SayHello: an empty name is rejected before the handler runs; otherwise
      the name becomes the content of a message by "grpc-user", a handler
      error becomes Internal, and the reply carries the handler's string. */
  method SayHello(name: string, uuid: string, now: Time, bus: nat -> Option<BusError>)
    returns (reply: Result<HelloReply, Status>, published: seq<Publication>)
    ensures name == "" ==> reply == Err(InvalidArgument("Name (content) is required")) && published == []
    ensures name != "" ==>
      published == [Publication("chat.message_posted", Marshal(MessagePosted(uuid, name, GrpcAuthor, now)))]
    ensures name != "" && bus(0).None? ==> reply == Ok(HelloReply(Accepted))
    ensures name != "" && bus(0).Some? ==> reply == Err(Internal(PublishFailure(bus(0).value)))
  {
    if name == "" {
      return Err(InvalidArgument("Name (content) is required")), [];
    }
    var result;
    result, published := Handle(PostMessageCommand(GrpcAuthor, name), uuid, now, bus);
    if result.Err? {
      return Err(Internal(result.error)), published;
    }
    return Ok(HelloReply(result.value)), published;
  }
}
