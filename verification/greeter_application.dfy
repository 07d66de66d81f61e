/** The greeter service's use case: greet a user by name. */
module GreeterApplication {
  import opened Results
  import opened GreeterDomain

  /** GreetUser's two results: the message and the error. */
  datatype Greeting = Greeting(message: string, error: Option<GreeterError>)

  /** GreetUser: the domain's error with an empty message, or the domain's
      greeting with no error. */
  function GreetUser(name: string): (r: Greeting)
    ensures name == "" ==> r == Greeting("", Some(EmptyName))
    ensures name != "" ==> r.error.None? && NameInGreeting(r.message) == Some(name)
    ensures r.message != "" <==> r.error.None?
  {
    match NewGreeter(name)
    case Err(e) => Greeting("", Some(e))
    case Ok(g) =>
      GreetingNamesGreeter(g);
      Greeting(GenerateGreeting(g), None)
  }

  /** On success the message is exactly the domain greeting for the name. */
  lemma GreetUserText(name: string)
    requires name != ""
    ensures GreetUser(name).message == "Hello " + name + " from Greeter Domain!"
  {
  }
}
