/** The greeter service's domain: a Greeter entity that holds a non-empty
    name and renders a greeting for it. */
module GreeterDomain {
  import opened Results

  datatype GreeterError = EmptyName

  datatype Greeter = Greeter(name: string)

  /** NewGreeter: an empty name is refused; any other name is kept as
      given. */
  function NewGreeter(name: string): (r: Result<Greeter, GreeterError>)
    ensures name == "" <==> r == Err(EmptyName)
    ensures r.Ok? ==> r.value.name == name
  {
    if name == "" then Err(EmptyName) else Ok(Greeter(name))
  }

  /** Name: the name the greeter was made with. */
  function Name(g: Greeter): string
  {
    g.name
  }

  const GreetingPrefix: string := "Hello "
  const GreetingSuffix: string := " from Greeter Domain!"

  /** GenerateGreeting: "Hello <name> from Greeter Domain!". */
  function GenerateGreeting(g: Greeter): (s: string)
    ensures |s| == |GreetingPrefix| + |g.name| + |GreetingSuffix|
  {
    GreetingPrefix + g.name + GreetingSuffix
  }

  /** Reading the name back out of a greeting; None for any text that is
      not a greeting. */
  function NameInGreeting(s: string): (name: Option<string>)
    ensures name.Some? ==> s == GreetingPrefix + name.value + GreetingSuffix
  {
    if |s| >= |GreetingPrefix| + |GreetingSuffix|
       && s[..|GreetingPrefix|] == GreetingPrefix
       && s[|s| - |GreetingSuffix|..] == GreetingSuffix
    then
      var name := s[|GreetingPrefix|..|s| - |GreetingSuffix|];
      assert s == s[..|GreetingPrefix|] + name + s[|s| - |GreetingSuffix|..];
      Some(name)
    else None
  }

  /** The greeting names its greeter: the name can be read back from it,
      so different names give different greetings. */
  lemma GreetingNamesGreeter(g: Greeter)
    ensures NameInGreeting(GenerateGreeting(g)) == Some(Name(g))
  {
    var s := GenerateGreeting(g);
    assert s[..|GreetingPrefix|] == GreetingPrefix;
    assert s[|s| - |GreetingSuffix|..] == GreetingSuffix;
    assert s[|GreetingPrefix|..|s| - |GreetingSuffix|] == g.name;
  }

  /** A greeter made from a name greets that name. */
  lemma NewGreeterGreetsName(name: string)
    requires name != ""
    ensures NewGreeter(name).Ok?
    ensures NameInGreeting(GenerateGreeting(NewGreeter(name).value)) == Some(name)
  {
    GreetingNamesGreeter(NewGreeter(name).value);
  }
}
