/** The shared configuration validators. url.Parse is a parameter: it either
    fails or yields a scheme and a host. */
module ConfigValidator {
  import opened Results
  import opened Text

  /** The result of url.Parse, reduced to what the validator inspects. */
  datatype UrlParse = ParseError | Parsed(scheme: string, host: string)

  datatype ConfigError =
    | InvalidPortNumber(port: string)
    | PortOutOfRange(portNumber: int)
    | EmptyUrl
    | InvalidUrl(url: string)
    | MissingScheme(url: string)
    | MissingHost(url: string)
    | Required(field: string)
    | NotOneOf(field: string, allowed: seq<string>, got: string)
    | Wrapped(context: string, inner: ConfigError)

  /** ValidatePort: the port must be an integer in 1..65535 as strconv.Atoi
      reads it (an optional sign, then decimal digits). */
  function ValidatePort(port: string): (r: Outcome<ConfigError>)
    ensures r.Pass? <==> IntegerSyntax(port) && 1 <= IntegerValue(port) <= 65535
    ensures !IntegerSyntax(port) ==> r == Fail(InvalidPortNumber(port))
    ensures IntegerSyntax(port) && !(1 <= IntegerValue(port) <= 65535) && MinInt64 <= IntegerValue(port) <= MaxInt64
      ==> r == Fail(PortOutOfRange(IntegerValue(port)))
    ensures IntegerSyntax(port) && !(MinInt64 <= IntegerValue(port) <= MaxInt64) ==> r == Fail(InvalidPortNumber(port))
  {
    match Atoi(port)
    case None => Fail(InvalidPortNumber(port))
    case Some(n) => if n < 1 || n > 65535 then Fail(PortOutOfRange(n)) else Pass
  }

  /** Every port number written in plain decimal is accepted. */
  lemma ValidatePortAcceptsDecimal(p: nat)
    requires 1 <= p <= 65535
    ensures ValidatePort(FormatNat(p)) == Pass
  {
    AtoiFormatNat(p);
  }

  /** A leading plus sign is accepted, as Atoi accepts it. */
  lemma ValidatePortAcceptsPlusSign()
    ensures ValidatePort("+8080") == Pass
  {
    assert "+8080"[1..] == "8080";
    assert "8080"[..3] == "808" && "808"[..2] == "80" && "80"[..1] == "8" && "8"[..0] == "";
    assert DecimalValue("8080") == 8080;
  }

  /** Leading zeros are accepted. */
  lemma ValidatePortAcceptsLeadingZero()
    ensures ValidatePort("080") == Pass
  {
    assert "080"[0..] == "080";
    assert "080"[..2] == "08" && "08"[..1] == "0" && "0"[..0] == "";
    assert DecimalValue("080") == 80;
  }

  /** The empty string and a lone sign are not numbers. */
  lemma ValidatePortRejectsNonNumbers()
    ensures ValidatePort("") == Fail(InvalidPortNumber(""))
    ensures ValidatePort("-") == Fail(InvalidPortNumber("-"))
  {
  }

  /** 0 and 65536 lie outside the port range. */
  lemma ValidatePortRejectsOutOfRange()
    ensures ValidatePort("0") == Fail(PortOutOfRange(0))
    ensures ValidatePort("65536") == Fail(PortOutOfRange(65536))
  {
    assert "0"[0..] == "0" && "0"[..0] == "";
    assert "65536"[0..] == "65536";
    assert "65536"[..4] == "6553" && "6553"[..3] == "655" && "655"[..2] == "65" && "65"[..1] == "6" && "6"[..0] == "";
    assert DecimalValue("65536") == 65536;
  }

  /** ValidateURL: an empty string fails before parsing; a parsed URL needs
      a scheme, then a host. */
  function ValidateURL(rawUrl: string, parse: string -> UrlParse): (r: Outcome<ConfigError>)
    ensures rawUrl == "" ==> r == Fail(EmptyUrl)
    ensures r.Pass? ==> rawUrl != "" && parse(rawUrl).Parsed? && parse(rawUrl).scheme != "" && parse(rawUrl).host != ""
    ensures rawUrl != "" && parse(rawUrl).Parsed? && parse(rawUrl).scheme != "" && parse(rawUrl).host != "" ==> r.Pass?
  {
    if rawUrl == "" then Fail(EmptyUrl)
    else match parse(rawUrl)
      case ParseError => Fail(InvalidUrl(rawUrl))
      case Parsed(scheme, host) =>
        if scheme == "" then Fail(MissingScheme(rawUrl))
        else if host == "" then Fail(MissingHost(rawUrl))
        else Pass
  }

  /** The empty URL is rejected whatever the parser would have said. */
  lemma EmptyUrlNotParsed(parse1: string -> UrlParse, parse2: string -> UrlParse)
    ensures ValidateURL("", parse1) == ValidateURL("", parse2) == Fail(EmptyUrl)
  {
  }

  /** ValidateRequired: fails exactly for the empty value, naming the field. */
  function ValidateRequired(value: string, fieldName: string): (r: Outcome<ConfigError>)
    ensures r.Fail? <==> value == ""
    ensures r.Fail? ==> r.error == Required(fieldName)
  {
    if value == "" then Fail(Required(fieldName)) else Pass
  }

  /** The scan of ValidateOneOf from position i on. */
  function OneOfFrom(value: string, allowed: seq<string>, i: nat): (found: bool)
    requires i <= |allowed|
    ensures found <==> exists j :: i <= j < |allowed| && allowed[j] == value
    decreases |allowed| - i
  {
    if i == |allowed| then false
    else if allowed[i] == value then true
    else OneOfFrom(value, allowed, i + 1)
  }

  /** ValidateOneOf: passes exactly when the value equals some allowed entry;
      with nothing allowed it always fails. */
  function ValidateOneOf(value: string, allowed: seq<string>, fieldName: string): (r: Outcome<ConfigError>)
    ensures r.Pass? <==> value in allowed
    ensures r.Fail? ==> r.error == NotOneOf(fieldName, allowed, value)
  {
    if OneOfFrom(value, allowed, 0) then Pass else Fail(NotOneOf(fieldName, allowed, value))
  }
}
