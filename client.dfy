/**
  The `Client` of the wrapper: construction of the bearer header, assembly
  of the request URL, and the classification of the response status into a
  decoded body, a `CocError`, or the failed lookup of an unmapped status in
  the error table.

  The aiohttp session is modelled as a function `transport` from the request
  to the response it gets: the model issues exactly one request per lookup
  and does not model the network, the session's lifecycle, or JSON decoding.
 */
module CocClient {
  import opened Wrappers
  import Tags
  import UrlQuote
  import Numerals

  const BaseUrl: string := "https://api.clashofclans.com/v1/"
  const PlayersEndpoint: string := "players/"
  const ClansEndpoint: string := "clans/"
  const BearerPrefix: string := "Bearer "

  /** The fields `Client.__init__` sets once (the session is not modelled). */
  datatype Client = Client(token: string, headers: map<string, string>, baseurl: string)

  /** One GET: the full URL and the headers sent with it. */
  datatype Request = Request(url: string, headers: map<string, string>)

  /** What the transport answers: the status and the raw body. */
  datatype Response = Response(status: nat, body: string)

  /**
    How a lookup ends: the body of a 200 response, a `CocError` raised for a
    status in the error table, or the `KeyError` that the lookup of any other
    status in the error table raises.
   */
  datatype Outcome = Ok(body: string) | CocError(code: nat, message: string) | UnmappedStatus(code: nat)

  /** `Client(token)`: the header map holds the one bearer credential. */
  function NewClient(apiKey: string): (c: Client)
    ensures c.baseurl == BaseUrl
    ensures c.headers.Keys == {"Authorization"} && c.headers["Authorization"] == c.token
    ensures |c.token| == |BearerPrefix| + |apiKey|
    ensures c.token[..|BearerPrefix|] == BearerPrefix && c.token[|BearerPrefix|..] == apiKey
  {
    var token := BearerPrefix + apiKey;
    Client(token, map["Authorization" := token], BaseUrl)
  }

  /** The credential can be read back from the header, so distinct keys give distinct headers. */
  lemma NewClientInjective(a: string, b: string)
    ensures NewClient(a).headers == NewClient(b).headers <==> a == b
  {
    if NewClient(a).headers == NewClient(b).headers {
      assert NewClient(a).headers["Authorization"] == NewClient(b).headers["Authorization"];
    }
  }

  /**
    The request `_get` issues: the base URL, then the endpoint, then the
    quoted query, which holds no `#`.
   */
  function BuildRequest(c: Client, endpoint: string, query: string): (r: Request)
    ensures r.headers == c.headers
    ensures |c.baseurl + endpoint| <= |r.url| && r.url[..|c.baseurl + endpoint|] == c.baseurl + endpoint
    ensures '#' !in r.url[|c.baseurl + endpoint|..]
  {
    var prefix := c.baseurl + endpoint;
    var url := prefix + UrlQuote.Quote(query);
    assert url[|prefix|..] == UrlQuote.Quote(query);
    Request(url, c.headers)
  }

  /** The tail of the URL after the endpoint unquotes to the query: the query can be read back from the URL. */
  lemma RequestTailUnquotes(c: Client, endpoint: string, query: string)
    ensures var r := BuildRequest(c, endpoint, query);
      UrlQuote.Unquote(r.url[|c.baseurl + endpoint|..]) == Some(query)
  {
    var prefix := c.baseurl + endpoint;
    assert BuildRequest(c, endpoint, query).url[|prefix|..] == UrlQuote.Quote(query);
    UrlQuote.UnquoteQuote(query);
  }

  /** The error table of `_get`, one entry per status it names. */
  const ErrorTexts: map<nat, string> := map[
    400 := "Client provided incorrect parameters for the request.",
    403 := "Access denied, either because of missing/incorrect credentials or used API token does not grant access to the requested resource.",
    404 := "Resource was not found.",
    429 := "Request was throttled, because amount of requests was above the threshold defined for the used API token.",
    500 := "Unknown error happened when handling the request.",
    503 := "Service is temprorarily unavailable because of maintenance."
  ]

  const MessagePrefix: string := "An error occurred with Clash of Clans API. Error "

  /** `"An error occurred with Clash of Clans API. Error {}: {}".format(code, text)`. */
  function ErrorMessage(code: nat, text: string): string
  {
    MessagePrefix + Numerals.Decimal(code) + ": " + text
  }

  /**
    Reads a message built by `ErrorMessage` back into its status and text:
    the prefix, a run of digits, `": "` and the rest.
   */
  function ParseErrorMessage(m: string): Option<(nat, string)>
  {
    var p := |MessagePrefix|;
    if |m| < p || m[..p] != MessagePrefix then None
    else
      var n := Numerals.DigitRun(m[p..]);
      if n == 0 || |m| < p + n + 2 || m[p + n..p + n + 2] != ": " then None
      else Some((Numerals.DecimalValue(m[p..p + n]), m[p + n + 2..]))
  }

  /** The message can be read back: parsing it gives the status and the text it was built from. */
  lemma ErrorMessageRoundTrip(code: nat, text: string)
    ensures ParseErrorMessage(ErrorMessage(code, text)) == Some((code, text))
  {
    var p := |MessagePrefix|;
    var digits := Numerals.Decimal(code);
    var m := ErrorMessage(code, text);
    assert m[..p] == MessagePrefix;
    assert m[p..] == digits + (": " + text);
    Numerals.DigitRunEndsAtNonDigit(digits, ": " + text);
    assert m[p..p + |digits|] == digits;
    assert m[p + |digits|..p + |digits| + 2] == ": ";
    assert m[p + |digits| + 2..] == text;
    Numerals.DecimalRoundTrip(code);
  }

  /**
    The status check of `_get`: 200 is the only success; a status in the
    table is a `CocError` carrying that status and its text; any other status
    fails at the table lookup.
   */
  function Classify(resp: Response): (o: Outcome)
    ensures o.Ok? <==> resp.status == 200
    ensures o.Ok? ==> o.body == resp.body
    ensures o.CocError? <==> resp.status != 200 && resp.status in ErrorTexts
    ensures o.CocError? ==> o.code == resp.status && o.message == ErrorMessage(resp.status, ErrorTexts[resp.status])
    ensures o.UnmappedStatus? <==> resp.status != 200 && resp.status !in ErrorTexts
    ensures o.UnmappedStatus? ==> o.code == resp.status
  {
    if resp.status != 200 then
      if resp.status in ErrorTexts then CocError(resp.status, ErrorMessage(resp.status, ErrorTexts[resp.status]))
      else UnmappedStatus(resp.status)
    else Ok(resp.body)
  }

  /** `Client._get(endpoint, query)`: one request, then the status check. */
  function Get(c: Client, endpoint: string, query: string, transport: Request -> Response): (o: Outcome)
    ensures var resp := transport(BuildRequest(c, endpoint, query));
      (o.Ok? <==> resp.status == 200) && (o.Ok? ==> o.body == resp.body) && (!o.Ok? ==> o.code == resp.status)
  {
    Classify(transport(BuildRequest(c, endpoint, query)))
  }

  /** The request `get_profile(tag)` issues. */
  function ProfileRequest(c: Client, tag: string): (r: Request)
    ensures r.headers == c.headers
    ensures |c.baseurl + PlayersEndpoint| <= |r.url| && r.url[..|c.baseurl + PlayersEndpoint|] == c.baseurl + PlayersEndpoint
    ensures '#' !in r.url[|c.baseurl + PlayersEndpoint|..]
    ensures UrlQuote.Unquote(r.url[|c.baseurl + PlayersEndpoint|..]) == Some(Tags.Strip(tag))
  {
    RequestTailUnquotes(c, PlayersEndpoint, Tags.Strip(tag));
    BuildRequest(c, PlayersEndpoint, Tags.Strip(tag))
  }

  /** The request `get_clan(tag)` issues. */
  function ClanRequest(c: Client, tag: string): (r: Request)
    ensures r.headers == c.headers
    ensures |c.baseurl + ClansEndpoint| <= |r.url| && r.url[..|c.baseurl + ClansEndpoint|] == c.baseurl + ClansEndpoint
    ensures '#' !in r.url[|c.baseurl + ClansEndpoint|..]
    ensures UrlQuote.Unquote(r.url[|c.baseurl + ClansEndpoint|..]) == Some(Tags.Strip(tag))
  {
    RequestTailUnquotes(c, ClansEndpoint, Tags.Strip(tag));
    BuildRequest(c, ClansEndpoint, Tags.Strip(tag))
  }

  /** `get_profile(tag)`: strips `#` from the ends of the tag and looks it up under `players/`. */
  function GetProfile(c: Client, tag: string, transport: Request -> Response): (o: Outcome)
    ensures var resp := transport(ProfileRequest(c, tag));
      (o.Ok? <==> resp.status == 200) && (o.Ok? ==> o.body == resp.body) && (!o.Ok? ==> o.code == resp.status)
  {
    Get(c, PlayersEndpoint, Tags.Strip(tag), transport)
  }

  /** `get_clan(tag)`: strips `#` from the ends of the tag and looks it up under `clans/`. */
  function GetClan(c: Client, tag: string, transport: Request -> Response): (o: Outcome)
    ensures var resp := transport(ClanRequest(c, tag));
      (o.Ok? <==> resp.status == 200) && (o.Ok? ==> o.body == resp.body) && (!o.Ok? ==> o.code == resp.status)
  {
    Get(c, ClansEndpoint, Tags.Strip(tag), transport)
  }

  /** The request a new client sends for a tag: base URL, endpoint, quoted stripped tag, one bearer header. */
  lemma NewClientRequests(apiKey: string, tag: string)
    ensures ProfileRequest(NewClient(apiKey), tag)
         == Request(BaseUrl + PlayersEndpoint + UrlQuote.Quote(Tags.Strip(tag)), map["Authorization" := BearerPrefix + apiKey])
    ensures ClanRequest(NewClient(apiKey), tag)
         == Request(BaseUrl + ClansEndpoint + UrlQuote.Quote(Tags.Strip(tag)), map["Authorization" := BearerPrefix + apiKey])
  {
  }

  /** One request per lookup: the outcome depends on the transport only through its answer to that request. */
  lemma GetDependsOnlyOnItsRequest(c: Client, endpoint: string, query: string, t1: Request -> Response, t2: Request -> Response)
    requires t1(BuildRequest(c, endpoint, query)) == t2(BuildRequest(c, endpoint, query))
    ensures Get(c, endpoint, query, t1) == Get(c, endpoint, query, t2)
  {
  }

  /** Two queries under one endpoint are sent as the same request exactly when they are equal. */
  lemma BuildRequestInjective(c: Client, endpoint: string, q1: string, q2: string)
    ensures BuildRequest(c, endpoint, q1) == BuildRequest(c, endpoint, q2) <==> q1 == q2
  {
    var n := |c.baseurl + endpoint|;
    var u1, u2 := BuildRequest(c, endpoint, q1).url, BuildRequest(c, endpoint, q2).url;
    if u1 == u2 {
      RequestTailUnquotes(c, endpoint, q1);
      RequestTailUnquotes(c, endpoint, q2);
      assert u1[n..] == u2[n..];
    }
  }

  /** "Removing the '#' is optional": `#t` and `t` give the same request and so the same outcome. */
  lemma OptionalHash(c: Client, t: string, transport: Request -> Response)
    ensures ProfileRequest(c, "#" + t) == ProfileRequest(c, t)
    ensures GetProfile(c, "#" + t, transport) == GetProfile(c, t, transport)
    ensures ClanRequest(c, "#" + t) == ClanRequest(c, t)
    ensures GetClan(c, "#" + t, transport) == GetClan(c, t, transport)
  {
    Tags.StripOptionalHash(t);
  }

  /** Two tags are looked up under the same URL exactly when they strip to the same string. */
  lemma SameRequestIffSameStrippedTag(c: Client, a: string, b: string)
    ensures ProfileRequest(c, a) == ProfileRequest(c, b) <==> Tags.Strip(a) == Tags.Strip(b)
    ensures ClanRequest(c, a) == ClanRequest(c, b) <==> Tags.Strip(a) == Tags.Strip(b)
  {
    BuildRequestInjective(c, PlayersEndpoint, Tags.Strip(a), Tags.Strip(b));
    BuildRequestInjective(c, ClansEndpoint, Tags.Strip(a), Tags.Strip(b));
  }

  /** A profile lookup and a clan lookup never request the same URL. */
  lemma ProfileAndClanUrlsDiffer(c: Client, a: string, b: string)
    ensures ProfileRequest(c, a).url != ClanRequest(c, b).url
  {
    var n := |c.baseurl|;
    var p, q := ProfileRequest(c, a).url, ClanRequest(c, b).url;
    assert p[..n + |PlayersEndpoint|][n] == 'p';
    assert q[..n + |ClansEndpoint|][n] == 'c';
  }

  /** `get_profile("#ABC")` requests `players/ABC`, with no `%23` in the path. */
  lemma ProfileUrlExample(apiKey: string)
    ensures ProfileRequest(NewClient(apiKey), "#ABC").url == BaseUrl + PlayersEndpoint + "ABC"
  {
    Tags.StripExample();
    assert UrlQuote.Quote("ABC") == "ABC";
  }

  /** Exactly six statuses have an entry in the table. */
  lemma MappedStatuses(code: nat)
    ensures code in ErrorTexts <==> code in {400, 403, 404, 429, 500, 503}
  {
  }

  /**
    For a status of the table, the `CocError` whose message is the prefix, the
    status in three decimal digits, `": "` and the status's text.
   */
  lemma MappedStatusMessage(code: nat, body: string)
    requires code in ErrorTexts
    ensures Classify(Response(code, body)) == CocError(code,
      MessagePrefix + [Numerals.DigitChar(code / 100), Numerals.DigitChar(code / 10 % 10), Numerals.DigitChar(code % 10)]
      + ": " + ErrorTexts[code])
  {
    Numerals.DecimalThreeDigits(code);
  }

  /** `get_clan("2PP")` answered with 404 raises `CocError` naming 404 and "Resource was not found.". */
  lemma ClanNotFoundExample(c: Client, transport: Request -> Response)
    requires transport(ClanRequest(c, "2PP")).status == 404
    ensures ErrorTexts[404] == "Resource was not found."
    ensures GetClan(c, "2PP", transport)
         == CocError(404, "An error occurred with Clash of Clans API. Error 404: " + ErrorTexts[404])
  {
    Numerals.DecimalThreeDigits(404);
  }

  /** The message of a `CocError` can be read back: it determines the status and the text. */
  lemma ErrorMessageInjective(c1: nat, t1: string, c2: nat, t2: string)
    ensures ErrorMessage(c1, t1) == ErrorMessage(c2, t2) <==> c1 == c2 && t1 == t2
  {
    ErrorMessageRoundTrip(c1, t1);
    ErrorMessageRoundTrip(c2, t2);
  }
}
