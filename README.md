# clashofclans: a Dafny model of the API client

The `clashofclans` package wraps the Clash of Clans REST API in one
`Client` class. This project models the part of it that holds decisions:

- **Tag normalisation.** `get_profile` and `get_clan` pass the tag through
  Python's `str.strip("#")`. This removes every `#` at either end and keeps
  inner ones (`Tags.Strip`).
- **Request assembly.** `Client.__init__` builds the header map
  `{'Authorization': 'Bearer ' + token}` and fixes the base URL
  `https://api.clashofclans.com/v1/` (`CocClient.NewClient`).
  `Client._get` requests the base URL, then the endpoint (`players/` or
  `clans/`), then `urllib.parse.quote(tag)` (`CocClient.BuildRequest`).
  `quote` is modelled with its default `safe='/'`: each character is encoded
  in UTF-8, and every byte of a character other than an unreserved one
  (section 2.3 of RFC 3986) or `/` becomes `%XX` with upper-case hex digits
  (section 2.1 of RFC 3986) (`UrlQuote.Quote`). Its partner is `UrlQuote.Unquote`,
  which is percent-decoding followed by UTF-8 decoding.
- **Status classification.** 200 returns the body. The six statuses of the
  error table raise `CocError` with the message
  `An error occurred with Clash of Clans API. Error {code}: {text}`.
  Any other status makes the lookup `errors[resp.status]` raise `KeyError`
  before a message is built (`CocClient.Classify`, outcome `UnmappedStatus`).

The aiohttp session is a parameter `transport: Request -> Response`.
`GetProfile` and `GetClan` ask it once, for the request they build, and
classify its answer. Because `transport` is a function, it stands for the
server at one moment: two lookups compared under the same `transport` (as in
`CocClient.OptionalHash`) get the same answer to the same request. A server
whose answer changes between two calls is not modelled.

The model follows the code as written at these points:

- The code puts no `%23` before the tag. The stripped tag is quoted and
  appended directly, so `get_profile("#ABC")` requests `.../players/ABC`
  (`CocClient.ProfileUrlExample`).
- An unmapped status gives no fallback message. It ends in the `KeyError`
  of the table lookup, which is a failure and never a success.
- The dict literal at clashofclans/__init__.py:46-53 has no commas between
  its entries, so the file as written does not parse. The model takes the
  evident intent, which is one status-to-text entry per line (`CocClient.ErrorTexts`).
- The code has no current-war, members or clan-from-player lookups and no
  `NotInWar` error, so none is modelled.

## Model

| member | source | states |
|---|---|---|
| `Tags.SkipLeading` | clashofclans/__init__.py:69 | the start index passes over exactly the `#` run at the front and stops at the first non-`#` |
| `Tags.SkipTrailing` | clashofclans/__init__.py:69 | the end index moves back over exactly the `#` run at the end, never past the start |
| `Tags.Strip` | clashofclans/__init__.py:69 | the normalised tag neither starts nor ends with `#`; it is a contiguous slice of the input and everything removed around it is `#` |
| `Tags.StripCharacterised` | clashofclans/__init__.py:69 | any slice that has only `#` around it and no `#` at its ends is the result of `Strip` (Strip equals the reference definition) |
| `Tags.StripIdempotent` | clashofclans/__init__.py:82 | normalising twice equals normalising once |
| `Tags.StripIgnoresEndHashes` | clashofclans/__init__.py:65-69 | any number of `#` added at either end of a tag normalises away |
| `Tags.StripOptionalHash` | clashofclans/__init__.py:78-82 | `"#" + t` and `t` normalise to the same string |
| `Tags.StripExample` | clashofclans/__init__.py:65-69 | `"#ABC"` normalises to `"ABC"` |
| `Tags.StripKeepsInnerHash` | clashofclans/__init__.py:82 | a `#` between non-`#` ends survives normalisation |
| `UrlQuote.Utf8Char` | clashofclans/__init__.py:43 | a character is encoded in 1 to 4 UTF-8 bytes, and in one byte exactly when it is ASCII |
| `UrlQuote.PercentEncode` | clashofclans/__init__.py:43 | each byte becomes three characters `%XX`: `%` stands exactly at the positions divisible by three, and every other position holds an upper-case hex digit |
| `UrlQuote.Quote` | clashofclans/__init__.py:43 | the quoted tag holds only unreserved characters, `/` and `%`, so no `#`; a tag made only of safe characters is unchanged |
| `UrlQuote.PercentDecodeQuote` | clashofclans/__init__.py:43 | percent-decoding the quoted string yields the UTF-8 bytes of the original |
| `UrlQuote.Utf8RoundTrip` | clashofclans/__init__.py:43 | UTF-8 decoding undoes the UTF-8 encoding `quote` applies |
| `UrlQuote.UnquoteQuote` | clashofclans/__init__.py:43 | unquoting the quoted tag gives the tag back |
| `UrlQuote.QuoteInjective` | clashofclans/__init__.py:43 | two tags are quoted alike exactly when they are equal |
| `UrlQuote.QuoteAppend` | clashofclans/__init__.py:43 | quoting a concatenation is the concatenation of the quotings |
| `UrlQuote.QuoteOfHash` | clashofclans/__init__.py:43 | `#` is quoted as `%23` |
| `UrlQuote.QuoteHash` | clashofclans/__init__.py:43 | an inner `#` is written as `%23` and its neighbours are quoted as on their own |
| `Numerals.Decimal` | clashofclans/__init__.py:54 | the status is written as at least one decimal digit with no leading zero |
| `Numerals.DecimalRoundTrip` | clashofclans/__init__.py:54 | reading the written digits back gives the status |
| `Numerals.DecimalInjective` | clashofclans/__init__.py:54 | distinct statuses are written differently |
| `Numerals.DecimalThreeDigits` | clashofclans/__init__.py:54 | a three-digit status is written as its three digits |
| `CocClient.NewClient` | clashofclans/__init__.py:30-33 | the base URL is fixed, the header map has the one key `Authorization`, and its value is `Bearer ` followed by the API key |
| `CocClient.NewClientInjective` | clashofclans/__init__.py:30-32 | distinct API keys give distinct headers: the key can be read back from the header |
| `CocClient.BuildRequest` | clashofclans/__init__.py:43-44 | the URL is the base URL, then the endpoint, then a tail with no `#`; the client's headers are sent |
| `CocClient.ProfileRequest` | clashofclans/__init__.py:69 | through `_get` (lines 43-44), `get_profile` sends the client's headers to the base URL followed by `players/` and a tail with no `#` that unquotes to the stripped tag |
| `CocClient.ClanRequest` | clashofclans/__init__.py:82 | through `_get` (lines 43-44), `get_clan` sends the client's headers to the base URL followed by `clans/` and a tail with no `#` that unquotes to the stripped tag |
| `CocClient.RequestTailUnquotes` | clashofclans/__init__.py:43-44 | the tail of the URL after the endpoint unquotes to the query, so the query can be read back from the URL |
| `CocClient.BuildRequestInjective` | clashofclans/__init__.py:43-44 | two queries under one endpoint give the same request exactly when they are equal |
| `CocClient.NewClientRequests` | clashofclans/__init__.py:30-44 | a new client requests `https://api.clashofclans.com/v1/` + `players/` or `clans/` + the quoted stripped tag, with the single bearer header |
| `CocClient.GetDependsOnlyOnItsRequest` | clashofclans/__init__.py:44-56 | a lookup issues one request: its outcome depends only on the answer to that request |
| `CocClient.OptionalHash` | clashofclans/__init__.py:59-82 | `get_profile` and `get_clan` issue the same request, and so reach the same outcome, for `"#" + t` and for `t` |
| `CocClient.SameRequestIffSameStrippedTag` | clashofclans/__init__.py:43-82 | two tags are requested under the same URL exactly when they strip to the same string |
| `CocClient.ProfileAndClanUrlsDiffer` | clashofclans/__init__.py:69-82 | a profile lookup and a clan lookup never request the same URL |
| `CocClient.ProfileUrlExample` | clashofclans/__init__.py:59-69 | `get_profile("#ABC")` requests the base URL followed by `players/ABC`, with no `%23` |
| `CocClient.Classify` | clashofclans/__init__.py:45-56 | success exactly for 200, with the body unchanged; `CocError` exactly for a non-200 status in the table, carrying that status and its message; a failed lookup exactly for every other status |
| `CocClient.Get` | clashofclans/__init__.py:36-56 | `_get` succeeds exactly when the one request it builds is answered 200, returning that body; otherwise its failure carries the status of that answer |
| `CocClient.GetProfile` | clashofclans/__init__.py:59-69 | `get_profile` succeeds exactly when its request (`ProfileRequest`) is answered 200, returning that body; otherwise its failure carries that status |
| `CocClient.GetClan` | clashofclans/__init__.py:72-82 | `get_clan` succeeds exactly when its request (`ClanRequest`) is answered 200, returning that body; otherwise its failure carries that status |
| `CocClient.MappedStatuses` | clashofclans/__init__.py:46-53 | the table `ErrorTexts` has entries for exactly 400, 403, 404, 429, 500 and 503 |
| `CocClient.MappedStatusMessage` | clashofclans/__init__.py:46-54 | for a status of the table, the message is the fixed prefix, the status's three digits, `": "` and the status's text |
| `CocClient.ClanNotFoundExample` | clashofclans/__init__.py:49-54 | `get_clan("2PP")` answered with 404 raises `CocError` with message `An error occurred with Clash of Clans API. Error 404: Resource was not found.` |
| `CocClient.ErrorMessageRoundTrip` | clashofclans/__init__.py:54 | the `CocError` message is the prefix, the status in decimal, `": "` and the text, and parsing it gives back the status and the text |
| `CocClient.ErrorMessageInjective` | clashofclans/__init__.py:54 | the `CocError` message determines both the status and the text it was built from |

## Left out

- The aiohttp session: its creation when none is given, `session.get`, `async with`/`await`, and the connection lifecycle (clashofclans/__init__.py:31, :44). This is network I/O, modelled only as the `transport` parameter.
- JSON decoding (`resp.json()`) and the `Box` wrapper (clashofclans/__init__.py:55-56). These are foreign libraries. A success carries the raw response body, and a body that is not JSON is not modelled.
- `urllib.parse.quote` beyond its percent-encoding contract: other `safe` sets, `bytes` input, and encodings other than UTF-8.
- `UrlQuote.IsUnreserved` leaves `~` unescaped, as `quote` does from Python 3.7 on. Earlier versions write `~` as `%7E`; the supported Python version is not fixed by the package, and that behaviour is not modelled.
- `UrlQuote.Unquote` accepts overlong UTF-8 sequences. It stands in for `urllib.parse.unquote` only on strings that `Quote` produces, which is all the round-trip lemmas need.
- The `CocError` exception class and the `KeyError` are modelled as the outcomes `CocError` and `UnmappedStatus`, not as raised exceptions.
- `Outcome.CocError` carries a `code` field that the exception does not have. The exception holds only the message; `code` is the status written in that message, as `CocClient.ErrorMessageRoundTrip` shows.
- Transport-level failures (connection refused, DNS failure, timeout) propagate unchanged in the code and are not modelled.
- setup.py is packaging metadata and is not part of this model.
