# mc_auth device-code login, modelled in Dafny

The `mc_auth` crate signs a user in to Microsoft accounts with the OAuth 2.0
Device Authorization Grant (RFC 8628). Its whole logic is the `AuthFlow` session
in `src/lib.rs`:

- `new` creates a session holding a client id and two empty slots, `data`
  (the device-code grant) and `response` (the token set);
- `request_code` asks the device-code endpoint for a grant, stores it in `data`
  and returns it;
- `wait_for_login` polls the token endpoint, sleeping `interval + 1` seconds
  before each poll, and classifies every reply: a 400 whose error code is
  `authorization_declined`, `expired_token` or `invalid_grant` ends with that code;
  a 400 with any other code (`authorization_pending`, `slow_down`, ...) polls again;
  a 200 stores the decoded token set in `response` and returns it; a body that does
  not decode, or any other status, ends with an error.

The model (`mc_auth.dfy`, module `McAuth`) keeps `AuthFlow` as a class with the
same three fields. The network is replaced by values the caller passes in:
`RequestCode` receives the decoded grant, and `WaitForLogin` receives a finite
script of replies, each a status code and what its body decodes to as an error
record and as a token set. Because the script is finite, the loop has one more
way to end than the source: `NoMoreReplies`, when every reply asked for another
poll. Sleeps and requests are recorded, in order, in a ghost `trace` of events;
the trace also records the fields every request carries (client id, scope,
grant type, device code).

`WaitForLogin` is proved against `RunPolls`, a function giving the outcome of the
loop and the number of polls it makes for a script; the lemmas in
`polling_lemmas.dfy` (module `PollingLemmas`) state which replies stop the loop,
how many requests are made, and when `response` is written. `wrappers.dfy`
holds the `Option` and `Result` types.

The token-endpoint error names follow the Microsoft identity platform: section
3.5 of RFC 8628 calls a declined request `access_denied`, which this code (and the
model) treats like `authorization_pending`.

The model follows `src/lib.rs` where other descriptions of this flow differ: the
grant has no `message` field, the token set has no `token_type`, `scope` or
`ext_expires_in`, and a missing grant makes `wait_for_login` panic rather than
return a typed error, so the model states it as a precondition.

## Model

| member | source | states |
|---|---|---|
| `McAuth.AuthFlow.constructor` | src/lib.rs:36-42 | a new session has no grant, no token set, the given client id, and has made no request |
| `McAuth.AuthFlow.RequestCode` | src/lib.rs:44-60 | one device-code request carrying the session's client id and the fixed scope; the grant is stored in `data` and returned; `response` and the client id are unchanged |
| `McAuth.AuthFlow.WaitForLogin` | src/lib.rs:62-116 | needs a grant; the result is that of `RunPolls` on the replies; `response` becomes the token set exactly when the result is a success and is unchanged otherwise; `data` and the client id never change; the trace gains one sleep of `interval + 1` seconds followed by one poll with the grant's device code per poll made |
| `McAuth.Classify` | src/lib.rs:84-114 | a reply asks for another poll exactly when it is a 400 whose body decodes to a non-terminal error code; only a 200 yields a success |
| `McAuth.RunPolls` | src/lib.rs:67-115 | the loop makes at most one poll per reply, and at least one when there is a reply |
| `McAuth.RunPollsEndsAtFirstFinish` | src/lib.rs:67-115 | the loop runs out of replies exactly when every reply asks for another poll; otherwise its result is the decision on the first reply that does not, and the polls made are the replies up to and including that one |
| `McAuth.PollTraceKeepsPostsAfterSleeps` | src/lib.rs:67-82 | after any number of polls every request to the token endpoint still comes straight after a sleep |
| `PollingLemmas.ContinuePrefix` | src/lib.rs:97-99 | replies that ask for another poll add one poll each and do not change the outcome |
| `PollingLemmas.StopsAtFirstFinish` | src/lib.rs:67-115 | the loop ends at the first reply that does not ask for another poll, after exactly that many polls |
| `PollingLemmas.PendingIsAbsorbed` | src/lib.rs:97-99 | a 400 with a non-terminal code is never surfaced: it costs one poll and leaves the outcome of the remaining replies unchanged |
| `PollingLemmas.SurfacedRejectionIsTerminal` | src/lib.rs:87-100 | the only error codes the loop ever reports are `authorization_declined`, `expired_token` and `invalid_grant` |
| `PollingLemmas.TerminalRejectionStops` | src/lib.rs:85-96 | a 400 with a terminal code after k pending replies ends the loop with that code after k + 1 polls |
| `PollingLemmas.UndecodableBodyStops` | src/lib.rs:84-107 | a 400 or 200 whose body does not decode after k pending replies ends the loop with a decoding error after k + 1 polls |
| `PollingLemmas.OtherStatusStops` | src/lib.rs:108-113 | any status other than 400 and 200 after k pending replies ends the loop with that status after k + 1 polls |
| `PollingLemmas.PendingThenSuccess` | src/lib.rs:67-115 | N pending replies followed by a 200 with a token set give exactly N + 1 polls and return that token set |
| `PollingLemmas.SucceedsIffDecodedOk` | src/lib.rs:103-106 | the loop succeeds if and only if, after only pending replies, a 200 arrives whose body decodes |
| `PollingLemmas.PollTraceShape` | src/lib.rs:67-82 | the events of n polls alternate: the j-th poll is a sleep of the delay followed by a post of the same form |
| `PollingLemmas.PollTraceRequestCount` | src/lib.rs:70-82 | n polls make exactly n requests to the token endpoint |

## Left out

- The HTTP client, the endpoint URLs and the query and form encoding (src/lib.rs:45-55, 70-82): network I/O; each request is a value in the trace and each reply the next entry of the script.
- JSON decoding: a foreign library; each reply body is given as what it decodes to, or a decoding failure, as each record type.
- `std::thread::sleep` and real time: each sleep is a ghost event with its length in seconds.
- The panics when a request cannot be sent or the grant does not decode (src/lib.rs:55, 57, 82): `RequestCode` receives an already decoded grant and the script holds only replies that arrived.
- McAuth.AuthFlow.WaitForLogin: requires a grant whose `interval` is below 2^64 - 1; the source panics without a grant (src/lib.rs:64) and, on `interval + 1` overflowing `u64`, panics in a debug build or sleeps 0 seconds in a release build; neither is modelled.
- McAuth.AuthFlow.WaitForLogin: the source loop has no bound; the model ends with `NoMoreReplies` when the script runs out, an outcome the source does not have.
- `MsAuthResponse.expires_after` (src/lib.rs:19-20): never decoded and never assigned, so it always holds 0.
- The text of the `anyhow` error messages: only the error kind and the error code or status are kept.
- `AuthFlow`'s fields are public and it derives `Clone`; the model only follows changes made through its three operations, and `Valid` holds only for those.
- The Xbox Live and Minecraft logins called from examples/authenticate_with_code.rs: they are not part of src/lib.rs and are not part of this model.
