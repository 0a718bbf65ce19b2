/**
 * The device-code login session of the `mc_auth` crate: the records it decodes,
 * the classification of each token-endpoint reply, and the `AuthFlow` object that
 * requests a device code and then polls until the user has signed in.
 *
 * Network traffic is replaced by values handed in by the caller: the decoded grant
 * for the device-code request, and a finite script of replies for the polling loop.
 * Sleeps and requests are recorded in a ghost trace of events.
 */
module McAuth {
  import opened Wrappers

  const U64_MAX: int := 0xFFFF_FFFF_FFFF_FFFF

  /** Rust's `u64`. */
  type U64 = x: int | 0 <= x <= U64_MAX

  /** Rust's `i64`. */
  type I64 = x: int | -0x8000_0000_0000_0000 <= x < 0x8000_0000_0000_0000

  /** An HTTP status code as the HTTP client represents it: three digits, 100 to 999. */
  type StatusCode = c: int | 100 <= c <= 999 witness 200

  const BAD_REQUEST: StatusCode := 400
  const OK: StatusCode := 200

  /** The scope sent with both the device-code request and every poll. */
  const SCOPE: string := "XboxLive.signin offline_access"

  /** The `grant_type` of every poll (the device-code grant of RFC 8628). */
  const DEVICE_CODE_GRANT_TYPE: string := "urn:ietf:params:oauth:grant-type:device_code"

  /** The device-code grant returned by the device-code endpoint. */
  datatype MsAuthData = MsAuthData(
    userCode: string,
    deviceCode: string,
    verificationUri: string,
    expiresIn: I64,
    interval: U64)

  /** The token set returned by the token endpoint once the user has signed in. */
  datatype MsAuthResponse = MsAuthResponse(
    expiresIn: I64,
    accessToken: string,
    refreshToken: string)

  /** The body of a 400 reply of the token endpoint. */
  datatype MsAuthError = MsAuthError(error: string)

  /**
   * What JSON decoding makes of one reply body when it is read as each record
   * type the loop may read it as; `None` is a decoding failure.
   */
  datatype Body = Body(asAuthError: Option<MsAuthError>, asTokenSet: Option<MsAuthResponse>)

  /** One reply of the token endpoint. */
  datatype Reply = Reply(status: StatusCode, body: Body)

  /** The errors `wait_for_login` ends with. */
  datatype AuthError =
    | Rejected(code: string)                 // a 400 whose error code ends the grant
    | DecodeFailed                           // the body did not decode as the status demands
    | UnexpectedStatus(status: StatusCode)   // neither 400 nor 200
    | NoMoreReplies                          // the script of replies ran out

  type LoginResult = Result<MsAuthResponse, AuthError>

  /** The error codes of a 400 reply that end polling for good. */
  predicate IsTerminal(code: string)
  {
    code == "authorization_declined" || code == "expired_token" || code == "invalid_grant"
  }

  /** A 400 reply carrying any other error code (`authorization_pending`, `slow_down`, ...). */
  predicate IsPending(reply: Reply)
  {
    reply.status == BAD_REQUEST && reply.body.asAuthError.Some?
    && !IsTerminal(reply.body.asAuthError.value.error)
  }

  /** What one poll leads to: another poll, or the end of the loop with a result. */
  datatype Step = Continue | Finish(result: LoginResult)

  /** The decision the polling loop takes on one reply. */
  function Classify(reply: Reply): (step: Step)
    ensures step == Continue <==> IsPending(reply)
    ensures step.Finish? && step.result.Success? ==> reply.status == OK
    ensures step.Finish? ==> step.result != Failure(NoMoreReplies)
  {
    if reply.status == BAD_REQUEST then
      match reply.body.asAuthError
      case None => Finish(Failure(DecodeFailed))
      case Some(msAuth) =>
        if IsTerminal(msAuth.error) then Finish(Failure(Rejected(msAuth.error))) else Continue
    else if reply.status == OK then
      match reply.body.asTokenSet
      case None => Finish(Failure(DecodeFailed))
      case Some(tokens) => Finish(Success(tokens))
    else
      Finish(Failure(UnexpectedStatus(reply.status)))
  }

  /** Every reply in `replies` asks for another poll. */
  predicate AllContinue(replies: seq<Reply>)
  {
    forall j :: 0 <= j < |replies| ==> Classify(replies[j]) == Continue
  }

  /** How a run of the polling loop ends, and how many polls it made. */
  datatype PollRun = PollRun(outcome: LoginResult, polls: nat)

  /**
   * The polling loop over a script of replies, as a function: polls until the
   * first reply that finishes the loop, or until the script runs out.
   */
  function RunPolls(script: seq<Reply>): (run: PollRun)
    ensures run.polls <= |script|
    ensures script != [] ==> 0 < run.polls
  {
    if script == [] then PollRun(Failure(NoMoreReplies), 0)
    else
      match Classify(script[0])
      case Continue =>
        var rest := RunPolls(script[1..]);
        PollRun(rest.outcome, rest.polls + 1)
      case Finish(result) => PollRun(result, 1)
  }

  /**
   * The loop runs out of replies exactly when every reply asks for another poll;
   * otherwise it ends with the decision on the first reply that does not, having
   * polled once for each reply up to and including that one.
   */
  lemma {:induction false} RunPollsEndsAtFirstFinish(script: seq<Reply>)
    ensures RunPolls(script).outcome == Failure(NoMoreReplies) <==> AllContinue(script)
    ensures AllContinue(script) ==> RunPolls(script).polls == |script|
    ensures !AllContinue(script) ==>
      var n := RunPolls(script).polls;
      AllContinue(script[..n - 1]) && Classify(script[n - 1]) == Finish(RunPolls(script).outcome)
  {
    if script != [] {
      var tail := script[1..];
      RunPollsEndsAtFirstFinish(tail);
      if Classify(script[0]) == Continue {
        var n := RunPolls(tail).polls;
        assert script[..n + 1] == [script[0]] + tail[..n];
        assert AllContinue(script) <==> AllContinue(tail) by {
          if AllContinue(tail) {
            forall j | 0 <= j < |script| ensures Classify(script[j]) == Continue {
              if j > 0 { assert script[j] == tail[j - 1]; }
            }
          }
          if AllContinue(script) {
            forall j | 0 <= j < |tail| ensures Classify(tail[j]) == Continue {
              assert tail[j] == script[j + 1];
            }
          }
        }
      } else {
        assert !AllContinue(script) by { assert Classify(script[0]) != Continue; }
      }
    }
  }

  /** The query of the device-code request. */
  datatype DeviceCodeQuery = DeviceCodeQuery(clientId: string, scope: string)

  /** The form fields of one poll of the token endpoint. */
  datatype TokenForm = TokenForm(clientId: string, scope: string, grantType: string, deviceCode: string)

  /** What the session does to the outside world: sleeps and requests. */
  datatype Event =
    | Sleep(seconds: nat)
    | GetDeviceCode(query: DeviceCodeQuery)
    | PostToken(form: TokenForm)

  /** The form every poll sends for the grant `grant`. */
  function PollForm(clientId: string, grant: MsAuthData): TokenForm
  {
    TokenForm(clientId, SCOPE, DEVICE_CODE_GRANT_TYPE, grant.deviceCode)
  }

  /** The events of `n` polls: each a sleep of `delay` seconds followed by a post of `form`. */
  ghost function PollTrace(delay: nat, form: TokenForm, n: nat): (t: seq<Event>)
    ensures |t| == 2 * n
  {
    if n == 0 then [] else PollTrace(delay, form, n - 1) + [Sleep(delay), PostToken(form)]
  }

  /** Every request to the token endpoint comes straight after a sleep. */
  ghost predicate PostsFollowSleeps(trace: seq<Event>)
  {
    forall k :: 0 <= k < |trace| && trace[k].PostToken? ==> 0 < k && trace[k - 1].Sleep?
  }

  /** One device-code login attempt. */
  class AuthFlow {
    var data: Option<MsAuthData>
    var response: Option<MsAuthResponse>
    var clientId: string
    /** The sleeps and requests made so far, in order. */
    ghost var trace: seq<Event>

    /** A token set is only ever obtained for a grant, and every poll waits first. */
    ghost predicate Valid()
      reads this
    {
      (response.Some? ==> data.Some?) && PostsFollowSleeps(trace)
    }

    /** A fresh session: no grant, no token set. */
    constructor (clientId: string)
      ensures Valid()
      ensures data == None && response == None && this.clientId == clientId
      ensures trace == []
    {
      data := None;
      response := None;
      this.clientId := clientId;
      trace := [];
    }

    /**
     * Requests a device code for this session's client id; `grant` is the grant
     * the device-code endpoint answers with. Stores it and returns it.
     */
    method RequestCode(grant: MsAuthData) returns (r: Option<MsAuthData>)
      requires Valid()
      modifies this
      ensures Valid()
      ensures r == Some(grant) && data == Some(grant)
      ensures response == old(response) && clientId == old(clientId)
      ensures trace == old(trace) + [GetDeviceCode(DeviceCodeQuery(clientId, SCOPE))]
    {
      trace := trace + [GetDeviceCode(DeviceCodeQuery(clientId, SCOPE))];
      data := Some(grant);
      r := data;
    }

    /**
     * Polls the token endpoint until the user signs in, declines, or the grant
     * becomes unusable; `script` holds the replies the endpoint gives, in order.
     */
    method WaitForLogin(script: seq<Reply>) returns (r: LoginResult)
      requires Valid()
      requires data.Some? && data.value.interval < U64_MAX
      modifies this
      ensures Valid()
      ensures data == old(data) && clientId == old(clientId)
      ensures r == RunPolls(script).outcome
      ensures response == (if r.Success? then Some(r.value) else old(response))
      ensures trace == old(trace) + PollTrace(old(data).value.interval + 1,
                                              PollForm(old(clientId), old(data).value),
                                              RunPolls(script).polls)
    {
      var grant := data.value;
      var delay := grant.interval + 1;
      ghost var form := PollForm(clientId, grant);
      var i := 0;
      while i < |script|
        invariant 0 <= i <= |script|
        invariant data == old(data) && clientId == old(clientId) && response == old(response)
        invariant RunPolls(script) == PollRun(RunPolls(script[i..]).outcome, i + RunPolls(script[i..]).polls)
        invariant trace == old(trace) + PollTrace(delay, form, i)
        invariant PostsFollowSleeps(trace)
      {
        PollTraceKeepsPostsAfterSleeps(old(trace), delay, form, i + 1);
        trace := trace + [Sleep(delay), PostToken(form)];
        var reply := script[i];
        RunPollsAt(script, i);
        i := i + 1;
        if reply.status == BAD_REQUEST {
          match reply.body.asAuthError
          case None =>
            r := Failure(DecodeFailed);
            return;
          case Some(msAuth) =>
            if msAuth.error == "authorization_declined" {
              r := Failure(Rejected(msAuth.error));
              return;
            } else if msAuth.error == "expired_token" {
              r := Failure(Rejected(msAuth.error));
              return;
            } else if msAuth.error == "invalid_grant" {
              r := Failure(Rejected(msAuth.error));
              return;
            } else {
              continue;
            }
        } else if reply.status == OK {
          match reply.body.asTokenSet
          case None =>
            r := Failure(DecodeFailed);
            return;
          case Some(tokens) =>
            response := Some(tokens);
            r := Success(tokens);
            return;
        } else {
          r := Failure(UnexpectedStatus(reply.status));
          return;
        }
      }
      assert script[i..] == [];
      r := Failure(NoMoreReplies);
    }
  }

  /** One unrolling of the polling loop at position `i` of the script. */
  lemma RunPollsAt(script: seq<Reply>, i: nat)
    requires i < |script|
    ensures Classify(script[i]) == Continue ==>
      RunPolls(script[i..]) == PollRun(RunPolls(script[i + 1..]).outcome, RunPolls(script[i + 1..]).polls + 1)
    ensures Classify(script[i]).Finish? ==>
      RunPolls(script[i..]) == PollRun(Classify(script[i]).result, 1)
  {
    assert script[i..][0] == script[i];
    assert script[i..][1..] == script[i + 1..];
  }

  /** Appending the events of polls to a trace keeps every post right after a sleep. */
  lemma {:induction false} PollTraceKeepsPostsAfterSleeps(t: seq<Event>, delay: nat, form: TokenForm, n: nat)
    requires PostsFollowSleeps(t)
    ensures PostsFollowSleeps(t + PollTrace(delay, form, n))
  {
    if n > 0 {
      PollTraceKeepsPostsAfterSleeps(t, delay, form, n - 1);
      var before := t + PollTrace(delay, form, n - 1);
      assert t + PollTrace(delay, form, n) == before + [Sleep(delay), PostToken(form)];
    }
  }
}
