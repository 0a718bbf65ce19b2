/**
 * Properties of the polling loop of `AuthFlow.wait_for_login`, stated about its
 * specification `RunPolls` (which `AuthFlow.WaitForLogin` is proved to follow)
 * and about the trace of sleeps and requests it produces.
 */
module PollingLemmas {
  import opened Wrappers
  import opened McAuth

  /** Replies that ask for another poll in front of a script only add one poll each. */
  lemma {:induction false} ContinuePrefix(prefix: seq<Reply>, rest: seq<Reply>)
    requires AllContinue(prefix)
    ensures RunPolls(prefix + rest) == PollRun(RunPolls(rest).outcome, |prefix| + RunPolls(rest).polls)
  {
    if prefix == [] {
      assert prefix + rest == rest;
    } else {
      assert Classify(prefix[0]) == Continue;
      assert (prefix + rest)[0] == prefix[0];
      assert (prefix + rest)[1..] == prefix[1..] + rest;
      ContinuePrefix(prefix[1..], rest);
    }
  }

  /** The loop ends at the first reply that does not ask for another poll, after exactly that many polls. */
  lemma {:induction false} StopsAtFirstFinish(script: seq<Reply>, k: nat)
    requires k < |script| && AllContinue(script[..k]) && Classify(script[k]).Finish?
    ensures RunPolls(script) == PollRun(Classify(script[k]).result, k + 1)
  {
    ContinuePrefix(script[..k], script[k..]);
    assert script[..k] + script[k..] == script;
    assert script[k..][0] == script[k];
  }

  /** A 400 reply with another error code (pending, slow down, ...) is absorbed: one more poll, same outcome. */
  lemma PendingIsAbsorbed(reply: Reply, rest: seq<Reply>)
    requires reply.status == BAD_REQUEST && reply.body.asAuthError.Some?
    requires !IsTerminal(reply.body.asAuthError.value.error)
    ensures RunPolls([reply] + rest) == PollRun(RunPolls(rest).outcome, RunPolls(rest).polls + 1)
  {
    assert ([reply] + rest)[1..] == rest;
  }

  /** The only codes that ever surface from a 400 reply are the three terminal ones. */
  lemma SurfacedRejectionIsTerminal(script: seq<Reply>)
    ensures RunPolls(script).outcome.Failure? && RunPolls(script).outcome.error.Rejected? ==>
      IsTerminal(RunPolls(script).outcome.error.code)
  {
    RunPollsEndsAtFirstFinish(script);
    var run := RunPolls(script);
    if run.outcome.Failure? && run.outcome.error.Rejected? {
      assert Classify(script[run.polls - 1]) == Finish(run.outcome);
    }
  }

  /** A 400 reply with a terminal code, after only pending replies, ends the loop with that code. */
  lemma {:induction false} TerminalRejectionStops(script: seq<Reply>, k: nat, code: string)
    requires k < |script| && AllContinue(script[..k])
    requires script[k].status == BAD_REQUEST && script[k].body.asAuthError == Some(MsAuthError(code))
    requires IsTerminal(code)
    ensures RunPolls(script) == PollRun(Failure(Rejected(code)), k + 1)
  {
    StopsAtFirstFinish(script, k);
  }

  /** A 400 or 200 reply whose body does not decode ends the loop with a decoding error. */
  lemma {:induction false} UndecodableBodyStops(script: seq<Reply>, k: nat)
    requires k < |script| && AllContinue(script[..k])
    requires (script[k].status == BAD_REQUEST && script[k].body.asAuthError.None?)
          || (script[k].status == OK && script[k].body.asTokenSet.None?)
    ensures RunPolls(script) == PollRun(Failure(DecodeFailed), k + 1)
  {
    StopsAtFirstFinish(script, k);
  }

  /** Any status other than 400 and 200 ends the loop, reporting that status. */
  lemma {:induction false} OtherStatusStops(script: seq<Reply>, k: nat)
    requires k < |script| && AllContinue(script[..k])
    requires script[k].status != BAD_REQUEST && script[k].status != OK
    ensures RunPolls(script) == PollRun(Failure(UnexpectedStatus(script[k].status)), k + 1)
  {
    StopsAtFirstFinish(script, k);
  }

  /** N pending replies and then a 200 with a token set: N + 1 polls, and that token set is the result. */
  lemma {:induction false} PendingThenSuccess(pending: seq<Reply>, last: Reply, tokens: MsAuthResponse)
    requires forall j :: 0 <= j < |pending| ==> IsPending(pending[j])
    requires last.status == OK && last.body.asTokenSet == Some(tokens)
    ensures RunPolls(pending + [last]) == PollRun(Success(tokens), |pending| + 1)
  {
    ContinuePrefix(pending, [last]);
  }

  /** The loop succeeds exactly when, after only pending replies, a 200 arrives whose body decodes. */
  lemma {:induction false} SucceedsIffDecodedOk(script: seq<Reply>)
    ensures RunPolls(script).outcome.Success? <==>
      exists k :: 0 <= k < |script| && AllContinue(script[..k])
        && script[k].status == OK && script[k].body.asTokenSet.Some?
  {
    RunPollsEndsAtFirstFinish(script);
    var run := RunPolls(script);
    if run.outcome.Success? {
      var k := run.polls - 1;
      assert Classify(script[k]) == Finish(run.outcome);
      assert script[k].body.asTokenSet.Some?;
    }
    if exists k :: 0 <= k < |script| && AllContinue(script[..k])
        && script[k].status == OK && script[k].body.asTokenSet.Some? {
      var k :| 0 <= k < |script| && AllContinue(script[..k])
        && script[k].status == OK && script[k].body.asTokenSet.Some?;
      StopsAtFirstFinish(script, k);
    }
  }

  /** The events of n polls alternate: a sleep of the given length, then one post of the same form. */
  lemma {:induction false} PollTraceShape(delay: nat, form: TokenForm, n: nat, j: nat)
    requires j < n
    ensures PollTrace(delay, form, n)[2 * j] == Sleep(delay)
    ensures PollTrace(delay, form, n)[2 * j + 1] == PostToken(form)
  {
    if j < n - 1 {
      PollTraceShape(delay, form, n - 1, j);
    }
  }

  /** n polls make exactly n requests to the token endpoint. */
  lemma {:induction false} PollTraceRequestCount(delay: nat, form: TokenForm, n: nat)
    ensures |set k | 0 <= k < |PollTrace(delay, form, n)| && PollTrace(delay, form, n)[k].PostToken?| == n
  {
    var t := PollTrace(delay, form, n);
    if n > 0 {
      var u := PollTrace(delay, form, n - 1);
      PollTraceRequestCount(delay, form, n - 1);
      assert t == u + [Sleep(delay), PostToken(form)];
      var posts := set k | 0 <= k < |t| && t[k].PostToken?;
      var before := set k | 0 <= k < |u| && u[k].PostToken?;
      assert posts == before + {|u| + 1};
    }
  }
}
