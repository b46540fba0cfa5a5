/**
 * The retry loop `handle202` of Java2UMLImpl (src/controllers/Java2UMLImpl.ts,
 * lines 170-182): after a first request failed with 202, GET the same URI up to
 * `retry` times, return the normalization of the first reply with status
 * exactly 200, sleep after every attempt that threw, and rethrow the original
 * error once the budget is spent.
 */
module Poller {
  import opened Results
  import opened Js
  import opened Http

  /** How one pass of the loop body ends. */
  datatype Attempt<+T> =
      /** The reply had status 200 and normalized to `value`: the loop returns it. */
    | Returned(value: T)
      /** The GET was rejected, or normalization threw: the catch block sleeps. */
    | Threw(error: Error)
      /** The GET resolved with a status other than 200: nothing happens. */
    | Passed(status: int)

  /** One pass of the loop body: everything inside its `try` is caught by its `catch`. */
  function TryOnce<T>(x: Exchange, normalize: Response -> Result<T, Error>): Attempt<T>
  {
    match Settle(x)
    case Failure(e) => Threw(e)
    case Success(resp) =>
      if resp.status == STATUS_OK then
        match normalize(resp)
        case Success(v) => Returned(v)
        case Failure(e) => Threw(e)
      else Passed(resp.status)
  }

  /**
   * An attempt returns exactly on a 200 reply that normalizes, and then returns
   * its normalization; it passes silently exactly on a resolved reply other
   * than 200; a reply of 202 or no reply at all always throws.
   */
  lemma TryOnceOutcomes<T>(x: Exchange, normalize: Response -> Result<T, Error>)
    ensures var a := TryOnce(x, normalize);
      a.Returned? <==> x.Reply? && x.response.status == STATUS_OK && normalize(x.response).Success?
    ensures var a := TryOnce(x, normalize);
      a.Returned? ==> a.value == normalize(x.response).value
    ensures var a := TryOnce(x, normalize);
      a.Passed? <==> x.Reply? && x.response.status != STATUS_OK && x.response.status != STATUS_ACCEPTED && x.response.status < 400
    ensures x.NoReply? || x.response.status == STATUS_ACCEPTED ==> TryOnce(x, normalize).Threw?
  {
  }

  /** The events of one attempt: its GET, then exactly one sleep if it threw. */
  function AttemptLog<T>(req: Request, a: Attempt<T>): seq<Event>
  {
    [Sent(req)] + (if a.Threw? then [Slept] else [])
  }

  /** The events of attempts `lo` to `hi - 1`, in order. */
  function AttemptsLog<T>(req: Request, normalize: Response -> Result<T, Error>, net: Net, lo: nat, hi: int): seq<Event>
    decreases hi - lo
  {
    if hi <= lo then [] else AttemptLog(req, TryOnce(net(lo), normalize)) + AttemptsLog(req, normalize, net, lo + 1, hi)
  }

  /** How many of attempts `lo` to `hi - 1` threw. */
  function ThrowsIn<T>(normalize: Response -> Result<T, Error>, net: Net, lo: nat, hi: int): nat
    decreases hi - lo
  {
    if hi <= lo then 0 else (if TryOnce(net(lo), normalize).Threw? then 1 else 0) + ThrowsIn(normalize, net, lo + 1, hi)
  }

  /** No attempt from `lo` to `hi - 1` returns. */
  predicate NoneReturned<T>(normalize: Response -> Result<T, Error>, net: Net, lo: nat, hi: int)
  {
    forall k: nat :: lo <= k < hi ==> !TryOnce(net(k), normalize).Returned?
  }

  /** The result of a retrying call, with the requests and sleeps it made. */
  datatype Trace<+T> = Trace(result: Result<T, Error>, events: seq<Event>)

  /** The loop of handle202 from iteration `i` on. */
  function PollFrom<T>(e: Error, retry: int, req: Request, normalize: Response -> Result<T, Error>, net: Net, i: nat): (t: Trace<T>)
    ensures t.result.Failure? ==> t.result.error == e
    decreases retry - i
  {
    if retry <= i then Trace(Failure(e), [])
    else
      var a := TryOnce(net(i), normalize);
      if a.Returned? then Trace(Success(a.value), [Sent(req)])
      else
        var rest := PollFrom(e, retry, req, normalize, net, i + 1);
        Trace(rest.result, AttemptLog(req, a) + rest.events)
  }

  /** An iteration whose attempt returns ends the loop with its value. */
  lemma PollFromReturnStep<T>(e: Error, retry: int, req: Request, normalize: Response -> Result<T, Error>, net: Net, i: nat)
    requires i < retry && TryOnce(net(i), normalize).Returned?
    ensures PollFrom(e, retry, req, normalize, net, i) == Trace(Success(TryOnce(net(i), normalize).value), [Sent(req)])
  {
  }

  /** An iteration whose attempt does not return logs it and moves on. */
  lemma PollFromNextStep<T>(e: Error, retry: int, req: Request, normalize: Response -> Result<T, Error>, net: Net, i: nat, before: seq<Event>)
    requires i < retry && !TryOnce(net(i), normalize).Returned?
    ensures PollFrom(e, retry, req, normalize, net, i).result == PollFrom(e, retry, req, normalize, net, i + 1).result
    ensures before + PollFrom(e, retry, req, normalize, net, i).events
         == (before + AttemptLog(req, TryOnce(net(i), normalize))) + PollFrom(e, retry, req, normalize, net, i + 1).events
  {
  }

  /**
   * From iteration `i` on, if the loop returns, it returns the value of the
   * first attempt that returns, after logging the attempts before it.
   */
  lemma {:induction false} PollFromReturnsFirst<T>(e: Error, retry: int, req: Request, normalize: Response -> Result<T, Error>, net: Net, i: nat)
    returns (j: nat)
    requires PollFrom(e, retry, req, normalize, net, i).result.Success?
    ensures i <= j < retry
    ensures TryOnce(net(j), normalize) == Returned(PollFrom(e, retry, req, normalize, net, i).result.value)
    ensures NoneReturned(normalize, net, i, j)
    ensures PollFrom(e, retry, req, normalize, net, i).events == AttemptsLog(req, normalize, net, i, j) + [Sent(req)]
    decreases retry - i
  {
    var a := TryOnce(net(i), normalize);
    if a.Returned? {
      j := i;
      assert AttemptsLog(req, normalize, net, i, i) == [];
    } else {
      j := PollFromReturnsFirst(e, retry, req, normalize, net, i + 1);
      var rest := PollFrom(e, retry, req, normalize, net, i + 1);
      assert AttemptsLog(req, normalize, net, i, j) == AttemptLog(req, a) + AttemptsLog(req, normalize, net, i + 1, j);
      assert PollFrom(e, retry, req, normalize, net, i).events == AttemptLog(req, a) + rest.events;
    }
  }

  /**
   * From iteration `i` on, if the loop throws, none of the remaining attempts
   * returned and all of them were logged.
   */
  lemma {:induction false} PollFromExhausts<T>(e: Error, retry: int, req: Request, normalize: Response -> Result<T, Error>, net: Net, i: nat)
    requires PollFrom(e, retry, req, normalize, net, i).result.Failure?
    ensures NoneReturned(normalize, net, i, retry)
    ensures PollFrom(e, retry, req, normalize, net, i).events == AttemptsLog(req, normalize, net, i, retry)
    decreases retry - i
  {
    if i < retry {
      var a := TryOnce(net(i), normalize);
      PollFromExhausts(e, retry, req, normalize, net, i + 1);
      var rest := PollFrom(e, retry, req, normalize, net, i + 1);
      assert AttemptsLog(req, normalize, net, i, retry) == AttemptLog(req, a) + AttemptsLog(req, normalize, net, i + 1, retry);
    }
  }

  /** The log of `n` attempts that each threw: a GET then a sleep, `n` times. */
  function ThrewLog(req: Request, n: nat): seq<Event>
  {
    if n == 0 then [] else [Sent(req), Slept] + ThrewLog(req, n - 1)
  }

  /**
   * When every remaining attempt throws, the loop makes each of them, sleeps
   * after each, and throws `e`.
   */
  lemma {:induction false} PollFromAllThrow<T>(e: Error, retry: int, req: Request, normalize: Response -> Result<T, Error>, net: Net, i: nat)
    requires forall k: nat :: i <= k < retry ==> TryOnce(net(k), normalize).Threw?
    ensures PollFrom(e, retry, req, normalize, net, i) == Trace(Failure(e), ThrewLog(req, if retry <= i then 0 else retry - i))
    decreases retry - i
  {
    if i < retry {
      PollFromAllThrow(e, retry, req, normalize, net, i + 1);
    }
  }

  /** `ThrewLog(req, n)` holds `n` requests and `n` sleeps. */
  lemma {:induction false} ThrewLogCounts(req: Request, n: nat)
    ensures CountSent(ThrewLog(req, n)) == n && CountSlept(ThrewLog(req, n)) == n
  {
    if n > 0 {
      ThrewLogCounts(req, n - 1);
      CountsOfConcat([Sent(req), Slept], ThrewLog(req, n - 1));
    }
  }

  /**
   * handle202(e, retry, uri, normalize): when no attempt returns, it throws `e`
   * itself, and with no budget it does nothing else. `Handle202Spec` states
   * which attempt's value it returns and which requests and sleeps it makes.
   */
  function Handle202<T>(e: Error, retry: int, req: Request, normalize: Response -> Result<T, Error>, net: Net): (t: Trace<T>)
    ensures t.result.Failure? ==> t.result.error == e
    ensures retry <= 0 ==> t == Trace(Failure(e), [])
  {
    PollFrom(e, retry, req, normalize, net, 0)
  }

  /**
   * handle202 returns exactly when one of its `retry` attempts returns, and then
   * returns the value of the first such attempt, after logging the attempts
   * before it; otherwise it logs all `retry` attempts, each a GET followed by
   * one sleep when it threw, and throws `e`.
   */
  lemma Handle202Spec<T>(e: Error, retry: int, req: Request, normalize: Response -> Result<T, Error>, net: Net)
    ensures var t := Handle202(e, retry, req, normalize, net);
      t.result.Success? <==> exists j: nat :: j < retry && TryOnce(net(j), normalize).Returned?
    ensures var t := Handle202(e, retry, req, normalize, net);
      t.result.Success? ==>
        exists j: nat :: j < retry && TryOnce(net(j), normalize) == Returned(t.result.value)
          && NoneReturned(normalize, net, 0, j) && t.events == AttemptsLog(req, normalize, net, 0, j) + [Sent(req)]
    ensures var t := Handle202(e, retry, req, normalize, net);
      t.result.Failure? ==> t.events == AttemptsLog(req, normalize, net, 0, retry)
    ensures var t := Handle202(e, retry, req, normalize, net);
      CountSent(t.events) <= if retry <= 0 then 0 else retry
    ensures var t := Handle202(e, retry, req, normalize, net);
      forall k :: 0 <= k < |t.events| ==> t.events[k] == Sent(req) || t.events[k] == Slept
  {
    var t := Handle202(e, retry, req, normalize, net);
    if t.result.Success? {
      var j := PollFromReturnsFirst(e, retry, req, normalize, net, 0);
      ReturnedLogShape(req, normalize, net, j);
    } else {
      PollFromExhausts(e, retry, req, normalize, net, 0);
      AttemptsLogCounts(req, normalize, net, 0, retry);
      assert !exists j: nat :: j < retry && TryOnce(net(j), normalize).Returned?;
    }
  }

  /** The log of a loop that returned at attempt `j`: `j + 1` requests, each of `req`, or sleeps. */
  lemma ReturnedLogShape<T>(req: Request, normalize: Response -> Result<T, Error>, net: Net, j: nat)
    ensures CountSent(AttemptsLog(req, normalize, net, 0, j) + [Sent(req)]) == j + 1
    ensures forall k :: 0 <= k < |AttemptsLog(req, normalize, net, 0, j) + [Sent(req)]| ==>
      (AttemptsLog(req, normalize, net, 0, j) + [Sent(req)])[k] in {Sent(req), Slept}
  {
    var log := AttemptsLog(req, normalize, net, 0, j);
    AttemptsLogCounts(req, normalize, net, 0, j);
    CountsOfConcat(log, [Sent(req)]);
    assert CountSent([Sent(req)]) == 1;
  }

  /**
   * When every attempt throws (the resource stays at 202, or the connection
   * keeps failing), handle202 makes all `retry` GETs, sleeps after each of
   * them, and throws `e`.
   */
  lemma Handle202AllThrow<T>(e: Error, retry: int, req: Request, normalize: Response -> Result<T, Error>, net: Net)
    requires forall k: nat :: k < retry ==> TryOnce(net(k), normalize).Threw?
    ensures var t := Handle202(e, retry, req, normalize, net);
      && t.result == Failure(e)
      && CountSent(t.events) == (if retry <= 0 then 0 else retry)
      && CountSlept(t.events) == (if retry <= 0 then 0 else retry)
  {
    PollFromAllThrow(e, retry, req, normalize, net, 0);
    ThrewLogCounts(req, if retry <= 0 then 0 else retry);
  }

  /** The loop's log holds one request per attempt and one sleep per attempt that threw. */
  lemma {:induction false} AttemptsLogCounts<T>(req: Request, normalize: Response -> Result<T, Error>, net: Net, lo: nat, hi: int)
    ensures CountSent(AttemptsLog(req, normalize, net, lo, hi)) == if hi <= lo then 0 else hi - lo
    ensures CountSlept(AttemptsLog(req, normalize, net, lo, hi)) == ThrowsIn(normalize, net, lo, hi)
    ensures forall k :: 0 <= k < |AttemptsLog(req, normalize, net, lo, hi)| ==>
      AttemptsLog(req, normalize, net, lo, hi)[k] == Sent(req) || AttemptsLog(req, normalize, net, lo, hi)[k] == Slept
    decreases hi - lo
  {
    if lo < hi {
      var a := TryOnce(net(lo), normalize);
      AttemptsLogCounts(req, normalize, net, lo + 1, hi);
      CountsOfConcat(AttemptLog(req, a), AttemptsLog(req, normalize, net, lo + 1, hi));
      assert CountSent(AttemptLog(req, a)) == 1;
      assert CountSlept(AttemptLog(req, a)) == if a.Threw? then 1 else 0;
    }
  }

  /** The body of the loop: one GET, then a sleep if the attempt threw. */
  method RunAttempt<T>(req: Request, normalize: Response -> Result<T, Error>, x: Exchange)
    returns (a: Attempt<T>, log: seq<Event>)
    ensures a == TryOnce(x, normalize)
    ensures log == AttemptLog(req, a)
  {
    a := TryOnce(x, normalize);
    log := [Sent(req)];
    if a.Threw? {
      log := log + [Slept];
    }
  }

  /**
   * The `for` loop of handle202 run over the scripted replies, as a while loop:
   * it returns what `Handle202` returns and makes the same requests and sleeps.
   */
  method Handle202Loop<T>(e: Error, retry: int, req: Request, normalize: Response -> Result<T, Error>, net: Net)
    returns (result: Result<T, Error>, events: seq<Event>)
    ensures Trace(result, events) == Handle202(e, retry, req, normalize, net)
  {
    ghost var whole := PollFrom(e, retry, req, normalize, net, 0);
    events := [];
    var i: nat := 0;
    while i < retry
      invariant i == 0 || i <= retry
      invariant whole.result == PollFrom(e, retry, req, normalize, net, i).result
      invariant whole.events == events + PollFrom(e, retry, req, normalize, net, i).events
      decreases retry - i
    {
      var a, log := RunAttempt(req, normalize, net(i));
      if a.Returned? {
        PollFromReturnStep(e, retry, req, normalize, net, i);
        assert whole == Trace(Success(a.value), events + log);
        return Success(a.value), events + log;
      }
      PollFromNextStep(e, retry, req, normalize, net, i, events);
      events := events + log;
      i := i + 1;
    }
    result := Failure(e);
  }
}
