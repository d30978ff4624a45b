/** `create_chat_completion` (src/rag_chat_bot.py, lec1_streamchat.py): a
    bounded retry loop around the streaming completion call. */
module Retry {
  import opened Services

  /** What `create_chat_completion` ends with: the first stream a call
      returned, the exception of the last attempt re-raised, or `None` when
      `range(retries)` is empty and no attempt is made. */
  datatype Attempted = Returned(stream: Stream) | Raised(error: string) | NoAttempt

  datatype RetryRun = RetryRun(outcome: Attempted, log: seq<Event>)

  /** The retry loop from attempt number `attempt` on, as a recursive
      definition: the reference against which the loop is proved.
      `service(n)` is the answer of the n-th call. */
  function Attempts(messages: seq<Message>, service: nat -> Completion, retries: int, delay: nat, attempt: nat): RetryRun
    decreases retries - attempt
  {
    if attempt >= retries then RetryRun(NoAttempt, [])
    else match service(attempt)
      case Opened(s) => RetryRun(Returned(s), [Request(messages)])
      case Refused(e) =>
        if attempt == retries - 1 then RetryRun(Raised(e), [Request(messages)])
        else
          var rest := Attempts(messages, service, retries, delay, attempt + 1);
          RetryRun(rest.outcome, [Request(messages), Say(RetryWarning), Sleep(delay)] + rest.log)
  }

  /** The first attempt number in `[from, to)` whose call returns a stream,
      or `to` when every one of them raises. */
  function FirstOpened(service: nat -> Completion, from: nat, to: int): (f: nat)
    requires from <= to
    ensures from <= f <= to
    ensures forall j :: from <= j < f ==> service(j).Refused?
    ensures f < to ==> service(f).Opened?
    decreases (to as int) - (from as int)
  {
    if from == to || service(from).Opened? then from else FirstOpened(service, from + 1, to)
  }

  /** The events of `n` attempts that failed and were followed by a retry:
      each is a call, a warning and a sleep. */
  function FailedTries(messages: seq<Message>, delay: nat, n: nat): seq<Event>
  {
    if n == 0 then [] else [Request(messages), Say(RetryWarning), Sleep(delay)] + FailedTries(messages, delay, n - 1)
  }

  function CountRequests(log: seq<Event>): nat
  {
    if log == [] then 0 else (if log[0].Request? then 1 else 0) + CountRequests(log[1..])
  }

  function CountSleeps(log: seq<Event>): nat
  {
    if log == [] then 0 else (if log[0].Sleep? then 1 else 0) + CountSleeps(log[1..])
  }

  /** The retry loop in closed form: with `f` the first attempt that
      succeeds, the result is that attempt's stream and the trace is `f`
      failed tries followed by the successful call; when every attempt
      fails, the last attempt's exception is re-raised after `retries - 1`
      failed tries and one last call, with no sleep after it. */
  lemma {:induction false} AttemptsClosedForm(messages: seq<Message>, service: nat -> Completion, retries: int, delay: nat, a: nat)
    requires a < retries
    ensures var run := Attempts(messages, service, retries, delay, a);
            var f := FirstOpened(service, a, retries);
            && (f < retries ==>
                  run.outcome == Returned(service(f).stream)
                  && run.log == FailedTries(messages, delay, f - a) + [Request(messages)])
            && (f == retries ==>
                  run.outcome == Raised(service(retries - 1).error)
                  && run.log == FailedTries(messages, delay, retries - 1 - a) + [Request(messages)])
    decreases retries - a
  {
    if service(a).Refused? && a < retries - 1 {
      AttemptsClosedForm(messages, service, retries, delay, a + 1);
      var rest := Attempts(messages, service, retries, delay, a + 1);
      var failed := [Request(messages), Say(RetryWarning), Sleep(delay)];
      assert Attempts(messages, service, retries, delay, a) == RetryRun(rest.outcome, failed + rest.log);
      var f := FirstOpened(service, a, retries);
      assert f == FirstOpened(service, a + 1, retries);
      var k := if f < retries then f - a else retries - 1 - a;
      var before := FailedTries(messages, delay, k - 1);
      assert FailedTries(messages, delay, k) == failed + before;
      assert failed + (before + [Request(messages)]) == failed + before + [Request(messages)];
    }
  }

  lemma {:induction false} FailedTriesCounts(messages: seq<Message>, delay: nat, n: nat)
    ensures CountRequests(FailedTries(messages, delay, n) + [Request(messages)]) == n + 1
    ensures CountSleeps(FailedTries(messages, delay, n) + [Request(messages)]) == n
  {
    if n > 0 {
      FailedTriesCounts(messages, delay, n - 1);
      var t := FailedTries(messages, delay, n - 1) + [Request(messages)];
      var u := FailedTries(messages, delay, n) + [Request(messages)];
      assert u == [Request(messages), Say(RetryWarning), Sleep(delay)] + t;
      assert u[1..] == [Say(RetryWarning), Sleep(delay)] + t;
      assert u[1..][1..] == [Sleep(delay)] + t;
      assert u[1..][1..][1..] == t;
      var u1, u2 := u[1..], u[1..][1..];
      assert u[0].Request? && u1[0].Say? && u2[0].Sleep?;
      assert CountRequests(u) == 1 + CountRequests(u1);
      assert CountRequests(u1) == CountRequests(u2);
      assert CountRequests(u2) == CountRequests(t);
      assert CountSleeps(u) == CountSleeps(u1);
      assert CountSleeps(u1) == CountSleeps(u2);
      assert CountSleeps(u2) == 1 + CountSleeps(t);
    }
  }

  /** At most `retries` calls are made, one more than the number of sleeps:
      the loop sleeps after every failed attempt except the last. With
      `retries <= 0` nothing is called and `None` is returned. */
  lemma AttemptsBounded(messages: seq<Message>, service: nat -> Completion, retries: int, delay: nat)
    ensures var run := Attempts(messages, service, retries, delay, 0);
            && (retries <= 0 ==> run == RetryRun(NoAttempt, []))
            && (retries > 0 ==>
                  && 1 <= CountRequests(run.log) <= retries
                  && CountSleeps(run.log) == CountRequests(run.log) - 1
                  && run.log[|run.log| - 1] == Request(messages))
  {
    if retries > 0 {
      AttemptsClosedForm(messages, service, retries, delay, 0);
      var f := FirstOpened(service, 0, retries);
      var n := if f < retries then f else retries - 1;
      FailedTriesCounts(messages, delay, n);
    }
  }

  /** The loop returns a stream exactly when some attempt below `retries`
      succeeds, and then it is the stream of the first one that does. */
  lemma ReturnsFirstSuccess(messages: seq<Message>, service: nat -> Completion, retries: int, delay: nat, i: nat)
    requires i < retries && service(i).Opened?
    requires forall j :: 0 <= j < i ==> service(j).Refused?
    ensures Attempts(messages, service, retries, delay, 0).outcome == Returned(service(i).stream)
  {
    AttemptsClosedForm(messages, service, retries, delay, 0);
    var f := FirstOpened(service, 0, retries);
    assert f == i;
  }

  /** The exception escapes exactly when all `retries` attempts raised, and
      it is the exception of the last attempt. */
  lemma RaisesOnlyAfterLastFailure(messages: seq<Message>, service: nat -> Completion, retries: int, delay: nat)
    ensures Attempts(messages, service, retries, delay, 0).outcome.Raised?
            <==> retries > 0 && forall j :: 0 <= j < retries ==> service(j).Refused?
    ensures retries > 0 && (forall j :: 0 <= j < retries ==> service(j).Refused?) ==>
            Attempts(messages, service, retries, delay, 0).outcome == Raised(service(retries - 1).error)
  {
    if retries > 0 {
      AttemptsClosedForm(messages, service, retries, delay, 0);
      var f := FirstOpened(service, 0, retries);
      if f < retries {
        assert service(f).Opened?;
      }
    }
  }

  /** `create_chat_completion(messages, retries, delay)`: the `for attempt in
      range(retries)` loop, returning on the first stream and re-raising on
      the last failure. */
  method CreateChatCompletion(messages: seq<Message>, service: nat -> Completion, retries: int, delay: nat)
    returns (outcome: Attempted, log: seq<Event>)
    ensures RetryRun(outcome, log) == Attempts(messages, service, retries, delay, 0)
  {
    log := [];
    var attempt: nat := 0;
    ghost var total := Attempts(messages, service, retries, delay, 0);
    while attempt < retries
      invariant retries > 0 ==> attempt < retries
      invariant total.outcome == Attempts(messages, service, retries, delay, attempt).outcome
      invariant total.log == log + Attempts(messages, service, retries, delay, attempt).log
      decreases retries - attempt
    {
      ghost var rest := Attempts(messages, service, retries, delay, attempt);
      var answer := service(attempt);
      if answer.Opened? {
        outcome := Returned(answer.stream);
        log := log + [Request(messages)];
        return;
      }
      if attempt == retries - 1 {
        outcome := Raised(answer.error);
        log := log + [Request(messages)];
        return;
      }
      ghost var next := Attempts(messages, service, retries, delay, attempt + 1);
      assert rest.log == [Request(messages), Say(RetryWarning), Sleep(delay)] + next.log;
      log := log + [Request(messages), Say(RetryWarning), Sleep(delay)];
      attempt := attempt + 1;
    }
    outcome := NoAttempt;
  }
}
