/**
 * The chat-completion service and the engine's bounded retry loop around it
 * (`BookWriter._call_groq`): at most five attempts, exponential back-off
 * after an ordinary failure, the advertised wait plus one second after a
 * rate-limit answer, and an "Error:" string instead of an exception once the
 * attempts are used up.
 */
module GroqCall {
  import opened Wrappers
  import Text

  const MaxRetries: nat := 5

  /** What one request to the service gives back: the completion text, or the text of the exception it raised. */
  datatype Reply = Answer(content: string) | Failure(message: string)

  /** The system and user messages of one request. */
  datatype Request = Request(system: string, user: string)

  /**
   * The service, as an oracle: its answer to the n-th request it receives
   * (counted from 0), and how long a rate-limit message asks to wait. The
   * client records every request and every pause; sleeps are kept in tenths
   * of a second.
   */
  class Client {
    const reply: nat -> Reply
    /** The number captured by "Please try again in ([\d.]+)s", in tenths of a second, when the message has one. */
    const waitOf: string -> Option<nat>
    var calls: nat
    var requests: seq<Request>
    var slept: seq<nat>

    constructor (reply: nat -> Reply, waitOf: string -> Option<nat>)
      ensures this.reply == reply && this.waitOf == waitOf
      ensures calls == 0 && requests == [] && slept == []
    {
      this.reply := reply;
      this.waitOf := waitOf;
      calls := 0;
      requests := [];
      slept := [];
    }

    /** The service's answer to its n-th request. */
    function ReplyTo(n: nat): Reply {
      reply(n)
    }

    /** `chat.completions.create`: one more request, answered by the oracle. */
    method Create(system: string, user: string) returns (r: Reply)
      modifies this
      ensures r == ReplyTo(old(calls))
      ensures calls == old(calls) + 1
      ensures requests == old(requests) + [Request(system, user)]
      ensures slept == old(slept)
    {
      r := ReplyTo(calls);
      calls := calls + 1;
      requests := requests + [Request(system, user)];
    }

    /** `time.sleep`, recorded. */
    method Sleep(tenths: nat)
      modifies this
      ensures slept == old(slept) + [tenths]
      ensures calls == old(calls) && requests == old(requests)
    {
      slept := slept + [tenths];
    }
  }

  function Pow2(n: nat): (r: nat)
    ensures r >= 1
  {
    if n == 0 then 1 else 2 * Pow2(n - 1)
  }

  /** The wait a failure message asks for: only a message naming both "429" and "rate_limit_exceeded" and carrying a wait counts. */
  function RateLimitWait(waitOf: string -> Option<nat>, message: string): Option<nat> {
    if Text.Contains(message, "429") && Text.Contains(message, "rate_limit_exceeded") then waitOf(message) else None
  }

  /** The result after a failure on the last attempt. */
  function FailureText(message: string): string {
    ErrorPrefix + " Error en la llamada a Groq tras 5 intentos: " + message
  }

  /** How every error text of the loop begins. */
  const ErrorPrefix: string := "Error:"

  /** The result when the last attempt was a rate-limit wait. */
  const ExhaustedText: string := ErrorPrefix + " No se pudo completar la llamada a Groq tras 5 reintentos."

  /** What the loop returns, how many requests it sent, and how long it slept after each. */
  datatype Outcome = Outcome(text: string, attempts: nat, sleeps: seq<nat>)

  function Then(tenths: nat, rest: Outcome): Outcome {
    Outcome(rest.text, rest.attempts + 1, [tenths] + rest.sleeps)
  }

  /** What the loop does after the reply to attempt `attempt`: return a text, or sleep and try again. */
  datatype Decision = Finish(text: string) | Pause(tenths: nat)

  /**
   * The body of the loop after one request: an answer is returned; a
   * rate-limit failure waits what it asks for plus a second (and uses up the
   * attempt); any other failure returns the failure text on the last attempt
   * and otherwise waits 2^attempt seconds.
   */
  function Decide(waitOf: string -> Option<nat>, r: Reply, attempt: nat): Decision {
    match r
    case Answer(c) => Finish(c)
    case Failure(m) =>
      match RateLimitWait(waitOf, m)
      case Some(w) => Pause(w + 10)
      case None => if attempt + 1 == MaxRetries then Finish(FailureText(m)) else Pause(10 * Pow2(attempt))
  }

  /** The retry loop from attempt `attempt` on, when `rs` are the service's replies to the five attempts. */
  function Retry(rs: seq<Reply>, waitOf: string -> Option<nat>, attempt: nat): Outcome
    requires |rs| == MaxRetries
    decreases MaxRetries - attempt
  {
    if attempt >= MaxRetries then Outcome(ExhaustedText, 0, [])
    else match Decide(waitOf, rs[attempt], attempt)
      case Finish(t) => Outcome(t, 1, [])
      case Pause(d) => Then(d, Retry(rs, waitOf, attempt + 1))
  }

  // ---------------------------------------------------------------- a closed form of the loop

  /** The first attempt at or after `from` that the service answers, or `MaxRetries` when none is. */
  function FirstAnswer(rs: seq<Reply>, from: nat): (j: nat)
    requires |rs| == MaxRetries
    requires from <= MaxRetries
    ensures from <= j <= MaxRetries
    ensures forall k :: from <= k < j ==> rs[k].Failure?
    ensures j < MaxRetries ==> rs[j].Answer?
    decreases MaxRetries - from
  {
    if from == MaxRetries then MaxRetries
    else if rs[from].Answer? then from
    else FirstAnswer(rs, from + 1)
  }

  /** The pause after a failed attempt `k`: the advertised wait plus a second, or 2^k seconds. */
  function Backoff(rs: seq<Reply>, waitOf: string -> Option<nat>, k: nat): nat
    requires k < |rs|
  {
    match rs[k]
    case Answer(_) => 0
    case Failure(m) => if RateLimitWait(waitOf, m).Some? then RateLimitWait(waitOf, m).value + 10 else 10 * Pow2(k)
  }

  function Backoffs(rs: seq<Reply>, waitOf: string -> Option<nat>, lo: nat, hi: nat): (s: seq<nat>)
    requires lo <= hi
    ensures |s| == hi - lo
    requires hi <= |rs|
    ensures forall k :: 0 <= k < |s| ==> s[k] == Backoff(rs, waitOf, lo + k)
    decreases hi - lo
  {
    if lo == hi then [] else [Backoff(rs, waitOf, lo)] + Backoffs(rs, waitOf, lo + 1, hi)
  }

  /**
   * The loop's result without the loop: the first answer if any attempt is
   * answered; otherwise the failure text of the last attempt, or the
   * exhaustion text when the last attempt was a rate-limit wait. Every
   * attempt before the one that ends the loop sleeps its back-off.
   */
  function ClosedForm(rs: seq<Reply>, waitOf: string -> Option<nat>, from: nat): Outcome
    requires |rs| == MaxRetries
    requires from <= MaxRetries
  {
    var j := FirstAnswer(rs, from);
    if j < MaxRetries then
      Outcome(rs[j].content, j + 1 - from, Backoffs(rs, waitOf, from, j))
    else if from == MaxRetries then Outcome(ExhaustedText, 0, [])
    else
      var m := rs[MaxRetries - 1].message;
      if RateLimitWait(waitOf, m).Some? then
        Outcome(ExhaustedText, MaxRetries - from, Backoffs(rs, waitOf, from, MaxRetries))
      else
        Outcome(FailureText(m), MaxRetries - from, Backoffs(rs, waitOf, from, MaxRetries - 1))
  }

  /** A failure that does not end the loop pauses for its back-off. */
  lemma PauseIsBackoff(rs: seq<Reply>, waitOf: string -> Option<nat>, from: nat)
    requires |rs| == MaxRetries && from < MaxRetries && rs[from].Failure?
    requires RateLimitWait(waitOf, rs[from].message).Some? || from + 1 < MaxRetries
    ensures Decide(waitOf, rs[from], from) == Pause(Backoff(rs, waitOf, from))
  {
  }

  /** The closed form, one failed attempt at a time. */
  lemma ClosedFormStep(rs: seq<Reply>, waitOf: string -> Option<nat>, from: nat)
    requires |rs| == MaxRetries && from < MaxRetries && rs[from].Failure?
    requires RateLimitWait(waitOf, rs[from].message).Some? || from + 1 < MaxRetries
    ensures ClosedForm(rs, waitOf, from) == Then(Backoff(rs, waitOf, from), ClosedForm(rs, waitOf, from + 1))
  {
    var j := FirstAnswer(rs, from + 1);
    assert FirstAnswer(rs, from) == j;
    var hi := if j < MaxRetries then j
              else if RateLimitWait(waitOf, rs[MaxRetries - 1].message).Some? then MaxRetries
              else MaxRetries - 1;
    assert Backoffs(rs, waitOf, from, hi) == [Backoff(rs, waitOf, from)] + Backoffs(rs, waitOf, from + 1, hi);
    if j == MaxRetries && from + 1 == MaxRetries {
      assert Backoffs(rs, waitOf, from, MaxRetries) == [Backoff(rs, waitOf, from)];
    }
  }

  lemma {:induction false} RetryClosedForm(rs: seq<Reply>, waitOf: string -> Option<nat>, from: nat)
    requires |rs| == MaxRetries
    requires from <= MaxRetries
    ensures Retry(rs, waitOf, from) == ClosedForm(rs, waitOf, from)
    decreases MaxRetries - from
  {
    if from < MaxRetries && rs[from].Failure? {
      if RateLimitWait(waitOf, rs[from].message).Some? || from + 1 < MaxRetries {
        RetryClosedForm(rs, waitOf, from + 1);
        PauseIsBackoff(rs, waitOf, from);
        ClosedFormStep(rs, waitOf, from);
      }
    }
  }

  /** The loop sends between one and five requests, and sleeps after every one but the last, unless that one was a rate-limit wait. */
  lemma AttemptBounds(rs: seq<Reply>, waitOf: string -> Option<nat>)
    requires |rs| == MaxRetries
    ensures 1 <= Retry(rs, waitOf, 0).attempts <= MaxRetries
    ensures |Retry(rs, waitOf, 0).sleeps| == Retry(rs, waitOf, 0).attempts - 1 ||
            (|Retry(rs, waitOf, 0).sleeps| == MaxRetries && Retry(rs, waitOf, 0).text == ExhaustedText)
  {
    RetryClosedForm(rs, waitOf, 0);
  }

  /** When no attempt is answered the loop does not raise: it returns a text starting with "Error:". */
  lemma NoAnswerGivesError(rs: seq<Reply>, waitOf: string -> Option<nat>)
    requires |rs| == MaxRetries
    requires forall k :: 0 <= k < MaxRetries ==> rs[k].Failure?
    ensures Text.StartsWith(Retry(rs, waitOf, 0).text, ErrorPrefix)
    ensures Retry(rs, waitOf, 0).attempts == MaxRetries
  {
    RetryClosedForm(rs, waitOf, 0);
    var m := rs[MaxRetries - 1].message;
    assert FailureText(m)[..|ErrorPrefix|] == ErrorPrefix;
    assert ExhaustedText[..|ErrorPrefix|] == ErrorPrefix;
  }

  /** A rate-limit answer uses up an attempt: five of them in a row end the loop with five waits of the advertised time plus a second. */
  lemma RateLimitsUseAttempts(rs: seq<Reply>, waitOf: string -> Option<nat>)
    requires |rs| == MaxRetries
    requires forall k :: 0 <= k < MaxRetries ==>
      rs[k].Failure? && RateLimitWait(waitOf, rs[k].message).Some?
    ensures Retry(rs, waitOf, 0).text == ExhaustedText
    ensures Retry(rs, waitOf, 0).attempts == MaxRetries
    ensures |Retry(rs, waitOf, 0).sleeps| == MaxRetries
    ensures forall k :: 0 <= k < MaxRetries ==>
      Retry(rs, waitOf, 0).sleeps[k] == RateLimitWait(waitOf, rs[k].message).value + 10
  {
    RetryClosedForm(rs, waitOf, 0);
    assert FirstAnswer(rs, 0) == MaxRetries;
  }

  /** Ordinary failures back off 1, 2, 4 and 8 seconds; the fifth one ends the loop with the failure text. */
  lemma FailuresBackOff(rs: seq<Reply>, waitOf: string -> Option<nat>)
    requires |rs| == MaxRetries
    requires forall k :: 0 <= k < MaxRetries ==>
      rs[k].Failure? && RateLimitWait(waitOf, rs[k].message).None?
    ensures Retry(rs, waitOf, 0) ==
      Outcome(FailureText(rs[MaxRetries - 1].message), MaxRetries, [10, 20, 40, 80])
  {
    RetryClosedForm(rs, waitOf, 0);
    assert FirstAnswer(rs, 0) == MaxRetries;
    var s := Backoffs(rs, waitOf, 0, MaxRetries - 1);
    assert s[0] == 10 && s[1] == 20 && s[2] == 40 && s[3] == 80 by {
      assert Pow2(3) == 8;
    }
    assert s == [10, 20, 40, 80];
  }

  /** An answered attempt ends the loop with the service's text, after the back-offs of the failures before it. */
  lemma AnswerEndsLoop(rs: seq<Reply>, waitOf: string -> Option<nat>, j: nat)
    requires |rs| == MaxRetries
    requires j < MaxRetries && rs[j].Answer?
    requires forall k :: 0 <= k < j ==> rs[k].Failure?
    ensures Retry(rs, waitOf, 0) ==
      Outcome(rs[j].content, j + 1, Backoffs(rs, waitOf, 0, j))
  {
    RetryClosedForm(rs, waitOf, 0);
    assert FirstAnswer(rs, 0) == j;
  }

  /** The replies of a service that has already received `start` requests to the next five. */
  function Replies(client: Client, start: nat): (rs: seq<Reply>)
    ensures |rs| == MaxRetries
    ensures forall k :: 0 <= k < MaxRetries ==> rs[k] == client.ReplyTo(start + k)
  {
    seq(MaxRetries, k requires 0 <= k < MaxRetries => client.ReplyTo(start + k))
  }

  lemma ReplyOf(rs: seq<Reply>, client: Client, start: nat, k: nat, n: nat)
    requires rs == Replies(client, start) && k < MaxRetries && n == start + k
    ensures rs[k] == client.ReplyTo(n)
  {
  }

  /** `n` copies of a request. */
  function Repeat(r: Request, n: nat): (rs: seq<Request>)
    ensures |rs| == n
    ensures forall i :: 0 <= i < n ==> rs[i] == r
  {
    if n == 0 then [] else Repeat(r, n - 1) + [r]
  }

  /** The loop's outcome once the pauses `done` are behind it and `rest` is what remains. */
  function After(done: seq<nat>, rest: Outcome): Outcome {
    Outcome(rest.text, |done| + rest.attempts, done + rest.sleeps)
  }

  /** A paused attempt moves its pause from what remains to what is done. */
  lemma AfterPause(rs: seq<Reply>, waitOf: string -> Option<nat>, attempt: nat, done: seq<nat>, r: Reply, d: nat)
    requires |rs| == MaxRetries && attempt < MaxRetries && rs[attempt] == r
    requires Decide(waitOf, r, attempt) == Pause(d)
    ensures After(done, Retry(rs, waitOf, attempt)) == After(done + [d], Retry(rs, waitOf, attempt + 1))
  {
    var rest := Retry(rs, waitOf, attempt + 1);
    assert Retry(rs, waitOf, attempt) == Then(d, rest);
    assert done + ([d] + rest.sleeps) == (done + [d]) + rest.sleeps;
  }

  /** A finishing attempt is the last one. */
  lemma AfterFinish(rs: seq<Reply>, waitOf: string -> Option<nat>, attempt: nat, done: seq<nat>, r: Reply, t: string)
    requires |rs| == MaxRetries && attempt < MaxRetries && rs[attempt] == r
    requires Decide(waitOf, r, attempt) == Finish(t)
    ensures After(done, Retry(rs, waitOf, attempt)) == Outcome(t, |done| + 1, done)
  {
    assert done + [] == done;
  }

  /** Past the fifth attempt the loop gives up. */
  lemma AfterLast(rs: seq<Reply>, waitOf: string -> Option<nat>, done: seq<nat>)
    requires |rs| == MaxRetries
    ensures After(done, Retry(rs, waitOf, MaxRetries)) == Outcome(ExhaustedText, |done|, done)
  {
    assert done + [] == done;
  }

  /** One more request in a list of `n` equal requests. */
  lemma RepeatSnoc(prefix: seq<Request>, r: Request, n: nat, before: seq<Request>)
    requires before == prefix + Repeat(r, n)
    ensures before + [r] == prefix + Repeat(r, n + 1)
  {
  }

  /**
   * The body of the retry loop: the request of attempt `attempt`, answered
   * by the service's next reply, and the pause the decision asks for.
   */
  method Attempt(client: Client, system: string, user: string, attempt: nat, ghost rs: seq<Reply>, ghost start: nat)
    returns (decision: Decision)
    requires attempt < MaxRetries && rs == Replies(client, start) && client.calls == start + attempt
    modifies client
    ensures decision == Decide(client.waitOf, rs[attempt], attempt)
    ensures client.calls == old(client.calls) + 1
    ensures client.requests == old(client.requests) + [Request(system, user)]
    ensures decision.Pause? ==> client.slept == old(client.slept) + [decision.tenths]
    ensures decision.Finish? ==> client.slept == old(client.slept)
  {
    ghost var n := client.calls;
    var r := client.Create(system, user);
    ReplyOf(rs, client, start, attempt, n);
    decision := Decide(client.waitOf, r, attempt);
    if decision.Pause? {
      client.Sleep(decision.tenths);
    }
  }

  /**
   * `_call_groq`: up to five requests with the same messages; returns the
   * first completion, or an error text. The client's record grows by exactly
   * the requests and pauses of `Retry`.
   */
  method CallGroq(client: Client, system: string, user: string) returns (text: string)
    modifies client
    ensures var o := Retry(Replies(client, old(client.calls)), client.waitOf, 0);
      text == o.text &&
      client.calls == old(client.calls) + o.attempts &&
      client.requests == old(client.requests) + Repeat(Request(system, user), o.attempts) &&
      client.slept == old(client.slept) + o.sleeps
  {
    ghost var start := client.calls;
    var waitOf := client.waitOf;
    ghost var rs := Replies(client, start);
    ghost var full := Retry(rs, waitOf, 0);
    ghost var req := Request(system, user);
    ghost var sleeps: seq<nat> := [];
    assert full == After(sleeps, full);
    var attempt := 0;
    while attempt < MaxRetries
      invariant 0 <= attempt <= MaxRetries && |sleeps| == attempt
      invariant client.calls == start + attempt
      invariant client.requests == old(client.requests) + Repeat(req, attempt)
      invariant client.slept == old(client.slept) + sleeps
      invariant full == After(sleeps, Retry(rs, waitOf, attempt))
      decreases MaxRetries - attempt
    {
      ghost var before := client.requests;
      var decision := Attempt(client, system, user, attempt, rs, start);
      RepeatSnoc(old(client.requests), req, attempt, before);
      match decision
      case Finish(t) =>
        AfterFinish(rs, waitOf, attempt, sleeps, rs[attempt], t);
        text := t;
        return;
      case Pause(d) =>
        AfterPause(rs, waitOf, attempt, sleeps, rs[attempt], d);
        sleeps := sleeps + [d];
        attempt := attempt + 1;
    }
    AfterLast(rs, waitOf, sleeps);
    text := ExhaustedText;
  }
}
