/**
 * The retry loop of `generate_gemini_response`. The generation service is a parameter:
 * for the prompt and the attempt number it says how that attempt's streamed call ends,
 * with the text chunks of a completed stream, with a rate-limit error, or with any
 * other error. At most three attempts are made; a rate-limit error waits the current
 * delay and doubles it, any other error gives up at once, and a missing API key
 * answers before any call is made. The waits are recorded rather than slept.
 */
module Generation {
  import opened Text

  /** How one call to the generation service ends. */
  datatype ApiOutcome = Streamed(chunks: seq<string>) | ResourceExhausted | OtherFailure

  /** The generation service: the outcome of attempt `n` on a prompt. */
  type Service = (string, nat) -> ApiOutcome

  const MaxRetries: nat := 3
  const InitialDelay: nat := 1

  /** The answer when no API key is configured. */
  const NoApiReply: string := "I'm unable to process your request, as I do not have access to Google API."

  /** The answer after a failure the loop does not retry, or after the last retry. */
  const Apology: string := "I'm facing issues, please try again."

  /** What a run of the loop produces: the reply, how many calls were made to the
      service, and the delays waited, in order. */
  datatype Generation = Generation(reply: string, calls: nat, delays: seq<nat>)

  /** The run from attempt `attempt` on, when the current delay is `delay`. */
  function Attempts(prompt: string, hasKey: bool, service: Service, attempt: nat, delay: nat): Generation
    requires attempt < MaxRetries
    decreases MaxRetries - attempt
  {
    if !hasKey then Generation(NoApiReply, 0, [])
    else match service(prompt, attempt)
      case Streamed(chunks) => Generation(Concat(chunks), 1, [])
      case OtherFailure => Generation(Apology, 1, [])
      case ResourceExhausted =>
        if attempt == MaxRetries - 1 then Generation(Apology, 1, [delay])
        else Prefixed(1, [delay], Attempts(prompt, hasKey, service, attempt + 1, 2 * delay))
  }

  /** A run preceded by `calls` calls that waited `delays`. */
  function Prefixed(calls: nat, delays: seq<nat>, g: Generation): Generation
  {
    Generation(g.reply, calls + g.calls, delays + g.delays)
  }

  /** The whole run of `generate_gemini_response` on a prompt. */
  function Generate(prompt: string, hasKey: bool, service: Service): Generation
  {
    Attempts(prompt, hasKey, service, 0, InitialDelay)
  }

  /** `generate_gemini_response`'s retry loop, with the stream's chunks accumulated
      into the reply. */
  method GenerateResponse(prompt: string, hasKey: bool, service: Service)
    returns (reply: string, calls: nat, delays: seq<nat>)
    ensures Generation(reply, calls, delays) == Generate(prompt, hasKey, service)
  {
    reply, calls, delays := "", 0, [];
    var retryDelay := InitialDelay;
    var attempt := 0;
    var finished := false;
    while !finished
      invariant attempt <= MaxRetries
      invariant !finished ==> attempt < MaxRetries
      invariant !finished ==>
        (Generate(prompt, hasKey, service)
         == Prefixed(calls, delays, Attempts(prompt, hasKey, service, attempt, retryDelay)))
      invariant finished ==> Generation(reply, calls, delays) == Generate(prompt, hasKey, service)
      decreases MaxRetries - attempt
    {
      ghost var rest := Attempts(prompt, hasKey, service, attempt, retryDelay);
      if hasKey {
        var outcome := service(prompt, attempt);
        match outcome {
          case Streamed(chunks) =>
            var fullResponse := "";
            for j := 0 to |chunks|
              invariant fullResponse == Concat(chunks[..j])
            {
              assert chunks[..j + 1][..j] == chunks[..j];
              fullResponse := fullResponse + chunks[j];
            }
            assert chunks[..|chunks|] == chunks;
            reply, calls := fullResponse, calls + 1;
            finished := true;
          case ResourceExhausted =>
            delays, calls := delays + [retryDelay], calls + 1;
            retryDelay := retryDelay * 2;
            if attempt == MaxRetries - 1 {
              reply := Apology;
              finished := true;
            } else {
              assert delays + Attempts(prompt, hasKey, service, attempt + 1, retryDelay).delays
                  == delays[..|delays| - 1] + rest.delays;
            }
          case OtherFailure =>
            reply, calls := Apology, calls + 1;
            finished := true;
        }
      } else {
        reply := NoApiReply;
        finished := true;
      }
      attempt := attempt + 1;
    }
  }

  /** 2 to the power `n`. */
  function Pow2(n: nat): nat
  {
    if n == 0 then 1 else 2 * Pow2(n - 1)
  }

  /** The delays of `n` successive rate-limit errors when the first delay is `delay`:
      each is twice the one before. */
  function Backoff(delay: nat, n: nat): (waits: seq<nat>)
    ensures |waits| == n
    ensures n > 0 ==> waits[0] == delay
    ensures forall i :: 0 < i < n ==> waits[i] == 2 * waits[i - 1]
  {
    seq(n, i requires 0 <= i < n => delay * Pow2(i))
  }

  /** Without an API key the reply is the fixed refusal and no call is made. */
  lemma NoKeyNoCall(prompt: string, service: Service)
    ensures Generate(prompt, false, service) == Generation(NoApiReply, 0, [])
  {
  }

  /** From attempt `attempt` on: when attempts `attempt` .. `last - 1` are rate limited
      and attempt `last` is not, the run makes `last - attempt + 1` calls, waits the
      doubling delays of the rate-limited ones, and answers with the last outcome. */
  lemma {:induction false} AttemptsSettle(prompt: string, service: Service, attempt: nat, delay: nat, last: nat)
    requires attempt <= last < MaxRetries
    requires forall j :: attempt <= j < last ==> service(prompt, j) == ResourceExhausted
    requires service(prompt, last) != ResourceExhausted
    ensures Attempts(prompt, true, service, attempt, delay)
         == Generation(if service(prompt, last).Streamed? then Concat(service(prompt, last).chunks) else Apology,
                       last - attempt + 1, Backoff(delay, last - attempt))
    decreases last - attempt
  {
    if attempt < last {
      AttemptsSettle(prompt, service, attempt + 1, 2 * delay, last);
      var tail := Backoff(2 * delay, last - attempt - 1);
      forall i | 0 <= i < last - attempt
        ensures ([delay] + tail)[i] == Backoff(delay, last - attempt)[i]
      {
        if i > 0 {
          assert tail[i - 1] == 2 * delay * Pow2(i - 1);
        }
      }
      assert [delay] + tail == Backoff(delay, last - attempt);
    } else {
      assert Backoff(delay, 0) == [];
    }
  }

  /** From attempt `attempt` on: when every remaining attempt is rate limited, each one is
      made and waited for, and the reply is the apology. */
  lemma {:induction false} AttemptsExhausted(prompt: string, service: Service, attempt: nat, delay: nat)
    requires attempt < MaxRetries
    requires forall j :: attempt <= j < MaxRetries ==> service(prompt, j) == ResourceExhausted
    ensures Attempts(prompt, true, service, attempt, delay)
         == Generation(Apology, MaxRetries - attempt, Backoff(delay, MaxRetries - attempt))
    decreases MaxRetries - attempt
  {
    if attempt < MaxRetries - 1 {
      AttemptsExhausted(prompt, service, attempt + 1, 2 * delay);
      var tail := Backoff(2 * delay, MaxRetries - attempt - 1);
      forall i | 0 <= i < MaxRetries - attempt
        ensures ([delay] + tail)[i] == Backoff(delay, MaxRetries - attempt)[i]
      {
        if i > 0 {
          assert tail[i - 1] == 2 * delay * Pow2(i - 1);
        }
      }
      assert [delay] + tail == Backoff(delay, MaxRetries - attempt);
    } else {
      assert Backoff(delay, 1) == [delay];
    }
  }

  /** A completed stream after `k` rate-limit errors: the reply is every chunk's text in
      order, `k + 1` calls are made, and the waits are 1, 2, 4, ... seconds. */
  lemma StreamAfterRateLimits(prompt: string, service: Service, k: nat, chunks: seq<string>)
    requires k < MaxRetries
    requires forall j :: 0 <= j < k ==> service(prompt, j) == ResourceExhausted
    requires service(prompt, k) == Streamed(chunks)
    ensures Generate(prompt, true, service) == Generation(Concat(chunks), k + 1, Backoff(1, k))
  {
    AttemptsSettle(prompt, service, 0, InitialDelay, k);
  }

  /** Any other error on the first attempt ends the run with the apology after one call
      and no wait. */
  lemma FailureStopsAtOnce(prompt: string, service: Service)
    requires service(prompt, 0) == OtherFailure
    ensures Generate(prompt, true, service) == Generation(Apology, 1, [])
  {
    AttemptsSettle(prompt, service, 0, InitialDelay, 0);
  }

  /** Three rate-limit errors in a row: three calls, waits of 1, 2 and 4 seconds (the
      last one even though no attempt follows it), and the apology. */
  lemma RateLimitedThrice(prompt: string, service: Service)
    requires forall j :: 0 <= j < MaxRetries ==> service(prompt, j) == ResourceExhausted
    ensures Generate(prompt, true, service) == Generation(Apology, 3, [1, 2, 4])
  {
    AttemptsExhausted(prompt, service, 0, InitialDelay);
    assert Backoff(1, 3)[2] == 4;
  }

  /** Whatever the service does, at most three calls are made, and a rate-limit wait is
      recorded only for a call that was made. */
  lemma {:induction false} AttemptsBounded(prompt: string, hasKey: bool, service: Service, attempt: nat, delay: nat)
    requires attempt < MaxRetries
    ensures var g := Attempts(prompt, hasKey, service, attempt, delay);
      g.calls <= MaxRetries - attempt && |g.delays| <= g.calls
      && (g.calls == 0 <==> !hasKey)
    decreases MaxRetries - attempt
  {
    if hasKey && service(prompt, attempt).ResourceExhausted? && attempt < MaxRetries - 1 {
      AttemptsBounded(prompt, hasKey, service, attempt + 1, 2 * delay);
    }
  }

  /** The run as a whole makes at most three calls, and none without an API key. */
  lemma GenerateBounded(prompt: string, hasKey: bool, service: Service)
    ensures var g := Generate(prompt, hasKey, service);
      g.calls <= MaxRetries && |g.delays| <= g.calls && (g.calls == 0 <==> !hasKey)
  {
    AttemptsBounded(prompt, hasKey, service, 0, InitialDelay);
  }
}
