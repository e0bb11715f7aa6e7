/**
  `embed_func_description` in app.py: the embedding API is polled up to
  `MaxAttempts` times; the "503 Service Unavailable" body means "try again",
  any other body is taken to carry the embedding.

  The HTTP call and the pause between attempts are not modelled: the API's
  answers are an input sequence, `responses[k]` being the answer to request
  number `k` (counting from 0).
 */
module Embeddings {
  import opened Outcomes

  /** The numbers of the embedding returned by the API, flattened (1024 of them when well-formed). */
  type Embedding = seq<real>

  /** The loop runs `range(30)`. */
  const MaxAttempts: nat := 30

  /** The decoded body of one API answer. */
  datatype Response =
    | ServiceUnavailable                  // exactly {'error': '503 Service Unavailable'}
    | EmbeddingPayload(embeddings: Embedding)

  /** What the retry loop yields, and how many requests it sent. */
  datatype Polled = Polled(embedding: Option<Embedding>, requests: nat)

  /** The first `k` answers were all the unavailability sentinel. */
  predicate UnavailableBefore(responses: seq<Response>, k: nat)
    requires k <= |responses|
  {
    forall j :: 0 <= j < k ==> responses[j] == ServiceUnavailable
  }

  /**
    The retry loop resumed at attempt `attempt`: it stops at the first answer
    that is not the sentinel and returns its embeddings, or gives up with
    `None` once `MaxAttempts` requests were sent.
   */
  function Poll(responses: seq<Response>, attempt: nat): (p: Polled)
    requires attempt <= MaxAttempts <= |responses|
    ensures attempt <= p.requests <= MaxAttempts
    ensures p.embedding.None? <==>
              forall j :: attempt <= j < MaxAttempts ==> responses[j] == ServiceUnavailable
    ensures p.embedding.None? ==> p.requests == MaxAttempts
    ensures p.embedding.Some? ==>
              && attempt < p.requests
              && responses[p.requests - 1] == EmbeddingPayload(p.embedding.value)
              && forall j :: attempt <= j < p.requests - 1 ==> responses[j] == ServiceUnavailable
    decreases MaxAttempts - attempt
  {
    if attempt == MaxAttempts then Polled(None, MaxAttempts)
    else if responses[attempt] != ServiceUnavailable then
      Polled(Some(responses[attempt].embeddings), attempt + 1)
    else Poll(responses, attempt + 1)
  }

  /**
    app.py:99-111. At most `MaxAttempts` requests are sent; the result is the
    embedding of the first answer that is not the sentinel, and `None`
    exactly when all `MaxAttempts` answers were the sentinel.
   */
  function EmbedFuncDescription(responses: seq<Response>): (p: Polled)
    requires MaxAttempts <= |responses|
    ensures 1 <= p.requests <= MaxAttempts
    ensures p.embedding.None? <==> UnavailableBefore(responses, MaxAttempts)
    ensures p.embedding.None? ==> p.requests == MaxAttempts
    ensures p.embedding.Some? ==>
              && UnavailableBefore(responses, p.requests - 1)
              && responses[p.requests - 1] == EmbeddingPayload(p.embedding.value)
  {
    Poll(responses, 0)
  }

  /** Answers after the last allowed attempt never influence the loop, from any attempt on. */
  lemma {:induction false} PollIgnoresLaterAnswers(a: seq<Response>, b: seq<Response>, attempt: nat)
    requires attempt <= MaxAttempts <= |a| && MaxAttempts <= |b|
    requires a[..MaxAttempts] == b[..MaxAttempts]
    ensures Poll(a, attempt) == Poll(b, attempt)
    decreases MaxAttempts - attempt
  {
    if attempt < MaxAttempts {
      assert a[attempt] == a[..MaxAttempts][attempt] == b[..MaxAttempts][attempt] == b[attempt];
      PollIgnoresLaterAnswers(a, b, attempt + 1);
    }
  }

  /** Two API histories that agree on the first `MaxAttempts` answers give the same outcome. */
  lemma EmbedDependsOnlyOnFirstAttempts(a: seq<Response>, b: seq<Response>)
    requires MaxAttempts <= |a| && MaxAttempts <= |b|
    requires a[..MaxAttempts] == b[..MaxAttempts]
    ensures EmbedFuncDescription(a) == EmbedFuncDescription(b)
  {
    PollIgnoresLaterAnswers(a, b, 0);
  }
}
