/**
  `process_input` in app.py: embed the description, classify the embedding
  into tags, search for similar proteins, and combine the two; an embedding
  that could not be obtained short-circuits into an error reply.

  The handler also reports the stages it went through, so that "the
  classifier and the search are not consulted" can be stated. The classifier
  and the vector search are parameters; the JSON request is already decoded.
 */
module Handler {
  import opened Outcomes
  import opened Embeddings
  import Tags
  import SimilarProteins

  /** The decoded body of a POST to `/process_input`. */
  datatype Request = Request(number: int, exploreUniqueEntryIds: bool)

  /** A collaborator the handler consulted, in order. */
  datatype Stage =
    | Embed(requests: nat)                  // the embedding API, with the number of requests sent
    | Classify                              // the tag classifier
    | Search(numCandidates: int, limit: int) // the vector search, with its pool size and limit

  /** The JSON object returned to the client. */
  datatype Reply =
    | EmbeddingError(message: string)
    | Answer(tags: seq<string>, similarProteins: seq<SimilarProteins.SimplifiedProtein>)
    | Fault                                 // an uncaught exception: the framework's generic failure

  datatype Handled = Handled(reply: Reply, stages: seq<Stage>)

  const EmbeddingErrorMessage: string := "Failed to get embeddings from the API."

  /**
    app.py:168-186. The embedding API is always consulted first. When it
    yields nothing, the reply is the error object and nothing else runs.
    Otherwise the classifier runs; if it raises (wrong embedding width, or a
    selected output without a label), the request fails before the search; if
    not, the search runs with a pool of 500 N and a limit of 100 N
    and the reply carries the tags and the simplified results.
   */
  function ProcessInput(request: Request, responses: seq<Response>,
                        infer: Embedding -> seq<int>, vocab: map<int, string>,
                        search: (Embedding, int, int) -> seq<SimilarProteins.ProteinRecord>): (h: Handled)
    requires MaxAttempts <= |responses|
    ensures |h.stages| >= 1 && h.stages[0] == Embed(EmbedFuncDescription(responses).requests)
    ensures h.reply.EmbeddingError? <==> UnavailableBefore(responses, MaxAttempts)
    ensures h.reply.EmbeddingError? ==>
              h.reply.message == EmbeddingErrorMessage && h.stages == [Embed(MaxAttempts)]
    ensures h.reply.Fault? <==>
              var e := EmbedFuncDescription(responses).embedding;
              e.Some? && !Tags.GenerateTags(e.value, infer, vocab).Tagged?
    ensures h.reply.Fault? ==> h.stages == [h.stages[0], Classify]
    ensures h.reply.Answer? ==>
              var n := request.number;
              h.stages == [h.stages[0], Classify,
                           Search(n * SimilarProteins.NumCandidatesFactor, n * SimilarProteins.LimitFactor)]
  {
    var polled := EmbedFuncDescription(responses);
    match polled.embedding
    case None =>
      Handled(EmbeddingError(EmbeddingErrorMessage), [Embed(polled.requests)])
    case Some(embedding) =>
      match Tags.GenerateTags(embedding, infer, vocab)
      case Tagged(tags) =>
        var n := request.number;
        var similar := SimilarProteins.GetSimilarProteins(embedding, n, request.exploreUniqueEntryIds, search);
        Handled(Answer(tags, similar),
                [Embed(polled.requests), Classify,
                 Search(n * SimilarProteins.NumCandidatesFactor, n * SimilarProteins.LimitFactor)])
      case _ =>
        Handled(Fault, [Embed(polled.requests), Classify])
  }

  /**
    When every one of the 30 answers is the sentinel the client gets the
    error object, after exactly 30 requests, and neither the classifier nor
    the search is consulted.
   */
  lemma AllUnavailableSkipsClassifyAndSearch(request: Request, responses: seq<Response>,
                                             infer: Embedding -> seq<int>, vocab: map<int, string>,
                                             search: (Embedding, int, int) -> seq<SimilarProteins.ProteinRecord>)
    requires MaxAttempts <= |responses|
    requires forall j :: 0 <= j < MaxAttempts ==> responses[j] == ServiceUnavailable
    ensures var h := ProcessInput(request, responses, infer, vocab, search);
            && h.reply == EmbeddingError(EmbeddingErrorMessage)
            && h.stages == [Embed(MaxAttempts)]
  {
  }

  /**
    What an answer, whenever there is one, carries: exactly the tags selected from the classifier's
    outputs (one per output equal to 1) and exactly the result of
    `get_similar_proteins` for the request's count and flag, which respects
    the requested count and, when asked, carries distinct entry ids.
   */
  lemma AnswerContents(request: Request, responses: seq<Response>,
                       infer: Embedding -> seq<int>, vocab: map<int, string>,
                       search: (Embedding, int, int) -> seq<SimilarProteins.ProteinRecord>)
    requires MaxAttempts <= |responses|
    ensures var h := ProcessInput(request, responses, infer, vocab, search);
            var e := EmbedFuncDescription(responses).embedding;
            h.reply.Answer? ==>
            && e.Some?
            && |e.value| == Tags.InputWidth
            && Tags.SelectTags(infer(e.value), vocab) == Some(h.reply.tags)
            && |h.reply.tags| == multiset(infer(e.value))[1]
            && h.reply.similarProteins
               == SimilarProteins.GetSimilarProteins(e.value, request.number, request.exploreUniqueEntryIds, search)
            && (request.number >= 1 ==> |h.reply.similarProteins| <= request.number)
            && (request.exploreUniqueEntryIds ==>
                  SimilarProteins.NoRepeatedIds(SimilarProteins.IdSeq(h.reply.similarProteins, SimilarProteins.SimplifiedId)))
  {
  }
}
