# Protein explorer backend: request-handling core in Dafny

This project models the decision logic of the protein explorer backend's single
endpoint, `POST /process_input` in `app.py`. A request carries a functional
description, a result count N and a flag `exploreUniqueEntryIds`. The handler:

1. polls the embedding API up to 30 times, retrying while it answers
   `{'error': '503 Service Unavailable'}` (`embed_func_description`);
2. when no embedding was obtained, replies with
   `{'error': 'Failed to get embeddings from the API.'}` and stops;
3. otherwise reshapes the embedding to 1 x 1024, runs the tag classifier and
   turns every output that rounds to 1 into the vocabulary label of its index
   (`generate_tags`);
4. asks the vector search for a pool (500 N candidates, limit 100 N), trims it
   to N records, keeping only the first record per `entry_id` when the flag is
   set, and projects each kept record onto five fields
   (`get_similar_proteins`);
5. replies with `{tags, similar_proteins}`.

The external collaborators are inputs: the embedding API's answers are a
sequence (`responses[k]` answers request `k`), the classifier is a function
from embedding to rounded integer outputs, the label vocabulary is a
`map<int, string>`, and the vector search is a function from
(embedding, pool size, limit) to an ordered candidate sequence.

Modules, one per component:

- `Outcomes` (`outcomes.dfy`): the `Option` type.
- `Embeddings` (`embeddings.dfy`): the retry loop.
- `Tags` (`tags.dfy`): tag selection and the reshape check.
- `SimilarProteins` (`similar_proteins.dfy`): the post-filter loop, its
  reference definitions (`FirstOccurrences`, `Take`) and the projection.
- `Handler` (`handler.dfy`): the endpoint's branching. It returns the reply
  together with the list of stages consulted (embedding API, classifier,
  search), so that "the classifier and the search are not consulted" is a
  statement about the result.

The filter loop is modelled as written (`SimilarProteins.Scan`): the stop test
`len(results) == number_value` is made only right after an append. For N <= 0
it never fires, so nothing is cut: every candidate is kept, or with the flag
set every first occurrence. `PostFilter`'s contract states this case
separately, and the length bound is stated for N >= 1 only.

## Model

| member | source | states |
|---|---|---|
| SimilarProteins.Scan | app.py:134-147 | The loop step by step, with the stop test made only after an append: the results so far are a prefix of the outcome, at most one record per remaining candidate is added, every added record comes from the candidates not yet visited, and for N >= 1 the outcome stops at N records. ScanUnique and ScanAll state exactly what it returns. |
| SimilarProteins.PostFilter | app.py:134-147 | With the flag set and N >= 1 the kept list is the first N of the first-occurrence subsequence of the pool; with N <= 0 it is the whole first-occurrence subsequence. With the flag clear it is the first min(N, pool size) candidates unchanged, or the whole pool when N <= 0. |
| SimilarProteins.ScanUnique | app.py:136-143 | The deduplicating loop, resumed from any state that agrees with the reference (results are the first occurrences so far, the seen set is their ids, the stop test has not fired), ends with the first occurrences of the whole pool, cut to N when N is positive. |
| SimilarProteins.ScanAll | app.py:144-147 | The non-deduplicating loop, resumed after the first i candidates with i < N (or N <= 0), ends with the first N candidates, or all of them for N <= 0. |
| SimilarProteins.PostFilterLength | app.py:142-147 | For N >= 1 the result has at most N records, and exactly N when the pool holds N qualifying records (distinct entry ids with the flag set, candidates with it clear); otherwise it holds all of them. |
| SimilarProteins.PostFilterDistinct | app.py:137-141 | With the flag set no two kept records share an entry id, for every N. |
| SimilarProteins.PostFilterShortPool | app.py:136-143 | With the flag set and at most N distinct entry ids in the pool (or N <= 0), the result is every first occurrence and covers every entry id of the pool; no error arises from the shortfall. |
| SimilarProteins.FirstOccurrencesAreFirst | app.py:137-141 | Every record of the first-occurrence subsequence is, in the pool, the earliest record carrying its entry id. |
| SimilarProteins.FirstOccurrencesUpToIds | app.py:135-141 | The first occurrences among the first k candidates carry exactly the entry ids seen among those k, which is what the `seen_entry_ids` set holds. |
| SimilarProteins.FirstOccurrencesUpToDistinct | app.py:139-141 | The first-occurrence subsequence never repeats an entry id. |
| SimilarProteins.FirstOccurrencesUpToCount | app.py:139-141 | The first-occurrence subsequence has one record per distinct entry id. |
| SimilarProteins.FirstOccurrencesUpToPrefix | app.py:136-143 | Scanning further only extends the first-occurrence subsequence, so stopping early yields a prefix of it. |
| SimilarProteins.Simplify | app.py:150-156 | Of the six document fields the model keeps, a simplified record loses only the stored embedding: re-attaching it gives back the modelled record. |
| SimilarProteins.Project | app.py:150-156 | One output per kept record, same length and order; output k takes entry_id, entity_id, name and function_shortened from record k, and mondo_annotations from its mondo_names; the sequence of entry ids is unchanged. |
| SimilarProteins.GetSimilarProteins | app.py:113-158 | For the pool the search returns when asked for 500 N candidates and a limit of 100 N, the reply is the projection of the first N first-occurrence records (flag set) or of the first N candidates (flag clear), and of all of them when N <= 0; hence for N >= 1 at most N records come back, and with the flag set no entry id is repeated. |
| Tags.OnesBefore | app.py:79 | Every selected position below k holds a 1, and every position below k holding a 1 is selected. |
| Tags.OnesBeforeAscending | app.py:79 | Selected positions are strictly increasing (enumeration order). |
| Tags.OnesBeforeCount | app.py:79 | The number of selected positions equals the number of 1s among the first k predictions. |
| Tags.TagIndices | app.py:79 | A position is selected if and only if its rounded prediction is 1; positions come in increasing order, as many as there are 1s. |
| Tags.SelectTags | app.py:79 | The lookup fails exactly when some position holding 1 has no label; otherwise there is one tag per 1, the label of every such position is present, and tag m is the label of the m-th selected position. |
| Tags.SampleIndices | app.py:79 | With outputs 2 and 5 set among eight, the selected positions are exactly 2 then 5. |
| Tags.SelectTagsExample | app.py:79 | With outputs 2 and 5 set among eight, the tags are the labels of indices 2 and 5, in that order. |
| Tags.GenerateTags | app.py:56-81 | The reshape fails exactly when the embedding does not have 1024 entries; the lookup fails exactly when the width is right and a selected output has no label; otherwise tag m is the label of the m-th output equal to 1, in index order, one tag per such output. |
| Embeddings.Poll | app.py:99-108 | From attempt a on, the loop sends at most 30 requests in all; it yields nothing exactly when answers a..29 are all the sentinel (then after 30 requests), and otherwise the embeddings of the first non-sentinel answer, after the request that returned it. |
| Embeddings.EmbedFuncDescription | app.py:99-111 | Between 1 and 30 requests are sent; the result is None exactly when the first 30 answers are all the sentinel, and otherwise the embeddings of the first non-sentinel answer, all earlier answers having been the sentinel. |
| Embeddings.EmbedDependsOnlyOnFirstAttempts | app.py:99-111 | Two API histories agreeing on their first 30 answers give the same outcome and request count. |
| Handler.ProcessInput | app.py:168-186 | The embedding API is consulted first; the reply is the error object exactly when all 30 answers were the sentinel, and then nothing else is consulted. A classifier failure replies with a fault after consulting only the API and the classifier; otherwise the stages are API, classifier, search with pool 500 N and limit 100 N. |
| Handler.AllUnavailableSkipsClassifyAndSearch | app.py:168-170 | Thirty sentinel answers give the error reply after exactly 30 requests, with no classification and no search. |
| Handler.AnswerContents | app.py:172-182 | An answer carries exactly the tags selected from the classifier's outputs for a 1024-wide embedding (one per output equal to 1) and exactly the result of get_similar_proteins for the request's N and flag, which is bounded by N (for N >= 1) and has distinct entry ids when the flag is set. |

## Left out

- Flask setup, CORS, routing and `jsonify` (app.py:15-25, 160-166, 188-189): framework plumbing; the request arrives already decoded as `Handler.Request`.
- Environment configuration and the debug `print` (app.py:28-34, 184): no bearing on the logic.
- The S3 client and the model download at start-up (app.py:36-54): cloud I/O.
- The ONNX session, the numpy conversion and the float rounding (app.py:63-74): foreign library calls and floating point; the classifier is a parameter returning the rounded outputs as integers. Only the reshape's width check (1024) is kept. The embedding is modelled as its numbers flattened into one sequence; `reshape(1, 1024)` accepts any nesting holding 1024 numbers in all, and the width check is stated on the flattened count.
- Reading `reverse_vocab.json` (app.py:76-77): file I/O; the vocabulary is a `map<int, string>` (the file keys it by `str(i)`). A missing file is not modelled.
- The HTTP request and `time.sleep(10)` (app.py:100, 108): network and timing; the API's answers are an input sequence and the delay is ignored. The description text is therefore not part of `Handler.Request`.
- Embeddings.EmbedFuncDescription: only two kinds of answer are modelled, the exact 503 sentinel and a JSON object whose `embeddings` field holds a vector. The source does something else for four other kinds of answer, none of them modelled. A body that is not JSON raises at `response.json()` (app.py:101). A JSON value that is not an object raises a TypeError when indexed, and an object without `embeddings` raises a KeyError (app.py:105). An object with `"embeddings": null` makes the function return `None` after at most 30 requests, at least one answer not being the sentinel.
- Handler.ProcessInput: the error reply comes exactly when all 30 answers were the sentinel only for the two modelled kinds of answer; in the source an answer `{"embeddings": null}` also leads to the error reply (app.py:169-170), after at most 30 requests, at least one answer not being the sentinel.
- Embeddings.EmbedFuncDescription: requires the API history to hold at least 30 answers, standing for an API that answers every request it receives; a request that raises is not modelled.
- The MongoDB connection and the `$vectorSearch` aggregation (app.py:115-131): an external database; the search is a parameter, and the 500 N / 100 N multipliers appear only as the arguments it receives. What the database does with a non-positive N is not modelled.
- Handler.Request: the count is an integer and the flag a boolean; JSON values of other types (a missing `number`, a non-boolean truthy flag) are not modelled.
- Stored document fields other than the six modelled ones (`_id` and any others the collection holds): the vector search returns whole documents, and the projection drops these fields as it drops the embedding.
- Exceptions other than the reshape and the missing label (database or file errors, missing document fields) are not modelled; the reply for an uncaught exception is a single `Fault`.
