/**
  `generate_tags` in app.py: the embedding is reshaped to a 1 x 1024 tensor,
  the classifier is run, and every output unit that rounds to 1 contributes the
  label the vocabulary gives its index.

  The classifier (an ONNX session) and its rounding are a parameter `infer`
  that yields the rounded outputs as integers; the vocabulary file is passed in
  as a map from index to label.
 */
module Tags {
  import opened Outcomes
  import opened Embeddings

  /** The classifier's input shape is 1 x `InputWidth`. */
  const InputWidth: nat := 1024

  /**
    Reference: the positions below `k` whose rounded prediction is 1, in
    increasing order, and only those.
   */
  function OnesBefore(predictions: seq<int>, k: nat): (idx: seq<nat>)
    requires k <= |predictions|
    ensures forall m :: 0 <= m < |idx| ==> idx[m] < k && predictions[idx[m]] == 1
    ensures forall i :: 0 <= i < k && predictions[i] == 1 ==> i in idx
  {
    if k == 0 then []
    else OnesBefore(predictions, k - 1) + (if predictions[k - 1] == 1 then [k - 1] else [])
  }

  /** `idx` is strictly increasing. */
  predicate Ascending(idx: seq<nat>)
  {
    forall m1, m2 :: 0 <= m1 < m2 < |idx| ==> idx[m1] < idx[m2]
  }

  /** The selected positions come in strictly increasing order. */
  lemma {:induction false} OnesBeforeAscending(predictions: seq<int>, k: nat)
    requires k <= |predictions|
    ensures Ascending(OnesBefore(predictions, k))
  {
    if k > 0 {
      OnesBeforeAscending(predictions, k - 1);
      var prev := OnesBefore(predictions, k - 1);
      var idx := OnesBefore(predictions, k);
      assert idx == prev + (if predictions[k - 1] == 1 then [k - 1] else []);
      forall m1, m2 | 0 <= m1 < m2 < |idx| ensures idx[m1] < idx[m2] {
        if m2 < |prev| {
          assert idx[m1] == prev[m1] && idx[m2] == prev[m2];
        } else {
          assert idx[m1] == prev[m1] < k - 1 == idx[m2];
        }
      }
    }
  }

  /** There are as many selected positions as 1s among the first `k` predictions. */
  lemma {:induction false} OnesBeforeCount(predictions: seq<int>, k: nat)
    requires k <= |predictions|
    ensures |OnesBefore(predictions, k)| == multiset(predictions[..k])[1]
  {
    if k > 0 {
      OnesBeforeCount(predictions, k - 1);
      assert predictions[..k] == predictions[..k - 1] + [predictions[k - 1]];
    }
  }

  /**
    The positions whose rounded prediction is 1: each such position exactly
    once, in increasing order, as many as there are 1s.
   */
  function TagIndices(predictions: seq<int>): (idx: seq<nat>)
    ensures forall i :: i in idx <==> 0 <= i < |predictions| && predictions[i] == 1
    ensures Ascending(idx)
    ensures |idx| == multiset(predictions)[1]
  {
    OnesBeforeAscending(predictions, |predictions|);
    OnesBeforeCount(predictions, |predictions|);
    assert predictions[..|predictions|] == predictions;
    OnesBefore(predictions, |predictions|)
  }

  /**
    The comprehension at app.py:79. `None` stands for the KeyError raised when
    a selected index has no label. Otherwise the tags are the labels of exactly
    the positions holding 1, in index order, one tag per such position.
   */
  function SelectTags(predictions: seq<int>, vocab: map<int, string>): (tags: Option<seq<string>>)
    ensures tags.None? <==> exists i :: 0 <= i < |predictions| && predictions[i] == 1 && i !in vocab
    ensures tags.Some? ==> |tags.value| == |TagIndices(predictions)| == multiset(predictions)[1]
    ensures tags.Some? ==>
              forall i :: 0 <= i < |predictions| && predictions[i] == 1 ==> i in vocab && vocab[i] in tags.value
    ensures tags.Some? ==>
              forall m :: 0 <= m < |tags.value| ==>
                var i := TagIndices(predictions)[m];
                i < |predictions| && predictions[i] == 1 && i in vocab && tags.value[m] == vocab[i]
  {
    var idx := TagIndices(predictions);
    if forall m :: 0 <= m < |idx| ==> idx[m] in vocab then
      var tags := seq(|idx|, m requires 0 <= m < |idx| => vocab[idx[m]]);
      LabelsCoverIndices(idx, vocab, tags);
      Some(tags)
    else
      None
  }

  /** Every index of `idx` contributes its label to `tags`. */
  lemma LabelsCoverIndices(idx: seq<nat>, vocab: map<int, string>, tags: seq<string>)
    requires |tags| == |idx|
    requires forall m :: 0 <= m < |idx| ==> idx[m] in vocab && tags[m] == vocab[idx[m]]
    ensures forall i :: i in idx ==> i in vocab && vocab[i] in tags
  {
    forall i | i in idx ensures i in vocab && vocab[i] in tags {
      var m :| 0 <= m < |idx| && idx[m] == i;
      assert tags[m] == vocab[i];
    }
  }

  /** A rounded classifier output with units 2 and 5 set, out of eight. */
  const SamplePredictions: seq<int> := [0, 0, 1, 0, 0, 1, 0, 0]

  /**
    With outputs 2 and 5 set among eight, positions 2 and 5 are selected:
    the only ascending list holding exactly the positions of the two 1s.
   */
  lemma SampleIndices()
    ensures TagIndices(SamplePredictions) == [2, 5]
  {
    var p := SamplePredictions;
    var idx := TagIndices(p);
    assert multiset(p)[1] == 2 by {
      assert p == [0, 0] + [1] + [0, 0] + [1] + [0, 0];
    }
    assert idx[0] in idx && idx[1] in idx;
    assert 2 in idx && 5 in idx;
    assert idx[0] == 2 && idx[1] == 5;
  }

  /** Outputs 2 and 5 set: the tags are the labels of indices 2 and 5, in that order. */
  lemma SelectTagsExample(vocab: map<int, string>)
    requires 2 in vocab && 5 in vocab
    ensures SelectTags(SamplePredictions, vocab) == Some([vocab[2], vocab[5]])
  {
    var p := SamplePredictions;
    SampleIndices();
    var idx := TagIndices(p);
    assert forall m :: 0 <= m < |idx| ==> idx[m] in vocab;
    assert seq(|idx|, m requires 0 <= m < |idx| => vocab[idx[m]]) == [vocab[2], vocab[5]];
  }

  /** The outcome of `generate_tags`: tags, or one of the two exceptions it can raise. */
  datatype Classified =
    | Tagged(tags: seq<string>)
    | ShapeMismatch          // the reshape to 1 x 1024 fails
    | UnknownLabel           // a selected index is missing from the vocabulary

  /**
    app.py:56-81. The embedding must have exactly `InputWidth` entries or the
    reshape fails before the model runs; otherwise the tags are the labels
    of the model's outputs that round to 1, in index order.
   */
  function GenerateTags(embedding: Embedding, infer: Embedding -> seq<int>, vocab: map<int, string>): (c: Classified)
    ensures c.ShapeMismatch? <==> |embedding| != InputWidth
    ensures c.UnknownLabel? <==>
              |embedding| == InputWidth &&
              exists i :: 0 <= i < |infer(embedding)| && infer(embedding)[i] == 1 && i !in vocab
    ensures c.Tagged? ==> |c.tags| == |TagIndices(infer(embedding))| == multiset(infer(embedding))[1]
    ensures c.Tagged? ==>
              forall m :: 0 <= m < |c.tags| ==>
                TagIndices(infer(embedding))[m] in vocab && c.tags[m] == vocab[TagIndices(infer(embedding))[m]]
  {
    if |embedding| != InputWidth then ShapeMismatch
    else
      match SelectTags(infer(embedding), vocab)
      case None => UnknownLabel
      case Some(tags) => Tagged(tags)
  }
}
