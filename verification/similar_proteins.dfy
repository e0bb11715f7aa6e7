/**
  The post-processing half of `get_similar_proteins` in app.py: the loop that
  trims the vector-search candidates to the requested count (optionally keeping
  one record per entry id) and the projection of each kept document onto the
  five fields returned to the client.

  The search itself is a database call; here its ordered answer is simply an
  input sequence.
 */
module SimilarProteins {

  /**
    The fields of a `protein_embeddings` document that the model keeps: the
    five the projection reads and the stored embedding. Other stored fields
    (`_id` among them) are not modelled.
   */
  datatype ProteinRecord = ProteinRecord(
    entryId: string,
    entityId: string,
    name: string,
    functionShortened: string,
    mondoNames: seq<string>,
    funcEmbedding: seq<real>)

  /** The five-field record sent back for each kept document. */
  datatype SimplifiedProtein = SimplifiedProtein(
    entryId: string,
    entityId: string,
    name: string,
    functionShortened: string,
    mondoAnnotations: seq<string>)

  /** Candidate pool and result limit handed to the search are these multiples of N. */
  const NumCandidatesFactor: int := 500
  const LimitFactor: int := 100

  /** The first `n` elements of `s`, or all of `s` when it is shorter. */
  function Take<T>(s: seq<T>, n: nat): (t: seq<T>)
    ensures |t| == if n <= |s| then n else |s|
    ensures t <= s
  {
    if n <= |s| then s[..n] else s
  }

  /** The entry ids carried by the first `k` records of `s`. */
  function IdsBefore(s: seq<ProteinRecord>, k: nat): set<string>
    requires k <= |s|
  {
    set j | 0 <= j < k :: s[j].entryId
  }

  /** The distinct entry ids occurring in `s`. */
  function EntryIds(s: seq<ProteinRecord>): set<string>
  {
    IdsBefore(s, |s|)
  }

  /** `s[i]` is the earliest record of `s` with its entry id. */
  predicate IsFirstOccurrence(s: seq<ProteinRecord>, i: nat)
    requires i < |s|
  {
    forall j :: 0 <= j < i ==> s[j].entryId != s[i].entryId
  }

  /** The keys `id` gives the elements of `s`, in order. */
  function IdSeq<T>(s: seq<T>, id: T -> string): (ids: seq<string>)
    ensures |ids| == |s| && forall i :: 0 <= i < |s| ==> ids[i] == id(s[i])
  {
    seq(|s|, i requires 0 <= i < |s| => id(s[i]))
  }

  /** The key of a document and of a simplified record: its entry id. */
  function RecordId(r: ProteinRecord): string { r.entryId }
  function SimplifiedId(p: SimplifiedProtein): string { p.entryId }

  /** No entry id occurs twice in `ids`. */
  predicate NoRepeatedIds(ids: seq<string>)
  {
    forall i, j :: 0 <= i < j < |ids| ==> ids[i] != ids[j]
  }

  /** No two records of `s` share an entry id. */
  predicate DistinctEntryIds(s: seq<ProteinRecord>)
  {
    NoRepeatedIds(IdSeq(s, RecordId))
  }

  /**
    Reference definition: the records among the first `k` of `s` that are the
    first of their entry id, in their original order.
   */
  function FirstOccurrencesUpTo(s: seq<ProteinRecord>, k: nat): seq<ProteinRecord>
    requires k <= |s|
  {
    if k == 0 then []
    else FirstOccurrencesUpTo(s, k - 1) + (if IsFirstOccurrence(s, k - 1) then [s[k - 1]] else [])
  }

  function FirstOccurrences(s: seq<ProteinRecord>): seq<ProteinRecord>
  {
    FirstOccurrencesUpTo(s, |s|)
  }

  /**
    The filter loop as written, resumed at candidate `i` with the loop's
    `seen_entry_ids` and `results`. The stop test `len(results) == number_value`
    is made only right after an append, so it never fires when `n <= 0`.
   */
  function Scan(candidates: seq<ProteinRecord>, n: int, unique: bool, i: nat,
                seen: set<string>, results: seq<ProteinRecord>): (kept: seq<ProteinRecord>)
    requires i <= |candidates|
    ensures results <= kept
    ensures |kept| <= |results| + (|candidates| - i)
    ensures n >= 1 && |results| < n ==> |kept| <= n
    ensures forall m :: |results| <= m < |kept| ==> kept[m] in candidates[i..]
    decreases |candidates| - i
  {
    if i == |candidates| then results
    else
      var record := candidates[i];
      if unique then
        if record.entryId !in seen then
          var results' := results + [record];
          if |results'| == n then results'
          else Scan(candidates, n, unique, i + 1, seen + {record.entryId}, results')
        else
          Scan(candidates, n, unique, i + 1, seen, results)
      else
        var results' := results + [record];
        if |results'| == n then results'
        else Scan(candidates, n, unique, i + 1, seen, results')
  }

  /** Extending the prefix by one record adds exactly that record's entry id. */
  lemma IdsBeforeStep(s: seq<ProteinRecord>, k: nat)
    requires k < |s|
    ensures IdsBefore(s, k + 1) == IdsBefore(s, k) + {s[k].entryId}
    ensures IsFirstOccurrence(s, k) <==> s[k].entryId !in IdsBefore(s, k)
  {
    if !IsFirstOccurrence(s, k) {
      var j :| 0 <= j < k && s[j].entryId == s[k].entryId;
      assert s[j].entryId in IdsBefore(s, k);
    }
  }

  /** Appending one record adds exactly its entry id. */
  lemma EntryIdsAppend(t: seq<ProteinRecord>, r: ProteinRecord)
    ensures EntryIds(t + [r]) == EntryIds(t) + {r.entryId}
  {
    var u := t + [r];
    forall x | x in EntryIds(u) ensures x in EntryIds(t) + {r.entryId} {
      var j :| 0 <= j < |u| && u[j].entryId == x;
      if j < |t| {
        assert t[j].entryId == x;
      }
    }
    forall x | x in EntryIds(t) ensures x in EntryIds(u) {
      var j :| 0 <= j < |t| && t[j].entryId == x;
      assert u[j].entryId == x;
    }
    assert u[|t|].entryId == r.entryId;
  }

  /** The first occurrences among the first `k` records carry exactly the ids seen so far. */
  lemma {:induction false} FirstOccurrencesUpToIds(s: seq<ProteinRecord>, k: nat)
    requires k <= |s|
    ensures EntryIds(FirstOccurrencesUpTo(s, k)) == IdsBefore(s, k)
  {
    if k > 0 {
      FirstOccurrencesUpToIds(s, k - 1);
      IdsBeforeStep(s, k - 1);
      if IsFirstOccurrence(s, k - 1) {
        EntryIdsAppend(FirstOccurrencesUpTo(s, k - 1), s[k - 1]);
      } else {
        assert FirstOccurrencesUpTo(s, k) == FirstOccurrencesUpTo(s, k - 1);
      }
    }
  }

  /** The reference subsequence never repeats an entry id. */
  lemma {:induction false} FirstOccurrencesUpToDistinct(s: seq<ProteinRecord>, k: nat)
    requires k <= |s|
    ensures DistinctEntryIds(FirstOccurrencesUpTo(s, k))
  {
    if k > 0 {
      FirstOccurrencesUpToDistinct(s, k - 1);
      var prev := FirstOccurrencesUpTo(s, k - 1);
      if IsFirstOccurrence(s, k - 1) {
        FirstOccurrencesUpToIds(s, k - 1);
        IdsBeforeStep(s, k - 1);
        var cur := prev + [s[k - 1]];
        forall i, j | 0 <= i < j < |cur| ensures cur[i].entryId != cur[j].entryId {
          if j == |prev| {
            assert cur[i].entryId in EntryIds(prev);
          }
        }
      } else {
        assert FirstOccurrencesUpTo(s, k) == prev;
      }
    }
  }

  /** The reference subsequence holds one record per distinct entry id. */
  lemma {:induction false} FirstOccurrencesUpToCount(s: seq<ProteinRecord>, k: nat)
    requires k <= |s|
    ensures |FirstOccurrencesUpTo(s, k)| == |IdsBefore(s, k)|
  {
    if k > 0 {
      FirstOccurrencesUpToCount(s, k - 1);
      IdsBeforeStep(s, k - 1);
      if IsFirstOccurrence(s, k - 1) {
        assert |IdsBefore(s, k)| == |IdsBefore(s, k - 1)| + 1;
      } else {
        assert IdsBefore(s, k) == IdsBefore(s, k - 1);
      }
    }
  }

  /** Looking at more records only extends the reference subsequence. */
  lemma {:induction false} FirstOccurrencesUpToPrefix(s: seq<ProteinRecord>, k: nat, m: nat)
    requires k <= m <= |s|
    ensures FirstOccurrencesUpTo(s, k) <= FirstOccurrencesUpTo(s, m)
    decreases m
  {
    if k < m {
      FirstOccurrencesUpToPrefix(s, k, m - 1);
    }
  }

  /**
    With uniqueness on, the loop started in a state that agrees with the
    reference (results are the first occurrences so far, `seen` their ids, and
    the stop test has not fired) ends with the first occurrences of the whole
    pool, cut to `n` when `n` is positive.
   */
  lemma {:induction false} ScanUnique(candidates: seq<ProteinRecord>, n: int, i: nat,
                                      seen: set<string>, results: seq<ProteinRecord>)
    requires i <= |candidates|
    requires results == FirstOccurrencesUpTo(candidates, i)
    requires seen == IdsBefore(candidates, i)
    requires n <= 0 || |results| < n
    ensures Scan(candidates, n, true, i, seen, results)
            == if n <= 0 then FirstOccurrences(candidates) else Take(FirstOccurrences(candidates), n)
    decreases |candidates| - i
  {
    if i == |candidates| {
      assert results == FirstOccurrences(candidates);
    } else {
      var record := candidates[i];
      IdsBeforeStep(candidates, i);
      FirstOccurrencesUpToPrefix(candidates, i + 1, |candidates|);
      if record.entryId !in seen {
        var results' := results + [record];
        assert results' == FirstOccurrencesUpTo(candidates, i + 1);
        if |results'| != n {
          ScanUnique(candidates, n, i + 1, seen + {record.entryId}, results');
        }
      } else {
        assert FirstOccurrencesUpTo(candidates, i + 1) == results;
        ScanUnique(candidates, n, i + 1, seen, results);
      }
    }
  }

  /**
    With uniqueness off, the loop started after the first `i` candidates were
    appended ends with the first `n` candidates, or all of them when `n <= 0`.
   */
  lemma {:induction false} ScanAll(candidates: seq<ProteinRecord>, n: int, i: nat,
                                   seen: set<string>, results: seq<ProteinRecord>)
    requires i <= |candidates|
    requires results == candidates[..i]
    requires n <= 0 || i < n
    ensures Scan(candidates, n, false, i, seen, results)
            == if n <= 0 then candidates else Take(candidates, n)
    decreases |candidates| - i
  {
    if i == |candidates| {
      assert results == candidates;
    } else {
      var results' := results + [candidates[i]];
      assert results' == candidates[..i + 1];
      if |results'| != n {
        ScanAll(candidates, n, i + 1, seen, results');
      }
    }
  }

  /**
    The post-filter of app.py:134-147. With uniqueness on it keeps the first
    record of each entry id, in order, up to `n` of them; with it off it keeps
    the first `n` candidates. A non-positive `n` never stops the loop, so then
    nothing is cut.
   */
  function PostFilter(candidates: seq<ProteinRecord>, n: int, unique: bool): (kept: seq<ProteinRecord>)
    ensures unique && n >= 1 ==> kept == Take(FirstOccurrences(candidates), n)
    ensures unique && n <= 0 ==> kept == FirstOccurrences(candidates)
    ensures !unique && n >= 1 ==> kept == Take(candidates, n)
    ensures !unique && n <= 0 ==> kept == candidates
  {
    ScanUnique(candidates, n, 0, {}, []);
    ScanAll(candidates, n, 0, {}, []);
    Scan(candidates, n, unique, 0, {}, [])
  }

  /**
    For a positive count the filter returns at most `n` records, and exactly
    `n` whenever the pool holds that many qualifying records (distinct entry
    ids with uniqueness on, candidates with it off); otherwise all of them.
   */
  lemma PostFilterLength(candidates: seq<ProteinRecord>, n: int, unique: bool)
    requires n >= 1
    ensures var available := if unique then |EntryIds(candidates)| else |candidates|;
            |PostFilter(candidates, n, unique)| == if available >= n then n else available
    ensures |PostFilter(candidates, n, unique)| <= n
  {
    FirstOccurrencesUpToCount(candidates, |candidates|);
  }

  /** With uniqueness on, no two returned records share an entry id, whatever `n` is. */
  lemma PostFilterDistinct(candidates: seq<ProteinRecord>, n: int)
    ensures DistinctEntryIds(PostFilter(candidates, n, true))
  {
    FirstOccurrencesUpToDistinct(candidates, |candidates|);
  }

  /**
    With uniqueness on and a pool holding no more distinct entry ids than
    requested (or a non-positive `n`), every entry id of the pool is returned,
    each through its first record.
   */
  lemma PostFilterShortPool(candidates: seq<ProteinRecord>, n: int)
    requires n <= 0 || |EntryIds(candidates)| <= n
    ensures PostFilter(candidates, n, true) == FirstOccurrences(candidates)
    ensures EntryIds(PostFilter(candidates, n, true)) == EntryIds(candidates)
  {
    FirstOccurrencesUpToCount(candidates, |candidates|);
    FirstOccurrencesUpToIds(candidates, |candidates|);
  }

  /** `r` is, among the first `k` records of `s`, the first record with its entry id. */
  predicate IsFirstRecordBefore(s: seq<ProteinRecord>, k: nat, r: ProteinRecord)
    requires k <= |s|
  {
    exists i :: 0 <= i < k && IsFirstOccurrence(s, i) && s[i] == r
  }

  /** Looking at one more record keeps every earlier first record a first record. */
  lemma IsFirstRecordBeforeGrows(s: seq<ProteinRecord>, k: nat, r: ProteinRecord)
    requires k < |s|
    requires IsFirstRecordBefore(s, k, r)
    ensures IsFirstRecordBefore(s, k + 1, r)
  {
    var i :| 0 <= i < k && IsFirstOccurrence(s, i) && s[i] == r;
    assert 0 <= i < k + 1;
  }

  /** Record `m` of the reference subsequence is, in the pool, the first record with its entry id. */
  lemma {:induction false} FirstOccurrencesAreFirst(s: seq<ProteinRecord>, k: nat, m: nat)
    requires k <= |s|
    requires m < |FirstOccurrencesUpTo(s, k)|
    ensures IsFirstRecordBefore(s, k, FirstOccurrencesUpTo(s, k)[m])
  {
    var prev := FirstOccurrencesUpTo(s, k - 1);
    var cur := FirstOccurrencesUpTo(s, k);
    assert cur == prev + (if IsFirstOccurrence(s, k - 1) then [s[k - 1]] else []);
    if m < |prev| {
      FirstOccurrencesAreFirst(s, k - 1, m);
      assert cur[m] == prev[m];
      IsFirstRecordBeforeGrows(s, k - 1, prev[m]);
    } else {
      assert IsFirstOccurrence(s, k - 1) && cur[m] == s[k - 1];
    }
  }

  /** Turns one kept record into the record sent back; of the six modelled fields only the embedding is dropped. */
  function Simplify(r: ProteinRecord): (p: SimplifiedProtein)
    ensures Restore(p, r.funcEmbedding) == r
  {
    SimplifiedProtein(r.entryId, r.entityId, r.name, r.functionShortened, r.mondoNames)
  }

  /** Re-attaches an embedding to a simplified record. */
  function Restore(p: SimplifiedProtein, embedding: seq<real>): ProteinRecord
  {
    ProteinRecord(p.entryId, p.entityId, p.name, p.functionShortened, p.mondoAnnotations, embedding)
  }

  /**
    The projection of app.py:150-156: one output per kept record, in order,
    each built from that record alone.
   */
  function Project(results: seq<ProteinRecord>): (out: seq<SimplifiedProtein>)
    ensures |out| == |results|
    ensures forall k :: 0 <= k < |results| ==>
              && out[k].entryId == results[k].entryId
              && out[k].entityId == results[k].entityId
              && out[k].name == results[k].name
              && out[k].functionShortened == results[k].functionShortened
              && out[k].mondoAnnotations == results[k].mondoNames
    ensures IdSeq(out, SimplifiedId) == IdSeq(results, RecordId)
  {
    seq(|results|, k requires 0 <= k < |results| => Simplify(results[k]))
  }

  /**
    The whole of `get_similar_proteins` once the search's answer is given by
    `search`: the pool is searched with 500 N candidates and a limit of
    100 N, and the reply is the projection of what the post-filter keeps of
    it. Hence for a positive count at most `n` records come back, and with
    uniqueness on no entry id is repeated.
   */
  function GetSimilarProteins(embedding: seq<real>, n: int, unique: bool,
                              search: (seq<real>, int, int) -> seq<ProteinRecord>): (out: seq<SimplifiedProtein>)
    ensures var pool := search(embedding, n * NumCandidatesFactor, n * LimitFactor);
            && (unique && n >= 1 ==> out == Project(Take(FirstOccurrences(pool), n)))
            && (unique && n <= 0 ==> out == Project(FirstOccurrences(pool)))
            && (!unique && n >= 1 ==> out == Project(Take(pool, n)))
            && (!unique && n <= 0 ==> out == Project(pool))
    ensures n >= 1 ==> |out| <= n
    ensures unique ==> NoRepeatedIds(IdSeq(out, SimplifiedId))
  {
    var pool := search(embedding, n * NumCandidatesFactor, n * LimitFactor);
    var kept := PostFilter(pool, n, unique);
    PostFilterDistinct(pool, n);
    assert n >= 1 ==> |kept| <= n by {
      if n >= 1 {
        PostFilterLength(pool, n, unique);
      }
    }
    Project(kept)
  }
}
