/**
  The `deleteCollection` callable: query at most 500 documents of the
  collection, delete them in one batch, and repeat after the commit until a
  query comes back empty, then resolve `true`. Its `reject` is never called,
  so a query or commit that rejects leaves the promise unsettled.
 */
module DeleteCollection {
  import opened Wrappers

  /** The query limit, and so the largest batch. */
  const BatchLimit: nat := 500

  /** The state of the returned promise. */
  datatype Settlement = Resolved(value: bool) | Unsettled

  /** Collection path to the ids of its documents, in query order. */
  type Collections = map<string, seq<string>>

  function CeilDiv(n: nat, d: nat): (q: nat)
    requires d > 0
    ensures q * d >= n && (q == 0 || (q - 1) * d < n)
  {
    (n + d - 1) / d
  }

  function Min(a: int, b: int): int { if a <= b then a else b }

  /** The documents of several batches, one after the other. */
  function Flatten(batches: seq<seq<string>>): seq<string> {
    if |batches| == 0 then [] else Flatten(batches[..|batches| - 1]) + batches[|batches| - 1]
  }

  /** The documents of the collection at `path`; a missing collection has none. */
  function DocsOf(store: Collections, path: string): seq<string> {
    if path in store then store[path] else []
  }

  /** What the query `collection(path).limit(500)` returns. */
  function Query(docs: seq<string>): (batch: seq<string>)
    ensures |batch| == Min(|docs|, BatchLimit)
    ensures batch == docs[..|batch|]
  {
    if |docs| <= BatchLimit then docs else docs[..BatchLimit]
  }

  /**
    Runs the deletion rounds against `store`. `failingRound` is the round
    (counted from 0) whose query or commit rejects, if any. Returns the
    promise's state, the store afterwards and the committed batches in order.
   */
  method DeleteCollection(store: Collections, path: string, failingRound: Option<nat>)
    returns (settled: Settlement, final: Collections, commits: seq<seq<string>>)
    ensures settled != Resolved(false)
    ensures settled == Resolved(true) <==>
      failingRound.None? || failingRound.value > CeilDiv(|DocsOf(store, path)|, BatchLimit)
    ensures settled.Resolved? ==> |commits| == CeilDiv(|DocsOf(store, path)|, BatchLimit)
    ensures settled.Resolved? ==> Flatten(commits) == DocsOf(store, path) && DocsOf(final, path) == []
    ensures settled.Unsettled? ==> |commits| == failingRound.value
    ensures forall i :: 0 <= i < |commits| ==> 1 <= |commits[i]| <= BatchLimit
    ensures Flatten(commits) + DocsOf(final, path) == DocsOf(store, path)
    ensures forall p :: p != path ==> (p in final <==> p in store) && (p in store ==> final[p] == store[p])
  {
    var docs := DocsOf(store, path);
    var n := |docs|;
    var remaining := docs;
    var deleted := 0;
    var round := 0;
    commits := [];
    while |remaining| > 0 && failingRound != Some(round)
      invariant 0 <= deleted <= n && remaining == docs[deleted..]
      invariant Flatten(commits) == docs[..deleted]
      invariant |commits| == round
      invariant deleted == Min(n, BatchLimit * round)
      invariant round <= CeilDiv(n, BatchLimit)
      invariant failingRound.Some? ==> round <= failingRound.value
      invariant forall i :: 0 <= i < |commits| ==> 1 <= |commits[i]| <= BatchLimit
      decreases |remaining|
    {
      var batch := Query(remaining);
      FlattenAppend(commits, batch);
      RoundStep(n, round);
      assert docs[..deleted] + batch == docs[..deleted + |batch|];
      commits := commits + [batch];
      deleted := deleted + |batch|;
      remaining := remaining[|batch|..];
      round := round + 1;
    }
    if |remaining| == 0 && failingRound != Some(round) {
      settled := Resolved(true);
      LastRound(n, round);
    } else {
      settled := Unsettled;
    }
    final := if path in store then store[path := remaining] else store;
  }

  /** Committing one more batch appends its documents. */
  lemma FlattenAppend(batches: seq<seq<string>>, batch: seq<string>)
    ensures Flatten(batches + [batch]) == Flatten(batches) + batch
  {
    assert (batches + [batch])[..|batches|] == batches;
  }

  /** A round that still finds documents is not the last of the ceil(n/500) rounds, and deletes up to the next bound. */
  lemma RoundStep(n: nat, round: nat)
    requires BatchLimit * round < n
    ensures round + 1 <= CeilDiv(n, BatchLimit)
    ensures Min(n, BatchLimit * round) + Min(n - BatchLimit * round, BatchLimit) == Min(n, BatchLimit * (round + 1))
  {
  }

  /** When the rounds so far cover every document and did not overshoot, there were exactly ceil(n/500). */
  lemma LastRound(n: nat, round: nat)
    requires round <= CeilDiv(n, BatchLimit) && Min(n, BatchLimit * round) == n
    ensures round == CeilDiv(n, BatchLimit)
  {
  }
}
