/** The exact second stage of services/reranker.py: score each candidate by
    cosine similarity with the query, stable-sort by descending score, keep the
    first `top_k`, and fall back to the candidates' own first `top_k` when
    embedding raises. Embeddings and `math.sqrt` are abstract. */
module Reranker {
  import opened Errors

  type Vector = seq<real>

  /** `math.sqrt` on non-negative reals, known only to vanish exactly at zero. */
  type SquareRoot = f: real -> real | forall x :: 0.0 <= x ==> (f(x) == 0.0 <==> x == 0.0)
    witness (x: real) => x

  /** The embedding provider: `embed_query` and `embed_documents`, `None`
      standing for a call that raises. */
  datatype Embeddings = Embeddings(
    embedQuery: string -> Option<Vector>,
    embedDocuments: seq<string> -> Option<seq<Vector>>)

  /** `sum(x*y for x,y in zip(a,b))`: `zip` stops at the shorter vector. */
  function Dot(a: Vector, b: Vector): real
  {
    if a == [] || b == [] then 0.0 else a[0] * b[0] + Dot(a[1..], b[1..])
  }

  /** `sum(x*x for x in a)` */
  function SumSquares(a: Vector): (r: real)
    ensures r >= 0.0
  {
    if a == [] then 0.0 else a[0] * a[0] + SumSquares(a[1..])
  }

  /** `_cosine_sim(a, b)`: exactly 0.0 when either norm is zero, otherwise
      the dot product over the product of the norms. */
  function CosineSim(a: Vector, b: Vector, sqrt: SquareRoot): (r: real)
    ensures SumSquares(a) == 0.0 || SumSquares(b) == 0.0 ==> r == 0.0
  {
    var normA := sqrt(SumSquares(a));
    var normB := sqrt(SumSquares(b));
    if normA == 0.0 || normB == 0.0 then 0.0 else Dot(a, b) / (normA * normB)
  }

  lemma {:induction false} DotSymmetric(a: Vector, b: Vector)
    ensures Dot(a, b) == Dot(b, a)
  {
    if a != [] && b != [] {
      DotSymmetric(a[1..], b[1..]);
    }
  }

  lemma {:induction false} ZeroVectorHasNoNorm(a: Vector)
    requires forall i :: 0 <= i < |a| ==> a[i] == 0.0
    ensures SumSquares(a) == 0.0
  {
    if a != [] {
      ZeroVectorHasNoNorm(a[1..]);
    }
  }

  /** Cosine similarity is symmetric, and any vector against an all-zero
      vector scores exactly 0.0. */
  lemma CosineProperties(a: Vector, b: Vector, sqrt: SquareRoot)
    ensures CosineSim(a, b, sqrt) == CosineSim(b, a, sqrt)
    ensures (forall i :: 0 <= i < |b| ==> b[i] == 0.0) ==> CosineSim(a, b, sqrt) == 0.0
  {
    DotSymmetric(a, b);
    var na, nb := sqrt(SumSquares(a)), sqrt(SumSquares(b));
    assert na * nb == nb * na;
    if forall i :: 0 <= i < |b| ==> b[i] == 0.0 {
      ZeroVectorHasNoNorm(b);
    }
  }

  /** A `(score, doc)` pair of the `scored` list. */
  datatype Scored<T> = Scored(score: real, doc: T)

  /** The `scored` list: candidate `i` with the score of its own vector,
      as long as both lists last. */
  function ScoreAll<T>(queryVec: Vector, candidates: seq<T>, docVecs: seq<Vector>, sqrt: SquareRoot): (s: seq<Scored<T>>)
    ensures |s| == Min(|candidates|, |docVecs|)
    ensures forall i :: 0 <= i < |s| ==> s[i] == Scored(CosineSim(queryVec, docVecs[i], sqrt), candidates[i])
  {
    if candidates == [] || docVecs == [] then []
    else [Scored(CosineSim(queryVec, docVecs[0], sqrt), candidates[0])]
         + ScoreAll(queryVec, candidates[1..], docVecs[1..], sqrt)
  }

  /** `[doc for _, doc in scored]` */
  function Docs<T>(s: seq<Scored<T>>): (ds: seq<T>)
    ensures |ds| == |s|
    ensures forall i :: 0 <= i < |s| ==> ds[i] == s[i].doc
  {
    if s == [] then [] else [s[0].doc] + Docs(s[1..])
  }

  /** Scores never increase along `s`. */
  ghost predicate SortedDesc<T>(s: seq<Scored<T>>)
  {
    forall i, j :: 0 <= i < j < |s| ==> s[i].score >= s[j].score
  }

  /** The entries of `s` with score `k`, in their order in `s`. */
  function WithScore<T>(s: seq<Scored<T>>, k: real): seq<Scored<T>>
  {
    if s == [] then []
    else (if s[0].score == k then [s[0]] else []) + WithScore(s[1..], k)
  }

  /** Place `x` before the first entry it does not score below, so that it
      stays ahead of the equal-scored entries that followed it. */
  function Insert<T>(x: Scored<T>, s: seq<Scored<T>>): seq<Scored<T>>
  {
    if s == [] || x.score >= s[0].score then [x] + s
    else [s[0]] + Insert(x, s[1..])
  }

  /** `scored.sort(key=lambda x: x[0], reverse=True)`: Python's sort is
      stable also with `reverse=True`. */
  function SortDesc<T>(s: seq<Scored<T>>): seq<Scored<T>>
  {
    if s == [] then [] else Insert(s[0], SortDesc(s[1..]))
  }

  lemma {:induction false} InsertPermutes<T>(x: Scored<T>, s: seq<Scored<T>>)
    ensures multiset(Insert(x, s)) == multiset([x] + s)
  {
    if s != [] && x.score < s[0].score {
      InsertPermutes(x, s[1..]);
      assert s == [s[0]] + s[1..];
    }
  }

  /** An entry scoring at least the head of a descending list can go in front. */
  lemma SortedCons<T>(h: Scored<T>, r: seq<Scored<T>>)
    requires SortedDesc(r) && (r == [] || h.score >= r[0].score)
    ensures SortedDesc([h] + r)
  {
    var c := [h] + r;
    forall i, j | 0 <= i < j < |c| ensures c[i].score >= c[j].score {
      if i == 0 {
        assert c[j] == r[j - 1];
        assert r[0].score >= r[j - 1].score;
      } else {
        assert c[i] == r[i - 1] && c[j] == r[j - 1];
      }
    }
  }

  lemma {:induction false} InsertSorted<T>(x: Scored<T>, s: seq<Scored<T>>)
    requires SortedDesc(s)
    ensures SortedDesc(Insert(x, s))
    ensures Insert(x, s) != [] && (Insert(x, s)[0] == x || (s != [] && Insert(x, s)[0] == s[0]))
  {
    if s == [] || x.score >= s[0].score {
      SortedCons(x, s);
    } else {
      var tail := s[1..];
      assert SortedDesc(tail);
      InsertSorted(x, tail);
      var r := Insert(x, tail);
      assert tail != [] ==> s[0].score >= tail[0].score;
      SortedCons(s[0], r);
    }
  }

  /** A one-entry list keeps its entry exactly when it has score `k`. */
  lemma WithScoreSingleton<T>(e: Scored<T>, k: real)
    ensures WithScore([e], k) == if e.score == k then [e] else []
  {
    assert [e][1..] == [];
  }

  lemma {:induction false} WithScoreAppend<T>(a: seq<Scored<T>>, b: seq<Scored<T>>, k: real)
    ensures WithScore(a + b, k) == WithScore(a, k) + WithScore(b, k)
  {
    if a == [] {
      assert a + b == b;
    } else {
      var c := a + b;
      assert c != [] && c[0] == a[0];
      assert c[1..] == a[1..] + b;
      var first := if a[0].score == k then [a[0]] else [];
      WithScoreAppend(a[1..], b, k);
      calc {
        WithScore(c, k);
        first + WithScore(a[1..] + b, k);
        first + (WithScore(a[1..], k) + WithScore(b, k));
        (first + WithScore(a[1..], k)) + WithScore(b, k);
        WithScore(a, k) + WithScore(b, k);
      }
    }
  }

  /** Two lists of which one is empty commute in front of a third. */
  lemma SwapAroundEmpty<E>(one: seq<E>, other: seq<E>, rest: seq<E>)
    requires one == [] || other == []
    ensures one + (other + rest) == other + (one + rest)
  {
    if one == [] {
      assert one + (other + rest) == other + rest;
      assert one + rest == rest;
    } else {
      assert other + (one + rest) == one + rest;
      assert other + rest == rest;
    }
  }

  /** Insertion moves `x` only past entries of higher score, so among the
      entries of any one score it keeps `x` where it was: first. */
  lemma {:induction false} InsertStable<T>(x: Scored<T>, s: seq<Scored<T>>, k: real)
    ensures WithScore(Insert(x, s), k) == WithScore([x] + s, k)
  {
    if s != [] && x.score < s[0].score {
      var head, tail := s[0], s[1..];
      var one, other := WithScore([head], k), WithScore([x], k);
      WithScoreSingleton(head, k);
      WithScoreSingleton(x, k);
      InsertStable(x, tail, k);
      calc {
        WithScore(Insert(x, s), k);
        { WithScoreAppend([head], Insert(x, tail), k); }
        one + WithScore(Insert(x, tail), k);
        one + WithScore([x] + tail, k);
        { WithScoreAppend([x], tail, k); }
        one + (other + WithScore(tail, k));
        { SwapAroundEmpty(one, other, WithScore(tail, k)); }
        other + (one + WithScore(tail, k));
        { WithScoreAppend([head], tail, k); assert [head] + tail == s; }
        other + WithScore(s, k);
        { WithScoreAppend([x], s, k); }
        WithScore([x] + s, k);
      }
    }
  }

  /** The stable descending sort is a sorted permutation whose entries of each
      score keep their original relative order. */
  lemma {:induction false} SortDescCorrect<T>(s: seq<Scored<T>>)
    ensures multiset(SortDesc(s)) == multiset(s) && |SortDesc(s)| == |s|
    ensures SortedDesc(SortDesc(s))
    ensures forall k :: WithScore(SortDesc(s), k) == WithScore(s, k)
  {
    if s != [] {
      SortDescCorrect(s[1..]);
      var r := SortDesc(s[1..]);
      InsertPermutes(s[0], r);
      InsertSorted(s[0], r);
      assert s == [s[0]] + s[1..];
      calc {
        multiset(SortDesc(s));
        multiset([s[0]] + r);
        multiset([s[0]]) + multiset(r);
        multiset([s[0]]) + multiset(s[1..]);
        multiset(s);
      }
      forall k ensures WithScore(SortDesc(s), k) == WithScore(s, k) {
        InsertStable(s[0], r, k);
        WithScoreAppend([s[0]], r, k);
        WithScoreAppend([s[0]], s[1..], k);
      }
    }
  }

  /** Sorting a list that is already in descending order changes nothing. */
  lemma {:induction false} SortDescOfSorted<T>(s: seq<Scored<T>>)
    requires SortedDesc(s)
    ensures SortDesc(s) == s
  {
    if s != [] {
      SortDescOfSorted(s[1..]);
      assert s == [s[0]] + s[1..];
    }
  }

  /** What `rerank_documents(query, candidates, embeddings, top_k)` returns. */
  function Rerank<T>(query: string, candidates: seq<T>, textOf: T -> string, emb: Embeddings,
                     topK: nat, sqrt: SquareRoot): seq<T>
  {
    if candidates == [] then []
    else
      var texts := seq(|candidates|, i requires 0 <= i < |candidates| => textOf(candidates[i]));
      match (emb.embedQuery(query), emb.embedDocuments(texts))
      case (Some(queryVec), Some(docVecs)) =>
        Docs(Take(SortDesc(ScoreAll(queryVec, candidates, docVecs, sqrt)), topK))
      case _ =>
        Take(candidates, topK)
  }

  lemma {:induction false} DocsAppend<T>(a: seq<Scored<T>>, b: seq<Scored<T>>)
    ensures Docs(a + b) == Docs(a) + Docs(b)
  {
    if a == [] {
      assert a + b == b;
    } else {
      assert (a + b)[1..] == a[1..] + b;
      DocsAppend(a[1..], b);
    }
  }

  /** Taking entry `j` out of a list takes one copy of it out of the multiset. */
  lemma MultisetRemove<E>(b: seq<E>, j: nat)
    requires j < |b|
    ensures multiset(b) == multiset{b[j]} + multiset(b[..j] + b[j + 1..])
  {
    assert b == b[..j] + [b[j]] + b[j + 1..];
  }

  /** One copy of `x` can be cancelled from both sides. */
  lemma MultisetCancel<E>(x: E, m: multiset<E>, n: multiset<E>)
    requires multiset{x} + m == multiset{x} + n
    ensures m == n
  {
    assert m == (multiset{x} + m) - multiset{x};
    assert n == (multiset{x} + n) - multiset{x};
  }

  /** Matching the head of `a` with entry `j` of its permutation `b` leaves
      permutations of each other. */
  lemma PermutationRemove<E>(a: seq<E>, b: seq<E>, j: nat)
    requires multiset(a) == multiset(b) && a != [] && j < |b| && b[j] == a[0]
    ensures multiset(a[1..]) == multiset(b[..j] + b[j + 1..])
  {
    MultisetRemove(b, j);
    assert a == [a[0]] + a[1..];
    MultisetCancel(a[0], multiset(a[1..]), multiset(b[..j] + b[j + 1..]));
  }

  /** The documents of a list with entry `j` taken out are its documents
      with entry `j` taken out. */
  lemma DocsRemove<T>(b: seq<Scored<T>>, j: nat)
    requires j < |b|
    ensures Docs(b[..j] + b[j + 1..]) == Docs(b)[..j] + Docs(b)[j + 1..]
  {
    var rest, d := b[..j] + b[j + 1..], Docs(b);
    forall i | 0 <= i < |rest| ensures Docs(rest)[i] == (d[..j] + d[j + 1..])[i] {
      if i < j {
        assert rest[i] == b[i];
      } else {
        assert rest[i] == b[i + 1];
      }
    }
  }

  /** The multiset of documents loses exactly entry `j`'s document. */
  lemma DocsMultisetRemove<T>(b: seq<Scored<T>>, j: nat)
    requires j < |b|
    ensures multiset(Docs(b)) == multiset{b[j].doc} + multiset(Docs(b[..j] + b[j + 1..]))
  {
    DocsRemove(b, j);
    MultisetRemove(Docs(b), j);
  }

  /** Reordering scored entries reorders their documents the same way. */
  lemma {:induction false} DocsOfPermutation<T>(a: seq<Scored<T>>, b: seq<Scored<T>>)
    requires multiset(a) == multiset(b)
    ensures multiset(Docs(a)) == multiset(Docs(b))
    decreases |a|
  {
    if a == [] {
      assert |b| == |multiset(b)| == 0;
    } else {
      assert a[0] in multiset(b);
      var j :| 0 <= j < |b| && b[j] == a[0];
      PermutationRemove(a, b, j);
      DocsOfPermutation(a[1..], b[..j] + b[j + 1..]);
      DocsMultisetRemove(a, 0);
      assert a[..0] + a[1..] == a[1..];
      DocsMultisetRemove(b, j);
    }
  }

  lemma MultisetOfPrefix<T>(s: seq<T>, n: nat)
    requires n <= |s|
    ensures multiset(s[..n]) <= multiset(s)
  {
    assert s == s[..n] + s[n..];
  }

  /** The scored pairs that survive the sort and the `[:top_k]` slice. */
  function Ranked<T>(queryVec: Vector, candidates: seq<T>, docVecs: seq<Vector>, topK: nat, sqrt: SquareRoot): seq<Scored<T>>
  {
    Take(SortDesc(ScoreAll(queryVec, candidates, docVecs, sqrt)), topK)
  }

  /** The first `n` entries of a descending list score at least every entry
      left out. */
  lemma SortedPrefixIsTop<T>(sorted: seq<Scored<T>>, n: nat)
    requires SortedDesc(sorted) && n <= |sorted|
    ensures forall e :: e in multiset(sorted) - multiset(sorted[..n]) ==>
              forall i :: 0 <= i < n ==> sorted[i].score >= e.score
  {
    var kept, dropped := sorted[..n], sorted[n..];
    assert sorted == kept + dropped;
    assert multiset(sorted) == multiset(kept) + multiset(dropped);
    forall e | e in multiset(sorted) - multiset(kept)
      ensures forall i :: 0 <= i < n ==> sorted[i].score >= e.score
    {
      assert e in multiset(dropped);
      var m :| 0 <= m < |dropped| && dropped[m] == e;
      assert sorted[n + m] == e;
    }
  }

  /** For every score, the entries of that score in a prefix are a prefix of
      the entries of that score in the whole list. */
  lemma PrefixWithScore<T>(s: seq<Scored<T>>, n: nat)
    requires n <= |s|
    ensures forall k :: WithScore(s[..n], k) <= WithScore(s, k)
  {
    assert s == s[..n] + s[n..];
    forall k ensures WithScore(s[..n], k) <= WithScore(s, k) {
      WithScoreAppend(s[..n], s[n..], k);
    }
  }

  /** On success the result is the documents of `Ranked`: `min(top_k, n)`
      entries of the `n` scored candidates, in non-increasing score order,
      each scoring at least every scored entry left out, and for every score
      the entries kept are the first ones of that score in candidate order
      (the stable sort's tie rule). */
  lemma {:induction false} RankedOrder<T>(queryVec: Vector, candidates: seq<T>, docVecs: seq<Vector>, topK: nat, sqrt: SquareRoot)
    ensures var ranked := Ranked(queryVec, candidates, docVecs, topK, sqrt);
            var scored := ScoreAll(queryVec, candidates, docVecs, sqrt);
            && |ranked| == Min(topK, |scored|)
            && SortedDesc(ranked)
            && multiset(ranked) <= multiset(scored)
            && (forall e :: e in multiset(scored) - multiset(ranked) ==>
                  forall i :: 0 <= i < |ranked| ==> ranked[i].score >= e.score)
            && forall k :: WithScore(ranked, k) <= WithScore(scored, k)
  {
    var scored := ScoreAll(queryVec, candidates, docVecs, sqrt);
    var sorted := SortDesc(scored);
    var ranked := Ranked(queryVec, candidates, docVecs, topK, sqrt);
    SortDescCorrect(scored);
    assert ranked == sorted[..|ranked|];
    MultisetOfPrefix(sorted, |ranked|);
    SortedPrefixIsTop(sorted, |ranked|);
    PrefixWithScore(sorted, |ranked|);
  }

  /** Whatever path it takes, the reranker returns at most `top_k` entries,
      no more than it was given, all drawn from the candidates (as a
      sub-multiset, so nothing is introduced or duplicated); no candidates
      give no result, whatever the embeddings would do. */
  lemma {:induction false} RerankBounds<T>(query: string, candidates: seq<T>, textOf: T -> string, emb: Embeddings,
                                           topK: nat, sqrt: SquareRoot)
    ensures var r := Rerank(query, candidates, textOf, emb, topK, sqrt);
            && |r| <= topK && |r| <= |candidates|
            && multiset(r) <= multiset(candidates)
            && (candidates == [] ==> r == [])
  {
    var r := Rerank(query, candidates, textOf, emb, topK, sqrt);
    if candidates != [] {
      var texts := seq(|candidates|, i requires 0 <= i < |candidates| => textOf(candidates[i]));
      match (emb.embedQuery(query), emb.embedDocuments(texts))
      case (Some(queryVec), Some(docVecs)) =>
        RankedDocsAreCandidates(queryVec, candidates, docVecs, topK, sqrt);
      case _ =>
        MultisetOfPrefix(candidates, |r|);
    }
  }

  lemma {:induction false} RankedDocsAreCandidates<T>(queryVec: Vector, candidates: seq<T>, docVecs: seq<Vector>,
                                                      topK: nat, sqrt: SquareRoot)
    ensures var r := Docs(Ranked(queryVec, candidates, docVecs, topK, sqrt));
            |r| <= topK && |r| <= |candidates| && multiset(r) <= multiset(candidates)
  {
    var scored := ScoreAll(queryVec, candidates, docVecs, sqrt);
    var sorted := SortDesc(scored);
    var ranked := Take(sorted, topK);
    SortDescCorrect(scored);
    DocsOfPermutation(sorted, scored);
    assert Docs(scored) == candidates[..|scored|];
    MultisetOfPrefix(candidates, |scored|);
    assert sorted == ranked + sorted[|ranked|..];
    DocsAppend(ranked, sorted[|ranked|..]);
    assert multiset(Docs(sorted)) == multiset(Docs(ranked)) + multiset(Docs(sorted[|ranked|..]));
  }

  /** If embedding the query or the documents raises, the result is exactly
      `candidates[:top_k]`. */
  lemma RerankFallback<T>(query: string, candidates: seq<T>, textOf: T -> string, emb: Embeddings,
                          topK: nat, sqrt: SquareRoot)
    requires emb.embedQuery(query).None?
          || emb.embedDocuments(seq(|candidates|, i requires 0 <= i < |candidates| => textOf(candidates[i]))).None?
    ensures Rerank(query, candidates, textOf, emb, topK, sqrt) == Take(candidates, topK)
  {
  }

  /** Candidates that already score in non-increasing order, one vector each,
      come back as their own first `top_k`: reranking then agrees with the
      fallback. */
  lemma {:induction false} RerankOfSortedIsPrefix<T>(query: string, candidates: seq<T>, textOf: T -> string,
                                                     emb: Embeddings, topK: nat, sqrt: SquareRoot)
    requires var texts := seq(|candidates|, i requires 0 <= i < |candidates| => textOf(candidates[i]));
             && emb.embedQuery(query).Some? && emb.embedDocuments(texts).Some?
             && |emb.embedDocuments(texts).value| >= |candidates|
             && SortedDesc(ScoreAll(emb.embedQuery(query).value, candidates, emb.embedDocuments(texts).value, sqrt))
    ensures Rerank(query, candidates, textOf, emb, topK, sqrt) == Take(candidates, topK)
  {
    if candidates != [] {
      var texts := seq(|candidates|, i requires 0 <= i < |candidates| => textOf(candidates[i]));
      var scored := ScoreAll(emb.embedQuery(query).value, candidates, emb.embedDocuments(texts).value, sqrt);
      SortDescOfSorted(scored);
      assert Docs(scored) == candidates;
      var n := |Take(scored, topK)|;
      assert Docs(Take(scored, topK)) == candidates[..n];
    }
  }

  /** `rerank_documents`: the scoring loop of lines 27-30, then the sort and the slice. */
  method RerankDocuments<T>(query: string, candidates: seq<T>, textOf: T -> string, emb: Embeddings,
                            topK: nat, sqrt: SquareRoot) returns (topDocs: seq<T>)
    ensures topDocs == Rerank(query, candidates, textOf, emb, topK, sqrt)
  {
    if candidates == [] {
      return [];
    }
    var queryVec := emb.embedQuery(query);
    if queryVec.None? {
      return Take(candidates, topK);
    }
    var texts := seq(|candidates|, i requires 0 <= i < |candidates| => textOf(candidates[i]));
    var docVecs := emb.embedDocuments(texts);
    if docVecs.None? {
      return Take(candidates, topK);
    }
    var vecs := docVecs.value;
    var scored: seq<Scored<T>> := [];
    var i := 0;
    while i < |candidates| && i < |vecs|
      invariant 0 <= i <= |candidates| && i <= |vecs|
      invariant scored == ScoreAll(queryVec.value, candidates[..i], vecs[..i], sqrt)
    {
      scored := scored + [Scored(CosineSim(queryVec.value, vecs[i], sqrt), candidates[i])];
      i := i + 1;
    }
    assert scored == ScoreAll(queryVec.value, candidates, vecs, sqrt);
    scored := SortDesc(scored);
    topDocs := Docs(Take(scored, topK));
  }
}
