/**
 * Retrieval metrics of evaluation.py: precision@k, recall@k and hit@k over
 * lists of product URLs. Ratios are exact reals.
 */
module Evaluation {
  import opened Ratios

  /** Python's slice `s[:k]` for any integer `k`; a negative `k` drops that many items from the end. */
  function Head<T>(s: seq<T>, k: int): (r: seq<T>)
    ensures |r| <= |s| && r == s[..|r|]
    ensures 0 <= k ==> |r| == if k < |s| then k else |s|
    ensures k < 0 ==> |r| == if -k < |s| then |s| + k else 0
  {
    if 0 <= k then (if k < |s| then s[..k] else s)
    else if -k < |s| then s[..|s| + k] else []
  }

  /** `set(urls)`: the URLs of a list, without order or repeats. */
  function Elements(urls: seq<string>): set<string> {
    set u | u in urls
  }

  /** `sum(1 for url in urls if url in relevant_set)`: a repeated URL counts each time. */
  function HitCount(urls: seq<string>, relevantSet: set<string>): (n: nat)
    ensures n <= |urls|
  {
    if urls == [] then 0
    else (if urls[0] in relevantSet then 1 else 0) + HitCount(urls[1..], relevantSet)
  }

  /** The `hits` shared by precision@k and recall@k. */
  function Hits(retrieved: seq<string>, relevant: seq<string>, k: int): nat {
    HitCount(Head(retrieved, k), Elements(relevant))
  }

  /** `precision_at_k`: hits over `k`, or 0 when `k` is 0. */
  function PrecisionAtK(retrieved: seq<string>, relevant: seq<string>, k: int): (p: real)
    ensures k == 0 ==> p == 0.0
    ensures 0 < k ==> 0.0 <= p <= 1.0
  {
    var hits := Hits(retrieved, relevant, k);
    if 0 < k then ShareInUnit(hits as real, k as real); hits as real / k as real
    else if k != 0 then hits as real / k as real
    else 0.0
  }

  /** `recall_at_k`: hits over the number of distinct relevant URLs, or 0 when there are none. */
  function RecallAtK(retrieved: seq<string>, relevant: seq<string>, k: int): (r: real)
    ensures relevant == [] ==> r == 0.0
    ensures 0.0 <= r
  {
    var relevantSet := Elements(relevant);
    if |relevantSet| != 0 then Hits(retrieved, relevant, k) as real / |relevantSet| as real else 0.0
  }

  /** `hit_at_k`: some URL among the first `k` is relevant. */
  predicate HitAtK(retrieved: seq<string>, relevant: seq<string>, k: int)
    ensures HitAtK(retrieved, relevant, k) ==> relevant != [] && Head(retrieved, k) != []
  {
    var top := Head(retrieved, k);
    exists i | 0 <= i < |top| :: top[i] in relevant
  }

  /** The count is positive exactly when some URL is in the relevant set. */
  lemma {:induction false} HitCountPositive(urls: seq<string>, relevantSet: set<string>)
    ensures HitCount(urls, relevantSet) > 0 <==> exists i | 0 <= i < |urls| :: urls[i] in relevantSet
  {
    if urls != [] {
      HitCountPositive(urls[1..], relevantSet);
      if urls[0] !in relevantSet {
        if exists i | 0 <= i < |urls| :: urls[i] in relevantSet {
          var i :| 0 <= i < |urls| && urls[i] in relevantSet;
          assert urls[1..][i - 1] == urls[i];
        }
      }
    }
  }

  /** hit@k holds exactly when the hit count used by precision and recall is positive. */
  lemma HitIffHits(retrieved: seq<string>, relevant: seq<string>, k: int)
    ensures HitAtK(retrieved, relevant, k) <==> Hits(retrieved, relevant, k) > 0
  {
    HitCountPositive(Head(retrieved, k), Elements(relevant));
  }

  /** The hit count never exceeds `k` nor the number of retrieved URLs. */
  lemma HitsBound(retrieved: seq<string>, relevant: seq<string>, k: nat)
    ensures Hits(retrieved, relevant, k) <= k
    ensures Hits(retrieved, relevant, k) <= |retrieved|
  {
  }

  /** Only the first `k` URLs matter: anything retrieved after them changes no metric. */
  lemma OnlyTopKCounts(retrieved: seq<string>, more: seq<string>, relevant: seq<string>, k: nat)
    requires k <= |retrieved|
    ensures PrecisionAtK(retrieved + more, relevant, k) == PrecisionAtK(retrieved, relevant, k)
    ensures RecallAtK(retrieved + more, relevant, k) == RecallAtK(retrieved, relevant, k)
    ensures HitAtK(retrieved + more, relevant, k) == HitAtK(retrieved, relevant, k)
  {
    assert Head(retrieved + more, k) == Head(retrieved, k);
  }

  /** Repeating relevant URLs, or listing them in another order, changes neither precision nor recall. */
  lemma RelevantAsSet(retrieved: seq<string>, relevant: seq<string>, relevant': seq<string>, k: int)
    requires forall u :: u in relevant <==> u in relevant'
    ensures PrecisionAtK(retrieved, relevant, k) == PrecisionAtK(retrieved, relevant', k)
    ensures RecallAtK(retrieved, relevant, k) == RecallAtK(retrieved, relevant', k)
    ensures HitAtK(retrieved, relevant, k) == HitAtK(retrieved, relevant', k)
  {
    assert Elements(relevant) == Elements(relevant');
  }

  /** The precision denominator is `k` even when fewer URLs were retrieved. */
  lemma PrecisionOfShortList(retrieved: seq<string>, relevant: seq<string>, k: int)
    requires |retrieved| < k
    ensures PrecisionAtK(retrieved, relevant, k) == HitCount(retrieved, Elements(relevant)) as real / k as real
    ensures PrecisionAtK(retrieved, relevant, k) <= |retrieved| as real / k as real
  {
    assert Head(retrieved, k) == retrieved;
    var hits := HitCount(retrieved, Elements(relevant));
    DivideMonotone(hits as real, |retrieved| as real, k as real);
  }

  /** No URL occurs twice in `urls`. */
  predicate Distinct(urls: seq<string>) {
    forall i, j | 0 <= i < j < |urls| :: urls[i] != urls[j]
  }

  /** Distinct URLs: the count is the number of relevant URLs among them. */
  lemma {:induction false} HitCountOfDistinct(urls: seq<string>, relevantSet: set<string>)
    requires Distinct(urls)
    ensures HitCount(urls, relevantSet) == |Elements(urls) * relevantSet|
  {
    if urls == [] {
      assert Elements(urls) * relevantSet == {};
    } else {
      var tail := urls[1..];
      ElementsOfCons(urls);
      HitCountOfDistinct(tail, relevantSet);
      var common := Elements(tail) * relevantSet;
      assert HitCount(urls, relevantSet) == (if urls[0] in relevantSet then 1 else 0) + |common|;
      if urls[0] in relevantSet {
        assert Elements(urls) * relevantSet == common + {urls[0]};
        assert |common + {urls[0]}| == |common| + 1 by {
          assert urls[0] !in common;
        }
      } else {
        assert Elements(urls) * relevantSet == common;
      }
    }
  }

  /** A list with distinct entries: its tail is distinct, and its URLs are its head apart from those of its tail. */
  lemma ElementsOfCons(urls: seq<string>)
    requires Distinct(urls) && urls != []
    ensures Distinct(urls[1..])
    ensures Elements(urls) == {urls[0]} + Elements(urls[1..])
    ensures urls[0] !in Elements(urls[1..])
  {
    var tail := urls[1..];
    forall i, j | 0 <= i < j < |tail| ensures tail[i] != tail[j] {
      assert tail[i] == urls[i + 1] && tail[j] == urls[j + 1];
    }
    assert urls == [urls[0]] + tail;
    forall i | 0 <= i < |tail| ensures tail[i] != urls[0] {
      assert tail[i] == urls[i + 1];
    }
  }

  /** With distinct URLs among the first `k`, recall lies in [0, 1]. */
  lemma RecallBoundWhenDistinct(retrieved: seq<string>, relevant: seq<string>, k: int)
    requires Distinct(Head(retrieved, k))
    ensures 0.0 <= RecallAtK(retrieved, relevant, k) <= 1.0
  {
    var relevantSet := Elements(relevant);
    HitCountOfDistinct(Head(retrieved, k), relevantSet);
    var common := Elements(Head(retrieved, k)) * relevantSet;
    assert common <= relevantSet;
    SubsetCardinality(common, relevantSet);
    if |relevantSet| != 0 {
      ShareInUnit(|common| as real, |relevantSet| as real);
    }
  }

  /** A subset is no larger than its superset. */
  lemma {:induction false} SubsetCardinality(a: set<string>, b: set<string>)
    requires a <= b
    ensures |a| <= |b|
    decreases |b|
  {
    if a != {} {
      var x :| x in a;
      SubsetCardinality(a - {x}, b - {x});
    }
  }

  /**
   * recall_at_k counts a repeated relevant URL once per occurrence, so the
   * same relevant URL retrieved twice gives recall 2.
   */
  lemma RecallCountsRepeats()
    ensures RecallAtK(["u", "u"], ["u"], 2) == 2.0
  {
    var retrieved, relevant := ["u", "u"], ["u"];
    assert Elements(relevant) == {"u"};
    assert Head(retrieved, 2) == retrieved;
    assert retrieved[1..] == ["u"];
    assert HitCount(retrieved, {"u"}) == 2;
  }

  /**
   * Recall counting each retrieved relevant URL once: the share of distinct
   * relevant URLs found among the first `k`.
   */
  function DistinctRecallAtK(retrieved: seq<string>, relevant: seq<string>, k: int): (r: real)
    ensures 0.0 <= r <= 1.0
    ensures relevant == [] ==> r == 0.0
  {
    var relevantSet := Elements(relevant);
    var found := Elements(Head(retrieved, k)) * relevantSet;
    SubsetCardinality(found, relevantSet);
    if |relevantSet| != 0 then ShareInUnit(|found| as real, |relevantSet| as real); |found| as real / |relevantSet| as real else 0.0
  }

  /** The corrected recall agrees with recall_at_k whenever the first `k` URLs are distinct. */
  lemma DistinctRecallAgrees(retrieved: seq<string>, relevant: seq<string>, k: int)
    requires Distinct(Head(retrieved, k))
    ensures DistinctRecallAtK(retrieved, relevant, k) == RecallAtK(retrieved, relevant, k)
  {
    HitCountOfDistinct(Head(retrieved, k), Elements(relevant));
  }
}
