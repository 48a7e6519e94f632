/**
 * Semantic search over the assessment catalogue
 * (backend/search_assessments.py): unwrapping the embedding service's
 * answer into a one-row query batch, and assembling result records from the
 * nearest-neighbour index's `(id, distance)` pairs joined against the
 * id-aligned product table.
 */
module Search {
  import opened Wrappers
  import opened Ratios

  /** The id the index reports for "no neighbour at this rank". */
  const Sentinel: int := -1

  /** The JSON answer of the embedding service: one vector, or a list of vectors. */
  datatype EmbeddingResponse = Flat(values: seq<real>) | Nested(rows: seq<seq<real>>)

  /** Indexing the first element of an empty answer raises. */
  datatype SearchError = IndexError

  /**
   * The query batch handed to the index: `[embedding]` after replacing a
   * nested answer by its first vector; an empty answer has no first element.
   */
  function QueryBatch(response: EmbeddingResponse): (r: Result<seq<seq<real>>, SearchError>)
    ensures r.Ok? <==> (response.Flat? && response.values != []) || (response.Nested? && response.rows != [])
    ensures r.Ok? ==> |r.value| == 1
    ensures r.Ok? && response.Flat? ==> r.value[0] == response.values
    ensures r.Ok? && response.Nested? ==> r.value[0] == response.rows[0]
  {
    match response
    case Flat(values) => if values == [] then Err(IndexError) else Ok([values])
    case Nested(rows) => if rows == [] then Err(IndexError) else Ok([rows[0]])
  }

  /** Both shapes the service may use for one vector give the same single-row batch. */
  lemma QueryBatchShapes(v: seq<real>, others: seq<seq<real>>)
    requires v != []
    ensures QueryBatch(Flat(v)) == QueryBatch(Nested([v] + others)) == Ok([v])
  {
  }

  /** A value in a product row as Python sees it before `str()`. */
  datatype Scalar = Text(s: string) | Flag(b: bool) | Missing

  /** Python's `str()`: text as is, booleans as "True"/"False", a missing cell (NaN) as "nan". */
  function Str(x: Scalar): (r: string)
    ensures x.Text? ==> r == x.s
  {
    match x
    case Text(s) => s
    case Flag(b) => if b then "True" else "False"
    case Missing => "nan"
  }

  /** The test type (or job levels) of a product: a single string or a list. */
  datatype Listing = Single(s: string) | Many(items: seq<string>)

  /** One row of the id-aligned product table. */
  datatype Product = Product(
    name: Scalar,
    url: Scalar,
    testType: Listing,
    description: Scalar,
    remote: Scalar,
    jobLevels: Listing)

  /** One result record of `find_assessments`. */
  datatype Assessment = Assessment(
    name: string,
    url: string,
    testType: Listing,
    description: string,
    remote: string,
    jobLevels: Listing,
    score: real)

  /** One column of the index's answer. */
  datatype Neighbour = Neighbour(id: int, dist: real)

  /** The unrounded score `1 / (1 + dist)`; `dist == -1` would divide by zero. */
  function RawScore(dist: real): (r: real)
    requires dist != -1.0
    ensures r * (1.0 + dist) == 1.0
  {
    1.0 / (1.0 + dist)
  }

  /** Rounding to 4 decimals, ties upward (see README for Python's rounding). */
  function Round4(x: real): (r: real)
    ensures x - 0.00005 < r <= x + 0.00005
  {
    (x * 10000.0 + 0.5).Floor as real / 10000.0
  }

  /** The score of a hit: `round(1 / (1 + dist), 4)`. */
  function Score(dist: real): (r: real)
    requires dist != -1.0
    ensures RawScore(dist) - 0.00005 < r <= RawScore(dist) + 0.00005
  {
    Round4(RawScore(dist))
  }

  /** For a non-negative distance the unrounded score lies in (0, 1], and is 1 at distance 0. */
  lemma RawScoreRange(dist: real)
    requires 0.0 <= dist
    ensures 0.0 < RawScore(dist) <= 1.0
    ensures RawScore(dist) == 1.0 <==> dist == 0.0
  {
  }

  /** The unrounded score strictly decreases as the distance grows. */
  lemma RawScoreDecreasing(d1: real, d2: real)
    requires -1.0 < d1 < d2
    ensures RawScore(d1) > RawScore(d2)
  {
    var a, b := 1.0 + d1, 1.0 + d2;
    assert 1.0 / a - 1.0 / b == (b - a) / (a * b);
  }

  /** Rounding keeps the order of its arguments. */
  lemma Round4Monotone(x: real, y: real)
    requires x <= y
    ensures Round4(x) <= Round4(y)
  {
    var fx, fy := (x * 10000.0 + 0.5).Floor, (y * 10000.0 + 0.5).Floor;
    assert fx <= fy;
    DivideMonotone(fx as real, fy as real, 10000.0);
  }

  /** Rounding maps [0, 1] into [0, 1] and leaves 1 at 1. */
  lemma Round4Unit(x: real)
    requires 0.0 <= x <= 1.0
    ensures 0.0 <= Round4(x) <= 1.0
    ensures x == 1.0 ==> Round4(x) == 1.0
  {
  }

  /** For a non-negative distance the score lies in [0, 1]; distance 0 scores exactly 1. */
  lemma ScoreRange(dist: real)
    requires 0.0 <= dist
    ensures 0.0 <= Score(dist) <= 1.0
    ensures dist == 0.0 ==> Score(dist) == 1.0
  {
  }

  /** A larger distance never scores higher, so score order follows distance order. */
  lemma ScoreNonIncreasing(d1: real, d2: real)
    requires -1.0 < d1 <= d2
    ensures Score(d1) >= Score(d2)
  {
    if d1 < d2 {
      RawScoreDecreasing(d1, d2);
      Round4Monotone(RawScore(d2), RawScore(d1));
    }
  }

  /** The index's answer can be joined: each real id is a row of the table and its distance can be scored. */
  predicate Joinable(neighbours: seq<Neighbour>, rowCount: nat) {
    forall i | 0 <= i < |neighbours| ::
      neighbours[i].id == Sentinel
      || (0 <= neighbours[i].id < rowCount && neighbours[i].dist != -1.0)
  }

  /** The record built for one hit: the row's scalar fields stringified, its lists passed through. */
  function ToAssessment(product: Product, dist: real): (a: Assessment)
    requires dist != -1.0
    ensures a.name == Str(product.name) && a.url == Str(product.url)
    ensures a.description == Str(product.description) && a.remote == Str(product.remote)
    ensures a.testType == product.testType && a.jobLevels == product.jobLevels
    ensures a.score == Score(dist)
  {
    Assessment(Str(product.name), Str(product.url), product.testType,
               Str(product.description), Str(product.remote), product.jobLevels, Score(dist))
  }

  /** How many neighbours carry a real id. */
  function RealCount(neighbours: seq<Neighbour>): (n: nat)
    ensures n <= |neighbours|
  {
    if neighbours == [] then 0
    else RealCount(neighbours[..|neighbours| - 1]) + (if neighbours[|neighbours| - 1].id == Sentinel then 0 else 1)
  }

  /** The results for a prefix of the index's answer, in the index's order, sentinels skipped. */
  function Assemble(rows: seq<Product>, neighbours: seq<Neighbour>): (r: seq<Assessment>)
    requires Joinable(neighbours, |rows|)
    ensures |r| == RealCount(neighbours)
  {
    if neighbours == [] then []
    else
      var n := neighbours[|neighbours| - 1];
      var front := neighbours[..|neighbours| - 1];
      assert Joinable(front, |rows|) by {
        forall i | 0 <= i < |front| ensures front[i] == neighbours[i] { }
      }
      Assemble(rows, front) + (if n.id == Sentinel then [] else [ToAssessment(rows[n.id], n.dist)])
  }

  /** Assembling two consecutive stretches of the answer concatenates their results. */
  lemma {:induction false} AssembleAppend(rows: seq<Product>, a: seq<Neighbour>, b: seq<Neighbour>)
    requires Joinable(a + b, |rows|)
    ensures Joinable(a, |rows|) && Joinable(b, |rows|)
    ensures Assemble(rows, a + b) == Assemble(rows, a) + Assemble(rows, b)
    ensures RealCount(a + b) == RealCount(a) + RealCount(b)
    decreases |b|
  {
    if b == [] {
      assert a + b == a;
    } else {
      var front, last := b[..|b| - 1], b[|b| - 1];
      var ab := a + b;
      assert ab[..|ab| - 1] == a + front;
      assert ab[|ab| - 1] == last;
      assert Joinable(a + front, |rows|) by {
        forall i | 0 <= i < |a + front| ensures (a + front)[i] == ab[i] { }
      }
      AssembleAppend(rows, a, front);
      assert Joinable(b, |rows|) by {
        forall i | 0 <= i < |b| ensures b[i] == ab[|a| + i] { }
      }
      var tail := if last.id == Sentinel then [] else [ToAssessment(rows[last.id], last.dist)];
      assert Assemble(rows, ab) == Assemble(rows, a + front) + tail;
      assert Assemble(rows, b) == Assemble(rows, front) + tail;
    }
  }

  /**
   * Order and completeness: the hit at position i of the answer, when its id
   * is real, becomes the result at position "number of real ids before i".
   */
  lemma AssembleAt(rows: seq<Product>, neighbours: seq<Neighbour>, i: nat)
    requires Joinable(neighbours, |rows|)
    requires i < |neighbours| && neighbours[i].id != Sentinel
    ensures RealCount(neighbours[..i]) < |Assemble(rows, neighbours)|
    ensures Assemble(rows, neighbours)[RealCount(neighbours[..i])]
         == ToAssessment(rows[neighbours[i].id], neighbours[i].dist)
  {
    var n := neighbours[i];
    assert neighbours == neighbours[..i] + [n] + neighbours[i + 1..];
    AssembleAppend(rows, neighbours[..i] + [n], neighbours[i + 1..]);
    AssembleAppend(rows, neighbours[..i], [n]);
    assert [n][..0] == [];
  }

  /**
   * Provenance: result j comes from the answer's real-id hit that has exactly
   * j real ids before it; in particular no result comes from a sentinel.
   */
  lemma {:induction false} AssembleOrigin(rows: seq<Product>, neighbours: seq<Neighbour>, j: nat) returns (i: nat)
    requires Joinable(neighbours, |rows|)
    requires j < |Assemble(rows, neighbours)|
    ensures i < |neighbours| && neighbours[i].id != Sentinel && RealCount(neighbours[..i]) == j
    ensures Assemble(rows, neighbours)[j] == ToAssessment(rows[neighbours[i].id], neighbours[i].dist)
    decreases |neighbours|
  {
    var last := |neighbours| - 1;
    var front := neighbours[..last];
    assert neighbours == front + [neighbours[last]];
    AssembleAppend(rows, front, [neighbours[last]]);
    assert [neighbours[last]][..0] == [];
    if j < RealCount(front) {
      i := AssembleOrigin(rows, front, j);
      assert front[..i] == neighbours[..i];
    } else {
      i := last;
    }
  }

  /** Hits nearer in the index's answer never score lower than later ones when distances ascend. */
  lemma AssembleScoresFollowDistances(rows: seq<Product>, neighbours: seq<Neighbour>, j1: nat, j2: nat)
    requires Joinable(neighbours, |rows|)
    requires forall i | 0 <= i < |neighbours| :: neighbours[i].id != Sentinel ==> 0.0 <= neighbours[i].dist
    requires forall i1, i2 | 0 <= i1 < i2 < |neighbours| && neighbours[i1].id != Sentinel && neighbours[i2].id != Sentinel
      :: neighbours[i1].dist <= neighbours[i2].dist
    requires j1 < j2 < |Assemble(rows, neighbours)|
    ensures Assemble(rows, neighbours)[j1].score >= Assemble(rows, neighbours)[j2].score
  {
    var i1 := AssembleOrigin(rows, neighbours, j1);
    var i2 := AssembleOrigin(rows, neighbours, j2);
    if i2 <= i1 {
      RealCountMonotone(neighbours, i2, i1);
    }
    ScoreNonIncreasing(neighbours[i1].dist, neighbours[i2].dist);
  }

  /** The number of real ids in a prefix never decreases as the prefix grows. */
  lemma RealCountMonotone(neighbours: seq<Neighbour>, i1: nat, i2: nat)
    requires i1 <= i2 <= |neighbours|
    ensures RealCount(neighbours[..i1]) <= RealCount(neighbours[..i2])
  {
    assert neighbours[..i2] == neighbours[..i1] + neighbours[i1..i2];
    RealCountAppend(neighbours[..i1], neighbours[i1..i2]);
  }

  /** Counting real ids is additive over concatenation. */
  lemma {:induction false} RealCountAppend(a: seq<Neighbour>, b: seq<Neighbour>)
    ensures RealCount(a + b) == RealCount(a) + RealCount(b)
    decreases |b|
  {
    if b != [] {
      assert (a + b)[..|a + b| - 1] == a + b[..|b| - 1];
      RealCountAppend(a, b[..|b| - 1]);
    } else {
      assert a + b == a;
    }
  }

  /** Every score of a result lies in [0, 1] when the index reports non-negative distances. */
  lemma AssembleScoresInUnit(rows: seq<Product>, neighbours: seq<Neighbour>, j: nat)
    requires Joinable(neighbours, |rows|)
    requires forall i | 0 <= i < |neighbours| :: neighbours[i].id != Sentinel ==> 0.0 <= neighbours[i].dist
    requires j < |Assemble(rows, neighbours)|
    ensures 0.0 <= Assemble(rows, neighbours)[j].score <= 1.0
  {
  }

  /**
   * The id-aligned product table (`vector_texts`), loaded once and never
   * changed; row i describes the catalogue item stored under id i.
   */
  class VectorTexts {
    const rows: seq<Product>

    constructor (rows: seq<Product>)
      ensures this.rows == rows
    {
      this.rows := rows;
    }

    /**
     * The result-assembly loop of `find_assessments`: walk the index's
     * answer in order, skip sentinels, and append one record per hit.
     */
    method AssembleResults(neighbours: seq<Neighbour>) returns (results: seq<Assessment>)
      requires Joinable(neighbours, |rows|)
      ensures results == Assemble(rows, neighbours)
      ensures |results| == RealCount(neighbours) <= |neighbours|
    {
      results := [];
      for n := 0 to |neighbours|
        invariant Joinable(neighbours[..n], |rows|)
        invariant results == Assemble(rows, neighbours[..n])
      {
        var hit := neighbours[n];
        assert neighbours[..n + 1][..n] == neighbours[..n];
        if hit.id == Sentinel {
          continue;
        }
        var product := rows[hit.id];
        results := results + [ToAssessment(product, hit.dist)];
      }
      assert neighbours[..|neighbours|] == neighbours;
    }

    /**
     * `find_assessments(query, k)`, given the embedding service's answer for
     * the query and the index's `search` as a function of the batch and `k`.
     */
    method FindAssessments(response: EmbeddingResponse, k: int,
                           search: (seq<seq<real>>, int) -> seq<Neighbour>)
      returns (r: Result<seq<Assessment>, SearchError>)
      requires QueryBatch(response).Ok? ==> Joinable(search(QueryBatch(response).value, k), |rows|)
      ensures r.Err? <==> QueryBatch(response).Err?
      ensures r.Ok? ==> r.value == Assemble(rows, search(QueryBatch(response).value, k))
    {
      var batch := QueryBatch(response);
      if batch.Err? {
        return Err(batch.error);
      }
      var neighbours := search(batch.value, k);
      var results := AssembleResults(neighbours);
      return Ok(results);
    }
  }

  /** The index answers with at most `k` columns, so there are at most `k` results. */
  lemma AtMostKResults(rows: seq<Product>, neighbours: seq<Neighbour>, k: nat)
    requires Joinable(neighbours, |rows|) && |neighbours| <= k
    ensures |Assemble(rows, neighbours)| <= k
  {
  }

  /**
   * When the index holds fewer than `k` entries it pads its answer with
   * sentinels: the results are then exactly the real hits, one per entry.
   */
  lemma PaddedAnswer(rows: seq<Product>, hits: seq<Neighbour>, padding: seq<Neighbour>)
    requires Joinable(hits, |rows|)
    requires forall i | 0 <= i < |hits| :: hits[i].id != Sentinel
    requires forall i | 0 <= i < |padding| :: padding[i].id == Sentinel
    ensures Joinable(hits + padding, |rows|)
    ensures Assemble(rows, hits + padding) == Assemble(rows, hits)
    ensures |Assemble(rows, hits + padding)| == |hits|
  {
    assert forall i | 0 <= i < |hits + padding| ::
      (hits + padding)[i] == if i < |hits| then hits[i] else padding[i - |hits|];
    AssembleAppend(rows, hits, padding);
    AllSentinels(rows, padding);
    AllReal(hits);
  }

  /** An answer made only of sentinels gives no results. */
  lemma {:induction false} AllSentinels(rows: seq<Product>, padding: seq<Neighbour>)
    requires forall i | 0 <= i < |padding| :: padding[i].id == Sentinel
    ensures Joinable(padding, |rows|) && Assemble(rows, padding) == []
  {
    if padding != [] {
      AllSentinels(rows, padding[..|padding| - 1]);
    }
  }

  /** An answer without sentinels counts every column. */
  lemma {:induction false} AllReal(hits: seq<Neighbour>)
    requires forall i | 0 <= i < |hits| :: hits[i].id != Sentinel
    ensures RealCount(hits) == |hits|
  {
    if hits != [] {
      AllReal(hits[..|hits| - 1]);
    }
  }

  /** A hit at distance 0 heads the results with score 1. */
  lemma ExactMatchFirst(rows: seq<Product>, neighbours: seq<Neighbour>)
    requires Joinable(neighbours, |rows|)
    requires neighbours != [] && neighbours[0].id != Sentinel && neighbours[0].dist == 0.0
    ensures Assemble(rows, neighbours) != []
    ensures Assemble(rows, neighbours)[0] == ToAssessment(rows[neighbours[0].id], 0.0)
    ensures Assemble(rows, neighbours)[0].score == 1.0
  {
  }
}
