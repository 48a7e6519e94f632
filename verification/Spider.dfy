/**
 * The job-level field of the catalogue crawler
 * (extract_data/extract_data/spiders/products.py, `parse_product`): the
 * scraped text is cut at commas, each piece is stripped of surrounding
 * whitespace, and empty pieces are dropped.
 */
module ProductsSpider {
  import opened Wrappers
  import opened Text

  /** A piece survives the comprehension's filter `if lvl.strip()`. */
  predicate Kept(piece: string) {
    Strip(piece) != ""
  }

  /** How many pieces survive the filter. */
  function KeptCount(pieces: seq<string>): (n: nat)
    ensures n <= |pieces|
  {
    if pieces == [] then 0 else (if Kept(pieces[0]) then 1 else 0) + KeptCount(pieces[1..])
  }

  /** A clean job level: non-empty, no whitespace at either end. */
  predicate Clean(level: string) {
    level != [] && !IsSpace(level[0]) && !IsSpace(level[|level| - 1])
  }

  /** `[lvl.strip() for lvl in pieces if lvl.strip()]`. */
  function CleanPieces(pieces: seq<string>): (r: seq<string>)
    ensures |r| == KeptCount(pieces)
    ensures forall j | 0 <= j < |r| :: Clean(r[j])
  {
    if pieces == [] then []
    else (if Kept(pieces[0]) then [Strip(pieces[0])] else []) + CleanPieces(pieces[1..])
  }

  /** The `job_levels` list built from the scraped text. */
  function JobLevels(text: string): (levels: seq<string>)
    ensures |levels| <= |Split(text, ',')|
    ensures forall j | 0 <= j < |levels| :: Clean(levels[j])
  {
    CleanPieces(Split(text, ','))
  }

  /** The scraped node may be missing; `.get(default="")` then yields "". */
  function ScrapedJobLevels(scraped: Option<string>): (levels: seq<string>)
    ensures scraped.None? ==> levels == []
  {
    JobLevels(scraped.GetOr(""))
  }

  /** A missing or empty job-level text gives no job levels. */
  lemma NoTextNoLevels()
    ensures ScrapedJobLevels(None) == []
    ensures JobLevels("") == []
  {
  }

  /** Every job level is non-empty, has no surrounding whitespace and no comma. */
  lemma JobLevelsClean(text: string)
    ensures forall j | 0 <= j < |JobLevels(text)| ::
      Clean(JobLevels(text)[j]) && ',' !in JobLevels(text)[j]
  {
    var pieces := Split(text, ',');
    forall j | 0 <= j < |JobLevels(text)| ensures ',' !in JobLevels(text)[j] {
      var i := CleanPiecesOrigin(pieces, j);
      StripKeepsOut(pieces[i], ',');
    }
  }

  /** A character the text lacks is not in its stripped form either. */
  lemma StripKeepsOut(s: string, c: char)
    requires c !in s
    ensures c !in Strip(s)
  {
  }

  /**
   * Order and completeness: the i-th piece, when it survives, is stripped and
   * placed at the position given by the number of surviving pieces before it.
   */
  lemma {:induction false} CleanPiecesAt(pieces: seq<string>, i: nat)
    requires i < |pieces| && Kept(pieces[i])
    ensures KeptCount(pieces[..i]) < |CleanPieces(pieces)|
    ensures CleanPieces(pieces)[KeptCount(pieces[..i])] == Strip(pieces[i])
  {
    if i > 0 {
      var tail := pieces[1..];
      assert tail[..i - 1] == pieces[1..i];
      assert pieces[..i][1..] == pieces[1..i];
      assert KeptCount(pieces[..i]) == (if Kept(pieces[0]) then 1 else 0) + KeptCount(tail[..i - 1]);
      CleanPiecesAt(tail, i - 1);
    } else {
      assert pieces[..0] == [];
    }
  }

  /**
   * Provenance: the j-th element comes from a surviving piece, namely the
   * one with exactly j surviving pieces before it.
   */
  lemma {:induction false} CleanPiecesOrigin(pieces: seq<string>, j: nat) returns (i: nat)
    requires j < |CleanPieces(pieces)|
    ensures i < |pieces| && Kept(pieces[i]) && KeptCount(pieces[..i]) == j
    ensures CleanPieces(pieces)[j] == Strip(pieces[i])
  {
    var tail := pieces[1..];
    var head := if Kept(pieces[0]) then [Strip(pieces[0])] else [];
    assert CleanPieces(pieces) == head + CleanPieces(tail);
    if head != [] && j == 0 {
      i := 0;
      assert pieces[..0] == [];
    } else {
      var j' := j - |head|;
      assert CleanPieces(pieces)[j] == CleanPieces(tail)[j'];
      var i' := CleanPiecesOrigin(tail, j');
      i := i' + 1;
      assert pieces[..i][1..] == tail[..i'];
      assert KeptCount(pieces[..i]) == |head| + KeptCount(tail[..i']);
    }
  }

  /**
   * The job levels, in order, are exactly the non-empty stripped comma
   * pieces of the text: element positions follow piece positions.
   */
  lemma JobLevelsInOrder(text: string, i1: nat, i2: nat)
    requires var pieces := Split(text, ',');
      i1 < i2 < |pieces| && Kept(pieces[i1]) && Kept(pieces[i2])
    ensures var pieces := Split(text, ',');
      var p1, p2 := KeptCount(pieces[..i1]), KeptCount(pieces[..i2]);
      p1 < p2 < |JobLevels(text)|
      && JobLevels(text)[p1] == Strip(pieces[i1])
      && JobLevels(text)[p2] == Strip(pieces[i2])
  {
    var pieces := Split(text, ',');
    CleanPiecesAt(pieces, i1);
    CleanPiecesAt(pieces, i2);
    KeptCountMonotone(pieces, i1, i2);
  }

  /** A surviving piece raises the count of survivors after it. */
  lemma {:induction false} KeptCountMonotone(pieces: seq<string>, i1: nat, i2: nat)
    requires i1 < i2 <= |pieces| && Kept(pieces[i1])
    ensures KeptCount(pieces[..i1]) < KeptCount(pieces[..i2])
  {
    if i1 == 0 {
      assert pieces[..i2][0] == pieces[0];
    } else {
      var tail := pieces[1..];
      assert pieces[..i1][1..] == tail[..i1 - 1];
      assert pieces[..i2][1..] == tail[..i2 - 1];
      KeptCountMonotone(tail, i1 - 1, i2 - 1);
    }
  }

  /** The comprehension works piece by piece: it distributes over concatenation. */
  lemma {:induction false} CleanPiecesAppend(a: seq<string>, b: seq<string>)
    ensures CleanPieces(a + b) == CleanPieces(a) + CleanPieces(b)
  {
    if a != [] {
      assert (a + b)[1..] == a[1..] + b;
      CleanPiecesAppend(a[1..], b);
    } else {
      assert a + b == b;
    }
  }

  /** One piece gives its stripped form, or nothing when that is empty. */
  lemma CleanPiece(p: string)
    ensures CleanPieces([p]) == if Kept(p) then [Strip(p)] else []
  {
  }
}
