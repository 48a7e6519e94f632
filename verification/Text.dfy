/**
 * The handful of Python string operations the core relies on:
 * `str.isspace` on one character, `str.strip()`, `str.split(c)` with a
 * one-character separator, and `sep.join(parts)`.
 */
module Text {

  /** Python's `str.isspace()` for a single character. */
  predicate IsSpace(c: char) {
    var n := c as int;
    || n == 0x20 || 0x09 <= n <= 0x0d || 0x1c <= n <= 0x1f
    || n == 0x85 || n == 0xa0 || n == 0x1680 || 0x2000 <= n <= 0x200a
    || n == 0x2028 || n == 0x2029 || n == 0x202f || n == 0x205f || n == 0x3000
  }

  /** Number of whitespace characters at the front of `s`. */
  function LeadingSpaces(s: string): (n: nat)
    ensures n <= |s|
    ensures forall i | 0 <= i < n :: IsSpace(s[i])
    ensures n < |s| ==> !IsSpace(s[n])
  {
    if |s| == 0 || !IsSpace(s[0]) then 0 else 1 + LeadingSpaces(s[1..])
  }

  /** Number of whitespace characters at the back of `s`. */
  function TrailingSpaces(s: string): (n: nat)
    ensures n <= |s|
    ensures forall i | |s| - n <= i < |s| :: IsSpace(s[i])
    ensures n < |s| ==> !IsSpace(s[|s| - 1 - n])
  {
    if |s| == 0 || !IsSpace(s[|s| - 1]) then 0 else 1 + TrailingSpaces(s[..|s| - 1])
  }

  /**
   * Python's `s.strip()`: the slice `s[lo..hi]` left after removing leading
   * and trailing whitespace; every character outside the slice is whitespace
   * and the slice neither starts nor ends with whitespace.
   */
  function Strip(s: string): (r: string)
    ensures |r| <= |s|
    ensures r == [] || (!IsSpace(r[0]) && !IsSpace(r[|r| - 1]))
    ensures var lo := LeadingSpaces(s);
            && lo + |r| <= |s|
            && r == s[lo..lo + |r|]
            && (forall i | lo + |r| <= i < |s| :: IsSpace(s[i]))
  {
    var t := s[LeadingSpaces(s)..];
    t[..|t| - TrailingSpaces(t)]
  }

  /** Stripping twice is stripping once. */
  lemma StripIdempotent(s: string)
    ensures Strip(Strip(s)) == Strip(s)
  {
  }

  /** A text with no whitespace at either end is its own stripped form. */
  lemma StripTrimmed(s: string)
    requires s == [] || (!IsSpace(s[0]) && !IsSpace(s[|s| - 1]))
    ensures Strip(s) == s
  {
  }

  /** A leading whitespace character does not change the stripped form. */
  lemma StripLeadingSpace(c: char, s: string)
    requires IsSpace(c)
    ensures Strip([c] + s) == Strip(s)
  {
  }

  /** Python's `sep.join(parts)`. */
  function Join(sep: string, parts: seq<string>): (r: string)
    ensures |parts| == 1 ==> r == parts[0]
  {
    if |parts| == 0 then ""
    else if |parts| == 1 then parts[0]
    else parts[0] + sep + Join(sep, parts[1..])
  }

  /** Joining one more part adds the separator and that part at the end. */
  lemma {:induction false} JoinSnoc(sep: string, parts: seq<string>, x: string)
    ensures Join(sep, parts + [x]) == if parts == [] then x else Join(sep, parts) + sep + x
  {
    if |parts| >= 2 {
      assert (parts + [x])[1..] == parts[1..] + [x];
      JoinSnoc(sep, parts[1..], x);
    } else if |parts| == 1 {
      assert (parts + [x])[1..] == [x];
    }
  }

  /**
   * With a non-empty separator, a join is empty exactly when there is
   * nothing to join or a single empty part.
   */
  lemma {:induction false} JoinEmptyIff(sep: string, parts: seq<string>)
    requires sep != ""
    ensures Join(sep, parts) == "" <==> (parts == [] || parts == [""])
  {
  }

  /**
   * Python's `s.split(sep)` with an explicit one-character separator: the
   * pieces between separators, an empty piece wherever two separators meet
   * or the text starts or ends with one; never an empty list.
   */
  function Split(s: string, sep: char): (r: seq<string>)
    ensures |r| >= 1
    ensures forall i | 0 <= i < |r| :: sep !in r[i]
  {
    if s == [] then [""]
    else
      var rest := Split(s[1..], sep);
      if s[0] == sep then [""] + rest
      else [[s[0]] + rest[0]] + rest[1..]
  }

  /** Splitting and joining back with the same separator gives the text back. */
  lemma {:induction false} JoinSplit(s: string, sep: char)
    ensures Join([sep], Split(s, sep)) == s
  {
    if s != [] {
      var rest := Split(s[1..], sep);
      JoinSplit(s[1..], sep);
      if s[0] == sep {
        assert ([""] + rest)[1..] == rest;
      } else {
        var r := [[s[0]] + rest[0]] + rest[1..];
        if |rest| > 1 {
          assert r[1..] == rest[1..];
          assert Join([sep], rest) == rest[0] + [sep] + Join([sep], rest[1..]);
        }
        assert s == [s[0]] + s[1..];
      }
    }
  }

  /**
   * Split is the only way to cut a text into separator-free pieces: any
   * such list of pieces that joins back to `s` is `Split(s, sep)`.
   */
  lemma {:induction false} SplitUnique(s: string, sep: char, pieces: seq<string>)
    requires |pieces| >= 1
    requires forall i | 0 <= i < |pieces| :: sep !in pieces[i]
    requires Join([sep], pieces) == s
    ensures pieces == Split(s, sep)
    decreases |s|
  {
    if s == [] {
      assert |pieces| == 1;
    } else if |pieces| == 1 {
      SplitOfSeparatorFree(s, sep);
    } else if pieces[0] == "" {
      var tail := pieces[1..];
      assert s == [sep] + Join([sep], tail);
      assert s[1..] == Join([sep], tail);
      SplitUnique(s[1..], sep, tail);
      assert pieces == [""] + tail;
    } else {
      var p0 := pieces[0];
      var shorter := [p0[1..]] + pieces[1..];
      assert shorter[1..] == pieces[1..];
      assert s == p0 + [sep] + Join([sep], pieces[1..]);
      assert s[0] == p0[0];
      assert s[1..] == p0[1..] + [sep] + Join([sep], pieces[1..]);
      assert forall i | 0 <= i < |shorter| :: sep !in shorter[i] by {
        forall i | 0 <= i < |shorter| ensures sep !in shorter[i] {
          if i == 0 {
            assert forall c | c in p0[1..] :: c in p0;
          } else {
            assert shorter[i] == pieces[i];
          }
        }
      }
      SplitUnique(s[1..], sep, shorter);
      assert s[0] != sep;
      assert p0 == [s[0]] + p0[1..];
      assert pieces == [[s[0]] + shorter[0]] + shorter[1..];
    }
  }

  /** A text without the separator splits into itself alone. */
  lemma {:induction false} SplitOfSeparatorFree(s: string, sep: char)
    requires sep !in s
    ensures Split(s, sep) == [s]
    decreases |s|
  {
    if s != [] {
      assert sep !in s[1..] by {
        assert forall c | c in s[1..] :: c in s;
      }
      SplitOfSeparatorFree(s[1..], sep);
      assert s == [s[0]] + s[1..];
    }
  }
}
