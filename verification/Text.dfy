/** Python string operations the modelled code relies on: `split`, `join` and comparison. */
module Text {

  /** Python's `a <= b` on strings: lexicographic by code point. */
  predicate StrLe(a: string, b: string)
  {
    a == "" || (b != "" && (a[0] < b[0] || (a[0] == b[0] && StrLe(a[1..], b[1..]))))
  }

  lemma {:induction false} StrLeTotal(a: string, b: string)
    ensures StrLe(a, b) || StrLe(b, a)
    ensures StrLe(a, b) && StrLe(b, a) ==> a == b
  {
    if a != "" && b != "" && a[0] == b[0] {
      StrLeTotal(a[1..], b[1..]);
      assert a == [a[0]] + a[1..] && b == [b[0]] + b[1..];
    }
  }

  lemma {:induction false} StrLeTransitive(a: string, b: string, c: string)
    requires StrLe(a, b) && StrLe(b, c)
    ensures StrLe(a, c)
  {
    if a != "" && a[0] == b[0] == c[0] {
      StrLeTransitive(a[1..], b[1..], c[1..]);
    }
  }

  /** One text comes before another when it begins the other or has the smaller character where they first
      differ. */
  lemma {:induction false} StrLeIff(a: string, b: string)
    ensures StrLe(a, b) <==> a <= b || exists k :: 0 <= k < |a| && k < |b| && a[..k] == b[..k] && a[k] < b[k]
  {
    if a != "" && b != "" && a[0] == b[0] {
      StrLeIff(a[1..], b[1..]);
      if k :| 0 <= k < |a| && k < |b| && a[..k] == b[..k] && a[k] < b[k] {
        assert k > 0;
        assert a[1..][..k - 1] == a[..k][1..] == b[..k][1..] == b[1..][..k - 1];
        assert a[1..][k - 1] == a[k] && b[1..][k - 1] == b[k];
      }
      if k :| 0 <= k < |a[1..]| && k < |b[1..]| && a[1..][..k] == b[1..][..k] && a[1..][k] < b[1..][k] {
        assert a[..k + 1] == [a[0]] + a[1..][..k] == b[..k + 1];
        assert a[k + 1] < b[k + 1];
      }
    } else if a != "" && b != "" {
      assert a[..0] == b[..0];
      if k :| 0 <= k < |a| && k < |b| && a[..k] == b[..k] && a[k] < b[k] {
        if k > 0 {
          assert a[..k][0] == b[..k][0];
        }
      }
    }
  }

  /** The characters `str.split()` treats as white space. */
  predicate IsSpace(c: char)
  {
    || '\t' <= c <= '\r' || '\U{1C}' <= c <= ' ' || c == '\U{85}' || c == '\U{A0}' || c == '\U{1680}'
    || '\U{2000}' <= c <= '\U{200A}' || c == '\U{2028}' || c == '\U{2029}' || c == '\U{202F}'
    || c == '\U{205F}' || c == '\U{3000}'
  }

  predicate IsSlash(c: char)
  {
    c == '/'
  }

  /** How many characters come before the first separator. */
  function RunLength(s: string, sep: char -> bool): (n: nat)
    ensures n <= |s|
    ensures forall i :: 0 <= i < n ==> !sep(s[i])
    ensures n < |s| ==> sep(s[n])
  {
    if s == "" || sep(s[0]) then 0 else 1 + RunLength(s[1..], sep)
  }

  /** The maximal runs of characters that are not separators. */
  function Split(s: string, sep: char -> bool): seq<string>
  {
    if s == "" then []
    else if sep(s[0]) then Split(s[1..], sep)
    else var n := RunLength(s, sep); [s[..n]] + Split(s[n..], sep)
  }

  function Join(glue: string, words: seq<string>): string
  {
    if words == [] then "" else if |words| == 1 then words[0] else words[0] + glue + Join(glue, words[1..])
  }

  /** Text that `Split` can return as one piece. */
  predicate IsToken(w: string, sep: char -> bool)
  {
    w != "" && forall c :: c in w ==> !sep(c)
  }

  lemma {:induction false} SplitGivesTokens(s: string, sep: char -> bool)
    ensures forall w :: w in Split(s, sep) ==> IsToken(w, sep)
    decreases |s|
  {
    if s != "" {
      if sep(s[0]) {
        SplitGivesTokens(s[1..], sep);
      } else {
        SplitGivesTokens(s[RunLength(s, sep)..], sep);
      }
    }
  }

  lemma {:induction false} RunOfToken(w: string, rest: string, sep: char -> bool)
    requires forall c :: c in w ==> !sep(c)
    requires rest != "" ==> sep(rest[0])
    ensures RunLength(w + rest, sep) == |w|
  {
    if w == "" {
      assert w + rest == rest;
    } else {
      assert (w + rest)[1..] == w[1..] + rest;
      RunOfToken(w[1..], rest, sep);
    }
  }

  lemma {:induction false} SplitOfJoin(glue: char, words: seq<string>, sep: char -> bool)
    requires sep(glue)
    requires forall w :: w in words ==> IsToken(w, sep)
    ensures Split(Join([glue], words), sep) == words
  {
    if words != [] {
      var w, rest := words[0], words[1..];
      assert w in words;
      SplitOfJoin(glue, rest, sep);
      var tail := if rest == [] then "" else [glue] + Join([glue], rest);
      var s := w + tail;
      assert Join([glue], words) == s by {
        if rest == [] {
          assert w + "" == w;
        } else {
          assert (w + [glue]) + Join([glue], rest) == w + ([glue] + Join([glue], rest));
        }
      }
      RunOfToken(w, tail, sep);
      assert s[0] == w[0] && w[0] in w;
      assert s[..|w|] == w && s[|w|..] == tail;
      assert Split(tail, sep) == rest by {
        if rest != [] { assert tail[1..] == Join([glue], rest); }
      }
    }
  }

  /** Joining and splitting again gives the words back exactly when every word is one token. */
  lemma JoinSplitRoundTrip(glue: char, words: seq<string>, sep: char -> bool)
    requires sep(glue)
    ensures Split(Join([glue], words), sep) == words <==> forall w :: w in words ==> IsToken(w, sep)
  {
    SplitGivesTokens(Join([glue], words), sep);
    if forall w :: w in words ==> IsToken(w, sep) {
      SplitOfJoin(glue, words, sep);
    }
  }

  /* ----- splitting ----- */

  /** Runs do not reach across a separator. */
  lemma {:induction false} SplitAcross(a: string, c: char, b: string, sep: char -> bool)
    requires sep(c)
    ensures Split(a + [c] + b, sep) == Split(a, sep) + Split(b, sep)
    decreases |a|
  {
    var s := a + [c] + b;
    if a == "" {
      assert s[1..] == b;
    } else if sep(a[0]) {
      assert s[1..] == a[1..] + [c] + b;
      SplitAcross(a[1..], c, b, sep);
    } else {
      var n := RunLength(a, sep);
      var w, rest := a[..n], a[n..];
      SplitAcross(rest, c, b, sep);
      assert a == w + rest && s == w + (rest + [c] + b);
      SplitRun(w, rest, sep);
      SplitRun(w, rest + [c] + b, sep);
    }
  }

  /** A run in front is the first piece. */
  lemma SplitRun(w: string, rest: string, sep: char -> bool)
    requires IsToken(w, sep) && (rest != "" ==> sep(rest[0]))
    ensures Split(w + rest, sep) == [w] + Split(rest, sep)
  {
    RunOfToken(w, rest, sep);
    assert (w + rest)[0] == w[0] && w[0] in w;
    assert (w + rest)[..|w|] == w && (w + rest)[|w|..] == rest;
  }

  predicate OnlySeparators(s: string, sep: char -> bool)
  {
    forall c :: c in s ==> sep(c)
  }

  lemma {:induction false} SplitOfSeparators(s: string, sep: char -> bool)
    ensures Split(s, sep) == [] <==> OnlySeparators(s, sep)
  {
    if s != "" && sep(s[0]) {
      SplitOfSeparators(s[1..], sep);
      assert s == [s[0]] + s[1..];
    } else if s != "" {
      assert s[0] in s;
    }
  }

  /** Separators around a text change nothing. */
  lemma SplitPadded(left: string, s: string, right: string, sep: char -> bool)
    requires OnlySeparators(left, sep) && OnlySeparators(right, sep)
    ensures Split(left + s + right, sep) == Split(s, sep)
  {
    SplitPaddedLeft(left, s, sep);
    SplitPaddedRight(left + s, right, sep);
  }

  lemma {:induction false} SplitPaddedLeft(left: string, s: string, sep: char -> bool)
    requires OnlySeparators(left, sep)
    ensures Split(left + s, sep) == Split(s, sep)
  {
    if left == "" {
      assert left + s == s;
    } else {
      assert left[0] in left;
      assert (left + s)[1..] == left[1..] + s;
      SplitPaddedLeft(left[1..], s, sep);
    }
  }

  lemma SplitPaddedRight(s: string, right: string, sep: char -> bool)
    requires OnlySeparators(right, sep)
    ensures Split(s + right, sep) == Split(s, sep)
  {
    if right == "" {
      assert s + right == s;
    } else {
      assert right[0] in right;
      assert s + right == s + [right[0]] + right[1..];
      SplitAcross(s, right[0], right[1..], sep);
      SplitOfSeparators(right[1..], sep);
    }
  }
}
