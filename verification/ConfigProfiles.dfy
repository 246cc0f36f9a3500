/** Placeholder substitution in configuration profiles (src/project_maya/config_profiles.py). */
module ConfigProfiles {
  import opened Sequences

  const DATA_DIR := "${MAYA_DATA_DIR}"
  const INSTANCE_ID := "${MAYA_INSTANCE_ID}"

  /** The shape the scanner looks for: `${`, then text without `$` and `}`, then `}`. */
  predicate IsPlaceholder(p: string)
  {
    && |p| >= 3 && p[0] == '$' && p[1] == '{' && p[|p| - 1] == '}'
    && forall i :: 1 <= i < |p| - 1 ==> p[i] != '$' && p[i] != '}'
  }

  lemma SupportedPlaceholders()
    ensures IsPlaceholder(DATA_DIR) && IsPlaceholder(INSTANCE_ID) && DATA_DIR != INSTANCE_ID
  {
    assert DATA_DIR[7] != INSTANCE_ID[7];
  }

  /* ----- Python string operations ----- */

  /** `s.find("}", from)`. */
  function FindClose(s: string, from: nat): (i: int)
    requires from <= |s|
    ensures i == -1 || (from <= i < |s| && s[i] == '}')
    decreases |s| - from
  {
    if from == |s| then -1 else if s[from] == '}' then from else FindClose(s, from + 1)
  }

  /** It is the first one. */
  lemma {:induction false} CloseIsFirst(s: string, from: nat)
    requires from <= |s|
    ensures var i := FindClose(s, from); forall j :: from <= j < (if i == -1 then |s| else i) ==> s[j] != '}'
    decreases |s| - from
  {
    if from < |s| && s[from] != '}' {
      CloseIsFirst(s, from + 1);
    }
  }

  /** The first closing brace is found. */
  lemma {:induction false} CloseAt(s: string, from: nat, i: nat)
    requires from <= i < |s| && s[i] == '}' && forall j :: from <= j < i ==> s[j] != '}'
    ensures FindClose(s, from) == i
    decreases i - from
  {
    if from < i {
      CloseAt(s, from + 1, i);
    }
  }

  predicate OpensAt(s: string, i: nat)
  {
    i + 2 <= |s| && s[i] == '$' && s[i + 1] == '{'
  }

  /** `s.find("${", from)`. */
  function FindOpen(s: string, from: nat): (i: int)
    requires from <= |s|
    ensures i == -1 || (from <= i && OpensAt(s, i))
    decreases |s| - from
  {
    if from == |s| then -1 else if OpensAt(s, from) then from else FindOpen(s, from + 1)
  }

  lemma {:induction false} OpenIsFirst(s: string, from: nat)
    requires from <= |s|
    ensures var i := FindOpen(s, from); forall j :: from <= j < (if i == -1 then |s| else i) ==> !OpensAt(s, j)
    decreases |s| - from
  {
    if from < |s| && !OpensAt(s, from) {
      OpenIsFirst(s, from + 1);
    }
  }

  /** `s.replace(p, r)`: occurrences are replaced from the left and do not overlap. */
  function Replace(s: string, p: string, r: string): string
    requires p != ""
  {
    if s == "" then "" else if p <= s then r + Replace(s[|p|..], p, r) else [s[0]] + Replace(s[1..], p, r)
  }

  lemma {:induction false} ReplaceSkips(w: string, rest: string, p: string, r: string)
    requires p != "" && forall i :: 0 <= i < |w| ==> !(p <= (w + rest)[i..])
    ensures Replace(w + rest, p, r) == w + Replace(rest, p, r)
  {
    if w == "" {
      assert w + rest == rest;
    } else {
      assert (w + rest)[0..] == w + rest;
      assert (w + rest)[1..] == w[1..] + rest;
      forall i | 0 <= i < |w[1..]| ensures !(p <= (w[1..] + rest)[i..]) {
        assert (w[1..] + rest)[i..] == (w + rest)[i + 1..];
      }
      ReplaceSkips(w[1..], rest, p, r);
    }
  }

  /** Replacing by something shorter shortens a text in which there is something to replace. */
  lemma {:induction false} ReplaceShrinks(s: string, p: string, r: string, i: nat)
    requires |r| < |p| && i <= |s|
    ensures |Replace(s, p, r)| <= |s|
    ensures p <= s[i..] ==> |Replace(s, p, r)| < |s|
  {
    if s == "" {
    } else if p <= s {
      ReplaceShrinks(s[|p|..], p, r, 0);
    } else {
      assert s[0..] == s;
      if i > 0 {
        assert s[1..][i - 1..] == s[i..];
        ReplaceShrinks(s[1..], p, r, i - 1);
      } else {
        ReplaceShrinks(s[1..], p, r, 0);
      }
    }
  }

  /* ----- the scanner ----- */

  datatype Piece = Plain(c: char) | Token(text: string)

  /** The length of the token at the front of `s`, 0 when there is none. */
  function HeadLength(s: string): (n: nat)
    ensures n <= |s|
  {
    if OpensAt(s, 0) && FindClose(s, 2) != -1 then FindClose(s, 2) + 1 else 0
  }

  /** The text as the scanner sees it: tokens, and characters that belong to none. */
  function Pieces(s: string): seq<Piece>
  {
    if s == "" then []
    else if HeadLength(s) > 0 then [Token(s[..HeadLength(s)])] + Pieces(s[HeadLength(s)..])
    else [Plain(s[0])] + Pieces(s[1..])
  }

  /** The texts of the tokens. */
  function Tokens(s: string): set<string>
  {
    if s == "" then {}
    else if HeadLength(s) > 0 then {s[..HeadLength(s)]} + Tokens(s[HeadLength(s)..])
    else Tokens(s[1..])
  }

  lemma {:induction false} TokensArePieces(s: string, t: string)
    ensures t in Tokens(s) <==> Token(t) in Pieces(s)
    decreases |s|
  {
    if s != "" {
      TokensArePieces(if HeadLength(s) > 0 then s[HeadLength(s)..] else s[1..], t);
    }
  }

  function PieceText(p: Piece): string
  {
    match p case Plain(c) => [c] case Token(t) => t
  }

  function Flatten(ps: seq<Piece>): string
  {
    if ps == [] then "" else PieceText(ps[0]) + Flatten(ps[1..])
  }

  lemma FlattenFirst(p: Piece, ps: seq<Piece>)
    ensures Flatten([p] + ps) == PieceText(p) + Flatten(ps)
  {
    assert ([p] + ps)[1..] == ps;
  }

  /** How much of `s` its first piece takes. */
  function HeadSize(s: string): (n: nat)
    requires s != ""
    ensures 1 <= n <= |s|
  {
    if HeadLength(s) > 0 then HeadLength(s) else 1
  }

  function FirstPiece(s: string): (p: Piece)
    requires s != ""
    ensures PieceText(p) == s[..HeadSize(s)]
  {
    if HeadLength(s) > 0 then Token(s[..HeadLength(s)]) else Plain(s[0])
  }

  lemma PieceStep(s: string)
    requires s != ""
    ensures Pieces(s) == [FirstPiece(s)] + Pieces(s[HeadSize(s)..])
  {
  }

  lemma FlattensTo(p: Piece, ps: seq<Piece>, s: string, k: nat)
    requires k <= |s| && PieceText(p) == s[..k] && Flatten(ps) == s[k..]
    ensures Flatten([p] + ps) == s
  {
    FlattenFirst(p, ps);
    assert s == s[..k] + s[k..];
  }

  lemma {:induction false} PiecesLoseNothing(s: string)
    ensures Flatten(Pieces(s)) == s
    decreases |s|
  {
    if s != "" {
      var k := HeadSize(s);
      PieceStep(s);
      PiecesLoseNothing(s[k..]);
      FlattensTo(FirstPiece(s), Pieces(s[k..]), s, k);
    }
  }

  /** Text without a closing brace, or without a `$`, is all plain. */
  lemma {:induction false} PlainText(s: string, d: string, p: string, i: string)
    requires '}' !in s || '$' !in s
    ensures Tokens(s) == {}
    ensures Substitute(Pieces(s), d, p, i) == s
  {
    if s != "" {
      assert HeadLength(s) == 0;
      PlainText(s[1..], d, p, i);
    }
  }

  lemma SkipOne(s: string, start: nat)
    requires start < |s| && !OpensAt(s, start)
    ensures Tokens(s[start..]) == Tokens(s[start + 1..])
  {
    var t := s[start..];
    assert HeadLength(t) == 0;
    assert t[1..] == s[start + 1..];
  }

  lemma NoClosing(s: string, open: nat)
    requires OpensAt(s, open) && FindClose(s, open + 2) == -1
    ensures Tokens(s[open..]) == {}
  {
    var t := s[open..];
    CloseIsFirst(s, open + 2);
    forall j | 0 <= j < |t| ensures t[j] != '}' {
      assert t[j] == s[open + j];
    }
    PlainText(t, "", "", "");
  }

  lemma HeadAt(s: string, open: nat, close: nat)
    requires OpensAt(s, open) && close == FindClose(s, open + 2)
    ensures HeadLength(s[open..]) == close + 1 - open
  {
    var t := s[open..];
    CloseIsFirst(s, open + 2);
    CloseAt(t, 2, close - open);
  }

  lemma SplitDrop(s: string, from: nat, to: nat)
    requires from <= to <= |s|
    ensures s[from..] == s[from..to] + s[to..]
  {
  }

  lemma HeadToken(t: string, w: string, rest: string)
    requires t == w + rest && HeadLength(t) == |w| > 0
    ensures Tokens(t) == {w} + Tokens(rest)
  {
    assert t[..|w|] == w && t[|w|..] == rest;
  }

  lemma TokenAt(s: string, open: nat, close: nat)
    requires OpensAt(s, open) && close == FindClose(s, open + 2)
    ensures Tokens(s[open..]) == {s[open..close + 1]} + Tokens(s[close + 1..])
  {
    HeadAt(s, open, close);
    SplitDrop(s, open, close + 1);
    HeadToken(s[open..], s[open..close + 1], s[close + 1..]);
  }

  /** What the scanner returns when it goes on at `start` having found `found`. */
  function Collect(s: string, start: nat, found: set<string>): set<string>
    requires start <= |s|
    decreases |s| - start
  {
    var open := FindOpen(s, start);
    if open == -1 then found
    else
      var close := FindClose(s, open + 2);
      if close == -1 then found else Collect(s, close + 1, found + {s[open..close + 1]})
  }

  /** The tokens from each position on. */
  function SuffixTokens(s: string): nat -> set<string>
  {
    (i: nat) => if i <= |s| then Tokens(s[i..]) else {}
  }

  /** Going from position to position, `tokens` changes as the scanner goes. */
  ghost predicate ScansLike(s: string, tokens: nat -> set<string>)
  {
    && tokens(|s|) == {}
    && (forall i: nat {:trigger OpensAt(s, i)} :: i < |s| && !OpensAt(s, i) ==> tokens(i) == tokens(i + 1))
    && (forall i: nat {:trigger OpensAt(s, i)} :: OpensAt(s, i) ==>
          var close := FindClose(s, i + 2);
          tokens(i) == if close == -1 then {} else {s[i..close + 1]} + tokens(close + 1))
  }

  lemma PlainStep(s: string, i: nat)
    requires i < |s| && !OpensAt(s, i)
    ensures SuffixTokens(s)(i) == SuffixTokens(s)(i + 1)
  {
    SkipOne(s, i);
  }

  lemma UnclosedStep(s: string, i: nat)
    requires OpensAt(s, i) && FindClose(s, i + 2) == -1
    ensures SuffixTokens(s)(i) == {}
  {
    NoClosing(s, i);
  }

  lemma ClosedStep(s: string, i: nat, close: nat)
    requires OpensAt(s, i) && FindClose(s, i + 2) == close
    ensures SuffixTokens(s)(i) == {s[i..close + 1]} + SuffixTokens(s)(close + 1)
  {
    TokenAt(s, i, close);
  }

  lemma TokensScan(s: string)
    ensures ScansLike(s, SuffixTokens(s))
  {
    var tokens := SuffixTokens(s);
    assert tokens(|s|) == {} by { assert s[|s|..] == ""; }
    forall i: nat | i < |s| && !OpensAt(s, i) ensures tokens(i) == tokens(i + 1) {
      PlainStep(s, i);
    }
    forall i: nat | OpensAt(s, i)
      ensures var close := FindClose(s, i + 2);
        tokens(i) == if close == -1 then {} else {s[i..close + 1]} + tokens(close + 1)
    {
      if FindClose(s, i + 2) == -1 {
        UnclosedStep(s, i);
      } else {
        ClosedStep(s, i, FindClose(s, i + 2));
      }
    }
  }

  lemma {:induction false} SkipTo(s: string, tokens: nat -> set<string>, start: nat, open: nat)
    requires ScansLike(s, tokens)
    requires start <= open <= |s| && forall j :: start <= j < open ==> !OpensAt(s, j)
    ensures tokens(start) == tokens(open)
    decreases open - start
  {
    if start < open {
      assert !OpensAt(s, start);
      SkipTo(s, tokens, start + 1, open);
    }
  }

  lemma MoveOver<T>(found: set<T>, token: T, rest: set<T>, all: set<T>)
    requires all == {token} + rest
    ensures (found + {token}) + rest == found + all
  {
  }

  /** The scanner finds just the tokens. */
  lemma {:induction false} CollectsTokens(s: string, tokens: nat -> set<string>, start: nat, found: set<string>)
    requires ScansLike(s, tokens) && start <= |s|
    ensures Collect(s, start, found) == found + tokens(start)
    decreases |s| - start
  {
    var open := FindOpen(s, start);
    OpenIsFirst(s, start);
    SkipTo(s, tokens, start, if open == -1 then |s| else open);
    if open != -1 && FindClose(s, open + 2) != -1 {
      var close := FindClose(s, open + 2);
      var token := s[open..close + 1];
      CollectsTokens(s, tokens, close + 1, found + {token});
      MoveOver(found, token, tokens(close + 1), tokens(open));
    }
  }

  lemma CollectsAll(s: string)
    ensures Collect(s, 0, {}) == Tokens(s)
  {
    TokensScan(s);
    CollectsTokens(s, SuffixTokens(s), 0, {});
    assert s[0..] == s;
  }

  /** `_find_placeholders`. */
  method FindPlaceholders(value: string) returns (placeholders: set<string>)
    ensures placeholders == Tokens(value)
  {
    placeholders := {};
    var start := 0;
    ghost var all := Collect(value, 0, {});
    while true
      invariant 0 <= start <= |value|
      invariant Collect(value, start, placeholders) == all
      decreases |value| - start
    {
      var open := FindOpen(value, start);
      if open == -1 {
        break;
      }
      var close := FindClose(value, open + 2);
      if close == -1 {
        break;
      }
      placeholders := placeholders + {value[open..close + 1]};
      start := close + 1;
    }
    assert placeholders == all;
    CollectsAll(value);
  }

  /* ----- substitution ----- */

  /** Simultaneous substitution of the tokens: the text `d` for placeholder one (`p`), `i` for every other. */
  function Substitute(ps: seq<Piece>, d: string, p: string, i: string): string
  {
    if ps == [] then ""
    else (match ps[0] case Plain(c) => [c] case Token(t) => if t == p then d else i) + Substitute(ps[1..], d, p, i)
  }

  predicate AcceptedBy(s: string, p: string, q: string)
  {
    forall t :: t in Tokens(s) ==> t == p || t == q
  }

  /** What the loop over the replacements computes. */
  function Sequential(s: string, p: string, q: string, d: string, i: string): string
    requires p != "" && q != ""
  {
    Replace(Replace(s, p, d), q, i)
  }

  lemma AcceptedTail(s: string, p: string, q: string)
    requires s != "" && AcceptedBy(s, p, q)
    ensures var n := HeadLength(s);
      if n > 0 then (s[..n] == p || s[..n] == q) && AcceptedBy(s[n..], p, q) else AcceptedBy(s[1..], p, q)
  {
    var n := HeadLength(s);
    if n > 0 {
      assert Tokens(s) == {s[..n]} + Tokens(s[n..]);
      assert s[..n] in Tokens(s);
    } else {
      assert Tokens(s) == Tokens(s[1..]);
    }
  }

  /** An occurrence of a placeholder at the front is the token at the front. */
  lemma OccurrenceIsHead(s: string, p: string)
    requires IsPlaceholder(p) && p <= s
    ensures HeadLength(s) == |p| && s[..|p|] == p
  {
    assert s[0] == p[0] && s[1] == p[1];
    CloseAt(s, 2, |p| - 1);
  }

  /** No placeholder starts inside another. */
  lemma NoneInside(p: string, s: string, i: nat, q: string)
    requires IsPlaceholder(p) && IsPlaceholder(q) && p <= s && 0 < i < |p|
    ensures !(q <= s[i..])
  {
    assert s[i..][0] == s[i] == p[i];
  }

  lemma HeadEndsBefore(s: string, p: string, q: string, i: nat)
    requires IsPlaceholder(p) && IsPlaceholder(q) && AcceptedBy(s, p, q)
    requires 0 < i < |s| && p <= s[i..]
    ensures HeadSize(s) <= i && AcceptedBy(s[HeadSize(s)..], p, q)
  {
    AcceptedTail(s, p, q);
    var k := HeadSize(s);
    if i < k {
      NoneInside(s[..k], s, i, p);
    }
  }

  /** Every occurrence of a supported placeholder in accepted text is one of the scanned tokens. */
  lemma {:induction false} OccurrenceIsToken(s: string, p: string, q: string, i: nat) returns (n: nat)
    requires IsPlaceholder(p) && IsPlaceholder(q) && AcceptedBy(s, p, q)
    requires i < |s| && p <= s[i..]
    ensures n < |Pieces(s)| && Pieces(s)[n] == Token(p) && Flatten(Pieces(s)[..n]) == s[..i]
    ensures p in Tokens(s)
    decreases |s|
  {
    if i == 0 {
      assert s[0..] == s;
      OccurrenceIsHead(s, p);
      n := 0;
    } else {
      var k := HeadSize(s);
      HeadEndsBefore(s, p, q, i);
      TakeSplit(s, k, i);
      var m := OccurrenceIsToken(s[k..], p, q, i - k);
      n := m + 1;
      FlattenFront(s, m);
    }
    TokensArePieces(s, p);
  }

  lemma FlattenFront(s: string, m: nat)
    requires s != "" && m <= |Pieces(s[HeadSize(s)..])|
    ensures var rest := Pieces(s[HeadSize(s)..]);
      && |Pieces(s)| == |rest| + 1 && Pieces(s)[1..] == rest
      && Flatten(Pieces(s)[..m + 1]) == s[..HeadSize(s)] + Flatten(rest[..m])
  {
    var rest := Pieces(s[HeadSize(s)..]);
    PieceStep(s);
    assert Pieces(s)[..m + 1] == [FirstPiece(s)] + rest[..m];
    FlattenFirst(FirstPiece(s), rest[..m]);
  }

  lemma DropOfConcat(x: string, y: string, k: nat)
    requires k <= |x|
    ensures (x + y)[k..] == x[k..] + y
  {
  }

  lemma TakeSplit(s: string, k: nat, i: nat)
    requires k <= i <= |s|
    ensures s[..i] == s[..k] + s[k..][..i - k] && s[k..][i - k..] == s[i..]
  {
  }

  lemma PrefixOfConcat(q: string, x: string, y: string)
    requires q <= x + y
    ensures q <= x || x <= q
  {
    if |q| <= |x| {
      assert q == (x + y)[..|q|] == x[..|q|];
    } else {
      assert x == (x + y)[..|x|] == q[..|x|];
    }
  }

  lemma OnlyOneAtFront(p: string, q: string, rest: string)
    requires IsPlaceholder(p) && IsPlaceholder(q) && p != q
    ensures !(p <= q + rest)
  {
    if p <= q + rest {
      OccurrenceIsHead(q + rest, q);
      OccurrenceIsHead(q + rest, p);
    }
  }

  /** The first replacement substitutes exactly the tokens of the first placeholder. */
  lemma {:induction false} FirstReplacement(s: string, p: string, q: string, d: string)
    requires IsPlaceholder(p) && IsPlaceholder(q) && p != q && AcceptedBy(s, p, q)
    ensures Replace(s, p, d) == Substitute(Pieces(s), d, p, q)
    decreases |s|
  {
    if s != "" {
      AcceptedTail(s, p, q);
      var n := HeadLength(s);
      if n > 0 {
        FirstReplacement(s[n..], p, q, d);
        if s[..n] != p {
          assert s == q + s[n..];
          forall i | 0 <= i < |q| ensures !(p <= s[i..]) {
            if i == 0 {
              assert s[0..] == s;
              OnlyOneAtFront(p, q, s[n..]);
            } else {
              NoneInside(q, s, i, p);
            }
          }
          ReplaceSkips(q, s[n..], p, d);
        }
      } else {
        if p <= s {
          OccurrenceIsHead(s, p);
        }
        FirstReplacement(s[1..], p, q, d);
      }
    }
  }

  /** At no position of `d` does `q` match as far as `d` goes: `d` neither contains `q` nor ends in a
      beginning of it. */
  predicate Clean(d: string, q: string)
  {
    forall i :: 0 <= i < |d| ==> !(q <= d[i..]) && !(d[i..] <= q)
  }

  /** Not even behind a `$` does `d` contain `q` or end in a beginning of it. */
  predicate Safe(d: string, q: string)
  {
    Clean("$" + d, q)
  }

  lemma DollarSuffix(d: string, i: nat)
    requires i <= |d|
    ensures ("$" + d)[i + 1..] == d[i..] && ("$" + d)[0..] == "$" + d
  {
  }

  lemma SafeImpliesClean(d: string, q: string)
    requires IsPlaceholder(q) && Safe(d, q)
    ensures Clean(d, q) && !(q <= "$" + d) && !("$" + d <= q) && d != ""
  {
    DollarSuffix(d, 0);
    forall i | 0 <= i < |d| ensures !(q <= d[i..]) && !(d[i..] <= q) {
      DollarSuffix(d, i);
    }
  }

  lemma SafeIff(d: string, q: string)
    requires IsPlaceholder(q)
    ensures Safe(d, q) <==> Clean(d, q) && !(q <= "$" + d) && !("$" + d <= q)
    ensures Safe(d, q) ==> d != ""
  {
    if Safe(d, q) {
      SafeImpliesClean(d, q);
    } else {
      var i :| 0 <= i < |"$" + d| && (q <= ("$" + d)[i..] || ("$" + d)[i..] <= q);
      DollarSuffix(d, if i == 0 then 0 else i - 1);
    }
  }

  /** The `$` in front matters only for a text that is empty or begins with a brace. */
  lemma SafeIsClean(d: string, q: string)
    requires IsPlaceholder(q) && d != "" && d[0] != '{'
    ensures Safe(d, q) <==> Clean(d, q)
  {
    SafeIff(d, q);
    assert ("$" + d)[1] == d[0];
  }

  /** How the text after the first replacement begins. */
  lemma FirstChar(s: string, p: string, q: string, d: string)
    requires AcceptedBy(s, p, q) && d != "" && q != ""
    ensures var r := Substitute(Pieces(s), d, p, q);
      if s == "" then r == ""
      else r != "" && r[0] == if HeadLength(s) == 0 then s[0] else if s[..HeadLength(s)] == p then d[0] else q[0]
  {
    if s != "" {
      AcceptedTail(s, p, q);
    }
  }

  /** After an opening that nothing closes all is plain, so no placeholder occurs. */
  lemma UnclosedStaysPlain(s: string, p: string, q: string, d: string)
    requires IsPlaceholder(q) && OpensAt(s, 0) && HeadLength(s) == 0
    ensures Substitute(Pieces(s), d, p, q) == s && !(q <= s)
  {
    var tail := s[1..];
    CloseIsFirst(s, 2);
    forall j | 0 <= j < |tail| ensures tail[j] != '}' {
      assert tail[j] == s[j + 1];
    }
    PlainText(tail, d, p, q);
    if q <= s {
      OccurrenceIsHead(s, q);
    }
  }

  /** A plain character does not start an occurrence of `q` in the text after the first replacement. */
  lemma PlainStaysPlain(s: string, p: string, q: string, d: string)
    requires IsPlaceholder(p) && IsPlaceholder(q) && AcceptedBy(s, p, q)
    requires Safe(d, q) && s != "" && HeadLength(s) == 0
    ensures !(q <= Substitute(Pieces(s), d, p, q))
  {
    var rest := s[1..];
    var r := Substitute(Pieces(rest), d, p, q);
    AcceptedTail(s, p, q);
    SafeIff(d, q);
    FirstChar(rest, p, q, d);
    if OpensAt(s, 0) {
      UnclosedStaysPlain(s, p, q, d);
    } else if HeadLength(rest) > 0 && rest[..HeadLength(rest)] == p && s[0] == '$' {
      var tail := Substitute(Pieces(rest[HeadLength(rest)..]), d, p, q);
      assert r == d + tail;
      NotBehindDollar(d, tail, q);
    }
  }

  lemma NotBehindDollar(d: string, tail: string, q: string)
    requires IsPlaceholder(q) && Safe(d, q)
    ensures !(q <= "$" + (d + tail))
  {
    SafeIff(d, q);
    assert "$" + (d + tail) == ("$" + d) + tail;
    if q <= ("$" + d) + tail {
      PrefixOfConcat(q, "$" + d, tail);
    }
  }

  lemma CleanBefore(d: string, r: string, q: string)
    requires Clean(d, q)
    ensures forall i :: 0 <= i < |d| ==> !(q <= (d + r)[i..])
  {
    forall i | 0 <= i < |d| ensures !(q <= (d + r)[i..]) {
      DropOfConcat(d, r, i);
      if q <= d[i..] + r {
        PrefixOfConcat(q, d[i..], r);
      }
    }
  }

  /** The second replacement then substitutes exactly the tokens of the second placeholder. */
  lemma {:induction false} SecondReplacement(s: string, p: string, q: string, d: string, i: string)
    requires IsPlaceholder(p) && IsPlaceholder(q) && p != q && AcceptedBy(s, p, q)
    requires Safe(d, q)
    ensures Replace(Substitute(Pieces(s), d, p, q), q, i) == Substitute(Pieces(s), d, p, i)
    decreases |s|
  {
    if s != "" {
      AcceptedTail(s, p, q);
      var n := HeadLength(s);
      var rest := if n > 0 then s[n..] else s[1..];
      var r := Substitute(Pieces(rest), d, p, q);
      SecondReplacement(rest, p, q, d, i);
      if n > 0 && s[..n] == p {
        SafeImpliesClean(d, q);
        CleanBefore(d, r, q);
        ReplaceSkips(d, r, q, i);
      } else if n > 0 {
        assert q <= q + r && (q + r)[|q|..] == r;
      } else {
        PlainStaysPlain(s, p, q, d);
        assert ([s[0]] + r)[1..] == r;
      }
    }
  }

  /** A placeholder followed by text without a `$` is one token and plain text. */
  lemma TokenThenPlain(p: string, rest: string, d: string, i: string)
    requires IsPlaceholder(p) && '$' !in rest
    ensures Tokens(p + rest) == {p} && Substitute(Pieces(p + rest), d, p, i) == d + rest
  {
    OccurrenceIsHead(p + rest, p);
    assert (p + rest)[|p|..] == rest;
    PlainText(rest, d, p, i);
  }

  /** What is missing after `x` for an occurrence of `q`. */
  function Completion(x: string, q: string): string
    requires q <= x || x <= q
  {
    if q <= x then "" else q[|x|..]
  }

  lemma Completed(x: string, q: string)
    requires x != "" && IsPlaceholder(q) && (q <= x || x <= q)
    ensures q <= x + Completion(x, q) && '$' !in Completion(x, q)
  {
    if !(q <= x) {
      assert q == x + q[|x|..];
    }
  }

  /** With a `$` in front. */
  lemma DollarTokenThenPlain(p: string, rest: string, d: string, i: string)
    requires IsPlaceholder(p) && '$' !in rest
    ensures Tokens("$" + (p + rest)) == {p} && Substitute(Pieces("$" + (p + rest)), d, p, i) == "$" + (d + rest)
  {
    var s := "$" + (p + rest);
    TokenThenPlain(p, rest, d, i);
    assert s[1] == p[0] && s[1..] == p + rest;
    assert HeadLength(s) == 0;
    assert [s[0]] == "$";
  }

  /** A data directory that is not safe makes some accepted text come out different. */
  lemma UnsafeCounterexample(p: string, q: string, d: string) returns (s: string, i: string)
    requires IsPlaceholder(p) && IsPlaceholder(q) && p != q && !Safe(d, q)
    ensures AcceptedBy(s, p, q) && i != "" && Sequential(s, p, q, d, i) != Substitute(Pieces(s), d, p, i)
  {
    i := "x";
    SafeIff(d, q);
    if !Clean(d, q) {
      s := UncleanText(p, q, d, i);
    } else {
      s := BracedText(p, q, d, i);
    }
  }

  lemma UncleanText(p: string, q: string, d: string, i: string) returns (s: string)
    requires IsPlaceholder(p) && IsPlaceholder(q) && p != q && !Clean(d, q) && |i| == 1
    ensures AcceptedBy(s, p, q) && Sequential(s, p, q, d, i) != Substitute(Pieces(s), d, p, i)
  {
    var k :| 0 <= k < |d| && (q <= d[k..] || d[k..] <= q);
    var rest := Completion(d[k..], q);
    s := p + rest;
    Completed(d[k..], q);
    TokenThenPlain(p, rest, d, q);
    TokenThenPlain(p, rest, d, i);
    FirstReplacement(s, p, q, d);
    DropOfConcat(d, rest, k);
    ReplaceShrinks(d + rest, q, i, k);
  }

  lemma BracedText(p: string, q: string, d: string, i: string) returns (s: string)
    requires IsPlaceholder(p) && IsPlaceholder(q) && p != q && (q <= "$" + d || "$" + d <= q) && |i| == 1
    ensures AcceptedBy(s, p, q) && Sequential(s, p, q, d, i) != Substitute(Pieces(s), d, p, i)
  {
    var rest := Completion("$" + d, q);
    var result := "$" + (d + rest);
    s := "$" + (p + rest);
    Completed("$" + d, q);
    assert result == ("$" + d) + rest;
    DollarTokenThenPlain(p, rest, d, q);
    DollarTokenThenPlain(p, rest, d, i);
    FirstReplacement(s, p, q, d);
    assert result[0..] == result;
    ReplaceShrinks(result, q, i, 0);
  }

  /** Replacing the two placeholders one after the other is the simultaneous substitution of the scanned
      tokens, for every text the scanner accepts and every instance id, exactly when the data directory, put
      behind a `$`, neither contains the second placeholder nor ends in a beginning of it. */
  lemma SequentialIsSimultaneousIff(d: string)
    ensures (forall s, i | AcceptedBy(s, DATA_DIR, INSTANCE_ID) ::
               Sequential(s, DATA_DIR, INSTANCE_ID, d, i) == Substitute(Pieces(s), d, DATA_DIR, i))
            <==> Safe(d, INSTANCE_ID)
  {
    SupportedPlaceholders();
    if Safe(d, INSTANCE_ID) {
      forall s, i | AcceptedBy(s, DATA_DIR, INSTANCE_ID)
        ensures Sequential(s, DATA_DIR, INSTANCE_ID, d, i) == Substitute(Pieces(s), d, DATA_DIR, i)
      {
        FirstReplacement(s, DATA_DIR, INSTANCE_ID, d);
        SecondReplacement(s, DATA_DIR, INSTANCE_ID, d, i);
      }
    } else {
      var s, i := UnsafeCounterexample(DATA_DIR, INSTANCE_ID, d);
    }
  }

  /** In particular a data directory without a dollar sign is safe unless it is empty or begins with a brace. */
  lemma NoDollarIsSafe(d: string, q: string)
    requires '$' !in d && IsPlaceholder(q)
    ensures Clean(d, q)
    ensures d != "" && d[0] != '{' ==> Safe(d, q)
  {
    forall i | 0 <= i < |d| ensures !(q <= d[i..]) && !(d[i..] <= q) {
      assert d[i] == d[i..][0] && d[i] in d;
    }
    if d != "" && d[0] != '{' {
      SafeIsClean(d, q);
    }
  }

  /* ----- whole profiles ----- */

  datatype Json = Text(value: string) | Scalar(shown: string) | List(items: seq<Json>)
                | Object(keys: seq<string>, values: seq<Json>)

  datatype Replacements = Replacements(dataDir: string, instanceId: string)

  /** `Unsupported` carries the unknown placeholders of the first text, in document order, that has any. */
  datatype Resolved<+T> = Ok(value: T) | Unsupported(unknown: set<string>)

  function Unknown(s: string): set<string>
  {
    Tokens(s) - {DATA_DIR, INSTANCE_ID}
  }

  /** `_resolve_placeholders`; object keys are left alone. */
  function Resolve(j: Json, r: Replacements): Resolved<Json>
    decreases j, 1
  {
    match j
    case Text(s) =>
      if Unknown(s) != {} then Unsupported(Unknown(s))
      else Ok(Text(Sequential(s, DATA_DIR, INSTANCE_ID, r.dataDir, r.instanceId)))
    case Scalar(_) => Ok(j)
    case List(items) =>
      (match ResolveItems(items, r) case Ok(v) => Ok(List(v)) case Unsupported(u) => Unsupported(u))
    case Object(keys, values) =>
      (match ResolveItems(values, r) case Ok(v) => Ok(Object(keys, v)) case Unsupported(u) => Unsupported(u))
  }

  function ResolveItems(items: seq<Json>, r: Replacements): Resolved<seq<Json>>
    decreases items, 0
  {
    if items == [] then Ok([])
    else match Resolve(items[0], r)
      case Unsupported(u) => Unsupported(u)
      case Ok(first) =>
        match ResolveItems(items[1..], r) case Unsupported(u) => Unsupported(u) case Ok(rest) => Ok([first] + rest)
  }

  /** The profile with every token of every text substituted at once. */
  function SubstituteAll(j: Json, r: Replacements): Json
  {
    match j
    case Text(s) => Text(Substitute(Pieces(s), r.dataDir, DATA_DIR, r.instanceId))
    case Scalar(_) => j
    case List(items) => List(seq(|items|, k requires 0 <= k < |items| => SubstituteAll(items[k], r)))
    case Object(keys, values) =>
      Object(keys, seq(|values|, k requires 0 <= k < |values| => SubstituteAll(values[k], r)))
  }

  predicate AllAccepted(j: Json)
  {
    match j
    case Text(s) => AcceptedBy(s, DATA_DIR, INSTANCE_ID)
    case Scalar(_) => true
    case List(items) => forall k :: 0 <= k < |items| ==> AllAccepted(items[k])
    case Object(_, values) => forall k :: 0 <= k < |values| ==> AllAccepted(values[k])
  }

  lemma UnknownIsRejected(s: string)
    ensures Unknown(s) == {} <==> AcceptedBy(s, DATA_DIR, INSTANCE_ID)
  {
    if Unknown(s) == {} {
      forall t | t in Tokens(s) ensures t == DATA_DIR || t == INSTANCE_ID {
        assert t !in Unknown(s);
      }
    }
  }

  /** A value resolves exactly when every text in it has supported placeholders only, whatever replaces
      them. */
  lemma {:induction false} ResolveSucceedsIff(j: Json, r: Replacements)
    ensures Resolve(j, r).Ok? <==> AllAccepted(j)
    decreases j, 1
  {
    match j
    case Text(s) => UnknownIsRejected(s);
    case Scalar(_) =>
    case List(items) => ResolveItemsSucceedsIff(items, r);
    case Object(_, values) => ResolveItemsSucceedsIff(values, r);
  }

  lemma {:induction false} ResolveItemsSucceedsIff(items: seq<Json>, r: Replacements)
    ensures ResolveItems(items, r).Ok? <==> forall k :: 0 <= k < |items| ==> AllAccepted(items[k])
    decreases items, 0
  {
    if items != [] {
      ResolveSucceedsIff(items[0], r);
      ResolveItemsSucceedsIff(items[1..], r);
      assert forall k :: 1 <= k < |items| ==> items[k] == items[1..][k - 1];
      assert forall k :: 0 <= k < |items| - 1 ==> items[1..][k] == items[k + 1];
    }
  }

  lemma ResolveText(s: string, r: Replacements)
    requires Safe(r.dataDir, INSTANCE_ID) && Resolve(Text(s), r).Ok?
    ensures Resolve(Text(s), r).value == SubstituteAll(Text(s), r)
  {
    UnknownIsRejected(s);
    SupportedPlaceholders();
    FirstReplacement(s, DATA_DIR, INSTANCE_ID, r.dataDir);
    SecondReplacement(s, DATA_DIR, INSTANCE_ID, r.dataDir, r.instanceId);
  }

  /** What resolves comes out with the tokens of every text substituted at once, and with structure, keys and
      other values as they were. */
  lemma {:induction false} ResolveIsSubstitution(j: Json, r: Replacements)
    requires Safe(r.dataDir, INSTANCE_ID) && Resolve(j, r).Ok?
    ensures Resolve(j, r).value == SubstituteAll(j, r)
    decreases j, 1
  {
    match j
    case Text(s) => ResolveText(s, r);
    case Scalar(_) =>
    case List(items) => ResolveItemsIsSubstitution(items, r);
    case Object(_, values) => ResolveItemsIsSubstitution(values, r);
  }

  lemma {:induction false} ResolveItemsIsSubstitution(items: seq<Json>, r: Replacements)
    requires Safe(r.dataDir, INSTANCE_ID) && ResolveItems(items, r).Ok?
    ensures |ResolveItems(items, r).value| == |items|
    ensures forall k :: 0 <= k < |items| ==> ResolveItems(items, r).value[k] == SubstituteAll(items[k], r)
    decreases items, 0
  {
    if items != [] {
      ResolveIsSubstitution(items[0], r);
      ResolveItemsIsSubstitution(items[1..], r);
      assert forall k :: 1 <= k < |items| ==> items[k] == items[1..][k - 1];
    }
  }

  predicate NoTokens(j: Json)
  {
    match j
    case Text(s) => '$' !in s
    case Scalar(_) => true
    case List(items) => forall k :: 0 <= k < |items| ==> NoTokens(items[k])
    case Object(_, values) => forall k :: 0 <= k < |values| ==> NoTokens(values[k])
  }

  lemma {:induction false} ReplaceNothing(s: string, p: string, r: string)
    requires IsPlaceholder(p) && '$' !in s
    ensures Replace(s, p, r) == s
  {
    if s != "" {
      assert s[0] in s;
      ReplaceNothing(s[1..], p, r);
      assert s == [s[0]] + s[1..];
    }
  }

  /** A profile without a `$` in its texts resolves to itself, whatever the replacements. */
  lemma {:induction false} PlainProfileStays(j: Json, r: Replacements)
    requires NoTokens(j)
    ensures Resolve(j, r) == Ok(j)
    decreases j, 1
  {
    match j
    case Text(s) =>
      SupportedPlaceholders();
      PlainText(s, "", "", "");
      ReplaceNothing(s, DATA_DIR, r.dataDir);
      ReplaceNothing(s, INSTANCE_ID, r.instanceId);
    case Scalar(_) =>
    case List(items) => PlainItemsStay(items, r);
    case Object(_, values) => PlainItemsStay(values, r);
  }

  lemma {:induction false} PlainItemsStay(items: seq<Json>, r: Replacements)
    requires forall k :: 0 <= k < |items| ==> NoTokens(items[k])
    ensures ResolveItems(items, r) == Ok(items)
    decreases items, 0
  {
    if items != [] {
      PlainProfileStays(items[0], r);
      PlainItemsStay(items[1..], r);
      assert items == [items[0]] + items[1..];
    }
  }

  /** A list resolves item by item, an object value by value under its own keys. */
  lemma {:induction false} ResolvesItemByItem(items: seq<Json>, r: Replacements)
    ensures ResolveItems(items, r).Ok? <==> forall k :: 0 <= k < |items| ==> Resolve(items[k], r).Ok?
    ensures ResolveItems(items, r).Ok? ==> |ResolveItems(items, r).value| == |items|
    ensures ResolveItems(items, r).Ok? ==>
      forall k :: 0 <= k < |items| ==> Resolve(items[k], r) == Ok(ResolveItems(items, r).value[k])
  {
    if items != [] {
      ResolvesItemByItem(items[1..], r);
      assert forall k :: 1 <= k < |items| ==> items[k] == items[1..][k - 1];
      assert forall k :: 0 <= k < |items| - 1 ==> items[1..][k] == items[k + 1];
    }
  }

  lemma ResolvedShape(items: seq<Json>, keys: seq<string>, r: Replacements)
    ensures Resolve(List(items), r).Ok? ==>
      && Resolve(List(items), r).value.List? && |Resolve(List(items), r).value.items| == |items|
      && forall k :: 0 <= k < |items| ==> Resolve(items[k], r) == Ok(Resolve(List(items), r).value.items[k])
    ensures Resolve(Object(keys, items), r).Ok? ==>
      && Resolve(Object(keys, items), r).value.Object? && Resolve(Object(keys, items), r).value.keys == keys
      && |Resolve(Object(keys, items), r).value.values| == |items|
      && forall k :: 0 <= k < |items| ==> Resolve(items[k], r) == Ok(Resolve(Object(keys, items), r).value.values[k])
  {
    ResolvesItemByItem(items, r);
  }

  /** The text case of `_resolve_placeholders`: the scan, then the loop over the replacements. */
  method ResolveOneText(s: string, r: Replacements) returns (result: Resolved<string>)
    ensures result == if Unknown(s) != {} then Unsupported(Unknown(s))
                      else Ok(Sequential(s, DATA_DIR, INSTANCE_ID, r.dataDir, r.instanceId))
  {
    var found := FindPlaceholders(s);
    var unknown := found - {DATA_DIR, INSTANCE_ID};
    if unknown != {} {
      return Unsupported(unknown);
    }
    var value := s;
    var replacements := [(DATA_DIR, r.dataDir), (INSTANCE_ID, r.instanceId)];
    for i := 0 to 2
      invariant value == if i == 0 then s else if i == 1 then Replace(s, DATA_DIR, r.dataDir)
                         else Sequential(s, DATA_DIR, INSTANCE_ID, r.dataDir, r.instanceId)
    {
      value := Replace(value, replacements[i].0, replacements[i].1);
    }
    result := Ok(value);
  }

  datatype Loaded = Profile(value: Json) | NotAbsolute | NotAnObject | UnsupportedPlaceholders(unknown: set<string>)

  /** What the path type says about the data directory, on the platform at hand. */
  datatype DataDirectory = DataDirectory(text: string, isAbsolute: bool, name: string)

  /** A missing or empty instance id is replaced by the name of the data directory. */
  function InstanceOf(dir: DataDirectory, instanceId: Option<string>): string
  {
    if instanceId == None || instanceId.value == "" then dir.name else instanceId.value
  }

  /** `load_config_profile` up to the conversion of the resolved mapping. */
  function Load(raw: Json, dir: DataDirectory, instanceId: Option<string>): Loaded
  {
    if !dir.isAbsolute then NotAbsolute
    else if !raw.Object? then NotAnObject
    else
      match Resolve(raw, Replacements(dir.text, InstanceOf(dir, instanceId)))
      case Ok(v) => Profile(v)
      case Unsupported(u) => UnsupportedPlaceholders(u)
  }

  /** Loading succeeds exactly for an absolute directory and an object with supported placeholders only, and
      over a safe directory it gives the simultaneous substitution. */
  lemma LoadSubstitutes(raw: Json, dir: DataDirectory, instanceId: Option<string>)
    ensures Load(raw, dir, instanceId).Profile? <==> dir.isAbsolute && raw.Object? && AllAccepted(raw)
    ensures Load(raw, dir, instanceId) == NotAbsolute <==> !dir.isAbsolute
    ensures Load(raw, dir, instanceId) == NotAnObject <==> dir.isAbsolute && !raw.Object?
    ensures Load(raw, dir, instanceId).Profile? && Safe(dir.text, INSTANCE_ID) ==>
      var id := if instanceId == None || instanceId.value == "" then dir.name else instanceId.value;
      Load(raw, dir, instanceId).value == SubstituteAll(raw, Replacements(dir.text, id))
  {
    var r := Replacements(dir.text, InstanceOf(dir, instanceId));
    ResolveSucceedsIff(raw, r);
    if Load(raw, dir, instanceId).Profile? && Safe(dir.text, INSTANCE_ID) {
      ResolveIsSubstitution(raw, r);
    }
  }

  /** The directory must be safe for that: otherwise some profile loads and comes out different. */
  lemma UnsafeProfile(dir: DataDirectory) returns (raw: Json, id: string)
    requires dir.isAbsolute && !Safe(dir.text, INSTANCE_ID)
    ensures Load(raw, dir, Some(id)).Profile?
    ensures Load(raw, dir, Some(id)).value != SubstituteAll(raw, Replacements(dir.text, id))
  {
    SupportedPlaceholders();
    var s: string;
    s, id := UnsafeCounterexample(DATA_DIR, INSTANCE_ID, dir.text);
    var r := Replacements(dir.text, id);
    raw := OneText(s);
    UnknownIsRejected(s);
    ResolveOneTextObject(s, r);
    SubstituteOneText(s, r);
  }

  /** An object with a single text. */
  function OneText(s: string): Json
  {
    Object(["key"], [Text(s)])
  }

  lemma ResolveOneTextObject(s: string, r: Replacements)
    requires Unknown(s) == {}
    ensures Resolve(OneText(s), r) == Ok(OneText(Sequential(s, DATA_DIR, INSTANCE_ID, r.dataDir, r.instanceId)))
  {
    var items, text := [Text(s)], Text(Sequential(s, DATA_DIR, INSTANCE_ID, r.dataDir, r.instanceId));
    assert items[1..] == [];
    assert ResolveItems(items[1..], r) == Ok([]);
    assert [text] + [] == [text];
    assert ResolveItems(items, r) == Ok([text]);
  }

  lemma SubstituteOneText(s: string, r: Replacements)
    ensures SubstituteAll(OneText(s), r) == OneText(Substitute(Pieces(s), r.dataDir, DATA_DIR, r.instanceId))
  {
    assert SubstituteAll(OneText(s), r).values == [SubstituteAll(Text(s), r)];
  }
}
