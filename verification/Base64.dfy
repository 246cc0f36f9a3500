/** The unpadded URL-safe base64 of the broker protocol (`_b64` and `_unb64` in src/project_maya/broker.py). */
module Base64 {
  import opened Sequences

  type byte = b: nat | b < 256

  const PAD := '='

  /** The URL-safe alphabet of section 5 of RFC 4648. */
  function Symbol(v: nat): char
    requires v < 64
  {
    if v < 26 then 'A' + v as char
    else if v < 52 then 'a' + (v - 26) as char
    else if v < 62 then '0' + (v - 52) as char
    else if v == 62 then '-' else '_'
  }

  /** The decoder reads both alphabets. */
  function Value(c: char): Option<nat>
  {
    if 'A' <= c <= 'Z' then Some((c - 'A') as nat)
    else if 'a' <= c <= 'z' then Some((c - 'a') as nat + 26)
    else if '0' <= c <= '9' then Some((c - '0') as nat + 52)
    else if c == '-' || c == '+' then Some(62)
    else if c == '_' || c == '/' then Some(63)
    else None
  }

  lemma ValueOfSymbol(v: nat)
    requires v < 64
    ensures Value(Symbol(v)) == Some(v) && Symbol(v) != PAD && Symbol(v) < '\U{80}'
  {
  }

  function Group(a: byte, b: byte, c: byte): string
  {
    [Symbol(a / 4), Symbol(a % 4 * 16 + b / 16), Symbol(b % 16 * 4 + c / 64), Symbol(c % 64)]
  }

  /** `base64.urlsafe_b64encode`: three bytes become four symbols, a shorter rest is padded to four. */
  function Encode(bytes: seq<byte>): string
  {
    if bytes == [] then ""
    else if |bytes| == 1 then
      [Symbol(bytes[0] / 4), Symbol(bytes[0] % 4 * 16), PAD, PAD]
    else if |bytes| == 2 then
      [Symbol(bytes[0] / 4), Symbol(bytes[0] % 4 * 16 + bytes[1] / 16), Symbol(bytes[1] % 16 * 4), PAD]
    else
      Group(bytes[0], bytes[1], bytes[2]) + Encode(bytes[3..])
  }

  /** `s.rstrip("=")`. */
  function StripPadding(s: string): string
  {
    if s != "" && s[|s| - 1] == PAD then StripPadding(s[..|s| - 1]) else s
  }

  function Pads(n: nat): string
  {
    seq(n, _ => PAD)
  }

  function B64(bytes: seq<byte>): string
  {
    StripPadding(Encode(bytes))
  }

  /** The decoder's loop: `quad` symbols of the current group were read, `left` holds the bits not yet
      given out, `pads` the padding seen.  Characters outside the alphabets are passed over; padding that
      completes a group ends the input; a group cut short is an error. */
  function Scan(s: string, quad: nat, left: nat, pads: nat): Option<seq<byte>>
    requires quad < 4 && (quad == 1 ==> left < 64) && (quad == 2 ==> left < 16) && (quad == 3 ==> left < 4)
  {
    if s == "" then (if quad == 0 then Some([]) else None)
    else if s[0] == PAD then
      if quad >= 2 && quad + pads + 1 >= 4 then Some([])
      else Scan(s[1..], quad, left, if quad >= 2 then pads + 1 else pads)
    else match Value(s[0])
      case None => Scan(s[1..], quad, left, pads)
      case Some(v) =>
        if quad == 0 then Scan(s[1..], 1, v, 0)
        else if quad == 1 then Emit(left * 4 + v / 16, Scan(s[1..], 2, v % 16, 0))
        else if quad == 2 then Emit(left * 16 + v / 4, Scan(s[1..], 3, v % 4, 0))
        else Emit(left * 64 + v, Scan(s[1..], 0, 0, 0))
  }

  function Emit(b: byte, rest: Option<seq<byte>>): Option<seq<byte>>
  {
    match rest case None => None case Some(bytes) => Some([b] + bytes)
  }

  predicate IsAscii(s: string)
  {
    forall c :: c in s ==> c < '\U{80}'
  }

  /** None stands for the exceptions of a text that is not ASCII and of a cut group. */
  function Unb64(value: string): Option<seq<byte>>
  {
    var padded := value + Pads((-|value|) % 4);
    if IsAscii(padded) then Scan(padded, 0, 0, 0) else None
  }

  lemma {:induction false} StripOfPadded(s: string, n: nat)
    requires s == "" || s[|s| - 1] != PAD
    ensures StripPadding(s + Pads(n)) == s
  {
    if n == 0 {
      assert s + Pads(0) == s;
    } else {
      assert (s + Pads(n))[..|s| + n - 1] == s + Pads(n - 1);
      StripOfPadded(s, n - 1);
    }
  }

  /** A character of the URL-safe alphabet: readable, and neither padding nor one of the standard alphabet's
      two that mean something in a URL. */
  predicate UrlSafe(c: char)
  {
    Value(c) != None && c != PAD && c != '+' && c != '/' && c < '\U{80}'
  }

  predicate IsSymbol(c: char)
  {
    exists v: nat :: v < 64 && c == Symbol(v)
  }

  lemma Symbols(s: string)
    requires forall i :: 0 <= i < |s| ==> IsSymbol(s[i])
    ensures forall c :: c in s ==> UrlSafe(c)
  {
  }

  /** A text without padding whose length asks for the padding that follows it. */
  predicate Stripped(s: string, padded: string)
  {
    && (s == "" || s[|s| - 1] != PAD)
    && |s| % 4 != 1
    && padded == s + Pads((-|s|) % 4)
    && forall c :: c in s ==> UrlSafe(c)
  }

  lemma FourMore(n: int)
    ensures (-(4 + n)) % 4 == (-n) % 4 && (4 + n) % 4 == n % 4
  {
  }

  lemma Prepend(group: string, s: string, padded: string)
    requires |group| == 4 && (forall c :: c in group ==> UrlSafe(c)) && Stripped(s, padded)
    ensures Stripped(group + s, group + padded)
  {
    assert group[3] in group;
    FourMore(|s|);
    assert |group + s| == 4 + |s|;
    assert group + padded == (group + s) + Pads((-|s|) % 4);
  }

  lemma ShortEncode(bytes: seq<byte>) returns (s: string)
    requires |bytes| < 3
    ensures Stripped(s, Encode(bytes))
  {
    if |bytes| == 0 {
      s := "";
      assert "" + Pads(0) == "";
    } else if |bytes| == 1 {
      s := [Symbol(bytes[0] / 4), Symbol(bytes[0] % 4 * 16)];
      assert Encode(bytes) == s + Pads(2);
    } else {
      s := [Symbol(bytes[0] / 4), Symbol(bytes[0] % 4 * 16 + bytes[1] / 16), Symbol(bytes[1] % 16 * 4)];
      assert Encode(bytes) == s + Pads(1);
    }
    Symbols(s);
    assert s != "" ==> s[|s| - 1] in s;
  }

  lemma {:induction false} EncodeIsPadded(bytes: seq<byte>) returns (s: string)
    ensures Stripped(s, Encode(bytes))
  {
    if |bytes| < 3 {
      s := ShortEncode(bytes);
    } else {
      var rest := EncodeIsPadded(bytes[3..]);
      var group := Group(bytes[0], bytes[1], bytes[2]);
      Symbols(group);
      Prepend(group, rest, Encode(bytes[3..]));
      s := group + rest;
    }
  }

  /** Encoding is the stripped text followed by the padding that its length asks for; the stripped text has a
      length that leaves 0, 2 or 3 modulo 4 and consists of symbols of the URL-safe alphabet. */
  lemma PaddingIsDetermined(bytes: seq<byte>)
    ensures Encode(bytes) == B64(bytes) + Pads((-|B64(bytes)|) % 4)
    ensures |B64(bytes)| % 4 != 1
    ensures forall c :: c in B64(bytes) ==> UrlSafe(c)
    ensures IsAscii(Encode(bytes))
  {
    var s := EncodeIsPadded(bytes);
    StrippedText(s, Encode(bytes));
  }

  lemma StrippedText(s: string, padded: string)
    requires Stripped(s, padded)
    ensures StripPadding(padded) == s && IsAscii(padded)
  {
    StripOfPadded(s, (-|s|) % 4);
    PaddedIsAscii(s, (-|s|) % 4);
  }

  lemma PaddedIsAscii(s: string, n: nat)
    requires forall c :: c in s ==> UrlSafe(c)
    ensures IsAscii(s + Pads(n))
  {
    forall c | c in s + Pads(n) ensures c < '\U{80}' {
      assert c in s || c in Pads(n);
    }
  }

  lemma {:induction false} ScanOfEncode(bytes: seq<byte>)
    ensures Scan(Encode(bytes), 0, 0, 0) == Some(bytes)
  {
    if |bytes| < 3 {
      ScanOfShort(bytes);
    } else {
      var a, b, c, rest := bytes[0], bytes[1], bytes[2], bytes[3..];
      ScanOfEncode(rest);
      ScanThree(a, b, c, Encode(rest));
      EmitThree(a, b, c, rest);
      assert bytes == [a, b, c] + rest;
    }
  }

  lemma ScanOfShort(bytes: seq<byte>)
    requires |bytes| < 3
    ensures Scan(Encode(bytes), 0, 0, 0) == Some(bytes)
  {
    if |bytes| == 1 {
      ScanOne(Encode(bytes), bytes[0]);
      assert bytes == [bytes[0]];
    } else if |bytes| == 2 {
      ScanTwo(Encode(bytes), bytes[0], bytes[1]);
      assert bytes == [bytes[0], bytes[1]];
    }
  }

  lemma EmitThree(a: byte, b: byte, c: byte, rest: seq<byte>)
    ensures Emit(a, Emit(b, Emit(c, Some(rest)))) == Some([a, b, c] + rest)
  {
    assert [a] + ([b] + ([c] + rest)) == [a, b, c] + rest;
  }

  lemma EmitLast(b: byte)
    ensures Emit(b, Some([])) == Some([b])
  {
    var none: seq<byte> := [];
    assert [b] + none == [b];
  }

  lemma ScanOne(s: string, a: byte)
    requires s == [Symbol(a / 4), Symbol(a % 4 * 16), PAD, PAD]
    ensures Scan(s, 0, 0, 0) == Some([a])
  {
    ValueOfSymbol(a / 4);
    ValueOfSymbol(a % 4 * 16);
    var t, u, w := s[1..], s[2..], s[3..];
    assert t[1..] == u && u[1..] == w;
    assert a / 4 * 4 + (a % 4 * 16) / 16 == a && (a % 4 * 16) % 16 == 0;
    EmitLast(a);
    assert Scan(w, 2, 0, 1) == Some([]);
    assert Scan(u, 2, 0, 0) == Some([]);
    assert Scan(t, 1, a / 4, 0) == Some([a]);
  }

  lemma ScanTwo(s: string, a: byte, b: byte)
    requires s == [Symbol(a / 4), Symbol(a % 4 * 16 + b / 16), Symbol(b % 16 * 4), PAD]
    ensures Scan(s, 0, 0, 0) == Some([a, b])
  {
    ValueOfSymbol(a / 4);
    ValueOfSymbol(a % 4 * 16 + b / 16);
    ValueOfSymbol(b % 16 * 4);
    var t, u, w := s[1..], s[2..], s[3..];
    assert t[1..] == u && u[1..] == w;
    assert Scan(w, 3, 0, 0) == Some([]);
    EmitLast(b);
    assert [a] + [b] == [a, b];
    var v := a % 4 * 16 + b / 16;
    assert v / 16 == a % 4 && v % 16 == b / 16;
    assert (b % 16 * 4) / 4 == b % 16 && (b % 16 * 4) % 4 == 0;
    assert Scan(u, 2, b / 16, 0) == Some([b]);
    assert Scan(t, 1, a / 4, 0) == Some([a, b]);
  }

  /** What one symbol of the alphabet adds. */
  lemma ScanSymbol(v: nat, rest: string, quad: nat, left: nat)
    requires v < 64 && quad < 4
    requires (quad == 1 ==> left < 64) && (quad == 2 ==> left < 16) && (quad == 3 ==> left < 4)
    ensures Scan([Symbol(v)] + rest, quad, left, 0) ==
      if quad == 0 then Scan(rest, 1, v, 0)
      else if quad == 1 then Emit(left * 4 + v / 16, Scan(rest, 2, v % 16, 0))
      else if quad == 2 then Emit(left * 16 + v / 4, Scan(rest, 3, v % 4, 0))
      else Emit(left * 64 + v, Scan(rest, 0, 0, 0))
  {
    ValueOfSymbol(v);
    assert ([Symbol(v)] + rest)[1..] == rest;
  }

  lemma Regroup(a: byte, b: byte, c: byte)
    ensures a / 4 * 4 + (a % 4 * 16 + b / 16) / 16 == a
    ensures (a % 4 * 16 + b / 16) % 16 * 16 + (b % 16 * 4 + c / 64) / 4 == b
    ensures (b % 16 * 4 + c / 64) % 4 * 64 + c % 64 == c
  {
  }

  lemma ScanLastTwo(v: nat, w: nat, left: nat, rest: string)
    requires v < 64 && w < 64 && left < 16
    ensures Scan([Symbol(v)] + ([Symbol(w)] + rest), 2, left, 0) ==
      Emit(left * 16 + v / 4, Emit(v % 4 * 64 + w, Scan(rest, 0, 0, 0)))
  {
    ScanSymbol(v, [Symbol(w)] + rest, 2, left);
    ScanSymbol(w, rest, 3, v % 4);
  }

  lemma ScanFirstTwo(v: nat, w: nat, rest: string)
    requires v < 64 && w < 64
    ensures Scan([Symbol(v)] + ([Symbol(w)] + rest), 0, 0, 0) == Emit(v * 4 + w / 16, Scan(rest, 2, w % 16, 0))
  {
    ScanSymbol(v, [Symbol(w)] + rest, 0, 0);
    ScanSymbol(w, rest, 1, v);
  }

  lemma ScanFour(v1: nat, v2: nat, v3: nat, v4: nat, rest: string)
    requires v1 < 64 && v2 < 64 && v3 < 64 && v4 < 64
    ensures Scan([Symbol(v1), Symbol(v2), Symbol(v3), Symbol(v4)] + rest, 0, 0, 0) ==
      Emit(v1 * 4 + v2 / 16, Emit(v2 % 16 * 16 + v3 / 4, Emit(v3 % 4 * 64 + v4, Scan(rest, 0, 0, 0))))
  {
    var last := [Symbol(v3)] + ([Symbol(v4)] + rest);
    ScanFirstTwo(v1, v2, last);
    ScanLastTwo(v3, v4, v2 % 16, rest);
    assert [Symbol(v1), Symbol(v2), Symbol(v3), Symbol(v4)] + rest == [Symbol(v1)] + ([Symbol(v2)] + last);
  }

  lemma ScanThree(a: byte, b: byte, c: byte, rest: string)
    ensures Scan(Group(a, b, c) + rest, 0, 0, 0) == Emit(a, Emit(b, Emit(c, Scan(rest, 0, 0, 0))))
  {
    ScanFour(a / 4, a % 4 * 16 + b / 16, b % 16 * 4 + c / 64, c % 64, rest);
    Regroup(a, b, c);
  }

  /* ----- the encoding itself ----- */

  /** The three parts of the alphabet of section 5 of RFC 4648. */
  const CAPITALS := "ABCDEFGHIJKLMNOPQRSTUVWXYZ"
  const SMALL := "abcdefghijklmnopqrstuvwxyz"
  const OTHERS := "0123456789-_"

  /** The symbols are those of the alphabet, in order. */
  lemma SymbolsOfAlphabet(v: nat)
    requires v < 64
    ensures |CAPITALS| == |SMALL| == 26 && |OTHERS| == 12
    ensures Symbol(v) == if v < 26 then CAPITALS[v] else if v < 52 then SMALL[v - 26] else OTHERS[v - 52]
  {
    if v < 26 {
      Capital(v);
    } else if v < 52 {
      SmallLetter(v - 26);
    }
  }

  lemma Capital(v: nat)
    requires v < 26
    ensures CAPITALS[v] == 'A' + v as char
  {
  }

  lemma SmallLetter(v: nat)
    requires v < 26
    ensures SMALL[v] == 'a' + v as char
  {
  }

  /** Three bytes and their four symbols are the same number, once to the base of 256 and once of 64. */
  lemma GroupIsNumber(a: byte, b: byte, c: byte) returns (v: seq<nat>)
    ensures |v| == 4 && forall i :: 0 <= i < 4 ==> v[i] < 64 && Group(a, b, c)[i] == Symbol(v[i])
    ensures ((v[0] * 64 + v[1]) * 64 + v[2]) * 64 + v[3] == (a * 256 + b) * 256 + c
  {
    v := [a / 4, a % 4 * 16 + b / 16, b % 16 * 4 + c / 64, c % 64];
    Regroup(a, b, c);
  }

  /** A text is as long as its bytes need: four symbols for three, two for one, three for two. */
  lemma {:induction false} EncodedLength(bytes: seq<byte>)
    ensures |Encode(bytes)| == (|bytes| + 2) / 3 * 4
  {
    if |bytes| >= 3 {
      EncodedLength(bytes[3..]);
      ThreeMore(|bytes| - 3);
    }
  }

  lemma ThreeMore(n: nat)
    ensures (n + 3 + 2) / 3 * 4 == (n + 2) / 3 * 4 + 4
  {
  }

  predicate Counts(c: char)
  {
    c == PAD || Value(c) != None
  }

  /** Characters outside the alphabets make no difference to the decoder. */
  lemma {:induction false} OthersAreIgnored(s: string, quad: nat, left: nat, pads: nat)
    requires quad < 4 && (quad == 1 ==> left < 64) && (quad == 2 ==> left < 16) && (quad == 3 ==> left < 4)
    ensures Scan(s, quad, left, pads) == Scan(Filter(s, Counts), quad, left, pads)
  {
    if s != "" {
      var rest, kept := s[1..], Filter(s[1..], Counts);
      assert Filter(s, Counts) == if Counts(s[0]) then [s[0]] + kept else kept;
      assert Counts(s[0]) ==> Filter(s, Counts)[1..] == kept;
      if s[0] == PAD {
        OthersAreIgnored(rest, quad, left, if quad >= 2 then pads + 1 else pads);
      } else if Value(s[0]) == None {
        OthersAreIgnored(rest, quad, left, pads);
      } else {
        var v := Value(s[0]).value;
        match quad {
          case 0 => OthersAreIgnored(rest, 1, v, 0);
          case 1 => OthersAreIgnored(rest, 2, v % 16, 0);
          case 2 => OthersAreIgnored(rest, 3, v % 4, 0);
          case 3 => OthersAreIgnored(rest, 0, 0, 0);
        }
      }
    }
  }

  /** Decoding what was encoded gives the bytes back. */
  lemma RoundTrip(bytes: seq<byte>)
    ensures Unb64(B64(bytes)) == Some(bytes)
  {
    PaddingIsDetermined(bytes);
    ScanOfEncode(bytes);
  }

  /** So different byte strings never share a text. */
  lemma EncodingIsInjective(a: seq<byte>, b: seq<byte>)
    requires B64(a) == B64(b)
    ensures a == b
  {
    RoundTrip(a);
    RoundTrip(b);
  }
}
