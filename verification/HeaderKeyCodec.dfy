/**
 The percent-encoder for impersonation extra keys, the canonicalisation of header names that
 sits between it and the backend, and the backend's decoder.
 */
module HeaderKeyCodec {
  import opened Bytes

  /** A token byte of section 5.6.2 of RFC 9110. */
  predicate IsTokenByte(c: byte) {
    IsUpper(c) || IsLower(c) || IsDigit(c) || c in "!#$%&'*+-.^_`|~"
  }

  predicate IsToken(s: bytes) {
    forall i :: 0 <= i < |s| ==> IsTokenByte(s[i])
  }

  /** The encoder's 127-entry table: the entries it sets to true. */
  predicate LegalHeaderKeyByte(b: byte) {
    b as int < 127 && b in {
      '%', '!', '#', '$', '&', '\'', '*', '+', '-', '.',
      '0', '1', '2', '3', '4', '5', '6', '7', '8', '9',
      'A', 'B', 'C', 'D', 'E', 'F', 'G', 'H', 'I', 'J', 'K', 'L', 'M',
      'N', 'O', 'P', 'Q', 'R', 'S', 'T', 'U', 'W', 'V', 'X', 'Y', 'Z',
      '^', '_', '`',
      'a', 'b', 'c', 'd', 'e', 'f', 'g', 'h', 'i', 'j', 'k', 'l', 'm',
      'n', 'o', 'p', 'q', 'r', 's', 't', 'u', 'v', 'w', 'x', 'y', 'z',
      '|', '~'
    }
  }

  predicate ShouldEscapeHeaderKeyByte(b: byte) {
    !LegalHeaderKeyByte(b) || b == '%'
  }

  function HexDigit(n: nat): byte
    requires n < 16
  {
    if n < 10 then (n + 48) as char else (n + 55) as char
  }

  function EscapeByte(b: byte): bytes {
    if ShouldEscapeHeaderKeyByte(b) then ['%', HexDigit(b as int / 16), HexDigit(b as int % 16)] else [b]
  }

  function Escape(key: bytes): bytes {
    if key == [] then [] else EscapeByte(key[0]) + Escape(key[1..])
  }

  lemma EscapeNext(buf: bytes, rest: bytes)
    requires rest != []
    ensures (buf + EscapeByte(rest[0])) + Escape(rest[1..]) == buf + Escape(rest)
  {
    hide EscapeByte;
    ConcatAssociates(buf, EscapeByte(rest[0]), Escape(rest[1..]));
  }

  method HeaderKeyEscape(key: bytes) returns (buf: bytes)
    ensures buf == Escape(key)
  {
    hide Escape;
    buf := [];
    for i := 0 to |key|
      invariant buf + Escape(key[i..]) == Escape(key)
    {
      EscapeNext(buf, key[i..]);
      assert key[i..][1..] == key[i + 1..];
      var b := key[i];
      if ShouldEscapeHeaderKeyByte(b) {
        buf := buf + ['%', HexDigit(b as int / 16), HexDigit(b as int % 16)];
      } else {
        buf := buf + [b];
      }
    }
    EscapeEmpty(key[|key|..]);
  }

  lemma EscapeEmpty(rest: bytes)
    requires rest == []
    ensures Escape(rest) == []
  {
  }

  predicate IsHex(c: byte) {
    IsDigit(c) || 'A' <= c <= 'F' || 'a' <= c <= 'f'
  }

  function HexValue(c: byte): (n: nat)
    requires IsHex(c)
    ensures n < 16
  {
    if IsDigit(c) then c as int - 48 else if 'A' <= c <= 'F' then c as int - 55 else c as int - 87
  }

  /** Percent-decoding, section 2.1 of RFC 3986; a '%' without two hex digits is an error. */
  function Unescape(s: bytes): Option<bytes> {
    if s == [] then Some([])
    else if s[0] != '%' then
      match Unescape(s[1..])
      case Some(rest) => Some([s[0]] + rest)
      case None => None
    else if |s| < 3 || !IsHex(s[1]) || !IsHex(s[2]) then None
    else
      var b: byte := (HexValue(s[1]) * 16 + HexValue(s[2])) as char;
      match Unescape(s[3..])
      case Some(rest) => Some([b] + rest)
      case None => None
  }

  /** net/http's CanonicalHeaderKey: a name with a byte that is not a token byte is left alone. */
  function Canonical(s: bytes): bytes {
    if IsToken(s) then CanonicalCase(s) else s
  }

  function CanonicalCase(s: bytes): (r: bytes)
    ensures |r| == |s|
    ensures forall i :: 0 <= i < |s| ==>
              r[i] == if i == 0 || s[i - 1] == '-' then UpperByte(s[i]) else LowerByte(s[i])
  {
    seq(|s|, i requires 0 <= i < |s| => if i == 0 || s[i - 1] == '-' then UpperByte(s[i]) else LowerByte(s[i]))
  }

  /** The encoder's table is exactly the token alphabet, so escaping yields a header name net/http canonicalises. */
  lemma LegalBytesAreTokenBytes(b: byte)
    ensures LegalHeaderKeyByte(b) <==> IsTokenByte(b)
  {
  }

  lemma HexRoundTrip(b: byte)
    ensures var hi, lo := HexDigit(b as int / 16), HexDigit(b as int % 16);
            && IsHex(hi) && IsHex(lo) && HexValue(hi) * 16 + HexValue(lo) == b as int
            && IsHex(LowerByte(hi)) && HexValue(LowerByte(hi)) == HexValue(hi)
            && IsHex(LowerByte(lo)) && HexValue(LowerByte(lo)) == HexValue(lo)
            && IsTokenByte(hi) && IsTokenByte(lo)
  {
  }

  lemma {:induction false} EscapeIsToken(key: bytes)
    ensures IsToken(Escape(key))
  {
    if key != [] {
      EscapeIsToken(key[1..]);
      HexRoundTrip(key[0]);
      LegalBytesAreTokenBytes(key[0]);
    }
  }

  /** `chunk` spells the single byte `b`, literally or percent-encoded. */
  predicate Spells(chunk: bytes, b: byte) {
    || (chunk == [b] && b != '%')
    || (|chunk| == 3 && chunk[0] == '%' && IsHex(chunk[1]) && IsHex(chunk[2])
        && HexValue(chunk[1]) * 16 + HexValue(chunk[2]) == b as int)
  }

  lemma UnescapeSpelled(chunk: bytes, b: byte, encoded: bytes, rest: bytes)
    requires Spells(chunk, b)
    requires Unescape(encoded) == Some(rest)
    ensures Unescape(chunk + encoded) == Some([b] + rest)
  {
    assert (chunk + encoded)[|chunk|..] == encoded;
  }

  lemma EscapeByteSpells(b: byte)
    ensures Spells(EscapeByte(b), b)
    ensures Spells(Lower(EscapeByte(b)), LowerByte(b))
    ensures Lower(EscapeByte(b)) == Lower(EscapeByte(LowerByte(b)))
  {
    HexRoundTrip(b);
    LegalBytesAreTokenBytes(b);
    LegalBytesAreTokenBytes(LowerByte(b));
    var chunk := EscapeByte(b);
    assert forall i :: 0 <= i < |chunk| ==> Lower(chunk)[i] == LowerByte(chunk[i]);
  }

  /** Decoding undoes encoding, for every byte string. */
  lemma {:induction false} UnescapeEscape(key: bytes)
    ensures Unescape(Escape(key)) == Some(key)
  {
    if key != [] {
      UnescapeEscape(key[1..]);
      EscapeByteSpells(key[0]);
      UnescapeSpelled(EscapeByte(key[0]), key[0], Escape(key[1..]), key[1..]);
      assert key == [key[0]] + key[1..];
    }
  }

  /** What is left after lower-casing an encoded key decodes to the lower-cased key. */
  lemma {:induction false} UnescapeLowerEscape(key: bytes)
    ensures Unescape(Lower(Escape(key))) == Some(Lower(key))
  {
    if key != [] {
      var b, rest := key[0], key[1..];
      UnescapeLowerEscape(rest);
      EscapeByteSpells(b);
      LowerConcat(EscapeByte(b), Escape(rest));
      UnescapeSpelled(Lower(EscapeByte(b)), LowerByte(b), Lower(Escape(rest)), Lower(rest));
      assert Lower(key) == [LowerByte(b)] + Lower(rest);
    }
  }

  /** The encoding goes byte by byte. */
  lemma {:induction false} EscapeConcat(a: bytes, b: bytes)
    ensures Escape(a + b) == Escape(a) + Escape(b)
  {
    hide EscapeByte;
    if a == [] {
      assert a + b == b;
    } else {
      EscapeConcat(a[1..], b);
      assert (a + b)[1..] == a[1..] + b;
      ConcatAssociates(EscapeByte(a[0]), Escape(a[1..]), Escape(b));
    }
  }

  predicate IsUpperHex(c: byte) {
    IsDigit(c) || 'A' <= c <= 'F'
  }

  /** A token byte other than '%' is written as it is, and any other as '%' and its value in two upper-case hex digits. */
  lemma OneByteEscaped(b: byte)
    ensures if IsTokenByte(b) && b != '%' then Escape([b]) == [b]
            else
              var e := Escape([b]);
              |e| == 3 && e[0] == '%' && IsUpperHex(e[1]) && IsUpperHex(e[2]) && HexValue(e[1]) * 16 + HexValue(e[2]) == b as int
  {
    LegalBytesAreTokenBytes(b);
    hide IsTokenByte, LegalHeaderKeyByte;
    assert [b][1..] == [];
    assert Escape([b]) == EscapeByte(b) + Escape([b][1..]);
  }

  lemma {:induction false} EscapeGrows(key: bytes)
    ensures |Escape(key)| >= |key|
  {
    if key != [] {
      EscapeGrows(key[1..]);
    }
  }

  /** A key is its own encoding exactly if it is a token without '%': nothing else is left alone, and nothing more is escaped. */
  lemma {:induction false} EscapeFixesTokens(key: bytes)
    ensures Escape(key) == key <==> IsToken(key) && '%' !in key
  {
    hide IsTokenByte, LegalHeaderKeyByte;
    if key != [] {
      var b, rest := key[0], key[1..];
      EscapeFixesTokens(rest);
      EscapeGrows(rest);
      LegalBytesAreTokenBytes(b);
      assert key == [b] + rest;
      assert Escape(key)[|EscapeByte(b)|..] == Escape(rest);
    }
  }

  lemma LowerCanonical(s: bytes)
    ensures Lower(Canonical(s)) == Lower(s)
  {
  }

  lemma CanonicalCaseOfLower(s: bytes)
    ensures CanonicalCase(Lower(s)) == CanonicalCase(s)
  {
    forall i | 0 <= i < |s| ensures CanonicalCase(Lower(s))[i] == CanonicalCase(s)[i] {
      assert Lower(s)[i] == LowerByte(s[i]);
      assert i > 0 ==> Lower(s)[i - 1] == LowerByte(s[i - 1]);
    }
  }

  /** Canonicalising twice is canonicalising once, and a name that is no token stays as it is. */
  lemma CanonicalTwice(s: bytes)
    ensures Canonical(Canonical(s)) == Canonical(s) && (!IsToken(s) ==> Canonical(s) == s)
  {
    if IsToken(s) {
      LowerCanonical(s);
      CanonicalCaseOfLower(s);
      CanonicalCaseOfLower(Canonical(s));
    }
  }

  /** Canonical names of token strings differ only if the strings differ beyond case. */
  lemma CanonicalByLower(a: bytes, b: bytes)
    requires IsToken(a) && IsToken(b)
    ensures Canonical(a) == Canonical(b) <==> Lower(a) == Lower(b)
  {
    LowerCanonical(a);
    LowerCanonical(b);
    CanonicalCaseOfLower(a);
    CanonicalCaseOfLower(b);
  }

  /** The encoding survives header canonicalisation up to ASCII case. */
  lemma CodecSurvivesCanonicalisation(key: bytes)
    ensures Unescape(Lower(Canonical(Escape(key)))) == Some(Lower(key))
  {
    LowerCanonical(Escape(key));
    UnescapeLowerEscape(key);
  }

  lemma EscapeInjective(a: bytes, b: bytes)
    ensures Escape(a) == Escape(b) <==> a == b
  {
    UnescapeEscape(a);
    UnescapeEscape(b);
  }

  lemma {:induction false} LowerEscapeByLower(key: bytes)
    ensures Lower(Escape(key)) == Lower(Escape(Lower(key)))
  {
    if key != [] {
      var b, rest := key[0], key[1..];
      LowerEscapeByLower(rest);
      EscapeByteSpells(b);
      LowerConcat(EscapeByte(b), Escape(rest));
      LowerConcat(EscapeByte(LowerByte(b)), Escape(Lower(rest)));
      assert Lower(key)[1..] == Lower(rest);
    }
  }

  /** After canonicalisation two keys share a header exactly when they differ only in ASCII case. */
  lemma EscapeCollidesExactlyOnCase(a: bytes, b: bytes)
    ensures Canonical(Escape(a)) == Canonical(Escape(b)) <==> Lower(a) == Lower(b)
  {
    EscapeIsToken(a);
    EscapeIsToken(b);
    CanonicalByLower(Escape(a), Escape(b));
    if Lower(a) == Lower(b) {
      LowerEscapeByLower(a);
      LowerEscapeByLower(b);
    } else {
      CodecSurvivesCanonicalisation(a);
      CodecSurvivesCanonicalisation(b);
    }
  }
}
