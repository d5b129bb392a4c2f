/** Go's strings.Split and strings.TrimSpace on bytes, and the comma-separated lists built from them. */
module CommaLists {
  import opened Bytes

  // ----- White space: the UTF-8 encodings of the characters unicode.IsSpace accepts

  predicate IsSpace1(a: byte) {
    9 <= a as int <= 13 || a == ' '
  }

  predicate IsSpace2(a: byte, b: byte) {
    a as int == 0xC2 && b as int in {0x85, 0xA0}
  }

  predicate IsSpace3(a: byte, b: byte, c: byte) {
    var x, y, z := a as int, b as int, c as int;
    || (x == 0xE1 && y == 0x9A && z == 0x80)
    || (x == 0xE2 && y == 0x80 && (0x80 <= z <= 0x8A || z in {0xA8, 0xA9, 0xAF}))
    || (x == 0xE2 && y == 0x81 && z == 0x9F)
    || (x == 0xE3 && y == 0x80 && z == 0x80)
  }

  /** The length of the white-space character `s` starts with, or 0. */
  function LeadingSpace(s: bytes): (n: nat)
    ensures n <= |s|
  {
    if |s| >= 1 && IsSpace1(s[0]) then 1
    else if |s| >= 2 && IsSpace2(s[0], s[1]) then 2
    else if |s| >= 3 && IsSpace3(s[0], s[1], s[2]) then 3
    else 0
  }

  function TrailingSpace(s: bytes): (n: nat)
    ensures n <= |s|
  {
    if |s| >= 1 && IsSpace1(s[|s| - 1]) then 1
    else if |s| >= 2 && IsSpace2(s[|s| - 2], s[|s| - 1]) then 2
    else if |s| >= 3 && IsSpace3(s[|s| - 3], s[|s| - 2], s[|s| - 1]) then 3
    else 0
  }

  function TrimLeft(s: bytes): bytes
    decreases |s|
  {
    var n := LeadingSpace(s);
    if n == 0 then s else TrimLeft(s[n..])
  }

  function TrimRight(s: bytes): bytes
    decreases |s|
  {
    var n := TrailingSpace(s);
    if n == 0 then s else TrimRight(s[..|s| - n])
  }

  function Trim(s: bytes): bytes {
    TrimRight(TrimLeft(s))
  }

  predicate IsBlank(s: bytes) {
    Trim(s) == ""
  }

  lemma {:induction false} TrimLeftFacts(s: bytes)
    ensures LeadingSpace(TrimLeft(s)) == 0
    ensures ',' in TrimLeft(s) <==> ',' in s
    decreases |s|
  {
    var n := LeadingSpace(s);
    if n != 0 {
      TrimLeftFacts(s[n..]);
      assert s == s[..n] + s[n..];
      assert forall i :: 0 <= i < n ==> s[i] != ',';
    }
  }

  lemma {:induction false} TrimRightFacts(s: bytes)
    ensures TrailingSpace(TrimRight(s)) == 0
    ensures ',' in TrimRight(s) <==> ',' in s
    ensures LeadingSpace(s) == 0 ==> LeadingSpace(TrimRight(s)) == 0
    decreases |s|
  {
    var n := TrailingSpace(s);
    if n != 0 {
      TrimRightFacts(s[..|s| - n]);
      assert s == s[..|s| - n] + s[|s| - n..];
      assert forall i :: |s| - n <= i < |s| ==> s[i] != ',';
    }
  }

  /** Trimming neither adds nor removes commas, and trims for good. */
  lemma TrimFacts(s: bytes)
    ensures ',' in Trim(s) <==> ',' in s
    ensures Trim(Trim(s)) == Trim(s)
  {
    TrimLeftFacts(s);
    TrimRightFacts(TrimLeft(s));
  }

  // ----- Trimming, told by code points

  /** A code point up to U+FFFF. */
  type codepoint = code: int | 0 <= code < 0x10000

  /** The characters with Unicode's White_Space property; none is above U+3000. */
  predicate IsWhiteSpace(code: codepoint) {
    || 9 <= code <= 13 || code == 0x20 || code == 0x85 || code == 0xA0 || code == 0x1680 || 0x2000 <= code <= 0x200A
    || code == 0x2028 || code == 0x2029 || code == 0x202F || code == 0x205F || code == 0x3000
  }

  /** UTF-8, section 3 of RFC 3629. */
  function Utf8(code: codepoint): (s: bytes)
    ensures s != []
  {
    if code < 0x80 then [code as char]
    else if code < 0x800 then [(0xC0 + code / 64) as char, (0x80 + code % 64) as char]
    else [(0xE0 + code / 4096) as char, (0x80 + code / 64 % 64) as char, (0x80 + code % 64) as char]
  }

  function Encoded(codes: seq<codepoint>): bytes {
    if codes == [] then [] else Utf8(codes[0]) + Encoded(codes[1..])
  }

  ghost predicate AllWhiteSpace(codes: seq<codepoint>) {
    forall code :: code in codes ==> IsWhiteSpace(code)
  }

  /** The code point a white-space prefix of `n` bytes encodes. */
  function CodeOf(s: bytes): codepoint {
    if |s| == 1 then s[0] as int
    else if |s| == 2 && s[0] as int >= 0xC0 && s[1] as int >= 0x80 then (s[0] as int - 0xC0) * 64 + (s[1] as int - 0x80)
    else if |s| == 3 && 0xE0 <= s[0] as int < 0xF0 && 0x80 <= s[1] as int < 0xC0 && 0x80 <= s[2] as int < 0xC0 then
      (s[0] as int - 0xE0) * 4096 + (s[1] as int - 0x80) * 64 + (s[2] as int - 0x80)
    else 0
  }

  lemma SpaceIsWhiteSpace(s: bytes)
    ensures |s| == 1 && IsSpace1(s[0]) ==> IsWhiteSpace(CodeOf(s)) && Utf8(CodeOf(s)) == s
    ensures |s| == 2 && IsSpace2(s[0], s[1]) ==> IsWhiteSpace(CodeOf(s)) && Utf8(CodeOf(s)) == s
    ensures |s| == 3 && IsSpace3(s[0], s[1], s[2]) ==> IsWhiteSpace(CodeOf(s)) && Utf8(CodeOf(s)) == s
  {
  }

  lemma WhiteSpaceIsSpace(code: codepoint)
    requires IsWhiteSpace(code)
    ensures var s := Utf8(code);
            || (|s| == 1 && IsSpace1(s[0])) || (|s| == 2 && IsSpace2(s[0], s[1])) || (|s| == 3 && IsSpace3(s[0], s[1], s[2]))
  {
  }

  /** What is stripped at either end is the encoding of white space. */
  lemma LeadingIsWhiteSpace(s: bytes)
    requires LeadingSpace(s) > 0
    ensures var code := CodeOf(s[..LeadingSpace(s)]); IsWhiteSpace(code) && Utf8(code) == s[..LeadingSpace(s)]
  {
    SpaceIsWhiteSpace(s[..LeadingSpace(s)]);
  }

  lemma TrailingIsWhiteSpace(s: bytes)
    requires TrailingSpace(s) > 0
    ensures var code := CodeOf(s[|s| - TrailingSpace(s)..]); IsWhiteSpace(code) && Utf8(code) == s[|s| - TrailingSpace(s)..]
  {
    SpaceIsWhiteSpace(s[|s| - TrailingSpace(s)..]);
  }

  ghost predicate EndsIn(s: bytes, suffix: bytes) {
    |suffix| <= |s| && s[|s| - |suffix|..] == suffix
  }

  /** Where nothing is stripped there is no white space at that end. */
  lemma NoSpaceLeft(s: bytes, code: codepoint)
    requires IsWhiteSpace(code)
    ensures LeadingSpace(s) == 0 ==> !(Utf8(code) <= s)
    ensures TrailingSpace(s) == 0 ==> !EndsIn(s, Utf8(code))
  {
    WhiteSpaceIsSpace(code);
    var c := Utf8(code);
    hide IsSpace1, IsSpace2, IsSpace3, IsWhiteSpace, Utf8;
    if EndsIn(s, c) {
      assert forall i :: 0 <= i < |c| ==> s[|s| - |c| + i] == c[i];
    }
  }

  lemma {:induction false} EncodedConcat(a: seq<codepoint>, b: seq<codepoint>)
    ensures Encoded(a + b) == Encoded(a) + Encoded(b)
  {
    hide Utf8;
    if a == [] {
      assert a + b == b;
    } else {
      assert (a + b)[1..] == a[1..] + b;
      EncodedConcat(a[1..], b);
    }
  }

  lemma EncodedOne(code: codepoint, rest: seq<codepoint>)
    ensures Encoded([code] + rest) == Utf8(code) + Encoded(rest) && Encoded([code]) == Utf8(code)
  {
    hide Utf8;
    assert ([code] + rest)[1..] == rest && [code][1..] == [];
    assert Encoded([]) == [];
  }

  lemma {:induction false} TrimLeftStrips(s: bytes) returns (front: seq<codepoint>)
    ensures AllWhiteSpace(front) && s == Encoded(front) + TrimLeft(s)
    decreases |s|
  {
    hide LeadingSpace, Utf8, CodeOf, Encoded, IsWhiteSpace;
    var n := LeadingSpace(s);
    if n == 0 {
      front := [];
      EncodedNothing();
    } else {
      LeadingIsWhiteSpace(s);
      var code := CodeOf(s[..n]);
      var rest := TrimLeftStrips(s[n..]);
      front := [code] + rest;
      EncodedOne(code, rest);
      ConcatAssociates(s[..n], Encoded(rest), TrimLeft(s));
      assert s == s[..n] + s[n..];
    }
  }

  lemma EncodedNothing()
    ensures Encoded([]) == []
  {
  }

  lemma {:induction false} TrimRightStrips(s: bytes) returns (back: seq<codepoint>)
    ensures AllWhiteSpace(back) && s == TrimRight(s) + Encoded(back)
    decreases |s|
  {
    hide TrailingSpace, Utf8, CodeOf, Encoded, IsWhiteSpace;
    var n := TrailingSpace(s);
    if n == 0 {
      back := [];
      EncodedNothing();
    } else {
      TrailingIsWhiteSpace(s);
      var code := CodeOf(s[|s| - n..]);
      var rest := TrimRightStrips(s[..|s| - n]);
      back := rest + [code];
      EncodedConcat(rest, [code]);
      EncodedOne(code, []);
      ConcatAssociates(TrimRight(s), Encoded(rest), s[|s| - n..]);
      assert s == s[..|s| - n] + s[|s| - n..];
    }
  }

  /** Trimming takes white space off both ends, all of it and nothing else. */
  lemma TrimIsExact(s: bytes)
    ensures exists front, back ::
              AllWhiteSpace(front) && AllWhiteSpace(back) && s == Encoded(front) + Trim(s) + Encoded(back)
    ensures forall code :: IsWhiteSpace(code) ==> !(Utf8(code) <= Trim(s)) && !EndsIn(Trim(s), Utf8(code))
  {
    hide IsWhiteSpace, Utf8, Encoded, LeadingSpace, TrailingSpace;
    var front := TrimLeftStrips(s);
    var back := TrimRightStrips(TrimLeft(s));
    TrimLeftFacts(s);
    TrimRightFacts(TrimLeft(s));
    assert s == Encoded(front) + (Trim(s) + Encoded(back));
    assert s == Encoded(front) + Trim(s) + Encoded(back);
    forall code | IsWhiteSpace(code) ensures !(Utf8(code) <= Trim(s)) && !EndsIn(Trim(s), Utf8(code)) {
      NoSpaceLeft(Trim(s), code);
    }
  }

  lemma TrimDropsLeadingBlank(s: bytes)
    ensures Trim(" " + s) == Trim(s)
  {
    assert (" " + s)[1..] == s;
  }

  predicate IsVisible(c: byte) {
    '!' <= c <= '~'
  }

  lemma TrimVisible(s: bytes)
    requires s != [] && IsVisible(s[0]) && IsVisible(s[|s| - 1])
    ensures Trim(s) == s
  {
    assert LeadingSpace(s) == 0 && TrailingSpace(s) == 0;
  }

  // ----- Splitting

  /** strings.Split with a one-byte separator: always at least one part. */
  function Split(s: bytes, sep: byte): (parts: seq<bytes>)
    ensures parts != []
  {
    if s == [] then [[]]
    else
      var rest := Split(s[1..], sep);
      if s[0] == sep then [[]] + rest else [[s[0]] + rest[0]] + rest[1..]
  }

  function Join(parts: seq<bytes>, sep: byte): bytes {
    if parts == [] then [] else if |parts| == 1 then parts[0] else parts[0] + [sep] + Join(parts[1..], sep)
  }

  lemma {:induction false} SplitConcat(a: bytes, b: bytes, sep: byte)
    ensures Split(a + [sep] + b, sep) == Split(a, sep) + Split(b, sep)
  {
    var s := a + [sep] + b;
    if a == [] {
      assert s[1..] == b;
    } else {
      assert s[1..] == a[1..] + [sep] + b;
      SplitConcat(a[1..], b, sep);
    }
  }

  lemma {:induction false} SplitWithoutSeparator(s: bytes, sep: byte)
    requires sep !in s
    ensures Split(s, sep) == [s]
  {
    if s != [] {
      assert forall c :: c in s[1..] ==> c in s;
      SplitWithoutSeparator(s[1..], sep);
      assert s == [s[0]] + s[1..];
    }
  }

  lemma {:induction false} PartsLackSeparator(s: bytes, sep: byte)
    ensures forall part: bytes :: part in Split(s, sep) ==> sep !in part
  {
    if s != [] {
      PartsLackSeparator(s[1..], sep);
    }
  }

  lemma {:induction false} JoinSplit(s: bytes, sep: byte)
    ensures Join(Split(s, sep), sep) == s
  {
    if s != [] {
      JoinSplit(s[1..], sep);
      var rest := Split(s[1..], sep);
      assert s == [s[0]] + s[1..];
      if s[0] == sep {
        assert Split(s, sep)[1..] == rest;
      } else {
        assert Split(s, sep)[1..] == rest[1..];
      }
    }
  }

  lemma {:induction false} SplitJoin(parts: seq<bytes>, sep: byte)
    requires parts != [] && forall part: bytes :: part in parts ==> sep !in part
    ensures Split(Join(parts, sep), sep) == parts
  {
    SplitWithoutSeparator(parts[0], sep);
    if |parts| > 1 {
      SplitJoin(parts[1..], sep);
      SplitConcat(parts[0], Join(parts[1..], sep), sep);
    }
  }

  // ----- Token lists

  /** The non-blank parts, trimmed. */
  function Clean(parts: seq<bytes>): seq<bytes> {
    if parts == [] then []
    else
      var before := Clean(parts[..|parts| - 1]);
      var trimmed := Trim(parts[|parts| - 1]);
      if trimmed == "" then before else before + [trimmed]
  }

  function Tokens(s: bytes): seq<bytes> {
    Clean(Split(s, ','))
  }

  lemma {:induction false} CleanConcat(a: seq<bytes>, b: seq<bytes>)
    ensures Clean(a + b) == Clean(a) + Clean(b)
  {
    if b == [] {
      assert a + b == a;
    } else {
      assert (a + b)[..|a + b| - 1] == a + b[..|b| - 1];
      CleanConcat(a, b[..|b| - 1]);
    }
  }

  lemma TokensConcat(a: bytes, b: bytes)
    ensures Tokens(a + "," + b) == Tokens(a) + Tokens(b)
  {
    SplitConcat(a, b, ',');
    CleanConcat(Split(a, ','), Split(b, ','));
  }

  /** A blank before the first token is immaterial. */
  lemma TokensDropLeadingBlank(s: bytes)
    ensures Tokens(" " + s) == Tokens(s)
  {
    var parts := Split(s, ',');
    assert (" " + s)[1..] == s;
    assert Split(" " + s, ',') == [" " + parts[0]] + parts[1..];
    assert parts == [parts[0]] + parts[1..];
    CleanConcat([" " + parts[0]], parts[1..]);
    CleanConcat([parts[0]], parts[1..]);
    TrimDropsLeadingBlank(parts[0]);
    assert [parts[0]][..0] == [" " + parts[0]][..0];
  }

  predicate IsCleanToken(t: bytes) {
    t != "" && Trim(t) == t && ',' !in t
  }

  lemma {:induction false} CleanTokens(parts: seq<bytes>)
    ensures forall t: bytes :: t in Clean(parts) ==> t != "" && Trim(t) == t
    ensures (forall part: bytes :: part in parts ==> ',' !in part) ==> forall t: bytes :: t in Clean(parts) ==> ',' !in t
  {
    if parts != [] {
      CleanTokens(parts[..|parts| - 1]);
      TrimFacts(parts[|parts| - 1]);
    }
  }

  lemma TokensAreClean(s: bytes)
    ensures forall t: bytes :: t in Tokens(s) ==> IsCleanToken(t)
  {
    PartsLackSeparator(s, ',');
    CleanTokens(Split(s, ','));
  }

  lemma {:induction false} CleanFixesClean(parts: seq<bytes>)
    requires forall i :: 0 <= i < |parts| ==> parts[i] != "" && Trim(parts[i]) == parts[i]
    ensures Clean(parts) == parts
  {
    hide Trim;
    if parts != [] {
      CleanFixesClean(parts[..|parts| - 1]);
    }
  }

  /** A value without a comma is one token, or none when blank. */
  lemma TokensWithoutComma(s: bytes)
    requires ',' !in s
    ensures Tokens(s) == if IsBlank(s) then [] else [Trim(s)]
  {
    SplitWithoutSeparator(s, ',');
    assert [s][..0] == [];
  }

  /** The flag splitter of the server command. */
  method SplitCommaList(value: bytes) returns (result: seq<bytes>)
    ensures result == Tokens(value)
  {
    if Trim(value) == "" {
      TrimFacts(value);
      TokensWithoutComma(value);
      return [];
    }
    var parts := Split(value, ',');
    result := [];
    for i := 0 to |parts|
      invariant result == Clean(parts[..i])
    {
      assert parts[..i + 1][..i] == parts[..i];
      var trimmed := Trim(parts[i]);
      if trimmed != "" {
        result := result + [trimmed];
      }
    }
    assert parts[..|parts|] == parts;
  }

  ghost predicate AreCleanTokens(values: seq<bytes>) {
    forall i :: 0 <= i < |values| ==> IsCleanToken(values[i])
  }

  lemma SplitJoinedCleanTokens(values: seq<bytes>)
    requires AreCleanTokens(values)
    ensures Tokens(Join(values, ',')) == values
  {
    if values == [] {
      TokensWithoutComma("");
    } else {
      SplitJoin(values, ',');
      CleanFixesClean(values);
    }
  }

  /** Joining with commas and splitting returns the list unchanged exactly when every entry is non-empty, trimmed and comma-free. */
  lemma CommaListRoundTrip(values: seq<bytes>)
    ensures Tokens(Join(values, ',')) == values <==> AreCleanTokens(values)
  {
    if AreCleanTokens(values) {
      SplitJoinedCleanTokens(values);
    } else {
      TokensAreClean(Join(values, ','));
    }
  }
}
