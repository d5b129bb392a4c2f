/** Byte strings, as Go's `string` and `[]byte` hold them: a byte is a character below 256. */
module Bytes {

  type byte = c: char | c as int < 256 witness 'a'
  type bytes = seq<byte>

  datatype Option<+T> = None | Some(value: T)

  function Min(a: int, b: int): int {
    if a < b then a else b
  }

  predicate IsUpper(c: byte) { 'A' <= c <= 'Z' }

  predicate IsLower(c: byte) { 'a' <= c <= 'z' }

  predicate IsDigit(c: byte) { '0' <= c <= '9' }

  function LowerByte(c: byte): byte {
    if IsUpper(c) then (c as int + 32) as char else c
  }

  function UpperByte(c: byte): byte {
    if IsLower(c) then (c as int - 32) as char else c
  }

  /** ASCII lower-casing, byte by byte. */
  function Lower(s: bytes): (r: bytes)
    ensures |r| == |s|
    ensures forall i :: 0 <= i < |s| ==> r[i] == LowerByte(s[i])
  {
    seq(|s|, i requires 0 <= i < |s| => LowerByte(s[i]))
  }

  predicate HasUpper(s: bytes) {
    exists i :: 0 <= i < |s| && IsUpper(s[i])
  }

  lemma LowerFixesLowerCase(s: bytes)
    ensures Lower(s) == s <==> !HasUpper(s)
  {
  }

  lemma LowerHasNoUpper(s: bytes)
    ensures !HasUpper(Lower(s))
  {
    forall i | 0 <= i < |s| ensures !IsUpper(Lower(s)[i]) {
      assert Lower(s)[i] == LowerByte(s[i]);
    }
  }

  lemma LowerConcat(a: bytes, b: bytes)
    ensures Lower(a + b) == Lower(a) + Lower(b)
  {
  }

  /** `order` lists every element of `s` exactly once: one possible iteration order of a Go map with key set `s`. */
  ghost predicate Enumerates<T(!new)>(order: seq<T>, s: set<T>) {
    && (forall x :: x in order <==> x in s)
    && (forall i, j :: 0 <= i < j < |order| ==> order[i] != order[j])
  }

  lemma ConcatAssociates<T>(a: seq<T>, b: seq<T>, c: seq<T>)
    ensures (a + b) + c == a + (b + c)
  {
  }

  lemma InsertThenRemove<K, V>(m: map<K, V>, k: K, v: V)
    requires k !in m
    ensures m[k := v] - {k} == m
  {
  }

  lemma OverwriteTwice<K, V>(m: map<K, V>, k: K, u: V, v: V)
    ensures m[k := u][k := v] == m[k := v]
  {
  }

  /** Two sets that differ at most in `x` differ in size by what they say of `x`. */
  lemma SizeUpdate<T>(before: set<T>, after: set<T>, x: T)
    requires before - {x} == after - {x}
    ensures |after| == |before| - (if x in before then 1 else 0) + if x in after then 1 else 0
  {
    assert x in before ==> before == (before - {x}) + {x};
    assert x in after ==> after == (after - {x}) + {x};
    assert x !in before ==> before == before - {x};
    assert x !in after ==> after == after - {x};
  }

  lemma PartitionSize<T>(s: set<T>, a: set<T>, b: set<T>, c: set<T>)
    requires s <= a + b + c && a + b + c <= s
    requires a !! b && (a + b) !! c
    ensures |s| == |a| + |b| + |c|
  {
    assert s == a + b + c;
    assert |a + b| == |a| + |b|;
  }
}
