/** net/http's Header: a mutable map from header names to value lists, and its operations as functions on the map. */
module HeaderMaps {
  import opened Bytes
  import opened HeaderKeyCodec

  type HeaderMap = map<bytes, seq<bytes>>

  function Values(h: HeaderMap, key: bytes): seq<bytes> {
    if Canonical(key) in h then h[Canonical(key)] else []
  }

  function Get(h: HeaderMap, key: bytes): bytes {
    var values := Values(h, key);
    if values == [] then "" else values[0]
  }

  function WithValue(h: HeaderMap, key: bytes, value: bytes): HeaderMap {
    h[Canonical(key) := [value]]
  }

  function WithAdded(h: HeaderMap, key: bytes, value: bytes): HeaderMap {
    h[Canonical(key) := Values(h, key) + [value]]
  }

  function Without(h: HeaderMap, key: bytes): HeaderMap {
    h - {Canonical(key)}
  }

  /** Adding a whole list leaves the map alone when the list is empty, and appends it otherwise. */
  function WithAllAdded(h: HeaderMap, key: bytes, values: seq<bytes>): HeaderMap {
    if values == [] then h else h[Canonical(key) := Values(h, key) + values]
  }

  lemma AddedOneMore(h: HeaderMap, key: bytes, values: seq<bytes>, value: bytes)
    ensures WithAdded(WithAllAdded(h, key, values), key, value) == WithAllAdded(h, key, values + [value])
  {
    if values == [] {
      assert values + [value] == [value];
    } else {
      assert Values(h, key) + (values + [value]) == (Values(h, key) + values) + [value];
    }
  }

  class Header {
    var fields: HeaderMap

    constructor (fields: HeaderMap)
      ensures this.fields == fields
    {
      this.fields := fields;
    }

    method Set(key: bytes, value: bytes)
      modifies this
      ensures fields == WithValue(old(fields), key, value)
    {
      fields := fields[Canonical(key) := [value]];
    }

    method Add(key: bytes, value: bytes)
      modifies this
      ensures fields == WithAdded(old(fields), key, value)
    {
      var name := Canonical(key);
      var existing := if name in fields then fields[name] else [];
      fields := fields[name := existing + [value]];
    }

    method Del(key: bytes)
      modifies this
      ensures fields == Without(old(fields), key)
    {
      fields := fields - {Canonical(key)};
    }

    method Clone() returns (copy: Header)
      ensures fresh(copy) && copy.fields == fields
    {
      copy := new Header(fields);
    }

    /** The loop `for _, v := range values { header.Add(key, v) }`. */
    method AddAll(key: bytes, values: seq<bytes>)
      modifies this
      ensures fields == WithAllAdded(old(fields), key, values)
    {
      hide Canonical;
      for i := 0 to |values|
        invariant fields == WithAllAdded(old(fields), key, values[..i])
      {
        AddedOneMore(old(fields), key, values[..i], values[i]);
        assert values[..i + 1] == values[..i] + [values[i]];
        Add(key, values[i]);
      }
      assert values[..|values|] == values;
    }
  }
}
