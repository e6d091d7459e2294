/** The JSON serializer the store uses by default, with the payload text modelled
    abstractly: a JSON object is the sequence of its members in written order. */
module JsonCodec {
  import opened Values
  import opened KeyOrder

  /** The members of one JSON object, in the order the text lists them. */
  type Entries = seq<(string, Value)>

  /** The names a payload lists. */
  function KeysOf(e: Entries): set<string>
  {
    set i | 0 <= i < |e| :: e[i].0
  }

  /** No name is listed twice. */
  predicate DistinctKeys(e: Entries)
  {
    forall i, j :: 0 <= i < j < |e| ==> e[i].0 != e[j].0
  }

  /** Names are listed in strictly ascending key order: the layout of a key-sorted
      PHP array, which is what the store writes. */
  predicate StrictlySorted(e: Entries)
  {
    forall i, j :: 0 <= i < j < |e| ==> e[i].0 != e[j].0 && Below(e[i].0, e[j].0)
  }

  /** A payload lists no name exactly when it is empty. */
  lemma KeysOfEmpty(e: Entries)
    ensures KeysOf(e) == {} <==> |e| == 0
  {
    if |e| > 0 {
      assert e[0].0 in KeysOf(e);
    }
  }

  /** The names of a payload: its first name and the names of the rest. */
  lemma KeysOfCons(e: Entries)
    requires |e| > 0
    ensures KeysOf(e) == {e[0].0} + KeysOf(e[1..])
  {
  }

  /** Decoding a JSON object into an associative array: every listed name is a key,
      and when a name is listed more than once the last occurrence wins. */
  function Decode(e: Entries): (m: Attributes)
    ensures m.Keys == KeysOf(e)
  {
    if |e| == 0 then map[]
    else
      KeysOfCons(e);
      map[e[0].0 := e[0].1] + Decode(e[1..])
  }

  /** In a payload that lists no name twice, every listed name decodes to the value
      listed with it. */
  lemma {:induction false} DecodeDistinct(e: Entries)
    requires DistinctKeys(e)
    ensures forall i :: 0 <= i < |e| ==> Decode(e)[e[i].0] == e[i].1
  {
    if |e| > 0 {
      var tail := e[1..];
      assert DistinctKeys(tail) by {
        forall i, j | 0 <= i < j < |tail|
          ensures tail[i].0 != tail[j].0
        {
          assert tail[i] == e[i + 1] && tail[j] == e[j + 1];
        }
      }
      DecodeDistinct(tail);
      forall i | 1 <= i < |e|
        ensures Decode(e)[e[i].0] == e[i].1
      {
        assert e[i] == tail[i - 1];
      }
    }
  }

  /** A sorted payload lists no name twice. */
  lemma SortedIsDistinct(e: Entries)
    requires StrictlySorted(e)
    ensures DistinctKeys(e)
  {
  }

  /** The order half of taking the first member off a sorted payload: the rest is
      sorted, does not list the first name again, and the first name is the least. */
  lemma SortedTailOrder(e: Entries)
    requires StrictlySorted(e) && |e| > 0
    ensures StrictlySorted(e[1..])
    ensures e[0].0 !in KeysOf(e[1..])
    ensures IsLeast(e[0].0, KeysOf(e))
  {
    var tail := e[1..];
    forall i, j | 0 <= i < j < |tail|
      ensures tail[i].0 != tail[j].0 && Below(tail[i].0, tail[j].0)
    {
      assert tail[i] == e[i + 1] && tail[j] == e[j + 1];
    }
    forall k | k in KeysOf(tail)
      ensures k != e[0].0
    {
      var i :| 0 <= i < |tail| && tail[i].0 == k;
      assert tail[i] == e[i + 1];
    }
    forall k | k in KeysOf(e)
      ensures Below(e[0].0, k)
    {
      var i :| 0 <= i < |e| && e[i].0 == k;
      if i == 0 {
        BelowReflexive(k);
      } else {
        assert Below(e[0].0, e[i].0);
      }
    }
  }

  /** Taking the first member off a sorted payload: the rest is sorted, does not
      list the first name again, and decodes to the whole minus that name; the first
      name is the least of all names listed. */
  lemma SortedTail(e: Entries)
    requires StrictlySorted(e) && |e| > 0
    ensures StrictlySorted(e[1..])
    ensures e[0].0 !in KeysOf(e[1..])
    ensures IsLeast(e[0].0, KeysOf(e))
    ensures Decode(e[1..]) == Decode(e) - {e[0].0}
  {
    SortedTailOrder(e);
    assert Decode(e) == map[e[0].0 := e[0].1] + Decode(e[1..]);
  }

  /** Putting a name below all names of a sorted payload in front keeps it sorted. */
  lemma ConsSorted(k: string, v: Value, rest: Entries)
    requires StrictlySorted(rest)
    requires forall j :: j in KeysOf(rest) ==> j != k && Below(k, j)
    ensures StrictlySorted([(k, v)] + rest)
  {
    var e := [(k, v)] + rest;
    forall i, j | 0 <= i < j < |e|
      ensures e[i].0 != e[j].0 && Below(e[i].0, e[j].0)
    {
      assert e[j] == rest[j - 1];
      if i == 0 {
        assert e[j].0 in KeysOf(rest);
      } else {
        assert e[i] == rest[i - 1];
      }
    }
  }

  /** Decoding a payload with one more member in front. */
  lemma DecodeCons(k: string, v: Value, rest: Entries)
    ensures Decode([(k, v)] + rest) == map[k := v] + Decode(rest)
  {
  }

  /** One step of the key sort: the least key, put in front of the sorted rest. */
  lemma EncodeStep(m: Attributes, k: string, rest: Entries)
    requires k in m && forall j :: j in m ==> Below(k, j)
    requires StrictlySorted(rest) && Decode(rest) == m - {k}
    ensures StrictlySorted([(k, m[k])] + rest)
    ensures Decode([(k, m[k])] + rest) == m
  {
    assert KeysOf(rest) == m.Keys - {k};
    ConsSorted(k, m[k], rest);
    DecodeCons(k, m[k], rest);
    assert map[k := m[k]] + (m - {k}) == m;
  }

  /** Encoding an associative array after sorting it by key: the payload lists every
      key once, in ascending key order, and decodes back to the array it came from. */
  function Encode(m: Attributes): (e: Entries)
    ensures StrictlySorted(e)
    ensures Decode(e) == m
    decreases m.Keys
  {
    if m == map[] then []
    else
      var k := Least(m.Keys);
      assert (m - {k}).Keys < m.Keys;
      var rest := Encode(m - {k});
      EncodeStep(m, k, rest);
      [(k, m[k])] + rest
  }

  /** Two key-sorted payloads that decode to the same array are the same payload. */
  lemma {:induction false} SortedUnique(a: Entries, b: Entries)
    requires StrictlySorted(a) && StrictlySorted(b)
    requires Decode(a) == Decode(b)
    ensures a == b
  {
    if |a| > 0 && |b| > 0 {
      SortedTail(a);
      SortedTail(b);
      LeastUnique(KeysOf(a));
      assert a[0].0 == b[0].0;
      SortedIsDistinct(a);
      SortedIsDistinct(b);
      DecodeDistinct(a);
      DecodeDistinct(b);
      assert a[0] == b[0];
      SortedUnique(a[1..], b[1..]);
      assert a == [a[0]] + a[1..];
      assert b == [b[0]] + b[1..];
    } else {
      KeysOfEmpty(a);
      KeysOfEmpty(b);
    }
  }

  /** Round trip: decoding the encoded array gives the array back. */
  lemma DecodeEncode(m: Attributes)
    ensures Decode(Encode(m)) == m
  {
  }

  /** Round trip the other way: a key-sorted payload, decoded and encoded again,
      is written out identically. */
  lemma EncodeDecode(e: Entries)
    requires StrictlySorted(e)
    ensures Encode(Decode(e)) == e
  {
    SortedUnique(Encode(Decode(e)), e);
  }

  /** The encoding depends on the array's content only: equal arrays give identical
      payloads, and different arrays give different payloads. */
  lemma EncodeInjective(m1: Attributes, m2: Attributes)
    ensures Encode(m1) == Encode(m2) <==> m1 == m2
  {
  }
}
