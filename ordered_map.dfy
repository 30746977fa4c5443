/** Ruby's `Hash` as the code uses it: a map that remembers the order in which its
    keys were first inserted. Attribute maps of elements and the parameter map of a
    URL are both kept this way, and both are rendered in that order. */
module OrderedMaps {
  import opened Support

  /** Entries in insertion order; the maps built here never repeat a key. */
  type Assoc<K, V> = seq<(K, V)>

  function Keys<K, V>(m: Assoc<K, V>): (ks: seq<K>)
    ensures |ks| == |m|
    ensures forall i :: 0 <= i < |m| ==> ks[i] == m[i].0
  {
    if m == [] then [] else [m[0].0] + Keys(m[1..])
  }

  predicate DistinctKeys<K(==), V>(m: Assoc<K, V>) {
    forall i, j :: 0 <= i < j < |m| ==> m[i].0 != m[j].0
  }

  /** `hash[k]`: the value stored under `k`, if any. */
  function Get<K(==), V>(m: Assoc<K, V>, k: K): (r: Option<V>)
    ensures r.None? <==> k !in Keys(m)
    ensures r.Some? ==> exists i :: 0 <= i < |m| && m[i] == (k, r.value)
  {
    if m == [] then None
    else if m[0].0 == k then Some(m[0].1)
    else Get(m[1..], k)
  }

  /** `hash[k] = v`: an existing key keeps its place and takes the new value; a new
      key goes at the end. */
  function Put<K(==), V>(m: Assoc<K, V>, k: K, v: V): (r: Assoc<K, V>)
    ensures |r| == if k in Keys(m) then |m| else |m| + 1
    ensures k in Keys(m) ==> Keys(r) == Keys(m)
    ensures k !in Keys(m) ==> r == m + [(k, v)]
  {
    if m == [] then [(k, v)]
    else if m[0].0 == k then [(k, v)] + m[1..]
    else
      assert Keys(m) == [m[0].0] + Keys(m[1..]);
      [m[0]] + Put(m[1..], k, v)
  }

  /** After `hash[k] = v`, `hash[k]` is `v` and every other key reads as before. */
  lemma {:induction false} PutGet<K, V>(m: Assoc<K, V>, k: K, v: V, k': K)
    ensures Get(Put(m, k, v), k') == if k' == k then Some(v) else Get(m, k')
  {
    if m != [] && m[0].0 != k {
      PutGet(m[1..], k, v, k');
      assert Put(m, k, v)[1..] == Put(m[1..], k, v);
    }
  }

  /** `PutGet` for every key at once. */
  lemma PutGetAll<K, V>(m: Assoc<K, V>, k: K, v: V)
    ensures forall j :: Get(Put(m, k, v), j) == if j == k then Some(v) else Get(m, j)
  {
    forall j
      ensures Get(Put(m, k, v), j) == if j == k then Some(v) else Get(m, j)
    {
      PutGet(m, k, v, j);
    }
  }

  /** Where an existing key sits, and that `Put` replaces exactly that entry. */
  lemma {:induction false} PutPosition<K, V>(m: Assoc<K, V>, key: K, value: V)
    returns (i: nat)
    requires key in Keys(m)
    ensures i < |m| && m[i].0 == key
    ensures Put(m, key, value) == m[..i] + [(key, value)] + m[i + 1..]
  {
    if m[0].0 == key {
      i := 0;
      assert m[..0] == [];
    } else {
      PutPastHead(m, key, value);
      var j := PutPosition(m[1..], key, value);
      i := j + 1;
      ConsSplice(m, j, (key, value));
    }
  }

  /** `Put` walks past a first entry with another key. */
  lemma PutPastHead<K, V>(m: Assoc<K, V>, key: K, value: V)
    requires m != [] && m[0].0 != key
    ensures key in Keys(m) <==> key in Keys(m[1..])
    ensures Put(m, key, value) == [m[0]] + Put(m[1..], key, value)
  {
    assert Keys(m) == [m[0].0] + Keys(m[1..]);
  }

  /** Replacing entry `j` of the tail is replacing entry `j + 1` of the whole. */
  lemma ConsSplice<T>(m: seq<T>, j: nat, x: T)
    requires j + 1 < |m|
    ensures [m[0]] + (m[1..][..j] + [x] + m[1..][j + 1..]) == m[..j + 1] + [x] + m[j + 2..]
  {
    assert m[..j + 1] == [m[0]] + m[1..][..j];
    assert m[j + 2..] == m[1..][j + 1..];
  }

  /** Storing never repeats a key. */
  lemma PutDistinct<K, V>(m: Assoc<K, V>, k: K, v: V)
    requires DistinctKeys(m)
    ensures DistinctKeys(Put(m, k, v))
  {
    var r := Put(m, k, v);
    if k in Keys(m) {
      assert forall i :: 0 <= i < |r| ==> r[i].0 == Keys(r)[i] == Keys(m)[i] == m[i].0;
    }
  }

  /** The entries turned into text one by one, in order, and joined. */
  function JoinEntries<K, V>(m: Assoc<K, V>, piece: (K, V) -> string): string {
    if m == [] then "" else piece(m[0].0, m[0].1) + JoinEntries(m[1..], piece)
  }

  /** Joining two maps' entries side by side. */
  lemma {:induction false} JoinEntriesConcat<K, V>(a: Assoc<K, V>, b: Assoc<K, V>, piece: (K, V) -> string)
    ensures JoinEntries(a + b, piece) == JoinEntries(a, piece) + JoinEntries(b, piece)
  {
    if a == [] {
      assert a + b == b;
    } else {
      var ab := a + b;
      assert ab[0] == a[0] && ab[1..] == a[1..] + b;
      assert JoinEntries(ab, piece) == piece(a[0].0, a[0].1) + JoinEntries(a[1..] + b, piece);
      JoinEntriesConcat(a[1..], b, piece);
    }
  }

  /** Storing under a new key adds its piece at the end; storing under an existing
      key replaces that key's piece where it stands. */
  lemma JoinAfterPut<K, V>(m: Assoc<K, V>, k: K, v: V, piece: (K, V) -> string)
    ensures k !in Keys(m) ==> JoinEntries(Put(m, k, v), piece) == JoinEntries(m, piece) + piece(k, v)
    ensures k in Keys(m) ==>
              exists i :: 0 <= i < |m| && m[i].0 == k &&
                JoinEntries(Put(m, k, v), piece) ==
                JoinEntries(m[..i], piece) + piece(k, v) + JoinEntries(m[i + 1..], piece)
  {
    var single := [(k, v)];
    assert JoinEntries(single, piece) == piece(k, v) by {
      assert single[1..] == [];
    }
    if k !in Keys(m) {
      JoinEntriesConcat(m, single, piece);
    } else {
      var i := PutPosition(m, k, v);
      var before, after := m[..i], m[i + 1..];
      JoinEntriesConcat(before + single, after, piece);
      JoinEntriesConcat(before, single, piece);
      assert JoinEntries(Put(m, k, v), piece) ==
             JoinEntries(before, piece) + piece(k, v) + JoinEntries(after, piece);
    }
  }

  /** `delete_if` with the test negated: the entries `keep` accepts, in their order. */
  function Filter<K(==,!new), V(!new)>(m: Assoc<K, V>, keep: (K, V) -> bool): (r: Assoc<K, V>)
    ensures |r| <= |m|
    ensures forall e :: e in r <==> e in m && keep(e.0, e.1)
    ensures DistinctKeys(m) ==> DistinctKeys(r)
  {
    if m == [] then []
    else if keep(m[0].0, m[0].1) then [m[0]] + Filter(m[1..], keep)
    else Filter(m[1..], keep)
  }

  /** One entry survives exactly when it passes. */
  lemma FilterOne<K(!new), V(!new)>(e: (K, V), keep: (K, V) -> bool)
    ensures Filter([e], keep) == if keep(e.0, e.1) then [e] else []
  {
    assert [e][1..] == [];
  }

  /** Filtering works piecewise, so the survivors keep their order. */
  lemma {:induction false} FilterConcat<K(!new), V(!new)>(m: Assoc<K, V>, n: Assoc<K, V>, keep: (K, V) -> bool)
    ensures Filter(m + n, keep) == Filter(m, keep) + Filter(n, keep)
  {
    if m == [] {
      assert m + n == n;
    } else {
      assert (m + n)[0] == m[0];
      assert (m + n)[1..] == m[1..] + n;
      FilterConcat(m[1..], n, keep);
    }
  }

  /** Filtering with a test every entry passes changes nothing. */
  lemma {:induction false} FilterKeepsAll<K(!new), V(!new)>(m: Assoc<K, V>, keep: (K, V) -> bool)
    requires forall i :: 0 <= i < |m| ==> keep(m[i].0, m[i].1)
    ensures Filter(m, keep) == m
  {
    if m != [] {
      FilterKeepsAll(m[1..], keep);
    }
  }

  /** Reading the key that was added last. */
  lemma {:induction false} LastEntryGet<K, V>(m: Assoc<K, V>, k: K, a: V)
    requires k !in Keys(m)
    ensures Get(m + [(k, a)], k) == Some(a)
  {
    var ma := m + [(k, a)];
    if m == [] {
      assert ma == [(k, a)];
    } else {
      assert ma[0] == m[0] && ma[1..] == m[1..] + [(k, a)];
      assert Keys(m)[0] == m[0].0;
      assert k !in Keys(m[1..]) by { assert Keys(m) == [m[0].0] + Keys(m[1..]); }
      LastEntryGet(m[1..], k, a);
    }
  }

  /** Rewriting the key that was added last. */
  lemma {:induction false} LastEntryPut<K, V>(m: Assoc<K, V>, k: K, a: V, b: V)
    requires k !in Keys(m)
    ensures Put(m + [(k, a)], k, b) == m + [(k, b)]
  {
    var ma := m + [(k, a)];
    if m == [] {
      assert ma == [(k, a)];
      assert m + [(k, b)] == [(k, b)];
    } else {
      assert ma[0] == m[0] && ma[1..] == m[1..] + [(k, a)];
      PutPastHead(m, k, b);
      PutPastHead(ma, k, b);
      LastEntryPut(m[1..], k, a, b);
      assert m + [(k, b)] == [m[0]] + (m[1..] + [(k, b)]);
    }
  }
}
