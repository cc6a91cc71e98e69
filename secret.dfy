/** A credential record: a map from field key to field value with
    insert-or-replace, lookup, removal and enumeration as fields
    (fuzzel-secrets/src/secret.rs). */
module Records {
  import opened Wrappers
  import opened Fields

  /** No two fields of the list share a key. */
  ghost predicate DistinctKeys(fs: seq<Field>) {
    forall i, j :: 0 <= i < j < |fs| ==> fs[i].key != fs[j].key
  }

  /** `fs` lists every entry of `m` exactly once, as a field carrying the
      entry's key and value, in some order. */
  ghost predicate IsListing(fs: seq<Field>, m: map<string, string>) {
    && |fs| == |m|
    && (forall i :: 0 <= i < |fs| ==> fs[i].key in m && fs[i].value == m[fs[i].key])
    && DistinctKeys(fs)
    && (forall k :: k in m ==> Field(k, m[k]) in fs)
  }

  /** `ks` lists every key of `m` exactly once, in some order. */
  ghost predicate IsKeyListing(ks: seq<string>, m: map<string, string>) {
    && |ks| == |m|
    && (forall i :: 0 <= i < |ks| ==> ks[i] in m)
    && (forall i, j :: 0 <= i < j < |ks| ==> ks[i] != ks[j])
    && (forall k :: k in m ==> k in ks)
  }

  function KeysOf(fs: seq<Field>): (ks: seq<string>)
    ensures |ks| == |fs| && forall i :: 0 <= i < |fs| ==> ks[i] == fs[i].key
  {
    seq(|fs|, i requires 0 <= i < |fs| => fs[i].key)
  }

  /** The keys of a listing of `m` are a listing of the keys of `m`. */
  lemma ListingKeys(fs: seq<Field>, m: map<string, string>)
    requires IsListing(fs, m)
    ensures IsKeyListing(KeysOf(fs), m)
  {
    var ks := KeysOf(fs);
    forall k | k in m
      ensures k in ks
    {
      var i :| 0 <= i < |fs| && fs[i] == Field(k, m[k]);
      assert ks[i] == k;
    }
  }

  /** One fixed listing of `m`, used to state results that do not depend on
      the order in which the map is enumerated. */
  ghost function CanonicalListing(m: map<string, string>): (fs: seq<Field>)
    ensures IsListing(fs, m)
    decreases |m|
  {
    if m == map[] then []
    else
      var k :| k in m;
      RemoveOne(m, k);
      var tail := CanonicalListing(m - {k});
      ConsListing(k, m, tail);
      [Field(k, m[k])] + tail
  }

  lemma RemoveOne(m: map<string, string>, k: string)
    requires k in m
    ensures |m - {k}| == |m| - 1
  {
    assert (m - {k}).Keys == m.Keys - {k};
  }

  /** A listing of `m` without the entry for `k`, preceded by that entry,
      is a listing of `m`. */
  lemma ConsListing(k: string, m: map<string, string>, tail: seq<Field>)
    requires k in m && IsListing(tail, m - {k})
    ensures IsListing([Field(k, m[k])] + tail, m)
  {
    RemoveOne(m, k);
    var fs := [Field(k, m[k])] + tail;
    forall i | 0 <= i < |fs|
      ensures fs[i].key in m && fs[i].value == m[fs[i].key]
    {
      if i > 0 {
        assert fs[i] == tail[i - 1];
      }
    }
    forall i, j | 0 <= i < j < |fs|
      ensures fs[i].key != fs[j].key
    {
      assert fs[j] == tail[j - 1];
      if i > 0 {
        assert fs[i] == tail[i - 1];
      }
    }
    forall k2 | k2 in m
      ensures Field(k2, m[k2]) in fs
    {
      if k2 != k {
        assert k2 in m - {k};
      }
    }
  }

  /** A list in which no element repeats, holding exactly the elements of
      `s`, has each of them once. */
  lemma {:induction false} DistinctMultiset<T>(xs: seq<T>, s: set<T>)
    requires forall i, j :: 0 <= i < j < |xs| ==> xs[i] != xs[j]
    requires forall x :: x in xs <==> x in s
    ensures multiset(xs) == multiset(s)
    decreases |xs|
  {
    if xs == [] {
      assert s == {};
    } else {
      var rest := s - {xs[0]};
      forall x | x in xs[1..]
        ensures x in rest
      {
        var i :| 0 <= i < |xs[1..]| && xs[1..][i] == x;
        assert xs[i + 1] == x;
      }
      forall x | x in rest
        ensures x in xs[1..]
      {
        var i :| 0 <= i < |xs| && xs[i] == x;
        assert i != 0;
        assert xs[1..][i - 1] == x;
      }
      DistinctMultiset(xs[1..], rest);
      assert xs == [xs[0]] + xs[1..];
      assert multiset(s) == multiset{xs[0]} + multiset(rest);
    }
  }

  /** Two listings of the same map hold the same fields. */
  lemma ListingsAgree(a: seq<Field>, b: seq<Field>, m: map<string, string>)
    requires IsListing(a, m) && IsListing(b, m)
    ensures multiset(a) == multiset(b)
  {
    var s := set k | k in m :: Field(k, m[k]);
    forall x ensures x in a <==> x in s {
      if x in a {
        var i :| 0 <= i < |a| && a[i] == x;
      }
    }
    forall x ensures x in b <==> x in s {
      if x in b {
        var i :| 0 <= i < |b| && b[i] == x;
      }
    }
    DistinctMultiset(a, s);
    DistinctMultiset(b, s);
  }

  /** The map obtained by inserting the fields of `fs`, in order, into `m`:
      what collecting fields into a record produces. */
  function InsertAll(m: map<string, string>, fs: seq<Field>): map<string, string>
    decreases |fs|
  {
    if fs == [] then m
    else
      var last := fs[|fs| - 1];
      InsertAll(m, fs[..|fs| - 1])[last.key := last.value]
  }

  /** Collecting adds exactly the keys of the input fields. */
  lemma {:induction false} InsertAllKeys(m: map<string, string>, fs: seq<Field>)
    ensures InsertAll(m, fs).Keys == m.Keys + set i | 0 <= i < |fs| :: fs[i].key
    decreases |fs|
  {
    if fs != [] {
      var init := fs[..|fs| - 1];
      InsertAllKeys(m, init);
      var keys := set i | 0 <= i < |fs| :: fs[i].key;
      var initKeys := set i | 0 <= i < |init| :: init[i].key;
      assert keys == initKeys + {fs[|fs| - 1].key} by {
        forall k | k in keys
          ensures k in initKeys + {fs[|fs| - 1].key}
        {
          var i :| 0 <= i < |fs| && fs[i].key == k;
          if i < |init| {
            assert init[i].key == k;
          }
        }
      }
    }
  }

  /** For a key that occurs several times, the last occurrence wins. */
  lemma {:induction false} InsertAllLastWins(m: map<string, string>, fs: seq<Field>, i: nat)
    requires i < |fs|
    requires forall j :: i < j < |fs| ==> fs[j].key != fs[i].key
    ensures fs[i].key in InsertAll(m, fs)
    ensures InsertAll(m, fs)[fs[i].key] == fs[i].value
    decreases |fs|
  {
    if i < |fs| - 1 {
      var init := fs[..|fs| - 1];
      InsertAllLastWins(m, init, i);
    }
  }

  /** A key that no input field carries keeps its value from `m`. */
  lemma {:induction false} InsertAllKeepsOthers(m: map<string, string>, fs: seq<Field>, k: string)
    requires k in m
    requires forall j :: 0 <= j < |fs| ==> fs[j].key != k
    ensures k in InsertAll(m, fs) && InsertAll(m, fs)[k] == m[k]
    decreases |fs|
  {
    if fs != [] {
      InsertAllKeepsOthers(m, fs[..|fs| - 1], k);
    }
  }

  class Secret {
    /** The record's entries, keyed by field name. */
    var fields: map<string, string>

    /** An empty record. */
    constructor ()
      ensures fields == map[]
      ensures Len() == 0 && IsEmpty()
    {
      fields := map[];
    }

    /** The record decoded from a stored flat key/value payload. */
    constructor FromMap(m: map<string, string>)
      ensures fields == m
    {
      fields := m;
    }

    /** The record collected from a list of fields, inserting each in turn. */
    constructor FromFields(fs: seq<Field>)
      ensures fields == InsertAll(map[], fs)
    {
      fields := map[];
      new;
      for i := 0 to |fs|
        invariant fields == InsertAll(map[], fs[..i])
      {
        assert fs[..i + 1][..i] == fs[..i];
        Insert(fs[i].key, fs[i].value);
      }
      assert fs[..|fs|] == fs;
    }

    /** Inserts a field, replacing the value of an existing key. */
    method Insert(key: string, value: string)
      modifies this
      ensures fields == old(fields)[key := value]
      ensures Get(key) == Some(Field(key, value))
      ensures forall k :: k != key ==> Get(k) == old(Get(k))
      ensures Len() == if key in old(fields) then old(Len()) else old(Len()) + 1
    {
      fields := fields[key := value];
    }

    /** The field stored under `key`, if any. */
    function Get(key: string): (r: Option<Field>)
      reads this
      ensures r.Some? <==> key in fields
      ensures r.Some? ==> r.value.key == key && r.value.value == fields[key]
    {
      if key in fields then Some(Field(key, fields[key])) else None
    }

    /** Removes the field stored under `key`, returning it if it was there. */
    method Remove(key: string) returns (r: Option<Field>)
      modifies this
      ensures r == old(Get(key))
      ensures fields == old(fields) - {key}
      ensures !ContainsKey(key)
      ensures forall k :: k != key ==> Get(k) == old(Get(k))
      ensures Len() == if key in old(fields) then old(Len()) - 1 else old(Len())
    {
      r := Get(key);
      fields := fields - {key};
      assert fields.Keys == old(fields).Keys - {key};
    }

    predicate ContainsKey(key: string)
      reads this
      ensures ContainsKey(key) <==> Get(key).Some?
    {
      key in fields
    }

    /** The number of fields. */
    function Len(): (n: nat)
      reads this
      ensures n == |fields.Keys|
    {
      |fields|
    }

    predicate IsEmpty()
      reads this
      ensures IsEmpty() <==> Len() == 0
    {
      fields == map[]
    }

    /** Every field of the record, once each, in the map's own order. */
    method Fields() returns (fs: seq<Field>)
      ensures IsListing(fs, fields)
      ensures |fs| == Len()
    {
      fs := [];
      var rest := fields.Keys;
      while rest != {}
        invariant rest <= fields.Keys
        invariant forall i :: 0 <= i < |fs| ==> fs[i].key in fields && fs[i].value == fields[fs[i].key]
        invariant forall i :: 0 <= i < |fs| ==> fs[i].key !in rest
        invariant DistinctKeys(fs)
        invariant forall k :: k in fields && k !in rest ==> Field(k, fields[k]) in fs
        invariant |fs| + |rest| == |fields|
        decreases |rest|
      {
        var k :| k in rest;
        fs := fs + [Field(k, fields[k])];
        rest := rest - {k};
      }
    }

    /** Every key of the record, once each. */
    method Keys() returns (ks: seq<string>)
      ensures IsKeyListing(ks, fields)
    {
      var fs := Fields();
      ListingKeys(fs, fields);
      ks := KeysOf(fs);
    }
  }
}
