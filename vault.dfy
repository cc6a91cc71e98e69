/** The secret-storage service reduced to what the workflows observe: a list
    of stored items, each with a name and a payload, looked up by name and
    replaced by name (fuzzel-secrets/src/secrets.rs). Connecting to the
    service, creating and unlocking the collection and the JSON encoding of
    payloads are not part of this model. */
module Vault {
  import opened Wrappers

  /** A stored payload: a flat key/value map, or bytes that do not decode to one. */
  datatype Payload = Decoded(fields: map<string, string>) | Undecodable

  /** One stored item: the name it is searched by and its payload. */
  datatype Item = Item(name: string, payload: Payload)

  /** The names of the stored items, one per item, in the service's order. */
  function Labels(items: seq<Item>): (ls: seq<string>)
    ensures |ls| == |items|
    ensures forall i :: 0 <= i < |items| ==> ls[i] == items[i].name
  {
    seq(|items|, i requires 0 <= i < |items| => items[i].name)
  }

  /** The items carrying `name`, in order. */
  function Matching(items: seq<Item>, name: string): seq<Item>
    decreases |items|
  {
    if items == [] then []
    else
      var last := items[|items| - 1];
      Matching(items[..|items| - 1], name) + if last.name == name then [last] else []
  }

  lemma {:induction false} MatchingMembers(items: seq<Item>, name: string)
    ensures forall x :: x in Matching(items, name) <==> x in items && x.name == name
    decreases |items|
  {
    if items != [] {
      var init := items[..|items| - 1];
      MatchingMembers(init, name);
      assert items == init + [items[|items| - 1]];
    }
  }

  /** The items not carrying `name`, in order. */
  function Without(items: seq<Item>, name: string): seq<Item>
    decreases |items|
  {
    if items == [] then []
    else
      var last := items[|items| - 1];
      Without(items[..|items| - 1], name) + if last.name != name then [last] else []
  }

  lemma {:induction false} WithoutMembers(items: seq<Item>, name: string)
    ensures forall x :: x in Without(items, name) <==> x in items && x.name != name
    decreases |items|
  {
    if items != [] {
      var init := items[..|items| - 1];
      WithoutMembers(init, name);
      assert items == init + [items[|items| - 1]];
    }
  }

  /** Fetching a record: it must be stored under exactly one item. None is
      "not found", more than one is ambiguous, and the one item's payload
      must decode. */
  function GetData(items: seq<Item>, name: string): (r: Result<map<string, string>>)
    ensures |Matching(items, name)| == 0 <==> r == Failure(SecretNotFound(name))
    ensures |Matching(items, name)| > 1 <==> r == Failure(MultipleSecrets(name))
    ensures r.Success? ==> Item(name, Decoded(r.value)) in items
    ensures r.Success? ==> forall x :: x in items && x.name == name ==> x.payload == Decoded(r.value)
  {
    MatchingMembers(items, name);
    var ms := Matching(items, name);
    if |ms| == 0 then Failure(SecretNotFound(name))
    else if |ms| > 1 then Failure(MultipleSecrets(name))
    else
      assert ms[0] in ms;
      assert forall x :: x in ms ==> x == ms[0];
      match ms[0].payload
      case Decoded(m) => Success(m)
      case Undecodable => Failure(UndecodablePayload(name))
  }

  /** A name carried by exactly one item whose payload decodes is fetched as
      that payload's record. */
  lemma GetDataSingle(items: seq<Item>, name: string, m: map<string, string>)
    requires Matching(items, name) == [Item(name, Decoded(m))]
    ensures GetData(items, name) == Success(m)
  {
  }

  /** Storing a record: the record becomes the only item with its name,
      every other item staying as it was. */
  function Replace(items: seq<Item>, name: string, m: map<string, string>): seq<Item> {
    Without(items, name) + [Item(name, Decoded(m))]
  }

  /** After a store, fetching the name returns exactly what was stored. */
  lemma FetchAfterPersist(items: seq<Item>, name: string, m: map<string, string>)
    ensures GetData(Replace(items, name, m), name) == Success(m)
  {
    var rs := Replace(items, name, m);
    var w := Without(items, name);
    assert rs[..|rs| - 1] == w;
    assert Matching(w, name) == [] by {
      MatchingMembers(w, name);
      WithoutMembers(items, name);
      if Matching(w, name) != [] {
        assert Matching(w, name)[0] in Matching(w, name);
      }
    }
  }

  /** A store leaves every other name's lookup as it was. */
  lemma {:induction false} PersistLeavesOthers(items: seq<Item>, name: string, m: map<string, string>, other: string)
    requires other != name
    ensures Matching(Replace(items, name, m), other) == Matching(items, other)
    ensures GetData(Replace(items, name, m), other) == GetData(items, other)
  {
    var rs := Replace(items, name, m);
    assert rs[..|rs| - 1] == Without(items, name);
    WithoutKeepsOthers(items, name, other);
  }

  lemma {:induction false} WithoutKeepsOthers(items: seq<Item>, name: string, other: string)
    requires other != name
    ensures Matching(Without(items, name), other) == Matching(items, other)
    decreases |items|
  {
    if items != [] {
      var init := items[..|items| - 1];
      var last := items[|items| - 1];
      WithoutKeepsOthers(init, name, other);
      if last.name != name {
        assert Without(items, name) == Without(init, name) + [last];
        MatchingSnoc(Without(init, name), last, other);
      } else {
        assert Without(items, name) == Without(init, name);
        assert Matching(items, other) == Matching(init, other);
      }
    }
  }

  lemma MatchingSnoc(s: seq<Item>, x: Item, name: string)
    ensures Matching(s + [x], name) == Matching(s, name) + if x.name == name then [x] else []
  {
    assert (s + [x])[..|s|] == s;
  }

  class Backend {
    /** The items of the service's collection. */
    var items: seq<Item>
    /** How many store requests the service has received. */
    var writes: nat

    constructor (items: seq<Item>)
      ensures this.items == items && writes == 0
    {
      this.items := items;
      writes := 0;
    }

    /** `secrets`: the names of every stored item. */
    method ListLabels() returns (names: seq<string>)
      ensures names == Labels(items)
    {
      names := Labels(items);
    }

    /** `get_data`: the record stored under `name`. */
    method Fetch(name: string) returns (r: Result<map<string, string>>)
      ensures r == GetData(items, name)
    {
      r := GetData(items, name);
    }

    /** `store`: replaces whatever was stored under `name` by `m`. */
    method Persist(name: string, m: map<string, string>)
      modifies this
      ensures items == Replace(old(items), name, m)
      ensures writes == old(writes) + 1
    {
      items := Replace(items, name, m);
      writes := writes + 1;
    }
  }
}
