/** Concrete runs of the record operations and of the two commands, each a
    consequence of the general contracts. */
module Scenarios {
  import opened Wrappers
  import opened Text
  import opened Fields
  import opened Records
  import opened Fuzzel
  import opened Vault
  import opened Workflows

  /** Inserting a field and getting it back yields that field. */
  method InsertThenGet() returns (field: Option<Field>)
    ensures field == Some(Field("username", "john"))
  {
    var data := new Secret();
    data.Insert("username", "john");
    field := data.Get("username");
  }

  /** Removing the only field returns it and leaves the record empty. */
  method RemoveOnly() returns (removed: Option<Field>, empty: bool)
    ensures removed == Some(Field("password", "secret"))
    ensures empty
  {
    var data := new Secret();
    data.Insert("password", "secret");
    removed := data.Remove("password");
    empty := data.IsEmpty();
  }

  /** Collecting two fields with different keys gives a record holding both. */
  method CollectTwo() returns (len: nat, hasUser: bool, hasPassword: bool)
    ensures len == 2 && hasUser && hasPassword
  {
    var fs := [Field("username", "john"), Field("password", "secret")];
    var data := new Secret.FromFields(fs);
    InsertAllLastWins(map[], fs, 0);
    InsertAllLastWins(map[], fs, 1);
    InsertAllKeys(map[], fs);
    assert data.fields.Keys == {"username", "password"};
    len := data.Len();
    hasUser := data.ContainsKey("username");
    hasPassword := data.ContainsKey("password");
  }

  /** Enumerating a record of two fields yields both keys, once each. */
  method IterateTwo() returns (keys: seq<string>)
    ensures |keys| == 2 && "key1" in keys && "key2" in keys
  {
    var data := new Secret();
    data.Insert("key1", "val1");
    data.Insert("key2", "val2");
    assert data.fields.Keys == {"key1", "key2"};
    var fs := data.Fields();
    keys := KeysOf(fs);
    assert Field("key1", "val1") in fs && Field("key2", "val2") in fs;
    var i :| 0 <= i < |fs| && fs[i] == Field("key1", "val1");
    var j :| 0 <= j < |fs| && fs[j] == Field("key2", "val2");
    assert keys[i] == "key1" && keys[j] == "key2";
  }

  /** Typed text that is already trimmed is read back as typed. */
  lemma EnteredAsTyped(text: string, items: seq<string>, rest: seq<Reply>)
    requires IsTrimmed(text)
    ensures TextReply(Head([Entered(text)] + rest), items) == Success(text)
  {
    TrimmedIsFixed(text);
  }

  /** A pass that goes on hands the loop over to the next pass. */
  lemma LoopGoesOn(d: map<string, string>, keys: seq<string>, replies: seq<Reply>, shown: seq<Prompt>)
    requires RunRound(d, Menu(d), keys, replies).outcome.Next?
    ensures var round := RunRound(d, Menu(d), keys, replies);
      EditLoop(d, keys, replies, shown) == EditLoop(round.outcome.data, keys, round.outcome.rest, shown + round.shown)
  {
  }

  /** Completing from any record ends the loop with that record, whatever
      was shown before. */
  lemma CompleteAfter(d: map<string, string>, keys: seq<string>, shown: seq<Prompt>)
    ensures EditLoop(d, keys, [Chose(1)], shown).result == Success(d)
  {
    CompleteEndsLoop(d, keys, [Chose(1)]);
    EditLoopAfter(d, keys, [Chose(1)], shown, []);
  }

  lemma AddTyped(d: map<string, string>, keys: seq<string>, key: string, value: string)
    requires IsTrimmed(key) && IsTrimmed(value)
    ensures RunRound(d, Menu(d), keys, [Chose(0), Entered(key), Entered(value), Chose(1)]).outcome
      == Next(d[key := value], [Chose(1)])
  {
    var replies := [Chose(0), Entered(key), Entered(value), Chose(1)];
    assert TextReply(replies[1], keys) == Success(key) by {
      TrimmedIsFixed(key);
    }
    assert TextReply(replies[2], []) == Success(value) by {
      TrimmedIsFixed(value);
    }
    assert replies[3..] == [Chose(1)];
    AddRound(d, keys, replies);
  }

  /** Adding one field and completing ends the loop with that field set to
      the typed value. */
  lemma AddThenComplete(d: map<string, string>, keys: seq<string>, key: string, value: string, shown: seq<Prompt>)
    requires IsTrimmed(key) && IsTrimmed(value)
    ensures EditLoop(d, keys, [Chose(0), Entered(key), Entered(value), Chose(1)], shown).result
      == Success(d[key := value])
  {
    var replies := [Chose(0), Entered(key), Entered(value), Chose(1)];
    AddTyped(d, keys, key, value);
    LoopGoesOn(d, keys, replies, shown);
    CompleteAfter(d[key := value], keys, shown + RunRound(d, Menu(d), keys, replies).shown);
  }

  lemma EditTyped(d: map<string, string>, menu: seq<string>, keys: seq<string>, k: string, i: nat, value: string)
    requires k in d && !HasSubstring(k, Separator)
    requires i < |menu| && menu[i] == Field(k, d[k]).Display()
    requires IsTrimmed(value)
    ensures RunRound(d, menu, keys, [Chose(i), Entered(value), Chose(1)]).outcome
      == Next(d[k := value], [Chose(1)])
  {
    var replies := [Chose(i), Entered(value), Chose(1)];
    assert TextReply(replies[1], []) == Success(value) by {
      TrimmedIsFixed(value);
    }
    assert replies[2..] == [Chose(1)];
    EditRoundOn(d, menu, keys, replies, k, i);
  }

  /** Editing one field, chosen by its menu line, and completing ends the
      loop with that field's value replaced. */
  lemma EditThenComplete(d: map<string, string>, keys: seq<string>, k: string, i: nat, value: string, shown: seq<Prompt>)
    requires k in d && !HasSubstring(k, Separator)
    requires i < |Menu(d)| && Menu(d)[i] == Field(k, d[k]).Display()
    requires IsTrimmed(value)
    ensures EditLoop(d, keys, [Chose(i), Entered(value), Chose(1)], shown).result == Success(d[k := value])
  {
    var replies := [Chose(i), Entered(value), Chose(1)];
    EditTyped(d, Menu(d), keys, k, i, value);
    LoopGoesOn(d, keys, replies, shown);
    CompleteAfter(d[k := value], keys, shown + RunRound(d, Menu(d), keys, replies).shown);
  }

  /** The store command once the name is chosen and its record loaded:
      what the loop ends with is stored unless it is empty. */
  lemma StoreAfterLoop(items: seq<Item>, keys: seq<string>, replies: seq<Reply>, name: string,
                       start: map<string, string>, d: map<string, string>)
    requires TextReply(Head(replies), Sorting.Sort(Labels(items))) == Success(name)
    requires StartData(items, name) == Success(start)
    requires EditLoop(start, Sorting.Sort(keys), Rest(replies), [Prompt(TextMenu, Sorting.Sort(Labels(items)), "Label")]).result == Success(d)
    ensures StoreRun(items, Success(keys), replies).result
      == if d == map[] then Failure(NoFieldsProvided) else Success(Record(name, d))
  {
  }

  /** A record that cannot be loaded fails the store command. */
  lemma StoreStartFails(items: seq<Item>, suggestions: Result<seq<string>>, replies: seq<Reply>, name: string, e: Error)
    requires TextReply(Head(replies), Sorting.Sort(Labels(items))) == Success(name)
    requires StartData(items, name) == Failure(e)
    ensures StoreRun(items, suggestions, replies).result == Failure(e)
    ensures StoreRun(items, suggestions, replies).shown == [Prompt(TextMenu, Sorting.Sort(Labels(items)), "Label")]
  {
  }

  /** Storing under a new name one added field persists a record holding
      exactly that field. */
  lemma StoreNewRecord(items: seq<Item>, suggested: seq<string>, name: string, key: string, value: string)
    requires forall x :: x in items ==> x.name != name
    requires IsTrimmed(name) && IsTrimmed(key) && IsTrimmed(value)
    ensures StoreRun(items, Success(suggested), [Entered(name), Chose(0), Entered(key), Entered(value), Chose(1)]).result
      == Success(Record(name, map[key := value]))
  {
    var loop := [Chose(0), Entered(key), Entered(value), Chose(1)];
    var replies := [Entered(name)] + loop;
    var names := Sorting.Sort(Labels(items));
    assert TextReply(Head(replies), names) == Success(name) by {
      EnteredAsTyped(name, names, loop);
    }
    assert StartData(items, name) == Success(map[]);
    assert EditLoop(map[], Sorting.Sort(suggested), Rest(replies), [Prompt(TextMenu, names, "Label")]).result
        == Success(map[key := value]) by {
      assert Rest(replies) == loop;
      AddThenComplete(map[], Sorting.Sort(suggested), key, value, [Prompt(TextMenu, names, "Label")]);
      assert map[][key := value] == map[key := value];
    }
    assert key in map[key := value];
    StoreAfterLoop(items, suggested, replies, name, map[], map[key := value]);
  }

  /** A name stored exactly once loads its record. */
  lemma StartStored(items: seq<Item>, name: string, d: map<string, string>)
    requires Matching(items, name) == [Item(name, Decoded(d))]
    ensures StartData(items, name) == Success(d)
  {
    MatchingMembers(items, name);
    assert Item(name, Decoded(d)) in Matching(items, name);
  }

  /** Storing under a stored name, editing one field, persists the stored
      record with that field's value replaced. */
  lemma StoreEditedRecord(items: seq<Item>, suggested: seq<string>, name: string, d: map<string, string>,
                          k: string, i: nat, value: string)
    requires Matching(items, name) == [Item(name, Decoded(d))]
    requires IsTrimmed(name) && IsTrimmed(value)
    requires k in d && !HasSubstring(k, Separator)
    requires i < |Menu(d)| && Menu(d)[i] == Field(k, d[k]).Display()
    ensures StoreRun(items, Success(suggested), [Entered(name), Chose(i), Entered(value), Chose(1)]).result
      == Success(Record(name, d[k := value]))
  {
    var loop := [Chose(i), Entered(value), Chose(1)];
    var replies := [Entered(name)] + loop;
    var names := Sorting.Sort(Labels(items));
    assert TextReply(Head(replies), names) == Success(name) by {
      EnteredAsTyped(name, names, loop);
    }
    StartStored(items, name, d);
    assert EditLoop(d, Sorting.Sort(suggested), Rest(replies), [Prompt(TextMenu, names, "Label")]).result
        == Success(d[k := value]) by {
      assert Rest(replies) == loop;
      EditThenComplete(d, Sorting.Sort(suggested), k, i, value, [Prompt(TextMenu, names, "Label")]);
    }
    assert k in d[k := value];
    StoreAfterLoop(items, suggested, replies, name, d, d[k := value]);
  }

  /** Completing at once under a new name refuses to store. */
  lemma StoreNothing(items: seq<Item>, suggested: seq<string>, name: string)
    requires forall x :: x in items ==> x.name != name
    requires IsTrimmed(name)
    ensures StoreRun(items, Success(suggested), [Entered(name), Chose(1)]).result == Failure(NoFieldsProvided)
  {
    var replies := [Entered(name)] + [Chose(1)];
    EnteredAsTyped(name, Sorting.Sort(Labels(items)), [Chose(1)]);
    CompleteAfter(map[], Sorting.Sort(suggested), [Prompt(TextMenu, Sorting.Sort(Labels(items)), "Label")]);
    assert Rest(replies) == [Chose(1)];
    StoreAfterLoop(items, suggested, replies, name, map[], map[]);
  }

  /** A name stored more than once cannot be loaded. */
  lemma StartAmbiguous(items: seq<Item>, name: string)
    requires |Matching(items, name)| > 1
    ensures StartData(items, name) == Failure(MultipleSecrets(name))
  {
    MatchingMembers(items, name);
    assert Matching(items, name)[0] in Matching(items, name);
  }

  /** A name stored more than once cannot be loaded, so storing under it
      fails before the menu is shown. */
  lemma StoreAmbiguous(items: seq<Item>, suggestions: Result<seq<string>>, name: string, rest: seq<Reply>)
    requires |Matching(items, name)| > 1
    requires IsTrimmed(name)
    ensures StoreRun(items, suggestions, [Entered(name)] + rest).result == Failure(MultipleSecrets(name))
    ensures StoreRun(items, suggestions, [Entered(name)] + rest).shown == [Prompt(TextMenu, Sorting.Sort(Labels(items)), "Label")]
  {
    StartAmbiguous(items, name);
    EnteredAsTyped(name, Sorting.Sort(Labels(items)), rest);
    StoreStartFails(items, suggestions, [Entered(name)] + rest, name, MultipleSecrets(name));
  }

  /** Retrieving a sensitive field emits the secret itself, not its mask. */
  lemma RetrieveSensitiveValue()
    ensures RetrieveField(map["password" := "xyz"], Chose(0), ["password"]) == Success("xyz")
    ensures Field("password", "xyz").DisplayValue() == Mask
  {
    ContainsJoin("", "password", "");
    assert "" + "password" + "" == "password";
    assert ToLower("password") == "password";
  }
}
