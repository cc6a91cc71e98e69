/** The two commands of the program (fuzzel-secrets/src/main.rs): storing a
    credential record through a menu loop, and retrieving one field of a
    stored record. The picker and the secret service are the objects of the
    Fuzzel and Vault modules; each command is a method proved against a
    reference function of the stored items and of the user's answers. */
module Workflows {
  import opened Wrappers
  import opened Text
  import opened Sorting
  import opened Fields
  import opened Records
  import opened Fuzzel
  import opened Vault

  /** The two menu lines that are not fields. */
  const AddOption: string := "+   Add field"
  const CompleteOption: string := "\U{2713}   Complete"

  /** A record as the store command persists it: its name and its fields. */
  datatype Record = Record(name: string, data: map<string, string>)

  lemma AppendAssoc<T>(a: seq<T>, b: seq<T>, c: seq<T>)
    ensures a + (b + c) == a + b + c
  {
  }

  /** What a command returns together with the prompts it showed, oldest first. */
  datatype Session<T> = Session(result: Result<T>, shown: seq<Prompt>)

  /** `f` applied to every element of `s`, in order. */
  function Map<T, U>(f: T -> U, s: seq<T>): (r: seq<U>)
    ensures |r| == |s|
    ensures forall i :: 0 <= i < |s| ==> r[i] == f(s[i])
  {
    seq(|s|, i requires 0 <= i < |s| => f(s[i]))
  }

  lemma MapAppend<T, U>(f: T -> U, a: seq<T>, b: seq<T>)
    ensures Map(f, a + b) == Map(f, a) + Map(f, b)
  {
  }

  /** Taking out the element at `j` takes one copy of it out of the multiset. */
  lemma RemoveAt<T>(b: seq<T>, j: nat)
    requires j < |b|
    ensures multiset(b[..j] + b[j + 1..]) == multiset(b) - multiset{b[j]}
  {
    assert b == b[..j] + [b[j]] + b[j + 1..];
  }

  lemma MapRemoveAt<T, U>(f: T -> U, b: seq<T>, j: nat)
    requires j < |b|
    ensures multiset(Map(f, b)) == multiset{f(b[j])} + multiset(Map(f, b[..j] + b[j + 1..]))
  {
    assert b == b[..j] + [b[j]] + b[j + 1..];
    MapAppend(f, b[..j] + [b[j]], b[j + 1..]);
    MapAppend(f, b[..j], [b[j]]);
    MapAppend(f, b[..j], b[j + 1..]);
  }

  lemma MapCons<T, U>(f: T -> U, s: seq<T>)
    requires s != []
    ensures multiset(Map(f, s)) == multiset{f(s[0])} + multiset(Map(f, s[1..]))
  {
    var m := Map(f, s);
    assert m == [m[0]] + m[1..];
    assert m[1..] == Map(f, s[1..]);
  }

  /** What a mapped list holds depends only on what the list holds, not on
      its order. */
  lemma {:induction false} MapMultiset<T, U>(f: T -> U, a: seq<T>, b: seq<T>)
    requires multiset(a) == multiset(b)
    ensures multiset(Map(f, a)) == multiset(Map(f, b))
    decreases |a|
  {
    if a == [] {
      assert |b| == |multiset(b)| == 0;
    } else {
      var x := a[0];
      assert x in multiset(b);
      var j :| 0 <= j < |b| && b[j] == x;
      var b' := b[..j] + b[j + 1..];
      assert multiset(b') == multiset(b) - multiset{x} by {
        RemoveAt(b, j);
      }
      assert multiset(a[1..]) == multiset(a) - multiset{x} by {
        assert a == [x] + a[1..];
      }
      calc {
        multiset(Map(f, a));
        { MapCons(f, a); }
        multiset{f(x)} + multiset(Map(f, a[1..]));
        { MapMultiset(f, a[1..], b'); }
        multiset{f(x)} + multiset(Map(f, b'));
        { MapRemoveAt(f, b, j); }
        multiset(Map(f, b));
      }
    }
  }

  function DisplayOf(f: Field): string {
    f.Display()
  }

  /** The display line of every field of the list, in the same order. */
  function DisplayAll(fs: seq<Field>): (ds: seq<string>)
    ensures |ds| == |fs|
  {
    Map(DisplayOf, fs)
  }

  lemma DisplayAllAt(fs: seq<Field>, i: nat)
    requires i < |fs|
    ensures DisplayAll(fs)[i] == fs[i].Display()
  {
  }

  /** The display lines of a list of fields depend only on which fields it
      holds, not on their order. */
  lemma DisplayAllMultiset(a: seq<Field>, b: seq<Field>)
    requires multiset(a) == multiset(b)
    ensures multiset(DisplayAll(a)) == multiset(DisplayAll(b))
  {
    MapMultiset(DisplayOf, a, b);
  }

  /** The menu the store loop shows for record `m`: the two sentinels,
      then the display line of every field in ascending order. */
  ghost function Menu(m: map<string, string>): seq<string> {
    [AddOption, CompleteOption] + Sort(DisplayAll(CanonicalListing(m)))
  }

  /** The menu does not depend on the order in which the record's map is
      enumerated. */
  lemma MenuOfAnyListing(fs: seq<Field>, m: map<string, string>)
    requires IsListing(fs, m)
    ensures [AddOption, CompleteOption] + Sort(DisplayAll(fs)) == Menu(m)
  {
    ListingsAgree(fs, CanonicalListing(m), m);
    DisplayAllMultiset(fs, CanonicalListing(m));
    SortDependsOnMultiset(DisplayAll(fs), DisplayAll(CanonicalListing(m)));
  }

  /** Neither sentinel is the display line of a field, since neither holds
      the separator, and neither parses as one. */
  lemma SentinelsAreNotDisplays(f: Field)
    ensures f.Display() != AddOption && f.Display() != CompleteOption
    ensures Field.ParseFromDisplay(AddOption).Failure?
    ensures Field.ParseFromDisplay(CompleteOption).Failure?
  {
    AbsentFirstChar(AddOption, Separator);
    AbsentFirstChar(CompleteOption, Separator);
  }

  /** The first two lines of every menu are the sentinels. */
  lemma MenuHead(m: map<string, string>)
    ensures |Menu(m)| >= 2 && Menu(m)[0] == AddOption && Menu(m)[1] == CompleteOption
  {
  }

  /** The field lines of the menu hold exactly the display lines of the
      record's fields, each once. */
  lemma MenuTail(m: map<string, string>)
    ensures Menu(m)[2..] == Sort(DisplayAll(CanonicalListing(m)))
    ensures multiset(Menu(m)[2..]) == multiset(DisplayAll(CanonicalListing(m)))
    ensures |Menu(m)| == |m| + 2
  {
  }

  /** Every field of the record has its line in the menu. */
  lemma MenuHasField(m: map<string, string>, k: string)
    requires k in m
    ensures Field(k, m[k]).Display() in Menu(m)[2..]
  {
    MenuTail(m);
    var cl := CanonicalListing(m);
    var i :| 0 <= i < |cl| && cl[i] == Field(k, m[k]);
    assert DisplayAll(cl)[i] in multiset(DisplayAll(cl));
  }

  /** Every field line of the menu is the display of one of the record's
      fields, so it is neither sentinel. */
  lemma MenuLineIsField(m: map<string, string>, i: nat)
    requires 2 <= i < |Menu(m)|
    ensures exists k :: k in m && Menu(m)[i] == Field(k, m[k]).Display()
    ensures Menu(m)[i] != AddOption && Menu(m)[i] != CompleteOption
  {
    MenuTail(m);
    var cl := CanonicalListing(m);
    var ds := DisplayAll(cl);
    assert Menu(m)[i] == Menu(m)[2..][i - 2];
    assert Menu(m)[i] in multiset(ds);
    var j :| 0 <= j < |ds| && ds[j] == Menu(m)[i];
    assert cl[j] == Field(cl[j].key, m[cl[j].key]);
    SentinelsAreNotDisplays(cl[j]);
  }

  /** Every menu: the sentinels at 0 and 1, then one sorted line per field,
      each line the display of some field and no line a sentinel. */
  lemma MenuShape(m: map<string, string>)
    ensures |Menu(m)| == |m| + 2
    ensures Menu(m)[0] == AddOption && Menu(m)[1] == CompleteOption
    ensures Sorted(Menu(m)[2..])
    ensures forall k :: k in m ==> Field(k, m[k]).Display() in Menu(m)[2..]
    ensures forall i :: 2 <= i < |Menu(m)| ==>
      exists k :: k in m && Menu(m)[i] == Field(k, m[k]).Display()
    ensures forall i :: 2 <= i < |Menu(m)| ==>
      Menu(m)[i] != AddOption && Menu(m)[i] != CompleteOption
  {
    MenuTail(m);
    forall k | k in m
      ensures Field(k, m[k]).Display() in Menu(m)[2..]
    {
      MenuHasField(m, k);
    }
    forall i | 2 <= i < |Menu(m)|
      ensures exists k :: k in m && Menu(m)[i] == Field(k, m[k]).Display()
      ensures Menu(m)[i] != AddOption && Menu(m)[i] != CompleteOption
    {
      MenuLineIsField(m, i);
    }
  }

  /** The prompt a value is asked with: hidden for a sensitive key. */
  function ValueMode(sensitive: bool): Mode {
    if sensitive then PasswordInput else PlainInput
  }

  /** How one pass of the store menu ends: the loop is left, it goes on
      with new data and the answers not yet used, or the command fails. */
  datatype Outcome =
    | Done
    | Next(data: map<string, string>, rest: seq<Reply>)
    | Failed(error: Error)

  datatype Round = Round(outcome: Outcome, shown: seq<Prompt>)

  /** The add branch, after the menu: asks for a key among the suggested
      `keys`, then for its value, hidden for a sensitive key. */
  function AddStep(d: map<string, string>, keys: seq<string>, replies: seq<Reply>): (r: Round)
    ensures !r.outcome.Done?
    ensures r.outcome.Next? ==> |r.outcome.rest| <= |replies|
    ensures r.outcome.Next? ==> d.Keys <= r.outcome.data.Keys
  {
    var keyPrompt := Prompt(TextMenu, keys, "Field name");
    match TextReply(Head(replies), keys)
    case Failure(e) => Round(Failed(e), [keyPrompt])
    case Success(key) =>
      var valuePrompt := Prompt(ValueMode(Field.IsKeySensitive(key)), [], "Value for '" + key + "'");
      var afterKey := Rest(replies);
      match TextReply(Head(afterKey), [])
      case Failure(e) => Round(Failed(e), [keyPrompt, valuePrompt])
      case Success(value) => Round(Next(d[key := value], Rest(afterKey)), [keyPrompt, valuePrompt])
  }

  /** The edit branch, after the menu: recovers the key from the chosen
      line and asks for its new value, hidden for a sensitive key. */
  function EditStep(d: map<string, string>, selection: string, replies: seq<Reply>): (r: Round)
    ensures !r.outcome.Done?
    ensures r.outcome.Next? ==> |r.outcome.rest| <= |replies|
    ensures r.outcome.Next? ==> d.Keys <= r.outcome.data.Keys
  {
    match Field.ParseFromDisplay(selection)
    case Failure(e) => Round(Failed(e), [])
    case Success(field) =>
      var valuePrompt := Prompt(ValueMode(field.IsSensitive()), [], "New value for '" + field.key + "'");
      match TextReply(Head(replies), [])
      case Failure(e) => Round(Failed(e), [valuePrompt])
      case Success(value) => Round(Next(d[field.key := value], Rest(replies)), [valuePrompt])
  }

  /** One pass of the store menu on record `d` showing `menu`, with `keys`
      suggested as field names. A pass that goes on uses up at least one answer and
      never drops a field. */
  function RunRound(d: map<string, string>, menu: seq<string>, keys: seq<string>, replies: seq<Reply>): (r: Round)
    ensures r.outcome.Next? ==> |r.outcome.rest| < |replies|
    ensures r.outcome.Next? ==> d.Keys <= r.outcome.data.Keys
    ensures |r.shown| > 0 && r.shown[0] == Prompt(IndexMenu, menu, "Secret fields")
  {
    var menuPrompt := Prompt(IndexMenu, menu, "Secret fields");
    match SelectReply(Head(replies), menu)
    case Failure(e) => Round(Failed(e), [menuPrompt])
    case Success(selection) =>
      var step := Branch(d, keys, selection, Rest(replies));
      Round(step.outcome, [menuPrompt] + step.shown)
  }

  /** What the chosen menu line leads to: leaving the loop, the add branch
      or the edit branch. */
  function Branch(d: map<string, string>, keys: seq<string>, selection: string, replies: seq<Reply>): (r: Round)
    ensures r.outcome.Done? <==> selection == CompleteOption
    ensures r.outcome.Next? ==> |r.outcome.rest| <= |replies|
    ensures r.outcome.Next? ==> d.Keys <= r.outcome.data.Keys
  {
    if selection == CompleteOption then Round(Done, [])
    else if selection == AddOption then AddStep(d, keys, replies)
    else EditStep(d, selection, replies)
  }

  /** The store loop from record `d` until the user completes or an answer
      fails, after the prompts `shown`. A completed loop keeps every field
      it started with. */
  ghost function EditLoop(d: map<string, string>, keys: seq<string>, replies: seq<Reply>, shown: seq<Prompt>): (s: Session<map<string, string>>)
    ensures s.result.Success? ==> d.Keys <= s.result.value.Keys
    decreases |replies|
  {
    var round := RunRound(d, Menu(d), keys, replies);
    match round.outcome
    case Done => Session(Success(d), shown + round.shown)
    case Failed(e) => Session(Failure(e), shown + round.shown)
    case Next(d', rest) => EditLoop(d', keys, rest, shown + round.shown)
  }

  /** The prompts shown before the loop only precede those it shows. */
  lemma {:induction false} EditLoopAfter(d: map<string, string>, keys: seq<string>, replies: seq<Reply>, before: seq<Prompt>, shown: seq<Prompt>)
    ensures EditLoop(d, keys, replies, before + shown).result == EditLoop(d, keys, replies, shown).result
    ensures EditLoop(d, keys, replies, before + shown).shown == before + EditLoop(d, keys, replies, shown).shown
    decreases |replies|
  {
    var round := RunRound(d, Menu(d), keys, replies);
    AppendAssoc(before, shown, round.shown);
    match round.outcome
    case Done =>
    case Failed(e) =>
    case Next(d', rest) =>
      EditLoopAfter(d', keys, rest, before, shown + round.shown);
  }

  /** The record the store loop starts from: the stored one when the chosen
      name is exactly one of the listed names, an empty one otherwise. */
  function StartData(items: seq<Item>, name: string): (r: Result<map<string, string>>)
    ensures (exists x :: x in items && x.name == name) ==> r == GetData(items, name)
    ensures (forall x :: x in items ==> x.name != name) ==> r == Success(map[])
  {
    StartDataListed(items, name);
    if name in Sort(Labels(items)) then GetData(items, name) else Success(map[])
  }

  lemma StartDataListed(items: seq<Item>, name: string)
    ensures name in Sort(Labels(items)) <==> exists x :: x in items && x.name == name
  {
    var ls := Labels(items);
    assert name in Sort(ls) <==> name in ls by {
      assert name in Sort(ls) <==> name in multiset(Sort(ls));
    }
    if name in ls {
      var i :| 0 <= i < |ls| && ls[i] == name;
      assert items[i] in items;
    }
    if x :| x in items && x.name == name {
      var i :| 0 <= i < |items| && items[i] == x;
      assert ls[i] == name;
    }
  }

  /** The whole store command on the stored `items`, with the suggested
      field names `suggestions` and the user's `replies`: choose a name,
      load or start the record, run the loop, and refuse an empty record. */
  ghost function StoreRun(items: seq<Item>, suggestions: Result<seq<string>>, replies: seq<Reply>): (s: Session<Record>)
    ensures s.result.Success? ==> s.result.value.data != map[]
    ensures s.result.Success? ==>
      var start := StartData(items, s.result.value.name);
      start.Success? && start.value.Keys <= s.result.value.data.Keys
  {
    var names := Sort(Labels(items));
    var labelPrompt := Prompt(TextMenu, names, "Label");
    match TextReply(Head(replies), names)
    case Failure(e) => Session(Failure(e), [labelPrompt])
    case Success(name) =>
      match StartData(items, name)
      case Failure(e) => Session(Failure(e), [labelPrompt])
      case Success(start) =>
        match suggestions
        case Failure(e) => Session(Failure(e), [labelPrompt])
        case Success(keys) =>
          var run := EditLoop(start, Sort(keys), Rest(replies), [labelPrompt]);
          match run.result
          case Failure(e) => Session(Failure(e), run.shown)
          case Success(d) =>
            if d == map[] then Session(Failure(NoFieldsProvided), run.shown)
            else Session(Success(Record(name, d)), run.shown)
  }

  /** Choosing the second line of any menu completes the loop with the
      record as it is. */
  lemma CompleteEndsLoop(d: map<string, string>, keys: seq<string>, replies: seq<Reply>)
    requires replies != [] && replies[0] == Chose(1)
    ensures EditLoop(d, keys, replies, []) == Session(Success(d), [Prompt(IndexMenu, Menu(d), "Secret fields")])
  {
    MenuHead(d);
    assert SelectReply(Head(replies), Menu(d)) == Success(CompleteOption);
  }

  /** Choosing the first line adds or overwrites the entered key with the
      entered value and nothing else; the value is asked for hidden
      exactly when the key is sensitive. */
  lemma AddRound(d: map<string, string>, keys: seq<string>, replies: seq<Reply>)
    requires |replies| >= 3 && replies[0] == Chose(0)
    requires TextReply(replies[1], keys).Success? && TextReply(replies[2], []).Success?
    ensures var key := TextReply(replies[1], keys).value;
      var value := TextReply(replies[2], []).value;
      RunRound(d, Menu(d), keys, replies) == Round(
        Next(d[key := value], replies[3..]),
        [ Prompt(IndexMenu, Menu(d), "Secret fields"),
          Prompt(TextMenu, keys, "Field name"),
          Prompt(if Field.IsKeySensitive(key) then PasswordInput else PlainInput, [], "Value for '" + key + "'")])
  {
    var menu := Menu(d);
    assert SelectReply(Head(replies), menu) == Success(AddOption) by {
      MenuHead(d);
    }
    assert AddOption != CompleteOption;
    assert Rest(replies) == replies[1..];
    AddTypedStep(d, keys, replies[1..]);
    assert replies[1..][2..] == replies[3..];
  }

  /** The add branch with a key and a value both answered. */
  lemma AddTypedStep(d: map<string, string>, keys: seq<string>, replies: seq<Reply>)
    requires |replies| >= 2
    requires TextReply(replies[0], keys).Success? && TextReply(replies[1], []).Success?
    ensures var key := TextReply(replies[0], keys).value;
      var value := TextReply(replies[1], []).value;
      AddStep(d, keys, replies) == Round(
        Next(d[key := value], replies[2..]),
        [ Prompt(TextMenu, keys, "Field name"),
          Prompt(if Field.IsKeySensitive(key) then PasswordInput else PlainInput, [], "Value for '" + key + "'")])
  {
    assert Head(replies) == replies[0];
    assert Rest(replies) == replies[1..];
    assert Head(replies[1..]) == replies[1];
    assert Rest(replies[1..]) == replies[2..];
  }

  /** Choosing the line of a field whose key holds no separator asks for a
      new value of that same key, hidden exactly when the key is sensitive,
      and overwrites it: the keys and their number stay the same. */
  lemma EditRound(d: map<string, string>, keys: seq<string>, replies: seq<Reply>, k: string, i: nat)
    requires k in d && !HasSubstring(k, Separator)
    requires i < |Menu(d)| && Menu(d)[i] == Field(k, d[k]).Display()
    requires |replies| >= 2 && replies[0] == Chose(i)
    requires TextReply(replies[1], []).Success?
    ensures var value := TextReply(replies[1], []).value;
      RunRound(d, Menu(d), keys, replies) == Round(
        Next(d[k := value], replies[2..]),
        [ Prompt(IndexMenu, Menu(d), "Secret fields"),
          Prompt(if Field.IsKeySensitive(k) then PasswordInput else PlainInput, [], "New value for '" + k + "'")])
    ensures var value := TextReply(replies[1], []).value;
      d[k := value].Keys == d.Keys && |d[k := value]| == |d|
  {
    EditRoundOn(d, Menu(d), keys, replies, k, i);
  }

  /** The same pass on any menu whose chosen line is the field's display line. */
  lemma EditRoundOn(d: map<string, string>, menu: seq<string>, keys: seq<string>, replies: seq<Reply>, k: string, i: nat)
    requires k in d && !HasSubstring(k, Separator)
    requires i < |menu| && menu[i] == Field(k, d[k]).Display()
    requires |replies| >= 2 && replies[0] == Chose(i)
    requires TextReply(replies[1], []).Success?
    ensures var value := TextReply(replies[1], []).value;
      RunRound(d, menu, keys, replies) == Round(
        Next(d[k := value], replies[2..]),
        [ Prompt(IndexMenu, menu, "Secret fields"),
          Prompt(if Field.IsKeySensitive(k) then PasswordInput else PlainInput, [], "New value for '" + k + "'")])
    ensures var value := TextReply(replies[1], []).value;
      d[k := value].Keys == d.Keys && |d[k := value]| == |d|
  {
    var f := Field(k, d[k]);
    assert SelectReply(Head(replies), menu) == Success(f.Display());
    assert f.Display() != AddOption && f.Display() != CompleteOption by {
      SentinelsAreNotDisplays(f);
    }
    assert Rest(replies) == replies[1..];
    EditDisplayedField(d, k, replies[1..]);
    assert replies[1..][1..] == replies[2..];
  }

  /** The edit branch on the display line of a field whose key holds no
      separator writes that very key. */
  lemma EditDisplayedField(d: map<string, string>, k: string, replies: seq<Reply>)
    requires k in d && !HasSubstring(k, Separator)
    requires replies != [] && TextReply(replies[0], []).Success?
    ensures var value := TextReply(replies[0], []).value;
      EditStep(d, Field(k, d[k]).Display(), replies) == Round(
        Next(d[k := value], replies[1..]),
        [Prompt(if Field.IsKeySensitive(k) then PasswordInput else PlainInput, [], "New value for '" + k + "'")])
    ensures var value := TextReply(replies[0], []).value;
      d[k := value].Keys == d.Keys && |d[k := value]| == |d|
  {
    var f := Field(k, d[k]);
    var value := TextReply(replies[0], []).value;
    assert Field.ParseFromDisplay(f.Display()) == Success(Field(k, f.DisplayValue())) by {
      ParseJoin(k, f.DisplayValue());
    }
    assert d[k := value].Keys == d.Keys;
  }

  /** Choosing, on any menu, the line of a field whose key holds the
      separator does not edit that field: the key written is a strictly
      shorter prefix of it. */
  lemma EditRoundSeparatorKey(d: map<string, string>, menu: seq<string>, keys: seq<string>, replies: seq<Reply>, k: string, i: nat)
    requires k in d && HasSubstring(k, Separator)
    requires i < |menu| && menu[i] == Field(k, d[k]).Display()
    requires |replies| >= 2 && replies[0] == Chose(i)
    requires TextReply(replies[1], []).Success?
    ensures var written := Field.ParseFromDisplay(Field(k, d[k]).Display()).value.key;
      var value := TextReply(replies[1], []).value;
      && |written| < |k| && written == k[..|written|]
      && RunRound(d, menu, keys, replies).outcome == Next(d[written := value], replies[2..])
  {
    var f := Field(k, d[k]);
    assert SelectReply(Head(replies), menu) == Success(f.Display());
    assert f.Display() != AddOption && f.Display() != CompleteOption by {
      SentinelsAreNotDisplays(f);
    }
    SeparatorInKeyBreaksRoundTrip(f);
    assert Rest(replies) == replies[1..];
    assert Head(replies[1..]) == replies[1];
    assert Rest(replies[1..]) == replies[2..];
  }

  /** Reads the value of a field, hidden or plain as `sensitive` says. */
  method AskValue(picker: Picker, sensitive: bool, placeholder: string) returns (r: Result<string>)
    modifies picker
    ensures r == TextReply(Head(old(picker.pending)), []) && picker.pending == Rest(old(picker.pending))
    ensures picker.shown == old(picker.shown) + [Prompt(ValueMode(sensitive), [], placeholder)]
  {
    if sensitive {
      r := picker.RequestPassword(placeholder);
    } else {
      r := picker.RequestInput(placeholder);
    }
  }

  /** Builds the menu for the current record. */
  method BuildMenu(data: Secret) returns (menu: seq<string>)
    ensures menu == Menu(data.fields)
  {
    var fs := data.Fields();
    var lines := DisplayAll(fs);
    lines := Sort(lines);
    menu := [AddOption, CompleteOption] + lines;
    MenuOfAnyListing(fs, data.fields);
  }

  /** The add branch of the store loop. */
  method AddField(data: Secret, picker: Picker, keys: seq<string>) returns (outcome: Outcome)
    modifies data, picker
    ensures var step := AddStep(old(data.fields), keys, old(picker.pending));
      outcome == step.outcome && picker.shown == old(picker.shown) + step.shown
    ensures outcome.Next? ==> data.fields == outcome.data && picker.pending == outcome.rest
  {
    var key := picker.SelectOrInput(keys, "Field name");
    if key.Failure? {
      return Failed(key.error);
    }
    var value := AskValue(picker, Field.IsKeySensitive(key.value), "Value for '" + key.value + "'");
    if value.Failure? {
      return Failed(value.error);
    }
    data.Insert(key.value, value.value);
    outcome := Next(data.fields, picker.pending);
  }

  /** The edit branch of the store loop, for the chosen menu line. */
  method EditField(data: Secret, picker: Picker, selection: string) returns (outcome: Outcome)
    modifies data, picker
    ensures var step := EditStep(old(data.fields), selection, old(picker.pending));
      outcome == step.outcome && picker.shown == old(picker.shown) + step.shown
    ensures outcome.Next? ==> data.fields == outcome.data && picker.pending == outcome.rest
  {
    var field := Field.ParseFromDisplay(selection);
    if field.Failure? {
      return Failed(field.error);
    }
    var value := AskValue(picker, field.value.IsSensitive(), "New value for '" + field.value.key + "'");
    if value.Failure? {
      return Failed(value.error);
    }
    data.Insert(field.value.key, value.value);
    outcome := Next(data.fields, picker.pending);
  }

  /** One pass of the store loop: shows `menu`, then completes, adds a
      field or edits the chosen one. */
  method StoreRound(data: Secret, picker: Picker, keys: seq<string>, menu: seq<string>) returns (outcome: Outcome)
    modifies data, picker
    ensures var round := RunRound(old(data.fields), menu, keys, old(picker.pending));
      outcome == round.outcome && picker.shown == old(picker.shown) + round.shown
    ensures outcome.Done? ==> data.fields == old(data.fields)
    ensures outcome.Next? ==> data.fields == outcome.data && picker.pending == outcome.rest
  {
    ghost var shown := picker.shown;
    var selection := picker.Select(menu, "Secret fields");
    if selection.Failure? {
      return Failed(selection.error);
    }
    ghost var step := Branch(data.fields, keys, selection.value, picker.pending);
    outcome := Dispatch(data, picker, keys, selection.value);
    AppendAssoc(shown, [Prompt(IndexMenu, menu, "Secret fields")], step.shown);
  }

  /** Leaves the loop, adds a field or edits one, as the chosen line says. */
  method Dispatch(data: Secret, picker: Picker, keys: seq<string>, selection: string) returns (outcome: Outcome)
    modifies data, picker
    ensures var step := Branch(old(data.fields), keys, selection, old(picker.pending));
      outcome == step.outcome && picker.shown == old(picker.shown) + step.shown
    ensures outcome.Done? ==> data.fields == old(data.fields)
    ensures outcome.Next? ==> data.fields == outcome.data && picker.pending == outcome.rest
  {
    if selection == CompleteOption {
      return Done;
    } else if selection == AddOption {
      outcome := AddField(data, picker, keys);
    } else {
      outcome := EditField(data, picker, selection);
    }
  }

  /** The store loop: shows the menu of the current record until the user
      completes, editing the record as answered. */
  method EditRecord(data: Secret, picker: Picker, keys: seq<string>) returns (r: Result<map<string, string>>)
    modifies data, picker
    ensures var run := EditLoop(old(data.fields), keys, old(picker.pending), old(picker.shown));
      r == run.result && picker.shown == run.shown
    ensures r.Success? ==> data.fields == r.value
  {
    ghost var run := EditLoop(data.fields, keys, picker.pending, picker.shown);
    while true
      invariant run == EditLoop(data.fields, keys, picker.pending, picker.shown)
      decreases |picker.pending|
    {
      var menu := BuildMenu(data);
      var outcome := StoreRound(data, picker, keys, menu);
      match outcome
      case Failed(e) => return Failure(e);
      case Done => return Success(data.fields);
      case Next(_, _) =>
    }
  }

  /** The record the store loop starts from: the stored one under a listed
      name, a new empty one under any other name. */
  method LoadRecord(backend: Backend, names: seq<string>, name: string) returns (r: Result<Secret>)
    requires names == Sort(Labels(backend.items))
    ensures r.Success? <==> StartData(backend.items, name).Success?
    ensures r.Failure? ==> StartData(backend.items, name) == Failure(r.error)
    ensures r.Success? ==> fresh(r.value) && r.value.fields == StartData(backend.items, name).value
  {
    if name in names {
      var stored := backend.Fetch(name);
      if stored.Failure? {
        return Failure(stored.error);
      }
      var data := new Secret.FromMap(stored.value);
      r := Success(data);
    } else {
      var data := new Secret();
      r := Success(data);
    }
  }

  /** `store`: asks for a name, loads the record stored under it or starts
      an empty one, runs the menu loop and persists the result once. */
  method Store(backend: Backend, picker: Picker, suggestions: Result<seq<string>>) returns (r: Result<Record>)
    modifies backend, picker
    ensures var run := StoreRun(old(backend.items), suggestions, old(picker.pending));
      r == run.result && picker.shown == old(picker.shown) + run.shown
    ensures r.Success? ==> backend.items == Replace(old(backend.items), r.value.name, r.value.data)
    ensures r.Success? ==> backend.writes == old(backend.writes) + 1
    ensures r.Failure? ==> backend.items == old(backend.items) && backend.writes == old(backend.writes)
  {
    var names := backend.ListLabels();
    names := Sort(names);
    var chosen := picker.SelectOrInput(names, "Label");
    if chosen.Failure? {
      return Failure(chosen.error);
    }
    var name := chosen.value;
    var loaded := LoadRecord(backend, names, name);
    if loaded.Failure? {
      return Failure(loaded.error);
    }
    var data := loaded.value;
    if suggestions.Failure? {
      return Failure(suggestions.error);
    }
    var keys := Sort(suggestions.value);

    ghost var labelPrompt := Prompt(TextMenu, names, "Label");
    assert picker.shown == old(picker.shown) + [labelPrompt];
    EditLoopAfter(data.fields, keys, picker.pending, old(picker.shown), [labelPrompt]);
    var edited := EditRecord(data, picker, keys);
    if edited.Failure? {
      return Failure(edited.error);
    }
    if data.IsEmpty() {
      return Failure(NoFieldsProvided);
    }
    backend.Persist(name, data.fields);
    r := Success(Record(name, data.fields));
  }

  /** The record the retrieve command settles on: the one stored under the
      chosen listed name, if it has at least one field. */
  function RetrieveRecord(items: seq<Item>, reply: Reply): (r: Result<map<string, string>>)
    ensures r.Success? ==> r.value != map[]
    ensures r.Success? ==> reply.Chose? && reply.index < |items|
    ensures r.Success? ==> Item(Sort(Labels(items))[reply.index], Decoded(r.value)) in items
  {
    var names := Sort(Labels(items));
    match SelectReply(reply, names)
    case Failure(e) => Failure(e)
    case Success(name) =>
      match GetData(items, name)
      case Failure(e) => Failure(e)
      case Success(m) => if m == map[] then Failure(NoFieldsFound) else Success(m)
  }

  /** Choosing a listed name carried by exactly one item, whose payload
      decodes to a record with at least one field, settles on that record. */
  lemma RetrieveRecordSucceeds(items: seq<Item>, i: nat, m: map<string, string>)
    requires i < |Sort(Labels(items))|
    requires Matching(items, Sort(Labels(items))[i]) == [Item(Sort(Labels(items))[i], Decoded(m))]
    requires m != map[]
    ensures RetrieveRecord(items, Chose(i)) == Success(m)
  {
    GetDataSingle(items, Sort(Labels(items))[i], m);
  }

  /** The value the retrieve command emits for record `data` whose keys
      were listed in the order `order`. */
  function RetrieveField(data: map<string, string>, reply: Reply, order: seq<string>): (r: Result<string>)
    ensures r.Success? ==> reply.Chose? && reply.index < |order| && order[reply.index] in data
    ensures r.Success? ==> r.value == data[order[reply.index]]
  {
    match SelectReply(reply, order)
    case Failure(e) => Failure(e)
    case Success(key) => if key in data then Success(data[key]) else Failure(FieldNotFound)
  }

  /** With the keys listed from the record itself, the lookup never misses:
      any listed line gives the stored value of its key, which for a
      sensitive key is the secret itself and not its mask. */
  lemma RetrieveFieldFromListing(data: map<string, string>, reply: Reply, order: seq<string>)
    requires IsKeyListing(order, data)
    ensures RetrieveField(data, reply, order).Success? <==> reply.Chose? && reply.index < |data|
    ensures RetrieveField(data, reply, order).Failure? ==> RetrieveField(data, reply, order).error != FieldNotFound
    ensures reply.Chose? && reply.index < |data| ==>
      RetrieveField(data, reply, order).value == data[order[reply.index]]
  {
  }

  /** `retrieve`: picks a listed name, refuses a record without fields
      before asking anything else, then picks one of the record's own keys
      and emits its stored value. */
  method Retrieve(backend: Backend, picker: Picker) returns (r: Result<string>)
    modifies picker
    ensures var record := RetrieveRecord(backend.items, Head(old(picker.pending)));
      var namePrompt := Prompt(IndexMenu, Sort(Labels(backend.items)), "Select secret");
      && (record.Failure? ==> r == Failure(record.error) && picker.shown == old(picker.shown) + [namePrompt])
      && (record.Success? ==>
            && |picker.shown| == |old(picker.shown)| + 2
            && picker.shown[..|old(picker.shown)| + 1] == old(picker.shown) + [namePrompt]
            && var fieldPrompt := picker.shown[|old(picker.shown)| + 1];
            && fieldPrompt.mode == IndexMenu && fieldPrompt.placeholder == "Field"
            && IsKeyListing(fieldPrompt.items, record.value)
            && r == RetrieveField(record.value, Head(Rest(old(picker.pending))), fieldPrompt.items))
  {
    var names := backend.ListLabels();
    names := Sort(names);
    var requested := picker.Select(names, "Select secret");
    if requested.Failure? {
      return Failure(requested.error);
    }
    var stored := backend.Fetch(requested.value);
    if stored.Failure? {
      return Failure(stored.error);
    }
    var data := new Secret.FromMap(stored.value);
    if data.IsEmpty() {
      return Failure(NoFieldsFound);
    }
    ghost var shown1 := picker.shown;
    var keys := data.Keys();
    var field := picker.Select(keys, "Field");
    if field.Failure? {
      return Failure(field.error);
    }
    var value := data.Get(field.value);
    if value.None? {
      return Failure(FieldNotFound);
    }
    r := Success(value.value.value);
    assert picker.shown[..|shown1|] == shown1;
  }
}
