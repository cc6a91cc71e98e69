# fuzzel-secrets in Dafny

fuzzel-secrets keeps credential records in the desktop secret service. A
record is a label plus a flat map of named fields. Users work with records
through the fuzzel picker. The program has two commands:

- **store** asks for a label and loads the record stored under it, or starts
  an empty one. It then shows a menu:
  - two fixed lines, "+   Add field" and "✓   Complete";
  - then one line `key: value` per field, sorted, with sensitive values
    shown as eight asterisks.
  The user adds or edits fields until they choose Complete. A non-empty
  record is then persisted under the label.
- **retrieve** picks a stored label and refuses a record without fields. It
  then picks one of the record's keys and types the stored value.

The model has one module per part of the program:

- `Fields` (`field.rs`): a field's sensitivity, its masked display line and
  the parse of a display line.
- `Records` (`secret.rs`): the record as a class `Secret` over a
  `map<string, string>`, with insert, get, remove, enumeration and
  collection from fields.
- `Fuzzel` (`fuzzel.rs`): the picker as a class `Picker`.
  - The user's answers are given in advance as a sequence of `Reply`
    values: a chosen index, typed text, or a dismissal.
  - Every prompt shown is logged with its mode, its lines and its
    placeholder.
  - The picker's output is trimmed with the whitespace set of Rust's
    `char::is_whitespace`.
- `Vault` (`secrets.rs`): the secret service as a class `Backend` over the
  sequence of stored items.
  - A lookup by label fails when no item or more than one item carries the
    label.
  - A store replaces every item with that label.
- `Workflows` (`main.rs`): the two commands as methods over a `Backend` and
  a `Picker`. Each is proved equal to a reference function of the stored
  items and the user's answers: `StoreRun` with `EditLoop` and `RunRound`,
  or `RetrieveRecord` with `RetrieveField`.
- `Text` and `Sorting`: the standard-library operations these rely on.
  - `str::find`, `str::contains` and `str::to_lowercase` (ASCII only).
  - The order of `String` and the result of `Vec::sort`.
- `Scenarios`: concrete runs that mirror the unit tests of `secret.rs`, and
  whole store sessions derived from the general contracts.

Properties proved:

- **Field round trip.** A display line parsed back gives the field:
  - unchanged for a plain field;
  - with the mask as its value for a sensitive one.
  The round trip breaks when the key itself contains `": "`: the parse
  stops at the first separator, so the key comes back strictly shorter.
- **Menu.** The menu is the same however the record's map is enumerated.
  It holds the two fixed lines and then one sorted display line per field.
  No field line equals a fixed line.
- **Edit branch, separator-free key.** Choosing a field's line writes the
  same key, so the set and number of keys stay the same.
- **Edit branch, key with a separator.** Choosing the line writes the new
  value under the part of the key before its first `": "`, a strictly
  shorter key. That adds a field, or overwrites another field that already
  has that shorter key; the chosen field keeps its value either way.
- **Store.** It persists at most once, exactly the record the loop ends
  with, and never an empty one. A later lookup of that label returns
  exactly what was stored, and every other label's lookup is unchanged.
- **Retrieve.** The key lookup cannot miss. The emitted value is the stored
  value, never the mask.

## Model

| member | source | states |
|---|---|---|
| Fields.Field.IsKeySensitive | fuzzel-secrets/src/field.rs:16-21 | `is_key_sensitive` itself; it has no contract of its own, and `Fields.KeySensitivity` states what it decides |
| Fields.KeySensitivity | fuzzel-secrets/src/field.rs:16-21 | a key is sensitive exactly when its lower-cased text contains "password", "secret" or "token" as a substring |
| Fields.SensitivityIgnoresCase | fuzzel-secrets/src/field.rs:16-21 | two keys that differ only in the case of ASCII letters are both sensitive or both not |
| Fields.Field.IsSensitive | fuzzel-secrets/src/field.rs:24-26 | a field's sensitivity is its key's sensitivity |
| Fields.MaskIgnoresValue | fuzzel-secrets/src/field.rs:24-40 | for a sensitive key the display line is the same whatever the value, so the value's length never shows |
| Fields.Field.DisplayValue | fuzzel-secrets/src/field.rs:29-35 | a sensitive field shows exactly eight asterisks, whatever its value; any other field shows its raw value |
| Fields.Field.Display | fuzzel-secrets/src/field.rs:38-40 | the display line starts with the key, immediately followed by ": ", then the displayed value, so it always contains the separator |
| Fields.Field.ParseFromDisplay | fuzzel-secrets/src/field.rs:44-53 | fails, with an invalid-display error naming the input, exactly when the input has no ": "; on success key + ": " + value is the input and the key holds no ": " |
| Fields.ParseJoin | fuzzel-secrets/src/field.rs:44-53 | joining a separator-free key, the separator and any value parses back to exactly that key and value |
| Fields.RoundTripPlain | fuzzel-secrets/src/field.rs:38-53 | a non-sensitive field with a separator-free key survives display then parse unchanged |
| Fields.RoundTripMasked | fuzzel-secrets/src/field.rs:29-53 | a sensitive field with a separator-free key parses back with its key and the mask as value, and the parsed field is sensitive again |
| Fields.SeparatorInKeyBreaksRoundTrip | fuzzel-secrets/src/field.rs:38-53 | when the key contains ": " the parse succeeds but returns a key that is a strictly shorter prefix of the original |
| Text.FindFrom | fuzzel-secrets/src/field.rs:46 | the result is the first occurrence at or after the start index, and None means no occurrence there |
| Text.Find | fuzzel-secrets/src/field.rs:46 | `find` returns the first index where the pattern occurs, and None exactly when it occurs nowhere |
| Text.Contains | fuzzel-secrets/src/field.rs:18-20 | `contains` holds exactly when the pattern occurs somewhere |
| Text.ToLower | fuzzel-secrets/src/field.rs:17 | same length, no upper-case ASCII letter left, upper-case letters shifted to lower case and every other character kept |
| Text.ToLowerIdempotent | fuzzel-secrets/src/field.rs:17 | lower-casing twice is lower-casing once |
| Text.ToLowerIgnoresCase | fuzzel-secrets/src/field.rs:17 | strings that agree up to ASCII case lower-case to the same string |
| Records.Secret.constructor | fuzzel-secrets/src/secret.rs:14-18 | a new record has no fields, length 0, and is empty |
| Records.Secret.FromMap | fuzzel-secrets/src/secrets.rs:63-65 | the record decoded from a stored payload holds exactly the payload's entries |
| Records.Secret.Insert | fuzzel-secrets/src/secret.rs:21-23 | afterwards get(key) is that field and every other key reads as before; the length grows by one exactly when the key is new |
| Records.Secret.Get | fuzzel-secrets/src/secret.rs:26-30 | a field comes back exactly when the key is present, carrying that key and its stored value |
| Records.Secret.Remove | fuzzel-secrets/src/secret.rs:33-37 | returns the field previously stored under the key, or None; afterwards the key is absent, other keys are unchanged and the length drops by one exactly when it was present |
| Records.Secret.ContainsKey | fuzzel-secrets/src/secret.rs:40-42 | contains_key holds exactly when get returns a field |
| Records.Secret.Len | fuzzel-secrets/src/secret.rs:45-47 | the length is the number of keys |
| Records.Secret.IsEmpty | fuzzel-secrets/src/secret.rs:50-52 | is_empty holds exactly when the length is 0 |
| Records.Secret.Fields | fuzzel-secrets/src/secret.rs:55-69 | yields each stored key exactly once, as a field carrying its stored value, and as many fields as the record's length |
| Records.Secret.Keys | fuzzel-secrets/src/secret.rs:61-64 | yields each stored key exactly once and nothing else |
| Records.ListingKeys | fuzzel-secrets/src/secret.rs:61-64 | the keys of an enumeration of the fields are an enumeration of the keys |
| Records.ListingsAgree | fuzzel-secrets/src/secret.rs:55-59 | any two enumerations of the same record hold the same fields, whatever their order |
| Records.Secret.FromFields | fuzzel-secrets/src/secret.rs:78-86 | collecting fields inserts them one by one, in order, into an empty record |
| Records.InsertAll | fuzzel-secrets/src/secret.rs:79-85 | the loop of `from_iter` as a function; it has no contract of its own, and `Records.InsertAllKeys`, `Records.InsertAllLastWins` and `Records.InsertAllKeepsOthers` state what it yields |
| Records.InsertAllKeys | fuzzel-secrets/src/secret.rs:78-92 | the collected record has exactly the keys of the input fields plus those it started with |
| Records.InsertAllLastWins | fuzzel-secrets/src/secret.rs:78-92 | for a key given several times, the value of its last occurrence wins |
| Records.InsertAllKeepsOthers | fuzzel-secrets/src/secret.rs:78-92 | a key that no input field carries keeps its previous value |
| Scenarios.InsertThenGet | fuzzel-secrets/src/secret.rs:98-106 | inserting username/john and getting it gives back that field |
| Scenarios.RemoveOnly | fuzzel-secrets/src/secret.rs:108-116 | removing the only field returns it, and the record is then empty |
| Scenarios.CollectTwo | fuzzel-secrets/src/secret.rs:118-129 | collecting two fields with distinct keys gives length 2 with both keys present |
| Scenarios.IterateTwo | fuzzel-secrets/src/secret.rs:131-141 | enumerating a two-field record yields two keys, both of the inserted ones |
| Sorting.LessEq | fuzzel-secrets/src/main.rs:97 | the order of `String` that `sort` uses (also at main.rs lines 26 and 63); it has no contract of its own, and the four lemmas below prove it a total order |
| Sorting.LessEqReflexive | fuzzel-secrets/src/main.rs:97 | every string is at most itself in the order of String |
| Sorting.LessEqTotal | fuzzel-secrets/src/main.rs:97 | any two strings are comparable |
| Sorting.LessEqAntisymmetric | fuzzel-secrets/src/main.rs:97 | strings at most each other are equal |
| Sorting.LessEqTransitive | fuzzel-secrets/src/main.rs:97 | the order is transitive |
| Sorting.Insert | fuzzel-secrets/src/main.rs:97 | inserting adds exactly one copy of the string |
| Sorting.InsertKeepsSorted | fuzzel-secrets/src/main.rs:97 | inserting into a sorted list keeps it sorted |
| Sorting.Sort | fuzzel-secrets/src/main.rs:97 | `sort` leaves the same strings, as many as before, in ascending order |
| Sorting.SortedUnique | fuzzel-secrets/src/main.rs:97 | two sorted arrangements of the same strings are equal |
| Sorting.SortDependsOnMultiset | fuzzel-secrets/src/main.rs:96-97 | sorting gives the same list whatever the input order |
| Sorting.SortOfSorted | fuzzel-secrets/src/main.rs:97 | sorting a sorted list changes nothing |
| Fuzzel.Trim | fuzzel-secrets/src/fuzzel.rs:24 | the result is a slice of the input that neither starts nor ends with whitespace, and everything cut off before or after it is whitespace |
| Fuzzel.TrimmedIsFixed | fuzzel-secrets/src/fuzzel.rs:24 | trimming a trimmed string changes nothing |
| Fuzzel.IndexReply | fuzzel-secrets/src/fuzzel.rs:77-82 | an index is obtained exactly when the user chose a line, and it is that line's index |
| Fuzzel.SelectReply | fuzzel-secrets/src/fuzzel.rs:86-92 | `select` succeeds exactly when the chosen index is in range, and then returns that listed line |
| Fuzzel.TextReply | fuzzel-secrets/src/fuzzel.rs:95-127 | a typed answer comes back trimmed; a picked line comes back trimmed when it is listed and fails as an invalid index otherwise; a dismissal fails; every result is trimmed |
| Fuzzel.Picker.RequestPassword | fuzzel-secrets/src/fuzzel.rs:6-25 | consumes one answer and returns it trimmed; logs one hidden-input prompt with no lines |
| Fuzzel.Picker.RequestInput | fuzzel-secrets/src/fuzzel.rs:28-45 | consumes one answer and returns it trimmed; logs one plain-input prompt with no lines |
| Fuzzel.Picker.SelectIndex | fuzzel-secrets/src/fuzzel.rs:48-83 | consumes one answer and returns its index; logs one index-menu prompt with the given lines |
| Fuzzel.Picker.Select | fuzzel-secrets/src/fuzzel.rs:86-92 | consumes one answer and returns the listed line at its index, failing out of range |
| Fuzzel.Picker.SelectOrInput | fuzzel-secrets/src/fuzzel.rs:95-127 | consumes one answer and returns the picked line or the typed text, trimmed; logs one text-menu prompt |
| Vault.Labels | fuzzel-secrets/src/secrets.rs:11-18 | one label per stored item, in the service's order |
| Vault.Matching | fuzzel-secrets/src/secrets.rs:74-78 | the search by label; it has no contract of its own, and `Vault.MatchingMembers` states what it finds |
| Vault.MatchingMembers | fuzzel-secrets/src/secrets.rs:74-78 | the items found for a label are exactly the stored items carrying it |
| Vault.WithoutMembers | fuzzel-secrets/src/secrets.rs:41-45 | what a store keeps is exactly the stored items carrying another label |
| Vault.GetData | fuzzel-secrets/src/secrets.rs:50-72 | not found exactly when no item has the label; ambiguous exactly when several do; on success the one item with the label carries the returned record |
| Vault.GetDataSingle | fuzzel-secrets/src/secrets.rs:54-65 | a label carried by exactly one item whose payload decodes is fetched as that payload's record |
| Vault.Replace | fuzzel-secrets/src/secrets.rs:33-47 | what a store leaves in the collection; it has no contract of its own, and `Vault.FetchAfterPersist` and `Vault.PersistLeavesOthers` state its effect |
| Vault.FetchAfterPersist | fuzzel-secrets/src/secrets.rs:33-72 | after storing a record under a label, fetching that label returns exactly that record |
| Vault.PersistLeavesOthers | fuzzel-secrets/src/secrets.rs:33-72 | storing under one label leaves the items and the lookup of every other label unchanged |
| Vault.WithoutKeepsOthers | fuzzel-secrets/src/secrets.rs:41-45 | dropping the items of one label does not change the items of another |
| Vault.Backend.ListLabels | fuzzel-secrets/src/secrets.rs:11-18 | returns the labels of the stored items |
| Vault.Backend.Fetch | fuzzel-secrets/src/secrets.rs:50-72 | returns the lookup of the label in the stored items |
| Vault.Backend.Persist | fuzzel-secrets/src/secrets.rs:33-47 | the label's items are replaced by the one new item; one more store request is counted |
| Workflows.DisplayAll | fuzzel-secrets/src/main.rs:96 | one display line per field, as many lines as fields; `Workflows.DisplayAllMultiset` states that the lines depend only on the fields, not their order |
| Workflows.DisplayAllMultiset | fuzzel-secrets/src/main.rs:96 | the display lines of two enumerations of the same fields are the same lines |
| Workflows.Menu | fuzzel-secrets/src/main.rs:93-100 | the menu of a record; it has no contract of its own, and `Workflows.MenuShape` and `Workflows.MenuOfAnyListing` state its contents |
| Workflows.MenuOfAnyListing | fuzzel-secrets/src/main.rs:93-100 | the menu built from any enumeration of the record is the same menu |
| Workflows.SentinelsAreNotDisplays | fuzzel-secrets/src/main.rs:88-89 | neither fixed line contains ": ", so no field's display line equals one and neither parses as a field |
| Workflows.MenuHead | fuzzel-secrets/src/main.rs:93-94 | the menu starts with the add line and then the complete line |
| Workflows.MenuTail | fuzzel-secrets/src/main.rs:96-99 | after the two fixed lines come the sorted display lines of the record's fields, one per field |
| Workflows.MenuHasField | fuzzel-secrets/src/main.rs:96-99 | every field's display line is among the field lines of the menu |
| Workflows.MenuLineIsField | fuzzel-secrets/src/main.rs:96-99 | every field line of the menu is some field's display line and neither fixed line |
| Workflows.MenuShape | fuzzel-secrets/src/main.rs:88-100 | the menu has two lines more than the record has fields, starts with the two fixed lines, and its field lines are sorted, cover every field and are never a fixed line |
| Workflows.AddStep | fuzzel-secrets/src/main.rs:107-120 | the add branch never leaves the loop, uses up answers and never drops a key |
| Workflows.EditStep | fuzzel-secrets/src/main.rs:121-133 | the edit branch never leaves the loop, uses up answers and never drops a key |
| Workflows.Branch | fuzzel-secrets/src/main.rs:105-133 | the loop is left exactly when the complete line was chosen |
| Workflows.RunRound | fuzzel-secrets/src/main.rs:102-133 | every pass first shows the menu; a pass that goes on uses up at least one answer and keeps every key |
| Workflows.EditLoop | fuzzel-secrets/src/main.rs:91-134 | a completed loop keeps every key it started with |
| Workflows.EditLoopAfter | fuzzel-secrets/src/main.rs:91-134 | whatever was shown before the loop is only a prefix of what is shown |
| Workflows.CompleteEndsLoop | fuzzel-secrets/src/main.rs:105-106 | choosing the complete line ends the loop with the record unchanged, after one menu |
| Workflows.AddRound | fuzzel-secrets/src/main.rs:107-120 | the add branch sets the entered key to the entered value; the value is asked for hidden exactly when the key is sensitive |
| Workflows.AddTypedStep | fuzzel-secrets/src/main.rs:109-120 | asks for the key among the suggestions, then for its value, and sets exactly that key |
| Workflows.EditRound | fuzzel-secrets/src/main.rs:121-133 | choosing the line of a field whose key holds no ": " writes a new value under that same key, asked hidden exactly when the key is sensitive; keys and length are unchanged |
| Workflows.EditRoundOn | fuzzel-secrets/src/main.rs:121-133 | the same on any menu whose chosen line is that field's display line |
| Workflows.EditDisplayedField | fuzzel-secrets/src/main.rs:123-132 | parsing the display line recovers the key and discards the shown value; the new value goes under that key |
| Workflows.EditRoundSeparatorKey | fuzzel-secrets/src/main.rs:123-132 | when the chosen field's key contains ": ", the value is written under a strictly shorter prefix of the key |
| Workflows.StartDataListed | fuzzel-secrets/src/main.rs:70-72 | the chosen label is among the sorted labels exactly when some stored item carries it |
| Workflows.StartData | fuzzel-secrets/src/main.rs:69-79 | the loop starts from the stored record when the label is stored, and from an empty record otherwise |
| Workflows.StoreRun | fuzzel-secrets/src/main.rs:56-147 | a successful store has a non-empty record that keeps every key of the record it started from |
| Workflows.AskValue | fuzzel-secrets/src/main.rs:112-118 | asks hidden for a sensitive key and plainly otherwise, consuming one answer |
| Workflows.BuildMenu | fuzzel-secrets/src/main.rs:93-100 | the menu the method builds from the enumerated fields is the record's menu |
| Workflows.AddField | fuzzel-secrets/src/main.rs:107-120 | the add branch's effect on the record and the prompts is that of the reference step |
| Workflows.EditField | fuzzel-secrets/src/main.rs:121-133 | the edit branch's effect on the record and the prompts is that of the reference step |
| Workflows.Dispatch | fuzzel-secrets/src/main.rs:105-133 | completes, adds or edits as the chosen line says, exactly as the reference branch |
| Workflows.StoreRound | fuzzel-secrets/src/main.rs:102-133 | one pass of the loop does what the reference pass does to the record and the prompts |
| Workflows.EditRecord | fuzzel-secrets/src/main.rs:91-134 | the loop ends as the reference loop does, with the record it computes and the prompts it shows |
| Workflows.LoadRecord | fuzzel-secrets/src/main.rs:69-79 | a fresh record holding the stored one under a listed label, an empty one otherwise, and the lookup's error when that fails |
| Workflows.Store | fuzzel-secrets/src/main.rs:56-147 | returns what the reference run returns and shows its prompts; on success the service holds exactly the record under the label, after one store request; on failure the service is untouched |
| Workflows.RetrieveRecord | fuzzel-secrets/src/main.rs:23-38 | a record is settled on only when a listed label was chosen, and it is non-empty and stored under that label |
| Workflows.RetrieveRecordSucceeds | fuzzel-secrets/src/main.rs:23-38 | conversely, choosing a listed label carried by exactly one item whose payload decodes to a non-empty record settles on that record |
| Workflows.RetrieveField | fuzzel-secrets/src/main.rs:40-45 | a value is emitted only for a listed key present in the record, and it is that key's stored value |
| Workflows.RetrieveFieldFromListing | fuzzel-secrets/src/main.rs:40-45 | with the record's own keys listed, the lookup never misses, and any listed line gives the stored value, never the mask |
| Workflows.Retrieve | fuzzel-secrets/src/main.rs:22-54 | an empty or unloadable record fails after the label prompt alone; otherwise the second prompt lists exactly the record's keys and the result is the chosen key's stored value |
| Scenarios.EnteredAsTyped | fuzzel-secrets/src/fuzzel.rs:126 | a typed answer without surrounding whitespace comes back as typed |
| Scenarios.LoopGoesOn | fuzzel-secrets/src/main.rs:91-134 | a pass that goes on hands the loop over to the next pass |
| Scenarios.CompleteAfter | fuzzel-secrets/src/main.rs:105-106 | completing ends the loop with the record as it is, whatever was shown before |
| Scenarios.AddTyped | fuzzel-secrets/src/main.rs:107-120 | add, key, value: the pass goes on with the key set to the value |
| Scenarios.AddThenComplete | fuzzel-secrets/src/main.rs:105-120 | add one field, then complete: the loop ends with that field set |
| Scenarios.EditTyped | fuzzel-secrets/src/main.rs:121-133 | choosing a field's line and typing a value sets that key |
| Scenarios.EditThenComplete | fuzzel-secrets/src/main.rs:105-133 | edit one field, then complete: the loop ends with that field's value replaced |
| Scenarios.StoreAfterLoop | fuzzel-secrets/src/main.rs:136-142 | once the loop ends, the record is stored unless it is empty |
| Scenarios.StoreStartFails | fuzzel-secrets/src/main.rs:74-77 | a record that cannot be loaded fails the store command, after the label prompt alone |
| Scenarios.StoreNewRecord | fuzzel-secrets/src/main.rs:56-147 | storing one added field under a new label persists exactly that field |
| Scenarios.StartStored | fuzzel-secrets/src/main.rs:74-77 | a label stored exactly once loads its record |
| Scenarios.StoreEditedRecord | fuzzel-secrets/src/main.rs:56-147 | editing one field of a stored record persists it with only that value replaced |
| Scenarios.StoreNothing | fuzzel-secrets/src/main.rs:136-138 | completing at once under a new label fails with "no fields provided" |
| Scenarios.StartAmbiguous | fuzzel-secrets/src/secrets.rs:67-70 | a label stored more than once cannot be loaded |
| Scenarios.StoreAmbiguous | fuzzel-secrets/src/main.rs:74-77 | storing under a label stored more than once fails, having shown only the label prompt and no menu |
| Scenarios.RetrieveSensitiveValue | fuzzel-secrets/src/main.rs:43-49 | retrieving a password field emits the secret itself, while its display shows the mask |

## Left out

- Secret service plumbing (`secrets.rs`) is replaced by the item sequence of
  `Backend`:
  - connecting over D-Bus;
  - finding, creating and unlocking the collection;
  - the schema and label attributes.
  The failures of `secrets()`, of the connection and of reading a secret are
  not modelled.
- Vault.Backend.Persist: always succeeds. In the program the final store can
  fail while finding or unlocking the collection or creating the item
  (`secrets.rs:41-45`), and `main.rs:140-142` passes that error on. The
  model's `Store` therefore succeeds after every loop that ends with a
  non-empty record.
- `all_field_keys` (`secrets.rs:21-30`) fails as soon as any stored label is
  ambiguous or its payload does not decode, so the program's store command
  fails whenever the collection holds such a label. In the model the
  suggestions are an input independent of the stored items; a scenario such
  as `StoreNewRecord` takes their fetch as successful.
- fuzzel receives the lines joined by newlines (`fuzzel.rs:49`), so a listed
  line that itself contains a newline shifts the index fuzzel prints. In the
  model `Chose(i)` always indexes the list itself.
- The JSON encoding of a record is reduced to a payload that either decodes
  to a map or does not. Serde's derive has no visible code.
- `all_field_keys` and its background task (`main.rs:58`, `main.rs:81-84`)
  are concurrency. The suggested keys are an input of `Store`, as a
  `Result`, so that the task's failure is kept.
- The fuzzel subprocess, its stdin/stdout and UTF-8 decoding are replaced by
  the answer sequence of `Picker`. The placeholder is always given, as
  every call in `main.rs` gives one.
- Typing the value with `wtype` (`main.rs:47-51`), the command line parser,
  `main` and `println!` are not part of this model. `Retrieve` returns the
  value it would type.
- Text.ToLower: lower-cases ASCII letters only, not full Unicode case
  mapping. A key with a non-ASCII upper-case letter may be judged
  differently from the program.
- `Vec::sort` works in place. The model gives the same result as a function
  on values (`Sorting.Sort`).
- HashMap order is left unspecified. `Secret.Fields` and `Secret.Keys`
  promise only that every entry appears once, and `Retrieve` states its
  result in terms of whatever order was shown.
- `Default for Secret` is `new` and adds nothing. `Secret.iter` and
  `Secret.fields` are both modelled by `Secret.Fields`, which returns the
  collected list.
- `find` indexes bytes and the model indexes characters. For the two-ASCII
  separator ": " the split is the same.
