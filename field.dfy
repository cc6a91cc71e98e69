/** One key/value pair of a credential record: its sensitivity, its masked
    display string and the parse of a display string back into a pair
    (fuzzel-secrets/src/field.rs). */
module Fields {
  import opened Wrappers
  import opened Text

  /** What every display string puts between the key and the value. */
  const Separator: string := ": "

  /** What a sensitive value is displayed as: eight asterisks. */
  const Mask: string := "********"

  datatype Field = Field(key: string, value: string) {

    /** A key is sensitive when its lower-cased text contains "password",
        "secret" or "token". */
    static predicate IsKeySensitive(key: string)
    {
      var lower := ToLower(key);
      Contains(lower, "password") || Contains(lower, "secret") || Contains(lower, "token")
    }

    /** Sensitivity is decided by the key alone. */
    predicate IsSensitive()
      ensures IsSensitive() <==> IsKeySensitive(key)
    {
      IsKeySensitive(key)
    }

    /** The value as it may be shown on screen. */
    function DisplayValue(): (r: string)
      ensures IsSensitive() ==> |r| == 8 && forall i :: 0 <= i < |r| ==> r[i] == '*'
      ensures !IsSensitive() ==> r == value
    {
      if IsSensitive() then Mask else value
    }

    /** The menu line of the field, "key: value" with the value masked;
        it always contains the separator, right after the key. */
    function Display(): (r: string)
      ensures OccursAt(r, Separator, |key|)
      ensures HasSubstring(r, Separator)
      ensures r[..|key|] == key && r[|key| + |Separator|..] == DisplayValue()
    {
      ContainsJoin(key, Separator, DisplayValue());
      key + Separator + DisplayValue()
    }

    /** Splits a display string at the first separator: the text before it
        is the key, the text after it the value. Fails when there is no
        separator. */
    static function ParseFromDisplay(display: string): (r: Result<Field>)
      ensures r.Failure? <==> !HasSubstring(display, Separator)
      ensures r.Failure? ==> r.error == InvalidDisplay(display)
      ensures r.Success? ==> r.value.key + Separator + r.value.value == display
      ensures r.Success? ==> !HasSubstring(r.value.key, Separator)
    {
      match Find(display, Separator)
      case Some(pos) =>
        var f := Field(display[..pos], display[pos + 2..]);
        assert display == display[..pos] + display[pos..pos + 2] + display[pos + 2..];
        assert !HasSubstring(f.key, Separator) by {
          forall j: nat | OccursAt(f.key, Separator, j)
            ensures false
          {
            assert display[j..j + 2] == f.key[j..j + 2];
            assert OccursAt(display, Separator, j);
          }
        }
        Success(f)
      case None => Failure(InvalidDisplay(display))
    }
  }

  /** Joining a separator-free key and any value gives back exactly that key
      and that value: the first separator is the one that was inserted. */
  lemma ParseJoin(key: string, value: string)
    requires !HasSubstring(key, Separator)
    ensures Field.ParseFromDisplay(key + Separator + value) == Success(Field(key, value))
  {
    var s := key + Separator + value;
    ContainsJoin(key, Separator, value);
    var pos := Find(s, Separator).value;
    assert s[|key|] == ':';
    assert s[pos..pos + 2][1] == s[pos + 1] == ' ';
    if pos + 2 <= |key| {
      assert key[pos..pos + 2] == s[pos..pos + 2];
      assert OccursAt(key, Separator, pos);
    } else if pos < |key| {
      assert false;
    }
    assert pos == |key|;
    assert s[..|key|] == key && s[|key| + 2..] == value;
  }

  /** A field whose value is shown as it is, and whose key has no separator,
      survives display followed by parse unchanged. */
  lemma RoundTripPlain(f: Field)
    requires !f.IsSensitive() && !HasSubstring(f.key, Separator)
    ensures Field.ParseFromDisplay(f.Display()) == Success(f)
  {
    ParseJoin(f.key, f.value);
  }

  /** A sensitive field with a separator-free key comes back with its key
      intact and the mask in place of its value; the parsed field is
      sensitive again, so the mask is never mistaken for a shown value. */
  lemma RoundTripMasked(f: Field)
    requires f.IsSensitive() && !HasSubstring(f.key, Separator)
    ensures Field.ParseFromDisplay(f.Display()) == Success(Field(f.key, Mask))
    ensures Field.ParseFromDisplay(f.Display()).value.IsSensitive()
  {
    ParseJoin(f.key, Mask);
  }

  /** When the key itself contains the separator, parsing the display
      recovers only the part of the key before its first separator, so the
      round trip yields a different, shorter key. */
  lemma SeparatorInKeyBreaksRoundTrip(f: Field)
    requires HasSubstring(f.key, Separator)
    ensures Field.ParseFromDisplay(f.Display()).Success?
    ensures var k := Field.ParseFromDisplay(f.Display()).value.key;
      |k| < |f.key| && k == f.key[..|k|]
  {
    var s := f.Display();
    var i: nat :| OccursAt(f.key, Separator, i);
    assert s[i..i + 2] == f.key[i..i + 2];
    assert OccursAt(s, Separator, i);
    var pos := Find(s, Separator).value;
    assert pos <= i;
    var k := Field.ParseFromDisplay(s).value.key;
    assert k == s[..pos];
    assert s[..pos] == f.key[..pos];
  }

  /** A key is sensitive exactly when its lower-cased text has one of the
      three words as a substring. */
  lemma KeySensitivity(key: string)
    ensures Field.IsKeySensitive(key) <==>
      HasSubstring(ToLower(key), "password") ||
      HasSubstring(ToLower(key), "secret") ||
      HasSubstring(ToLower(key), "token")
  {
  }

  /** Keys that differ only in the case of their ASCII letters are both
      sensitive or both not. */
  lemma SensitivityIgnoresCase(k1: string, k2: string)
    requires |k1| == |k2|
    requires forall i :: 0 <= i < |k1| ==> LowerChar(k1[i]) == LowerChar(k2[i])
    ensures Field.IsKeySensitive(k1) <==> Field.IsKeySensitive(k2)
  {
    ToLowerIgnoresCase(k1, k2);
  }

  /** Sensitivity and masking never look at the value. */
  lemma MaskIgnoresValue(key: string, v1: string, v2: string)
    requires Field.IsKeySensitive(key)
    ensures Field(key, v1).Display() == Field(key, v2).Display()
  {
  }
}
