/** The interactive picker, seen from the program: every prompt shows a list
    (possibly empty) and a placeholder, and the user answers it by choosing a
    line, typing text or dismissing the prompt. The user's answers are given
    in advance as a sequence, and the prompts shown are recorded, so that the
    workflows can be verified against both (fuzzel-secrets/src/fuzzel.rs). */
module Fuzzel {
  import opened Wrappers

  /** One answer of the user to one prompt. */
  datatype Reply =
    | Chose(index: nat)    // picked the line with this index
    | Entered(text: string) // typed this text
    | Dismissed            // cancelled, or the picker failed

  /** How the picker was run: listing lines and printing the picked index,
      listing lines and printing the picked or typed text, asking for plain
      text, or asking for hidden text. */
  datatype Mode = IndexMenu | TextMenu | PlainInput | PasswordInput

  datatype Prompt = Prompt(mode: Mode, items: seq<string>, placeholder: string)

  /** The characters Rust's `char::is_whitespace` accepts. */
  predicate IsWhitespace(c: char) {
    || '\t' <= c <= '\r'
    || c == ' '
    || c == '\U{0085}'
    || c == '\U{00A0}'
    || c == '\U{1680}'
    || '\U{2000}' <= c <= '\U{200A}'
    || c == '\U{2028}'
    || c == '\U{2029}'
    || c == '\U{202F}'
    || c == '\U{205F}'
    || c == '\U{3000}'
  }

  /** A string that neither starts nor ends with whitespace. */
  predicate IsTrimmed(s: string) {
    s == [] || (!IsWhitespace(s[0]) && !IsWhitespace(s[|s| - 1]))
  }

  /** `s` without its leading whitespace. */
  function TrimStart(s: string): (r: string)
    ensures |r| <= |s| && r == s[|s| - |r|..]
    ensures forall i :: 0 <= i < |s| - |r| ==> IsWhitespace(s[i])
    ensures r == [] || !IsWhitespace(r[0])
  {
    if s != [] && IsWhitespace(s[0]) then TrimStart(s[1..]) else s
  }

  /** `s` without its trailing whitespace. */
  function TrimEnd(s: string): (r: string)
    ensures |r| <= |s| && r == s[..|r|]
    ensures forall i :: |r| <= i < |s| ==> IsWhitespace(s[i])
    ensures r == [] || !IsWhitespace(r[|r| - 1])
  {
    if s != [] && IsWhitespace(s[|s| - 1]) then TrimEnd(s[..|s| - 1]) else s
  }

  /** `str::trim`: the picker's output without surrounding whitespace. */
  function Trim(s: string): (r: string)
    ensures IsTrimmed(r)
    ensures exists i, j ::
      && 0 <= i <= j <= |s| && r == s[i..j]
      && (forall k :: 0 <= k < i ==> IsWhitespace(s[k]))
      && (forall k :: j <= k < |s| ==> IsWhitespace(s[k]))
  {
    var t := TrimStart(s);
    var r := TrimEnd(t);
    TrimSlice(s, t, r);
    r
  }

  /** Trimming both ends leaves a slice of the input that starts and ends
      without whitespace, with only whitespace cut off either side. */
  lemma TrimSlice(s: string, t: string, r: string)
    requires |t| <= |s| && t == s[|s| - |t|..] && (t == [] || !IsWhitespace(t[0]))
    requires forall i :: 0 <= i < |s| - |t| ==> IsWhitespace(s[i])
    requires |r| <= |t| && r == t[..|r|] && (r == [] || !IsWhitespace(r[|r| - 1]))
    requires forall i :: |r| <= i < |t| ==> IsWhitespace(t[i])
    ensures IsTrimmed(r)
    ensures r == s[|s| - |t|..|s| - |t| + |r|]
    ensures forall k :: |s| - |t| + |r| <= k < |s| ==> IsWhitespace(s[k])
  {
    if r != [] {
      assert r[0] == t[0];
    }
    forall k | |s| - |t| + |r| <= k < |s|
      ensures IsWhitespace(s[k])
    {
      assert s[k] == t[k - (|s| - |t|)];
    }
  }

  /** Trimming a trimmed string changes nothing, so trimming twice is
      trimming once. */
  lemma TrimmedIsFixed(s: string)
    requires IsTrimmed(s)
    ensures Trim(s) == s
  {
  }

  /** The first pending answer; answers that run out count as dismissals. */
  function Head(replies: seq<Reply>): Reply {
    if replies == [] then Dismissed else replies[0]
  }

  function Rest(replies: seq<Reply>): (r: seq<Reply>)
    ensures replies != [] ==> |r| == |replies| - 1
    ensures replies == [] ==> r == []
  {
    if replies == [] then [] else replies[1..]
  }

  /** `select_index`: the index the user picked; typed text is no index. */
  function IndexReply(reply: Reply): (r: Result<nat>)
    ensures r.Success? <==> reply.Chose?
    ensures r.Success? ==> r.value == reply.index
  {
    match reply
    case Chose(i) => Success(i)
    case Entered(_) => Failure(UnparsableIndex)
    case Dismissed => Failure(PickerFailed)
  }

  /** `select`: the listed line at the picked index, and only a listed line. */
  function SelectReply(reply: Reply, items: seq<string>): (r: Result<string>)
    ensures r.Success? <==> reply.Chose? && reply.index < |items|
    ensures r.Success? ==> r.value == items[reply.index] && r.value in items
  {
    match IndexReply(reply)
    case Failure(e) => Failure(e)
    case Success(i) => if i < |items| then Success(items[i]) else Failure(InvalidIndex)
  }

  /** `select_or_input`, `request_input` and `request_password`: the picked
      line or the typed text, trimmed. */
  function TextReply(reply: Reply, items: seq<string>): (r: Result<string>)
    ensures r.Success? ==> IsTrimmed(r.value)
    ensures reply.Entered? ==> r == Success(Trim(reply.text))
    ensures reply.Dismissed? ==> r.Failure?
    ensures reply.Chose? ==>
      r == if reply.index < |items| then Success(Trim(items[reply.index])) else Failure(InvalidIndex)
  {
    match reply
    case Entered(t) => Success(Trim(t))
    case Chose(i) => if i < |items| then Success(Trim(items[i])) else Failure(InvalidIndex)
    case Dismissed => Failure(PickerFailed)
  }

  class Picker {
    /** The answers the user has yet to give. */
    var pending: seq<Reply>
    /** The prompts shown so far, oldest first. */
    var shown: seq<Prompt>

    constructor (replies: seq<Reply>)
      ensures pending == replies && shown == []
    {
      pending := replies;
      shown := [];
    }

    /** Shows one prompt and takes the next answer. */
    method Ask(mode: Mode, items: seq<string>, placeholder: string) returns (reply: Reply)
      modifies this
      ensures reply == Head(old(pending)) && pending == Rest(old(pending))
      ensures shown == old(shown) + [Prompt(mode, items, placeholder)]
    {
      reply := Head(pending);
      pending := Rest(pending);
      shown := shown + [Prompt(mode, items, placeholder)];
    }

    /** Asks for hidden text. */
    method RequestPassword(placeholder: string) returns (r: Result<string>)
      modifies this
      ensures r == TextReply(Head(old(pending)), []) && pending == Rest(old(pending))
      ensures shown == old(shown) + [Prompt(PasswordInput, [], placeholder)]
    {
      var reply := Ask(PasswordInput, [], placeholder);
      r := TextReply(reply, []);
    }

    /** Asks for plain text. */
    method RequestInput(placeholder: string) returns (r: Result<string>)
      modifies this
      ensures r == TextReply(Head(old(pending)), []) && pending == Rest(old(pending))
      ensures shown == old(shown) + [Prompt(PlainInput, [], placeholder)]
    {
      var reply := Ask(PlainInput, [], placeholder);
      r := TextReply(reply, []);
    }

    /** Lists `items` and returns the index of the one picked. */
    method SelectIndex(items: seq<string>, placeholder: string) returns (r: Result<nat>)
      modifies this
      ensures r == IndexReply(Head(old(pending))) && pending == Rest(old(pending))
      ensures shown == old(shown) + [Prompt(IndexMenu, items, placeholder)]
    {
      var reply := Ask(IndexMenu, items, placeholder);
      r := IndexReply(reply);
    }

    /** Lists `items` and returns the one picked, rejecting an index out of range. */
    method Select(items: seq<string>, placeholder: string) returns (r: Result<string>)
      modifies this
      ensures r == SelectReply(Head(old(pending)), items) && pending == Rest(old(pending))
      ensures shown == old(shown) + [Prompt(IndexMenu, items, placeholder)]
    {
      var index := SelectIndex(items, placeholder);
      if index.Failure? {
        r := Failure(index.error);
      } else if index.value < |items| {
        r := Success(items[index.value]);
      } else {
        r := Failure(InvalidIndex);
      }
    }

    /** Lists `items` as suggestions and returns the one picked or the text typed. */
    method SelectOrInput(items: seq<string>, placeholder: string) returns (r: Result<string>)
      modifies this
      ensures r == TextReply(Head(old(pending)), items) && pending == Rest(old(pending))
      ensures shown == old(shown) + [Prompt(TextMenu, items, placeholder)]
    {
      var reply := Ask(TextMenu, items, placeholder);
      r := TextReply(reply, items);
    }
  }
}
