/**
 * The command-line client's tag handling: parsing "key:value" input into a tag,
 * rendering a tag, and rendering a list of tag links.
 */
module Tags {
  import opened Wrappers

  /** A tag as the client sends and receives it. */
  datatype Tag = Tag(key: string, value: string, documentSelfLink: string)

  /** The error for input that is not of the form "key:value"; it keeps the offending input. */
  datatype TagError = TagError(invalidInput: string)

  const ErrorPrefix: string := "Invalid tag format for input: "
  const ErrorSuffix: string := ". \"Use key:value\" format."

  /** The message of a TagError: a fixed sentence with the offending input embedded. */
  function ErrorMessage(e: TagError): (msg: string)
    ensures |msg| == |ErrorPrefix| + |e.invalidInput| + |ErrorSuffix|
    ensures msg[..|ErrorPrefix|] == ErrorPrefix
    ensures msg[|ErrorPrefix|..|ErrorPrefix| + |e.invalidInput|] == e.invalidInput
    ensures msg[|ErrorPrefix| + |e.invalidInput|..] == ErrorSuffix
  {
    ErrorPrefix + e.invalidInput + ErrorSuffix
  }

  /** Rendering of a tag: "[key:value]". */
  function TagString(t: Tag): (s: string)
    ensures |s| == |t.key| + |t.value| + 3
    ensures s[0] == '[' && s[|s| - 1] == ']'
    ensures s[1..|s| - 1] == t.key + ":" + t.value
  {
    "[" + t.key + ":" + t.value + "]"
  }

  // ---------------------------------------------------------------------------
  // String primitives of Go's standard library used by the parser
  // ---------------------------------------------------------------------------

  /** The code points Go's unicode.IsSpace accepts: the Latin-1 spaces and the other White_Space code points. */
  const Spaces: set<char> := {
    '\t', '\n', '\U{000B}', '\U{000C}', '\r', ' ', '\U{0085}', '\U{00A0}', '\U{1680}',
    '\U{2000}', '\U{2001}', '\U{2002}', '\U{2003}', '\U{2004}', '\U{2005}',
    '\U{2006}', '\U{2007}', '\U{2008}', '\U{2009}', '\U{200A}',
    '\U{2028}', '\U{2029}', '\U{202F}', '\U{205F}', '\U{3000}'
  }

  /** Go's unicode.IsSpace. */
  predicate IsSpace(c: char) {
    c in Spaces
  }

  /** A string with no white space at either end. */
  predicate Trimmed(s: string) {
    s == [] || (!IsSpace(s[0]) && !IsSpace(s[|s| - 1]))
  }

  /** Drops leading white space: the result is the suffix that starts at the first non-space. */
  function TrimLeft(s: string): (r: string)
    ensures |r| <= |s| && r == s[|s| - |r|..]
    ensures forall i :: 0 <= i < |s| - |r| ==> IsSpace(s[i])
    ensures r == [] || !IsSpace(r[0])
  {
    if s != [] && IsSpace(s[0]) then
      var r := TrimLeft(s[1..]);
      assert s[1..][|s| - 1 - |r|..] == s[|s| - |r|..];
      assert forall i :: 1 <= i < |s| - |r| ==> s[i] == s[1..][i - 1];
      r
    else s
  }

  /** Drops trailing white space: the result is the prefix that ends at the last non-space. */
  function TrimRight(s: string): (r: string)
    ensures |r| <= |s| && r == s[..|r|]
    ensures forall i :: |r| <= i < |s| ==> IsSpace(s[i])
    ensures r == [] || !IsSpace(r[|r| - 1])
  {
    if s != [] && IsSpace(s[|s| - 1]) then
      var r := TrimRight(s[..|s| - 1]);
      assert s[..|s| - 1][..|r|] == s[..|r|];
      assert forall i :: |r| <= i < |s| - 1 ==> s[i] == s[..|s| - 1][i];
      r
    else s
  }

  /** Go's strings.TrimSpace: a contiguous part of s that is trimmed, with only spaces cut off. */
  function TrimSpace(s: string): (r: string)
    ensures Trimmed(r)
    ensures exists i, j :: 0 <= i <= j <= |s| && r == s[i..j]
              && (forall k :: 0 <= k < i ==> IsSpace(s[k]))
              && (forall k :: j <= k < |s| ==> IsSpace(s[k]))
    ensures Trimmed(s) ==> r == s
  {
    var l := TrimLeft(s);
    var r := TrimRight(l);
    TrimBounds(s, l, r, IsSpace);
    TrimBothEnds(s, l, r);
    r
  }

  /**
   * Cutting a prefix of p-characters off s, then a suffix of p-characters off
   * what is left, leaves a slice of s with only p-characters around it.
   */
  lemma TrimBounds(s: string, l: string, r: string, p: char -> bool)
    requires |l| <= |s| && l == s[|s| - |l|..] && forall k :: 0 <= k < |s| - |l| ==> p(s[k])
    requires |r| <= |l| && r == l[..|r|] && forall k :: |r| <= k < |l| ==> p(l[k])
    ensures r == s[|s| - |l|..|s| - |l| + |r|]
    ensures forall k :: |s| - |l| + |r| <= k < |s| ==> p(s[k])
  {
    SliceOfSuffix(s, l, r);
    TailHolds(s, l, |r|, p);
  }

  /** A prefix of a suffix of s is a slice of s. */
  lemma SliceOfSuffix(s: string, l: string, r: string)
    requires |l| <= |s| && l == s[|s| - |l|..]
    requires |r| <= |l| && r == l[..|r|]
    ensures r == s[|s| - |l|..|s| - |l| + |r|]
  {
  }

  /** What holds of the tail of a suffix of s from position n holds of the tail of s from there on. */
  lemma TailHolds(s: string, l: string, n: nat, p: char -> bool)
    requires |l| <= |s| && l == s[|s| - |l|..]
    requires forall k :: n <= k < |l| ==> p(l[k])
    ensures forall k :: |s| - |l| + n <= k < |s| ==> p(s[k])
  {
    forall k | |s| - |l| + n <= k < |s| ensures p(s[k]) {
      assert s[k] == l[k - (|s| - |l|)];
    }
  }

  /** Trimming both ends leaves no space at either end, and changes nothing in a trimmed string. */
  lemma TrimBothEnds(s: string, l: string, r: string)
    requires l == TrimLeft(s) && r == TrimRight(l)
    ensures Trimmed(r)
    ensures Trimmed(s) ==> r == s
  {
    if r != [] {
      assert r[0] == l[0];
    }
    if Trimmed(s) && s != [] {
      assert l == s;
    }
  }

  /** Number of occurrences of c in s. */
  function Count(s: string, c: char): (n: nat)
    ensures n <= |s|
    ensures n == 0 <==> c !in s
  {
    if s == [] then 0 else (if s[0] == c then 1 else 0) + Count(s[1..], c)
  }

  /**
   * Go's strings.Split with a one-character separator: the pieces between the
   * separators, one more than there are separators, none holding the separator.
   */
  function Split(s: string, sep: char): (parts: seq<string>)
    ensures |parts| == Count(s, sep) + 1
    ensures forall k :: 0 <= k < |parts| ==> sep !in parts[k]
    ensures sep !in s ==> parts == [s]
  {
    if s == [] then [""]
    else
      var rest := Split(s[1..], sep);
      if s[0] == sep then [""] + rest
      else
        assert sep !in s ==> [s[0]] + s[1..] == s;
        [[s[0]] + rest[0]] + rest[1..]
  }

  /** The parts joined back together with sep between consecutive ones (Go's strings.Join). */
  function Join(parts: seq<string>, sep: char): (s: string)
    ensures |parts| == 1 ==> s == parts[0]
  {
    if parts == [] then ""
    else if |parts| == 1 then parts[0]
    else parts[0] + [sep] + Join(parts[1..], sep)
  }

  /** Splitting loses nothing: joining the parts with the separator gives the string back. */
  lemma {:induction false} SplitJoin(s: string, sep: char)
    ensures Join(Split(s, sep), sep) == s
  {
    if s != [] {
      var rest := Split(s[1..], sep);
      SplitJoin(s[1..], sep);
      if s[0] == sep {
        assert ([""] + rest)[1..] == rest;
      } else {
        JoinCons(s[0], rest, sep);
      }
      assert [s[0]] + s[1..] == s;
    }
  }

  /** Gluing a character to the front of the first part glues it to the front of the join. */
  lemma JoinCons(c: char, parts: seq<string>, sep: char)
    requires parts != []
    ensures Join([[c] + parts[0]] + parts[1..], sep) == [c] + Join(parts, sep)
  {
    var glued := [[c] + parts[0]] + parts[1..];
    assert glued[1..] == parts[1..];
  }

  /** Splitting k + sep + v with separator-free halves yields exactly those halves. */
  lemma {:induction false} SplitAtOnlySeparator(k: string, v: string, sep: char)
    requires sep !in k && sep !in v
    ensures Split(k + [sep] + v, sep) == [k, v]
  {
    if k == [] {
      assert k + [sep] + v == [sep] + v;
      assert ([sep] + v)[1..] == v;
    } else {
      assert (k + [sep] + v)[1..] == k[1..] + [sep] + v;
      SplitAtOnlySeparator(k[1..], v, sep);
      assert [k[0]] + k[1..] == k;
    }
  }

  // ---------------------------------------------------------------------------
  // Tag.SetKeyValues, NewTag
  // ---------------------------------------------------------------------------

  /** The text before the first ':' of the input, or all of it. */
  function BeforeColon(s: string): (r: string)
    ensures ':' !in r
    ensures r == Split(s, ':')[0]
  {
    if s == [] then ""
    else if s[0] == ':' then ""
    else [s[0]] + BeforeColon(s[1..])
  }

  /**
   * The parse performed by Tag.SetKeyValues: the (key, value) pair it would
   * store, or the TagError it would return.
   */
  function ParseKeyValue(input: string): (r: Result<(string, string), TagError>)
    // no ':' at all: the whole input, untrimmed, is the key and the value is empty
    ensures ':' !in input ==> r == Success((input, ""))
    // with a ':': an error exactly when there is more than one ':' or the key trims to nothing
    ensures ':' in input ==>
              (r.Failure? <==> Count(input, ':') != 1 || TrimSpace(BeforeColon(input)) == "")
    // the error always carries the input
    ensures r.Failure? ==> r.error == TagError(input)
    // a key and value parsed from a colon form are trimmed, colon-free, and the key is non-empty
    ensures ':' in input && r.Success? ==>
              r.value.0 != "" && Trimmed(r.value.0) && Trimmed(r.value.1)
              && ':' !in r.value.0 && ':' !in r.value.1
  {
    if ':' !in input then Success((input, ""))
    else
      var parts := Split(input, ':');
      if |parts| != 2 then Failure(TagError(input))
      else
        var key := TrimSpace(parts[0]);
        var val := TrimSpace(parts[1]);
        if key == "" then Failure(TagError(input)) else Success((key, val))
  }

  /** A single-colon input whose key is not blank parses to its two halves, each trimmed. */
  lemma ParsesToTrimmedHalves(k: string, v: string)
    requires ':' !in k && ':' !in v && TrimSpace(k) != ""
    ensures ParseKeyValue(k + ":" + v) == Success((TrimSpace(k), TrimSpace(v)))
  {
    SplitAtOnlySeparator(k, v, ':');
    assert k + ":" + v == k + [':'] + v;
    assert (k + ":" + v)[|k|] == ':';
  }

  /**
   * Tag.SetKeyValues: the receiver after the call and the error returned.
   * Key and Value change only on success; the self link never changes.
   */
  function SetKeyValues(t: Tag, input: string): (r: (Tag, Option<TagError>))
    ensures r.1.None? <==> ParseKeyValue(input).Success?
    ensures r.1.Some? ==> r.0 == t && r.1.value == TagError(input)
    ensures r.1.None? ==>
              r.0 == t.(key := ParseKeyValue(input).value.0, value := ParseKeyValue(input).value.1)
  {
    match ParseKeyValue(input)
    case Success((k, v)) => (t.(key := k, value := v), None)
    case Failure(e) => (t, Some(e))
  }

  /** NewTag: SetKeyValues applied to an empty tag; the tag is returned even on error. */
  function NewTag(input: string): (r: (Tag, Option<TagError>))
    ensures r.1.Some? ==> r.0 == Tag("", "", "")
    ensures r.1.None? ==> r.0.documentSelfLink == "" && ParseKeyValue(input) == Success((r.0.key, r.0.value))
  {
    SetKeyValues(Tag("", "", ""), input)
  }

  /** Round trip: a clean key and value joined with ':' parse back to themselves. */
  lemma KeyValueRoundTrip(key: string, value: string)
    requires key != "" && Trimmed(key) && ':' !in key
    requires Trimmed(value) && ':' !in value
    ensures ParseKeyValue(key + ":" + value) == Success((key, value))
  {
    var input := key + ":" + value;
    SplitAtOnlySeparator(key, value, ':');
    assert input == key + [':'] + value;
    assert input[|key|] == ':';
  }

  /** Rendering then parsing the inside of the brackets recovers a clean tag's key and value. */
  lemma TagStringParses(t: Tag)
    requires t.key != "" && Trimmed(t.key) && ':' !in t.key
    requires Trimmed(t.value) && ':' !in t.value
    ensures var s := TagString(t); ParseKeyValue(s[1..|s| - 1]) == Success((t.key, t.value))
  {
    KeyValueRoundTrip(t.key, t.value);
  }

  /** Input without ':' is accepted as it stands, so the empty input gives an empty key and no error. */
  lemma EmptyInputGivesEmptyKey(t: Tag)
    ensures SetKeyValues(t, "") == (t.(key := "", value := ""), None)
  {
  }

  /** A colon form whose key is only white space is rejected, and the receiver is unchanged. */
  lemma BlankKeyRejected(t: Tag, blank: string, value: string)
    requires forall i :: 0 <= i < |blank| ==> IsSpace(blank[i])
    requires ':' !in value
    ensures SetKeyValues(t, blank + ":" + value) == (t, Some(TagError(blank + ":" + value)))
  {
    var input := blank + ":" + value;
    assert ':' !in blank by {
      forall i | 0 <= i < |blank| ensures blank[i] != ':' { assert IsSpace(blank[i]); }
    }
    SplitAtOnlySeparator(blank, value, ':');
    assert input == blank + [':'] + value;
    assert TrimLeft(blank) == [];
  }

  // ---------------------------------------------------------------------------
  // TagsToString
  // ---------------------------------------------------------------------------

  /** The concatenated renderings of the tags behind the links, in order. */
  function RenderAll(tagLinks: seq<string>, getTag: string -> Tag): (s: string)
    ensures tagLinks != [] ==> |s| > 0 && s[0] == '['
  {
    if tagLinks == [] then "" else RenderAll(tagLinks[..|tagLinks| - 1], getTag) + TagString(getTag(tagLinks[|tagLinks| - 1]))
  }

  /**
   * TagsToString: "n/a" for an empty list, otherwise the renderings of the tags,
   * which the caller looks up one by one (getTag stands for the HTTP lookup).
   */
  method TagsToString(tagLinks: seq<string>, getTag: string -> Tag) returns (s: string)
    ensures tagLinks == [] ==> s == "n/a"
    ensures tagLinks != [] ==> s == RenderAll(tagLinks, getTag)
    ensures s == "n/a" <==> tagLinks == []
  {
    if |tagLinks| == 0 {
      return "n/a";
    }
    s := "";
    for i := 0 to |tagLinks|
      invariant s == RenderAll(tagLinks[..i], getTag)
    {
      assert tagLinks[..i + 1][..i] == tagLinks[..i];
      s := s + TagString(getTag(tagLinks[i]));
    }
    assert tagLinks[..|tagLinks|] == tagLinks;
  }
}
