/**
 * The command-line client's placement-zone editing: the tag-link list of an
 * elastic placement zone (add without duplicates, remove every occurrence),
 * the "nullable" test used when marshalling it, ids stripped from self links,
 * and the by-name lookup rules of remove and edit.
 *
 * Tag resolution ("key:value" input to a tag id, possibly creating the tag on
 * the server) and every HTTP request are abstract parameters that can fail.
 */
module PlacementZones {
  import opened Wrappers
  import opened Strings

  const PoolsPrefix: string := "/resources/pools/"
  const TagsPrefix: string := "/resources/tags/"

  /** Errors of the placement-zone commands; RequestError stands for any resolver or HTTP failure. */
  datatype PzError = DuplicateNamesError | PlacementZoneNotFound | RequestError(message: string)

  /**
   * Tag resolution: input and whether to create a missing tag, to the tag id
   * ("" when no such tag exists and none was created) or an error message.
   */
  type Resolver = (string, bool) -> Result<string, string>

  // ---------------------------------------------------------------------------
  // Self-link ids
  // ---------------------------------------------------------------------------

  /**
   * Go's strings.Replace(s, pat, "", -1): every non-overlapping occurrence of
   * pat, scanning from the left, is cut out. Only whole copies of pat are removed.
   */
  function RemoveOccurrences(s: string, pat: string): (r: string)
    requires pat != []
    ensures |r| <= |s|
    decreases |s|
  {
    if |s| < |pat| then s
    else if s[..|pat|] == pat then RemoveOccurrences(s[|pat|..], pat)
    else [s[0]] + RemoveOccurrences(s[1..], pat)
  }

  /** A string in which pat does not occur is left as it is. */
  lemma {:induction false} RemoveOccurrencesNone(s: string, pat: string)
    requires pat != [] && !Occurs(s, pat)
    ensures RemoveOccurrences(s, pat) == s
    decreases |s|
  {
    if |s| >= |pat| {
      assert !OccursAt(s, pat, 0);
      assert !Occurs(s[1..], pat) by {
        forall i: nat | OccursAt(s[1..], pat, i)
          ensures false
        {
          assert s[1..][i..i + |pat|] == s[i + 1..i + 1 + |pat|];
          assert OccursAt(s, pat, i + 1);
        }
      }
      RemoveOccurrencesNone(s[1..], pat);
      assert [s[0]] + s[1..] == s;
    }
  }

  /** The self-link id of a pool: the link with every "/resources/pools/" cut out. */
  function PoolId(selfLink: string): (id: string)
    ensures |id| <= |selfLink|
    ensures !Occurs(selfLink, PoolsPrefix) ==> id == selfLink
  {
    assert !Occurs(selfLink, PoolsPrefix) ==> RemoveOccurrences(selfLink, PoolsPrefix) == selfLink by {
      if !Occurs(selfLink, PoolsPrefix) {
        RemoveOccurrencesNone(selfLink, PoolsPrefix);
      }
    }
    RemoveOccurrences(selfLink, PoolsPrefix)
  }

  /** The id of a pool link built from an id that does not itself hold the prefix is that id. */
  lemma PoolIdOfPoolLink(id: string)
    requires !Occurs(id, PoolsPrefix)
    ensures PoolId(PoolsPrefix + id) == id
  {
    var s := PoolsPrefix + id;
    assert s[..|PoolsPrefix|] == PoolsPrefix;
    assert s[|PoolsPrefix|..] == id;
    RemoveOccurrencesNone(id, PoolsPrefix);
  }

  /** The persisted resource pool of a placement zone. */
  datatype ResourcePoolState = ResourcePoolState(
    name: string,
    maxCpuCount: int,
    maxMemoryBytes: int,
    customProperties: map<string, Option<string>>,
    documentSelfLink: string)
  {
    /** ResourcePoolState.GetID. */
    function GetID(): (id: string)
      ensures |id| <= |documentSelfLink|
    {
      PoolId(documentSelfLink)
    }
  }

  // ---------------------------------------------------------------------------
  // Tag links
  // ---------------------------------------------------------------------------

  /** The link of a tag id; an empty id gives an empty link. */
  function TagLinkFor(tagId: string): (link: string)
    ensures link == "" <==> tagId == ""
    ensures tagId != "" ==> |link| > |TagsPrefix| && link[..|TagsPrefix|] == TagsPrefix && link[|TagsPrefix|..] == tagId
  {
    if tagId == "" then "" else TagsPrefix + tagId
  }

  /**
   * What AddTagLinks does to the list: each input is resolved (creating the tag
   * if needed); a non-empty link not yet present is appended; the first
   * resolution error stops the walk, keeping what was appended before it.
   */
  function AddLinks(links: seq<string>, inputs: seq<string>, resolve: Resolver): (r: (seq<string>, Option<string>))
    decreases |inputs|
  {
    if inputs == [] then (links, None)
    else match resolve(inputs[0], true)
      case Failure(e) => (links, Some(e))
      case Success(id) =>
        var link := TagLinkFor(id);
        AddLinks(if link != "" && link !in links then links + [link] else links, inputs[1..], resolve)
  }

  /** Adding keeps the existing links, in order, at the front. */
  lemma {:induction false} AddLinksKeepsExisting(links: seq<string>, inputs: seq<string>, resolve: Resolver)
    ensures |links| <= |AddLinks(links, inputs, resolve).0|
    ensures AddLinks(links, inputs, resolve).0[..|links|] == links
    decreases |inputs|
  {
    if inputs != [] {
      match resolve(inputs[0], true)
      case Failure(e) =>
      case Success(id) =>
        var link := TagLinkFor(id);
        var next := if link != "" && link !in links then links + [link] else links;
        AddLinksKeepsExisting(next, inputs[1..], resolve);
        assert next[..|links|] == links;
    }
  }

  /** Adding never creates a duplicate, and never adds an empty link. */
  lemma {:induction false} AddLinksNoDuplicates(links: seq<string>, inputs: seq<string>, resolve: Resolver)
    requires NoDuplicates(links)
    ensures NoDuplicates(AddLinks(links, inputs, resolve).0)
    ensures forall k :: |links| <= k < |AddLinks(links, inputs, resolve).0| ==> AddLinks(links, inputs, resolve).0[k] != ""
    decreases |inputs|
  {
    if inputs != [] {
      match resolve(inputs[0], true)
      case Failure(e) =>
      case Success(id) =>
        var link := TagLinkFor(id);
        var next := if link != "" && link !in links then links + [link] else links;
        AddLinksNoDuplicates(next, inputs[1..], resolve);
        AddLinksKeepsExisting(next, inputs[1..], resolve);
        var r := AddLinks(links, inputs, resolve).0;
        forall k | |links| <= k < |next| ensures r[k] != "" {
          assert r[k] == r[..|next|][k] == next[k];
        }
    }
  }

  /** When no resolution fails, every non-empty resolved link is in the list afterwards. */
  lemma {:induction false} AddLinksAddsAll(links: seq<string>, inputs: seq<string>, resolve: Resolver)
    requires AddLinks(links, inputs, resolve).1.None?
    ensures forall k :: 0 <= k < |inputs| ==>
              resolve(inputs[k], true).Success? &&
              (TagLinkFor(resolve(inputs[k], true).value) == ""
               || TagLinkFor(resolve(inputs[k], true).value) in AddLinks(links, inputs, resolve).0)
    decreases |inputs|
  {
    if inputs != [] {
      match resolve(inputs[0], true)
      case Failure(e) =>
      case Success(id) =>
        var link := TagLinkFor(id);
        var next := if link != "" && link !in links then links + [link] else links;
        AddLinksAddsAll(next, inputs[1..], resolve);
        AddLinksKeepsExisting(next, inputs[1..], resolve);
        var r := AddLinks(links, inputs, resolve).0;
        assert link != "" ==> link in next;
        assert link != "" ==> link in r by {
          if link != "" {
            var p :| 0 <= p < |next| && next[p] == link;
            assert r[..|next|] == next;
            assert r[p] == link;
          }
        }
        forall k | 1 <= k < |inputs|
          ensures resolve(inputs[k], true).Success?
          ensures TagLinkFor(resolve(inputs[k], true).value) == "" || TagLinkFor(resolve(inputs[k], true).value) in r
        {
          assert inputs[k] == inputs[1..][k - 1];
        }
    }
  }

  /**
   * The links the inputs resolve to (creating missing tags), position by
   * position, up to the first input whose resolution fails, and that failure.
   */
  function ResolveAdditions(inputs: seq<string>, resolve: Resolver): (r: (seq<string>, Option<string>))
    ensures |r.0| <= |inputs|
    decreases |inputs|
  {
    if inputs == [] then ([], None)
    else match resolve(inputs[0], true)
      case Failure(e) => ([], Some(e))
      case Success(id) =>
        var rest := ResolveAdditions(inputs[1..], resolve);
        ([TagLinkFor(id)] + rest.0, rest.1)
  }

  /**
   * Each resolved link belongs to the input at its position, which resolved
   * successfully; without an error every input is resolved, and an error is
   * the failure of the input right after the resolved ones.
   */
  lemma {:induction false} ResolveAdditionsSpec(inputs: seq<string>, resolve: Resolver)
    ensures var r := ResolveAdditions(inputs, resolve);
            (forall p :: 0 <= p < |r.0| ==>
               resolve(inputs[p], true).Success? && r.0[p] == TagLinkFor(resolve(inputs[p], true).value))
            && (r.1.None? ==> |r.0| == |inputs|)
            && (r.1.Some? ==> |r.0| < |inputs| && resolve(inputs[|r.0|], true) == Failure(r.1.value))
    decreases |inputs|
  {
    if inputs != [] && resolve(inputs[0], true).Success? {
      var rest := ResolveAdditions(inputs[1..], resolve);
      ResolveAdditionsSpec(inputs[1..], resolve);
      var links := ResolveAdditions(inputs, resolve).0;
      assert links == [TagLinkFor(resolve(inputs[0], true).value)] + rest.0;
      forall p | 0 < p < |links|
        ensures resolve(inputs[p], true).Success? && links[p] == TagLinkFor(resolve(inputs[p], true).value)
      {
        assert links[p] == rest.0[p - 1] && inputs[p] == inputs[1..][p - 1];
      }
      if rest.1.Some? {
        assert inputs[|links|] == inputs[1..][|rest.0|];
      }
    }
  }

  /**
   * Adding appends exactly the non-empty links resolved before the first
   * failure that are not already present, each once, in the order of the
   * inputs; the error is that first failure.
   */
  lemma {:induction false} AddLinksIsFresh(links: seq<string>, inputs: seq<string>, resolve: Resolver)
    ensures AddLinks(links, inputs, resolve)
            == (links + Fresh(links, RemoveAllOf(ResolveAdditions(inputs, resolve).0, "")), ResolveAdditions(inputs, resolve).1)
    decreases |inputs|
  {
    if inputs == [] {
      assert links + [] == links;
    } else {
      match resolve(inputs[0], true)
      case Failure(e) =>
        assert links + [] == links;
      case Success(id) =>
        var link := TagLinkFor(id);
        var next := if link != "" && link !in links then links + [link] else links;
        AddLinksIsFresh(next, inputs[1..], resolve);
        if link != "" && link !in links {
          AppendStep(links, link, ResolveAdditions(inputs[1..], resolve).0);
        } else {
          SkipStep(links, link, ResolveAdditions(inputs[1..], resolve).0);
        }
    }
  }

  /** An empty or already present link adds nothing; the rest is added as if it were not there. */
  lemma {:induction false} SkipStep(links: seq<string>, link: string, rest: seq<string>)
    requires link == "" || link in links
    ensures Fresh(links, RemoveAllOf([link] + rest, "")) == Fresh(links, RemoveAllOf(rest, ""))
  {
    RemoveAllOfCons(link, rest, "");
    var cands := RemoveAllOf(rest, "");
    if link == "" {
      assert [] + cands == cands;
    } else {
      assert ([link] + cands)[1..] == cands;
    }
  }

  /** A new non-empty link is appended, and the rest is added after it. */
  lemma {:induction false} AppendStep(links: seq<string>, link: string, rest: seq<string>)
    requires link != "" && link !in links
    ensures links + Fresh(links, RemoveAllOf([link] + rest, ""))
            == (links + [link]) + Fresh(links + [link], RemoveAllOf(rest, ""))
  {
    RemoveAllOfCons(link, rest, "");
    var cands := RemoveAllOf(rest, "");
    FreshNew(links, link, cands);
    ConcatAssoc(links, [link], Fresh(links + [link], cands));
  }

  /** A candidate not yet seen comes first, and is seen by the rest. */
  lemma {:induction false} FreshNew(seen: seq<string>, x: string, cands: seq<string>)
    requires x !in seen
    ensures Fresh(seen, [x] + cands) == [x] + Fresh(seen + [x], cands)
  {
    assert ([x] + cands)[1..] == cands;
  }

  lemma ConcatAssoc(a: seq<string>, b: seq<string>, c: seq<string>)
    ensures a + (b + c) == (a + b) + c
  {
  }

  lemma {:induction false} RemoveAllOfCons(h: string, rest: seq<string>, x: string)
    ensures RemoveAllOf([h] + rest, x) == (if h == x then [] else [h]) + RemoveAllOf(rest, x)
  {
    assert ([h] + rest)[1..] == rest;
  }

  /** The first input that fails to resolve ends the walk: nothing after it is looked at. */
  lemma {:induction false} AddLinksStopsAtFirstError(links: seq<string>, pre: seq<string>, bad: string,
                                                     post: seq<string>, resolve: Resolver)
    requires forall p :: 0 <= p < |pre| ==> resolve(pre[p], true).Success?
    requires resolve(bad, true).Failure?
    ensures AddLinks(links, pre + [bad] + post, resolve) == (AddLinks(links, pre, resolve).0, Some(resolve(bad, true).error))
    decreases |pre|
  {
    var inputs := pre + [bad] + post;
    if pre == [] {
      assert inputs[0] == bad;
    } else {
      assert inputs[0] == pre[0];
      assert inputs[1..] == pre[1..] + [bad] + post;
      var id := resolve(pre[0], true).value;
      var link := TagLinkFor(id);
      var next := if link != "" && link !in links then links + [link] else links;
      assert forall p :: 0 <= p < |pre[1..]| ==> pre[1..][p] == pre[p + 1];
      AddLinksStopsAtFirstError(next, pre[1..], bad, post, resolve);
    }
  }

  /**
   * The first phase of RemoveTagLinks: resolve every input without creating
   * tags; an empty id is skipped; the first error aborts the whole removal.
   */
  function ResolveRemovals(acc: seq<string>, inputs: seq<string>, resolve: Resolver): (r: Result<seq<string>, string>)
    decreases |inputs|
  {
    if inputs == [] then Success(acc)
    else match resolve(inputs[0], false)
      case Failure(e) => Failure(e)
      case Success(id) => ResolveRemovals(if id != "" then acc + [TagLinkFor(id)] else acc, inputs[1..], resolve)
  }

  /** s with every occurrence of x removed, the rest in order. */
  function RemoveAllOf(s: seq<string>, x: string): (r: seq<string>)
    ensures x !in r
    ensures |r| <= |s|
  {
    if s == [] then [] else (if s[0] == x then [] else [s[0]]) + RemoveAllOf(s[1..], x)
  }

  lemma {:induction false} RemoveAllOfAppend(a: seq<string>, b: seq<string>, x: string)
    ensures RemoveAllOf(a + b, x) == RemoveAllOf(a, x) + RemoveAllOf(b, x)
  {
    if a != [] {
      assert (a + b)[0] == a[0];
      assert (a + b)[1..] == a[1..] + b;
      RemoveAllOfAppend(a[1..], b, x);
    } else {
      assert a + b == b;
    }
  }

  /** Splicing out one copy of x does not change what removing every x gives. */
  lemma RemoveAllOfSplice(s: seq<string>, i: nat, x: string)
    requires i < |s| && s[i] == x
    ensures RemoveAllOf(s[..i] + s[i + 1..], x) == RemoveAllOf(s, x)
  {
    var t := s[i..];
    assert t[0] == x && t[1..] == s[i + 1..];
    assert RemoveAllOf(t, x) == RemoveAllOf(s[i + 1..], x);
    RemoveAllOfAppend(s[..i], s[i + 1..], x);
    RemoveAllOfAppend(s[..i], t, x);
    assert s[..i] + t == s;
  }

  lemma {:induction false} RemoveAllOfAbsent(s: seq<string>, x: string)
    requires x !in s
    ensures RemoveAllOf(s, x) == s
  {
    if s != [] {
      RemoveAllOfAbsent(s[1..], x);
    }
  }

  /** The removals applied one after another, as the outer loop of RemoveTagLinks does. */
  function RemoveEvery(links: seq<string>, toRemove: seq<string>): (r: seq<string>)
  {
    if toRemove == [] then links
    else RemoveAllOf(RemoveEvery(links, toRemove[..|toRemove| - 1]), toRemove[|toRemove| - 1])
  }

  /** Reference definition: the links that are not among the ones to remove, in their order. */
  function Without(links: seq<string>, toRemove: seq<string>): (r: seq<string>)
    ensures forall x :: x in r <==> x in links && x !in toRemove
  {
    if links == [] then [] else (if links[0] in toRemove then [] else [links[0]]) + Without(links[1..], toRemove)
  }

  lemma {:induction false} RemoveAllOfWithout(links: seq<string>, toRemove: seq<string>, x: string)
    ensures RemoveAllOf(Without(links, toRemove), x) == Without(links, toRemove + [x])
  {
    if links != [] {
      var head := if links[0] in toRemove then [] else [links[0]];
      RemoveAllOfAppend(head, Without(links[1..], toRemove), x);
      RemoveAllOfWithout(links[1..], toRemove, x);
    }
  }

  /**
   * Removing the resolved links one by one is the same as keeping exactly the
   * links not among them: every occurrence goes, the order of the rest is kept.
   */
  lemma {:induction false} RemoveEveryIsWithout(links: seq<string>, toRemove: seq<string>)
    ensures RemoveEvery(links, toRemove) == Without(links, toRemove)
    decreases |toRemove|
  {
    if toRemove == [] {
      WithoutNothing(links);
    } else {
      var init := toRemove[..|toRemove| - 1];
      var x := toRemove[|toRemove| - 1];
      RemoveEveryIsWithout(links, init);
      RemoveAllOfWithout(links, init, x);
      assert init + [x] == toRemove;
    }
  }

  lemma {:induction false} WithoutNothing(links: seq<string>)
    ensures Without(links, []) == links
  {
    if links != [] {
      WithoutNothing(links[1..]);
    }
  }

  // ---------------------------------------------------------------------------
  // EpzState
  // ---------------------------------------------------------------------------

  /** The JSON form of an elastic placement zone state: null when it is nullable. */
  datatype EpzJson = Null | Object(resourcePoolLink: string, tagLinksToMatch: seq<string>, documentSelfLink: string)

  /** The elastic placement zone state; its tag-link list is edited in place. */
  class EpzState {
    var resourcePoolLink: string
    var tagLinksToMatch: seq<string>
    var documentSelfLink: string

    constructor (resourcePoolLink: string, tagLinksToMatch: seq<string>, documentSelfLink: string)
      ensures this.resourcePoolLink == resourcePoolLink
      ensures this.tagLinksToMatch == tagLinksToMatch
      ensures this.documentSelfLink == documentSelfLink
    {
      this.resourcePoolLink := resourcePoolLink;
      this.tagLinksToMatch := tagLinksToMatch;
      this.documentSelfLink := documentSelfLink;
    }

    /** containsTagLink: a scan of the list. */
    method ContainsTagLink(tagLink: string) returns (found: bool)
      ensures found <==> tagLink in tagLinksToMatch
    {
      for i := 0 to |tagLinksToMatch|
        invariant tagLink !in tagLinksToMatch[..i]
      {
        if tagLinksToMatch[i] == tagLink {
          return true;
        }
      }
      assert tagLinksToMatch[..|tagLinksToMatch|] == tagLinksToMatch;
      return false;
    }

    /** AddTagLinks: resolve each input (creating missing tags) and append new non-empty links. */
    method AddTagLinks(tagsInput: seq<string>, resolve: Resolver) returns (err: Option<string>)
      modifies this`tagLinksToMatch
      ensures (tagLinksToMatch, err) == AddLinks(old(tagLinksToMatch), tagsInput, resolve)
      ensures tagLinksToMatch
              == old(tagLinksToMatch) + Fresh(old(tagLinksToMatch), RemoveAllOf(ResolveAdditions(tagsInput, resolve).0, ""))
      ensures err == ResolveAdditions(tagsInput, resolve).1
    {
      for i := 0 to |tagsInput|
        invariant AddLinks(tagLinksToMatch, tagsInput[i..], resolve) == AddLinks(old(tagLinksToMatch), tagsInput, resolve)
      {
        assert tagsInput[i..][1..] == tagsInput[i + 1..];
        match resolve(tagsInput[i], true)
        case Failure(e) =>
          AddLinksIsFresh(old(tagLinksToMatch), tagsInput, resolve);
          return Some(e);
        case Success(tagId) =>
          var tagLink := TagLinkFor(tagId);
          var present := ContainsTagLink(tagLink);
          if tagLink != "" && !present {
            tagLinksToMatch := tagLinksToMatch + [tagLink];
          }
      }
      AddLinksIsFresh(old(tagLinksToMatch), tagsInput, resolve);
      return None;
    }

    /**
     * RemoveTagLinks: resolve every input first (an error leaves the list as it
     * was), then splice out every occurrence of each resolved link, stepping the
     * index back after each removal so that adjacent copies are also removed.
     */
    method RemoveTagLinks(tagsInput: seq<string>, resolve: Resolver) returns (err: Option<string>)
      modifies this`tagLinksToMatch
      ensures ResolveRemovals([], tagsInput, resolve).Failure? ==>
                err == Some(ResolveRemovals([], tagsInput, resolve).error)
                && tagLinksToMatch == old(tagLinksToMatch)
      ensures ResolveRemovals([], tagsInput, resolve).Success? ==>
                err.None?
                && tagLinksToMatch == RemoveEvery(old(tagLinksToMatch), ResolveRemovals([], tagsInput, resolve).value)
    {
      var tagsToRemove: seq<string> := [];
      for k := 0 to |tagsInput|
        invariant ResolveRemovals(tagsToRemove, tagsInput[k..], resolve) == ResolveRemovals([], tagsInput, resolve)
      {
        assert tagsInput[k..][1..] == tagsInput[k + 1..];
        match resolve(tagsInput[k], false)
        case Failure(e) =>
          return Some(e);
        case Success(tagId) =>
          if tagId != "" {
            tagsToRemove := tagsToRemove + [TagLinkFor(tagId)];
          }
      }
      ghost var start := tagLinksToMatch;
      for j := 0 to |tagsToRemove|
        invariant tagLinksToMatch == RemoveEvery(start, tagsToRemove[..j])
      {
        RemoveAllOccurrences(tagsToRemove[j]);
        assert tagsToRemove[..j + 1][..j] == tagsToRemove[..j];
      }
      assert tagsToRemove[..|tagsToRemove|] == tagsToRemove;
      return None;
    }

    /**
     * The inner loop of RemoveTagLinks: splice out each copy of tagToRemove,
     * stepping the index back after a removal so that the next element is examined.
     */
    method RemoveAllOccurrences(tagToRemove: string)
      modifies this`tagLinksToMatch
      ensures tagLinksToMatch == RemoveAllOf(old(tagLinksToMatch), tagToRemove)
    {
      var i: int := 0;
      while i < |tagLinksToMatch|
        invariant 0 <= i <= |tagLinksToMatch|
        invariant tagToRemove !in tagLinksToMatch[..i]
        invariant RemoveAllOf(tagLinksToMatch, tagToRemove) == RemoveAllOf(old(tagLinksToMatch), tagToRemove)
        decreases |tagLinksToMatch| - i
      {
        if tagToRemove == tagLinksToMatch[i] {
          RemoveAllOfSplice(tagLinksToMatch, i, tagToRemove);
          tagLinksToMatch := tagLinksToMatch[..i] + tagLinksToMatch[i + 1..];
          i := i - 1;
        } else {
          assert tagLinksToMatch[..i + 1] == tagLinksToMatch[..i] + [tagLinksToMatch[i]];
        }
        i := i + 1;
      }
      assert tagLinksToMatch[..i] == tagLinksToMatch;
      RemoveAllOfAbsent(tagLinksToMatch, tagToRemove);
    }

    /** IsNullable: no tag links and both links empty. */
    predicate IsNullable()
      reads this
    {
      |tagLinksToMatch| == 0 && documentSelfLink == "" && resourcePoolLink == ""
    }

    /** MarshalJSON: null for a nullable state, otherwise the fields. */
    function MarshalJson(): (j: EpzJson)
      reads this
      ensures j.Null? <==> (|tagLinksToMatch| == 0 && documentSelfLink == "" && resourcePoolLink == "")
      ensures j.Object? ==> j == Object(resourcePoolLink, tagLinksToMatch, documentSelfLink)
    {
      if IsNullable() then Null else Object(resourcePoolLink, tagLinksToMatch, documentSelfLink)
    }
  }

  /** A placement zone: its resource pool, its elastic placement zone state and its self link. */
  class PlacementZone {
    var resourcePoolState: ResourcePoolState
    const epzState: EpzState
    var documentSelfLink: string

    constructor (resourcePoolState: ResourcePoolState, epzState: EpzState, documentSelfLink: string)
      ensures this.resourcePoolState == resourcePoolState
      ensures this.epzState == epzState
      ensures this.documentSelfLink == documentSelfLink
    {
      this.resourcePoolState := resourcePoolState;
      this.epzState := epzState;
      this.documentSelfLink := documentSelfLink;
    }

    /** PlacementZone.GetID. */
    function GetID(): (id: string)
      reads this
      ensures |id| <= |documentSelfLink|
    {
      PoolId(documentSelfLink)
    }
  }

  // ---------------------------------------------------------------------------
  // Remove and edit by name
  // ---------------------------------------------------------------------------

  /** The by-name rule: more than one match is ambiguous, none is not found, one is used. */
  function SelectByName(links: seq<string>): (r: Result<string, PzError>)
    ensures r == Failure(DuplicateNamesError) <==> |links| > 1
    ensures r == Failure(PlacementZoneNotFound) <==> |links| == 0
    ensures r.Success? <==> |links| == 1
    ensures r.Success? ==> r.value == links[0]
  {
    if |links| > 1 then Failure(DuplicateNamesError)
    else if |links| < 1 then Failure(PlacementZoneNotFound)
    else Success(links[0])
  }

  /**
   * RemovePZ: the links are those whose zone has the given name; idOf stands for
   * the link-to-id conversion and deleteError for the outcome of the DELETE
   * request for an id (None when it succeeds).
   */
  function RemovePZ(links: seq<string>, idOf: string -> string,
                    deleteError: string -> Option<string>): (r: Result<string, PzError>)
    ensures |links| > 1 ==> r == Failure(DuplicateNamesError)
    ensures |links| == 0 ==> r == Failure(PlacementZoneNotFound)
    ensures |links| == 1 && deleteError(idOf(links[0])).Some? ==>
              r == Failure(RequestError(deleteError(idOf(links[0])).value))
    ensures r.Success? <==> |links| == 1 && deleteError(idOf(links[0])).None?
    ensures r.Success? ==> r.value == idOf(links[0])
  {
    match SelectByName(links)
    case Failure(e) => Failure(e)
    case Success(link) =>
      var id := idOf(link);
      if deleteError(id).Some? then Failure(RequestError(deleteError(id).value)) else Success(id)
  }

  /**
   * EditPZ on the zone fetched for the single match: a non-empty new name is
   * applied, then the removals, then the additions; patchError stands for the
   * outcome of the PATCH request, which is sent only when both edits succeed.
   */
  method EditPZ(links: seq<string>, newName: string, tagsToAdd: seq<string>, tagsToRemove: seq<string>,
                pz: PlacementZone, resolve: Resolver, idOf: string -> string, patchError: Option<string>)
    returns (r: Result<string, PzError>)
    modifies pz`resourcePoolState, pz.epzState`tagLinksToMatch
    ensures |links| > 1 ==> r == Failure(DuplicateNamesError)
    ensures |links| == 0 ==> r == Failure(PlacementZoneNotFound)
    ensures |links| != 1 ==> unchanged(pz, pz.epzState)
    ensures |links| == 1 ==>
              pz.resourcePoolState == (if newName != "" then old(pz.resourcePoolState).(name := newName)
                                       else old(pz.resourcePoolState))
    ensures |links| == 1 && ResolveRemovals([], tagsToRemove, resolve).Failure? ==>
              r == Failure(RequestError(ResolveRemovals([], tagsToRemove, resolve).error))
              && pz.epzState.tagLinksToMatch == old(pz.epzState.tagLinksToMatch)
    ensures |links| == 1 && ResolveRemovals([], tagsToRemove, resolve).Success? ==>
              var removed := RemoveEvery(old(pz.epzState.tagLinksToMatch), ResolveRemovals([], tagsToRemove, resolve).value);
              var added := AddLinks(removed, tagsToAdd, resolve);
              pz.epzState.tagLinksToMatch == added.0
              && r == (if added.1.Some? then Failure(RequestError(added.1.value))
                       else if patchError.Some? then Failure(RequestError(patchError.value))
                       else Success(idOf(links[0])))
  {
    var selected := SelectByName(links);
    if selected.Failure? {
      return Failure(selected.error);
    }
    var id := idOf(selected.value);
    if newName != "" {
      pz.resourcePoolState := pz.resourcePoolState.(name := newName);
    }
    var err := pz.epzState.RemoveTagLinks(tagsToRemove, resolve);
    if err.Some? {
      return Failure(RequestError(err.value));
    }
    err := pz.epzState.AddTagLinks(tagsToAdd, resolve);
    if err.Some? {
      return Failure(RequestError(err.value));
    }
    if patchError.Some? {
      return Failure(RequestError(patchError.value));
    }
    return Success(id);
  }
}
