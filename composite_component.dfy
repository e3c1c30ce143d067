/**
 * The composite-component service: a persisted document grouping the links of
 * the components (containers, networks, ...) deployed together. Create and Put
 * validate the name; Patch merges fields, either merges or removes component
 * links, reports "not modified" when the content signature did not change, and
 * after a removal decides whether the composite (and its description, when that
 * description was cloned from a parent) is deleted.
 *
 * The document store, the network query and the description GET are not
 * modelled; their outcomes are parameters.
 */
module CompositeComponents {
  import opened Wrappers
  import opened Strings

  /** The query parameter whose presence turns a patch into a removal of links. */
  const IncludeDeletedParam: string := "includeDeleted"
  /** Link prefix of containers. */
  const ContainersPrefix: string := "/resources/containers"
  /** Link prefix of container networks. */
  const NetworksPrefix: string := "/resources/container-networks"

  /** The persisted composite component; Java's null is None. */
  datatype CompositeComponent = CompositeComponent(
    name: Option<string>,
    compositeDescriptionLink: Option<string>,
    componentLinks: Option<seq<string>>,
    created: int)

  /** The failure of assertNotEmpty on the named field. */
  datatype ValidationError = ValidationError(field: string)

  /** The status a patch completes with. */
  datatype PatchStatus = Ok | NotModified

  // ---------------------------------------------------------------------------
  // Create and Put
  // ---------------------------------------------------------------------------

  /** validateStateOnStart: the name must be neither null nor empty. */
  function ValidateStateOnStart(state: CompositeComponent): (r: Option<ValidationError>)
    ensures r.None? <==> state.name.Some? && state.name.value != ""
    ensures r.Some? ==> r.value == ValidationError("name")
  {
    if state.name.None? || state.name.value == "" then Some(ValidationError("name")) else None
  }

  /**
   * handleCreate: the body, stamped with the creation time, becomes the initial
   * state; a body without a name fails the start.
   */
  function HandleCreate(body: CompositeComponent, now: int): (r: Result<CompositeComponent, ValidationError>)
    ensures r.Success? <==> body.name.Some? && body.name.value != ""
    ensures r.Success? ==> r.value.created == now
    ensures r.Success? ==> r.value.(created := body.created) == body
    ensures r.Failure? ==> r.error == ValidationError("name")
  {
    var stamped := body.(created := now);
    match ValidateStateOnStart(stamped)
    case Some(e) => Failure(e)
    case None => Success(stamped)
  }

  // ---------------------------------------------------------------------------
  // Field and list merging
  // ---------------------------------------------------------------------------

  /** PropertyUtils.mergeProperty: the patch value wins unless it is null. */
  function MergeProperty<T>(current: Option<T>, patch: Option<T>): (r: Option<T>)
    // a non-null patch value always wins
    ensures patch.Some? ==> r == patch
    // a null patch, or one equal to the current value, changes nothing
    ensures patch.None? || patch == current ==> r == current
    // a merge never nulls a field: the result is null only when both sides are
    ensures r.None? <==> current.None? && patch.None?
  {
    if patch.Some? then patch else current
  }

  /** Appends, in order, each patch element not yet present. */
  function AppendMissing(current: seq<string>, patch: seq<string>): (r: seq<string>)
    decreases |patch|
  {
    if patch == [] then current
    else AppendMissing(if patch[0] in current then current else current + [patch[0]], patch[1..])
  }

  /** PropertyUtils.mergeLists: a null side yields the other; otherwise the missing patch elements are appended. */
  function MergeLists(current: Option<seq<string>>, patch: Option<seq<string>>): (r: Option<seq<string>>)
    ensures patch.None? ==> r == current
    ensures current.None? ==> r == patch
  {
    if patch.None? then current
    else if current.None? then patch
    else Some(AppendMissing(current.value, patch.value))
  }

  /** Merging keeps every existing link in place and adds exactly the patch's new links. */
  lemma {:induction false} AppendMissingUnion(current: seq<string>, patch: seq<string>)
    ensures |current| <= |AppendMissing(current, patch)|
    ensures AppendMissing(current, patch)[..|current|] == current
    ensures forall x :: x in AppendMissing(current, patch) <==> x in current || x in patch
    decreases |patch|
  {
    if patch != [] {
      var next := if patch[0] in current then current else current + [patch[0]];
      AppendMissingUnion(next, patch[1..]);
      assert next[..|current|] == current;
      assert patch == [patch[0]] + patch[1..];
      forall x ensures x in AppendMissing(current, patch) <==> x in current || x in patch {
        assert x in next <==> x in current || x == patch[0];
      }
    }
  }

  /**
   * The merged list is the current one followed by the patch elements not yet
   * present, each once, in the order of the patch.
   */
  lemma {:induction false} AppendMissingIsFresh(current: seq<string>, patch: seq<string>)
    ensures AppendMissing(current, patch) == current + Fresh(current, patch)
    decreases |patch|
  {
    if patch != [] {
      var next := if patch[0] in current then current else current + [patch[0]];
      AppendMissingIsFresh(next, patch[1..]);
    }
  }

  /** Merging into a list without duplicates gives a list without duplicates. */
  lemma {:induction false} AppendMissingNoDuplicates(current: seq<string>, patch: seq<string>)
    requires NoDuplicates(current)
    ensures NoDuplicates(AppendMissing(current, patch))
    decreases |patch|
  {
    if patch != [] {
      var next := if patch[0] in current then current else current + [patch[0]];
      AppendMissingNoDuplicates(next, patch[1..]);
    }
  }

  /** Merging links that are all present already changes nothing. */
  lemma {:induction false} AppendMissingKnown(current: seq<string>, patch: seq<string>)
    requires forall x :: x in patch ==> x in current
    ensures AppendMissing(current, patch) == current
    decreases |patch|
  {
    if patch != [] {
      AppendMissingKnown(current, patch[1..]);
    }
  }

  // ---------------------------------------------------------------------------
  // Removal of links (the delete patch)
  // ---------------------------------------------------------------------------

  /** Java's List.remove(Object): the first occurrence of x, if any, is removed. */
  function RemoveFirst(s: seq<string>, x: string): (r: seq<string>)
    ensures x !in s ==> r == s
    ensures x in s ==> |r| == |s| - 1
    ensures multiset(r) == multiset(s) - multiset{x}
  {
    if s == [] then []
    else if s[0] == x then
      assert s == [s[0]] + s[1..];
      s[1..]
    else
      assert s == [s[0]] + s[1..];
      [s[0]] + RemoveFirst(s[1..], x)
  }

  /** The first position holding x. */
  function IndexOf(s: seq<string>, x: string): (i: nat)
    requires x in s
    ensures i < |s| && s[i] == x && x !in s[..i]
  {
    if s[0] == x then 0
    else
      var j := IndexOf(s[1..], x);
      assert s[..j + 1] == [s[0]] + s[1..][..j];
      j + 1
  }

  /**
   * List.remove removes the first occurrence: the element is cut out at the
   * first position that holds it, and the others keep their order.
   */
  lemma {:induction false} RemoveFirstIsFirstSplice(s: seq<string>, x: string, i: nat)
    requires i < |s| && s[i] == x && x !in s[..i]
    ensures RemoveFirst(s, x) == s[..i] + s[i + 1..]
  {
    if i == 0 {
      assert s[..0] + s[1..] == s[1..];
    } else {
      assert s[..i] == [s[0]] + s[1..][..i - 1];
      RemoveFirstIsFirstSplice(s[1..], x, i - 1);
      ConsSplice(s, i - 1);
    }
  }

  /** Splicing position j + 1 out of s is splicing position j out of its tail, behind its head. */
  lemma ConsSplice(s: seq<string>, j: nat)
    requires j + 1 < |s|
    ensures [s[0]] + (s[1..][..j] + s[1..][j + 1..]) == s[..j + 1] + s[j + 2..]
  {
    assert s[..j + 1] == [s[0]] + s[1..][..j];
    assert s[j + 2..] == s[1..][j + 1..];
  }

  /** Removing one link keeps the remaining links in their order. */
  lemma RemoveFirstKeepsOrder(s: seq<string>, x: string)
    ensures SubseqOf(RemoveFirst(s, x), s)
  {
    if x in s {
      RemoveFirstIsFirstSplice(s, x, IndexOf(s, x));
      SubseqOfSplice(s, IndexOf(s, x));
    } else {
      SubseqOfSelf(s);
    }
  }

  /** The delete-patch loop: each listed link removed once, in the patch's order. */
  function RemoveEach(links: seq<string>, toRemove: seq<string>): (r: seq<string>)
  {
    if toRemove == [] then links
    else RemoveFirst(RemoveEach(links, toRemove[..|toRemove| - 1]), toRemove[|toRemove| - 1])
  }

  /** The remainder is the current links minus the listed ones, counted with multiplicity. */
  lemma {:induction false} RemoveEachMultiset(links: seq<string>, toRemove: seq<string>)
    ensures multiset(RemoveEach(links, toRemove)) == multiset(links) - multiset(toRemove)
    decreases |toRemove|
  {
    if toRemove != [] {
      RemoveEachMultiset(links, toRemove[..|toRemove| - 1]);
      RemoveOneMore(RemoveEach(links, toRemove[..|toRemove| - 1]), links, toRemove);
    }
  }

  /** One more removal takes one more copy off the multiset difference. */
  lemma RemoveOneMore(r: seq<string>, links: seq<string>, toRemove: seq<string>)
    requires toRemove != []
    requires multiset(r) == multiset(links) - multiset(toRemove[..|toRemove| - 1])
    ensures multiset(RemoveFirst(r, toRemove[|toRemove| - 1])) == multiset(links) - multiset(toRemove)
  {
    var init, x := toRemove[..|toRemove| - 1], toRemove[|toRemove| - 1];
    assert toRemove == init + [x];
    var a, b := multiset(links), multiset(init);
    assert multiset(toRemove) == b + multiset{x};
    assert (a - b) - multiset{x} == a - (b + multiset{x});
  }

  /** The remainder keeps the surviving links in their original order. */
  lemma {:induction false} RemoveEachKeepsOrder(links: seq<string>, toRemove: seq<string>)
    ensures SubseqOf(RemoveEach(links, toRemove), links)
    decreases |toRemove|
  {
    if toRemove == [] {
      SubseqOfSelf(links);
    } else {
      var prev := RemoveEach(links, toRemove[..|toRemove| - 1]);
      RemoveEachKeepsOrder(links, toRemove[..|toRemove| - 1]);
      RemoveFirstKeepsOrder(prev, toRemove[|toRemove| - 1]);
      SubseqOfTrans(RemoveEach(links, toRemove), prev, links);
    }
  }

  /** With no duplicate links, the remainder holds exactly the links that were not listed. */
  lemma RemoveEachMembership(links: seq<string>, toRemove: seq<string>, x: string)
    requires NoDuplicates(links)
    ensures x in RemoveEach(links, toRemove) <==> x in links && x !in toRemove
  {
    RemoveEachMultiset(links, toRemove);
    NoDuplicatesCount(links, x);
    assert x in RemoveEach(links, toRemove) <==> multiset(RemoveEach(links, toRemove))[x] > 0;
  }

  lemma {:induction false} NoDuplicatesCount(s: seq<string>, x: string)
    requires NoDuplicates(s)
    ensures multiset(s)[x] <= 1
  {
    if s != [] {
      NoDuplicatesCount(s[1..], x);
      assert s == [s[0]] + s[1..];
      assert s[0] !in s[1..];
    }
  }

  // ---------------------------------------------------------------------------
  // Patch
  // ---------------------------------------------------------------------------

  /** The request is a delete patch when its query contains the include-deleted parameter. */
  predicate IsDeletePatch(query: Option<string>) {
    query.Some? && Occurs(query.value, IncludeDeletedParam)
  }

  /** The removal branch is taken only for a delete patch where both link lists are non-null. */
  predicate RemovesLinks(current: CompositeComponent, patch: CompositeComponent, deletePatch: bool) {
    deletePatch && patch.componentLinks.Some? && current.componentLinks.Some?
  }

  /** The state after the merge of handlePatch. */
  function PatchedState(current: CompositeComponent, patch: CompositeComponent, deletePatch: bool): (r: CompositeComponent)
    ensures r.created == current.created
    ensures r.name == (if patch.name.Some? then patch.name else current.name)
    ensures r.compositeDescriptionLink ==
              (if patch.compositeDescriptionLink.Some? then patch.compositeDescriptionLink else current.compositeDescriptionLink)
  {
    current.(
      name := MergeProperty(current.name, patch.name),
      compositeDescriptionLink := MergeProperty(current.compositeDescriptionLink, patch.compositeDescriptionLink),
      componentLinks :=
        if RemovesLinks(current, patch, deletePatch)
        then Some(RemoveEach(current.componentLinks.value, patch.componentLinks.value))
        else MergeLists(current.componentLinks, patch.componentLinks))
  }

  /** The remaining links handed to the cascade check, or None when no check is scheduled. */
  function LinksToCheck(current: CompositeComponent, patch: CompositeComponent, deletePatch: bool): (r: Option<seq<string>>)
    ensures r.Some? <==> RemovesLinks(current, patch, deletePatch)
    ensures r.Some? ==> Some(r.value) == PatchedState(current, patch, deletePatch).componentLinks
  {
    if RemovesLinks(current, patch, deletePatch)
    then Some(RemoveEach(current.componentLinks.value, patch.componentLinks.value))
    else None
  }

  /** The content signature compares the fields a patch can change. */
  predicate SameSignature(a: CompositeComponent, b: CompositeComponent) {
    a.name == b.name && a.compositeDescriptionLink == b.compositeDescriptionLink && a.componentLinks == b.componentLinks
  }

  /** Outside the removal branch no existing link is lost and the existing order is kept. */
  lemma PatchNeverDropsLinksWithoutRemoval(current: CompositeComponent, patch: CompositeComponent, deletePatch: bool)
    requires !RemovesLinks(current, patch, deletePatch)
    requires current.componentLinks.Some?
    ensures var after := PatchedState(current, patch, deletePatch).componentLinks;
            after.Some?
            && |current.componentLinks.value| <= |after.value|
            && after.value[..|current.componentLinks.value|] == current.componentLinks.value
            && (forall x :: x in after.value <==>
                  (x in current.componentLinks.value || (patch.componentLinks.Some? && x in patch.componentLinks.value)))
  {
    if patch.componentLinks.Some? {
      AppendMissingUnion(current.componentLinks.value, patch.componentLinks.value);
    }
  }

  /**
   * A patch that carries nothing new (each field null or equal to the current
   * value, links already present, not a removal) is reported as not modified.
   */
  lemma PatchWithNothingNewIsNotModified(current: CompositeComponent, patch: CompositeComponent, deletePatch: bool)
    requires !RemovesLinks(current, patch, deletePatch)
    requires patch.name.None? || patch.name == current.name
    requires patch.compositeDescriptionLink.None? || patch.compositeDescriptionLink == current.compositeDescriptionLink
    requires patch.componentLinks.Some? ==>
               current.componentLinks.Some? && forall x :: x in patch.componentLinks.value ==> x in current.componentLinks.value
    ensures SameSignature(current, PatchedState(current, patch, deletePatch))
  {
    if patch.componentLinks.Some? {
      AppendMissingKnown(current.componentLinks.value, patch.componentLinks.value);
    }
  }

  /** Patching a state with itself is not a modification. */
  lemma PatchWithSameContentIsNotModified(current: CompositeComponent)
    ensures SameSignature(current, PatchedState(current, current, false))
  {
    PatchWithNothingNewIsNotModified(current, current, false);
  }

  // ---------------------------------------------------------------------------
  // The cascade decision (deleteDocumentIfNeeded)
  // ---------------------------------------------------------------------------

  /** The links that start with prefix, in order (a stream filter). */
  function PrefixedBy(links: seq<string>, prefix: string): (r: seq<string>)
    ensures forall x :: x in r <==> x in links && StartsWith(x, prefix)
  {
    if links == [] then []
    else (if StartsWith(links[0], prefix) then [links[0]] else []) + PrefixedBy(links[1..], prefix)
  }

  /**
   * The network check runs when no remaining link is a container and at least
   * one is a network; links of any other kind do not prevent it.
   */
  predicate NeedsNetworkCheck(links: seq<string>)
    ensures NeedsNetworkCheck(links) <==>
              (forall x :: x in links ==> !StartsWith(x, ContainersPrefix))
              && (exists x :: x in links && StartsWith(x, NetworksPrefix))
  {
    var networks := PrefixedBy(links, NetworksPrefix);
    var containers := PrefixedBy(links, ContainersPrefix);
    assert networks != [] ==> networks[0] in networks;
    assert containers != [] ==> containers[0] in containers;
    PrefixedBy(links, ContainersPrefix) == [] && networks != []
  }

  /** No link is both a container and a network link. */
  lemma ContainerAndNetworkDisjoint(link: string)
    ensures !(StartsWith(link, ContainersPrefix) && StartsWith(link, NetworksPrefix))
  {
    if StartsWith(link, NetworksPrefix) {
      assert link[20] == NetworksPrefix[20] == '-';
      assert link[..|ContainersPrefix|][20] != ContainersPrefix[20];
    }
  }

  /** A remainder made only of network links always goes through the network check. */
  lemma NetworksOnlyNeedCheck(links: seq<string>)
    requires links != []
    requires forall x :: x in links ==> StartsWith(x, NetworksPrefix)
    ensures NeedsNetworkCheck(links)
  {
    forall x | x in links ensures !StartsWith(x, ContainersPrefix) {
      ContainerAndNetworkDisjoint(x);
    }
    assert links[0] in links;
  }

  /**
   * The case the cascade exists for: when only networks remain and the query
   * reports every one of them external, the composite is deleted.
   */
  lemma OnlyExternalNetworksDelete(remainder: seq<string>, flags: seq<bool>)
    requires remainder != []
    requires forall x :: x in remainder ==> StartsWith(x, NetworksPrefix)
    requires forall i :: 0 <= i < |flags| ==> flags[i]
    ensures DeleteDecision(remainder, Success(flags)) == DeleteComposite
  {
    NetworksOnlyNeedCheck(remainder);
  }

  /** The accumulator over the query results: true AND-ed with each network's external flag, in order. */
  function AllExternal(flags: seq<bool>): bool {
    if flags == [] then true else AllExternal(flags[..|flags| - 1]) && flags[|flags| - 1]
  }

  /** The fold is true exactly when every returned network is external. */
  lemma {:induction false} AllExternalIffEvery(flags: seq<bool>)
    ensures AllExternal(flags) <==> forall i :: 0 <= i < |flags| ==> flags[i]
  {
    if flags != [] {
      var init := flags[..|flags| - 1];
      AllExternalIffEvery(init);
      assert forall i :: 0 <= i < |init| ==> init[i] == flags[i];
    }
  }

  /** What the cascade check concludes. */
  datatype CascadeDecision =
    | DeleteComposite      // run the delete callback
    | NoCheck              // remainder not empty and not networks-only: nothing happens
    | KeepNonExternal      // some network is not external: a warning, no deletion
    | KeepQueryFailed      // the network query failed: a warning, no deletion

  /**
   * deleteDocumentIfNeeded on the remainder; networkQuery is the outcome of the
   * network query (the external flags of the networks it returned), consulted
   * only when the check runs.
   */
  function DeleteDecision(remainder: seq<string>, networkQuery: Result<seq<bool>, string>): (d: CascadeDecision)
    ensures remainder == [] ==> d == DeleteComposite
    ensures remainder != [] && !NeedsNetworkCheck(remainder) ==> d == NoCheck
    ensures d == DeleteComposite <==>
              remainder == []
              || (NeedsNetworkCheck(remainder) && networkQuery.Success?
                  && forall i :: 0 <= i < |networkQuery.value| ==> networkQuery.value[i])
    ensures d == KeepQueryFailed <==> remainder != [] && NeedsNetworkCheck(remainder) && networkQuery.Failure?
    ensures d == KeepNonExternal <==>
              remainder != [] && NeedsNetworkCheck(remainder) && networkQuery.Success?
              && exists i :: 0 <= i < |networkQuery.value| && !networkQuery.value[i]
  {
    if remainder == [] then DeleteComposite
    else if !NeedsNetworkCheck(remainder) then NoCheck
    else match networkQuery
      case Failure(_) => KeepQueryFailed
      case Success(flags) =>
        AllExternalIffEvery(flags);
        if AllExternal(flags) then DeleteComposite else KeepNonExternal
  }

  // ---------------------------------------------------------------------------
  // The delete callback: the description and the composite itself
  // ---------------------------------------------------------------------------

  /** The outcome of the GET of the composite description. */
  datatype DescriptionFetch =
    | DescriptionNotFound
    | DescriptionFetchFailed(message: string)
    | DescriptionFound(documentSelfLink: string, parentDescriptionLink: Option<string>)

  /** The requests deleteCompositeDescription sends. */
  datatype DescriptionCleanup = NoRequest | GetOnly | GetThenDelete(deletedLink: string)

  /**
   * deleteCompositeDescription: nothing for a null or empty link; otherwise the
   * description is fetched, and only a description that has a parent (a clone)
   * is deleted, by its own self link.
   */
  function DeleteCompositeDescription(link: Option<string>, fetched: DescriptionFetch): (r: DescriptionCleanup)
    ensures (link.None? || link.value == "") <==> r == NoRequest
    ensures r.GetThenDelete? <==>
              link.Some? && link.value != "" && fetched.DescriptionFound? && fetched.parentDescriptionLink.Some?
    ensures r.GetThenDelete? ==> r.deletedLink == fetched.documentSelfLink
  {
    if link.None? || link.value == "" then NoRequest
    else match fetched
      case DescriptionNotFound => GetOnly
      case DescriptionFetchFailed(_) => GetOnly
      case DescriptionFound(self, parent) => if parent.None? then GetOnly else GetThenDelete(self)
  }

  /** The effects that follow a completed patch: the description clean-up and the self-delete. */
  datatype CascadeEffect = CascadeEffect(description: DescriptionCleanup, selfDelete: bool)

  /**
   * What happens after the patch completed, given its remainder (None when no
   * check was scheduled), the patched state, the network query and the description fetch.
   */
  function AfterPatch(patched: CompositeComponent, toCheck: Option<seq<string>>,
                      networkQuery: Result<seq<bool>, string>, fetched: DescriptionFetch): (r: CascadeEffect)
    ensures r.selfDelete <==> toCheck.Some? && DeleteDecision(toCheck.value, networkQuery) == DeleteComposite
    ensures r.selfDelete ==> r.description == DeleteCompositeDescription(patched.compositeDescriptionLink, fetched)
    ensures !r.selfDelete ==> r.description == NoRequest
  {
    if toCheck.Some? && DeleteDecision(toCheck.value, networkQuery) == DeleteComposite
    then CascadeEffect(DeleteCompositeDescription(patched.compositeDescriptionLink, fetched), true)
    else CascadeEffect(NoRequest, false)
  }

  /** Removing the last links of a composite always deletes it. */
  lemma RemovingEveryLinkDeletes(current: CompositeComponent, patch: CompositeComponent,
                                 networkQuery: Result<seq<bool>, string>, fetched: DescriptionFetch)
    requires current.componentLinks.Some? && patch.componentLinks.Some?
    requires multiset(current.componentLinks.value) <= multiset(patch.componentLinks.value)
    ensures var toCheck := LinksToCheck(current, patch, true);
            AfterPatch(PatchedState(current, patch, true), toCheck, networkQuery, fetched).selfDelete
  {
    var rest := RemoveEach(current.componentLinks.value, patch.componentLinks.value);
    RemoveEachMultiset(current.componentLinks.value, patch.componentLinks.value);
    assert multiset(rest) == multiset{};
  }

  // ---------------------------------------------------------------------------
  // The service
  // ---------------------------------------------------------------------------

  /**
   * The removal loop of handlePatch: List.remove for each listed link in turn,
   * on a copy of the current list. The remainder loses exactly the listed
   * copies that were present.
   */
  method RemoveListed(links: seq<string>, toRemove: seq<string>) returns (remaining: seq<string>)
    ensures remaining == RemoveEach(links, toRemove)
    ensures multiset(remaining) == multiset(links) - multiset(toRemove)
    ensures SubseqOf(remaining, links)
  {
    remaining := links;
    for i := 0 to |toRemove|
      invariant remaining == RemoveEach(links, toRemove[..i])
    {
      assert toRemove[..i + 1][..i] == toRemove[..i];
      remaining := RemoveFirst(remaining, toRemove[i]);
    }
    assert toRemove[..|toRemove|] == toRemove;
    RemoveEachMultiset(links, toRemove);
    RemoveEachKeepsOrder(links, toRemove);
  }

  /** The service instance owning one persisted composite component. */
  class CompositeComponentService {
    var state: CompositeComponent

    /** The state after a successful create. */
    constructor (initial: CompositeComponent)
      requires initial.name.Some? && initial.name.value != ""
      ensures state == initial
    {
      state := initial;
    }

    /**
     * handlePut: a valid body replaces the whole state and the request completes
     * with a null body (Success(None)); an invalid one fails and changes nothing.
     */
    method HandlePut(body: CompositeComponent) returns (r: Result<Option<CompositeComponent>, ValidationError>)
      modifies this
      ensures r.Success? <==> body.name.Some? && body.name.value != ""
      ensures r.Success? ==> state == body && r.value.None?
      ensures r.Failure? ==> state == old(state) && r.error == ValidationError("name")
    {
      var err := ValidateStateOnStart(body);
      if err.Some? {
        return Failure(err.value);
      }
      state := body;
      return Success(None);
    }

    /**
     * handlePatch: merges name and description link, then removes the listed
     * links one by one (delete patch with both lists non-null) or merges the
     * lists; the status is NotModified exactly when the signature did not change.
     * The remainder to check is returned for the removal branch only.
     */
    method HandlePatch(patchBody: CompositeComponent, query: Option<string>)
      returns (status: PatchStatus, toCheck: Option<seq<string>>)
      modifies this
      ensures state == PatchedState(old(state), patchBody, IsDeletePatch(query))
      ensures toCheck == LinksToCheck(old(state), patchBody, IsDeletePatch(query))
      ensures status == NotModified <==> SameSignature(old(state), state)
    {
      var currentState := state.(
        name := MergeProperty(state.name, patchBody.name),
        compositeDescriptionLink := MergeProperty(state.compositeDescriptionLink, patchBody.compositeDescriptionLink));

      var deletePatch := query.Some? && Occurs(query.value, IncludeDeletedParam);
      toCheck := None;

      if deletePatch && patchBody.componentLinks.Some? && currentState.componentLinks.Some? {
        var links := RemoveListed(currentState.componentLinks.value, patchBody.componentLinks.value);
        currentState := currentState.(componentLinks := Some(links));
        toCheck := Some(links);
      } else {
        currentState := currentState.(componentLinks := MergeLists(currentState.componentLinks, patchBody.componentLinks));
      }

      status := if SameSignature(state, currentState) then NotModified else Ok;
      state := currentState;
    }
  }
}
