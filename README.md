# Admiral core logic in Dafny

This project models five pieces of the Admiral container-management system and proves
properties about them:

- **Composite components** (`composite_component.dfy`, module `CompositeComponents`).
  A composite component is a persisted document that groups the links of the containers,
  networks and other components deployed together.
  - Create and Put validate the name.
  - Patch merges the name and the description link, and then either merges the component
    links or, for a patch whose query carries `includeDeleted`, removes the listed links one
    by one.
  - Patch reports "not modified" exactly when the content signature is unchanged.
  - After a removal, the cascade decision says whether the composite is deleted (and with
    it a cloned composite description).
- **Closure allocation task** (`closure_allocation.dfy`, module `ClosureAllocation`).
  This is a class holding the task's sub-stage (CREATED, COMPLETED, ERROR), its stage, and
  the requests it has sent.
  - On start it creates a request tracker when none was given.
  - It posts one closure that carries two correlation properties.
  - It then finishes with the singleton resource-link set `{closureLink}`, or fails.
- **Component description** (`component_description.dfy`, module `ComponentDescriptions`).
  This is a component's document kept as JSON text plus a transient decoded cache.
  - The document is decoded lazily, through a type registry.
  - `updateServiceDocument` rewrites both the JSON and the cache.
- **Tags** (`tags.dfy`, module `Tags`). This is the command-line client's `key:value` tag
  parser, with its error cases, tag rendering, and the rendering of a list of tag links.
- **Placement zones** (`placement_zones.dfy`, module `PlacementZones`). This is the
  command-line client's editing of an elastic placement zone's tag-link list.
  - Tags are added without duplicates.
  - Every occurrence of a tag is removed in place, with the index rewind.
  - The model also covers the "nullable" test, ids stripped from self links, and the
    by-name lookup rule of remove and edit.

`wrappers.dfy` holds `Option` (Java's `null`, Go's zero value) and `Result`. `strings.dfy`
holds substring and prefix predicates, the no-duplicates predicate, the subsequence
relation used to state "order kept", and `Fresh`, the reference definition of appending
"if not already present".

### Collaborators passed in as parameters

Everything outside these files appears as a parameter of the operation that uses it:

- the document store, HTTP requests and their outcomes;
- JSON encoding;
- the type registry;
- tag resolution (`tags.GetTagIdByEqualKeyVals`) and the tag lookup of `TagsToString`.

Some such parameters are plain values:

- The network query of the cascade check is a `Result` of the `external` flags of the
  networks it returned.
- The GET of the composite description is a `DescriptionFetch` value.
- Requests sent by the closure task are recorded in its `outbox` sequence field.

### Assumptions

Some code these files call is not part of this model: Xenon's `PropertyUtils`, `UriUtils`
and `Utils.computeSignature`, the task base class, and the client's `utils` package. These
are modelled by their evident meaning:

- `PropertyUtils.mergeProperty`: a non-null patch value wins.
- `PropertyUtils.mergeLists`: a null side yields the other side. Otherwise, the patch
  elements not yet present are appended in order.
- `Utils.computeSignature`: the signature is equal when `name`, `compositeDescriptionLink`
  and `componentLinks` are equal. Patch changes no other field.
- `UriUtils.buildUriPath`: a null or empty segment is skipped. Otherwise the segment is
  joined to the base with one `/`.
- `utils.CreateResLinkForTag`: `""` maps to `""`, and any other id maps to
  `/resources/tags/` + id.
- Constants: the include-deleted parameter is `includeDeleted`. The container and network
  factory links are `/resources/containers` and `/resources/container-networks`.
- The closure request factory links are `/request-status` and `/resources/closures`.
- The composite-component factory link is `/resources/composite-components`.
- The custom property keys are `__composition_context_id` and `__composite_component`.
- Task base class: `validateStateOnStart(state, op)` returning `false` completes the start.
  `complete`, `completeWithError` and `failTask` move the task to FINISHED or FAILED and
  notify the caller.

### Null and empty values

- `buildResourceLinks` always returns the one-element set `{closureLink}`, even when that
  link is null, so `resourceLinks` is a `set<Option<string>>`.
- `SetKeyValues` accepts input without `:` untrimmed, including the empty string. This
  gives an empty key and no error, as the code does (`Tags.EmptyInputGivesEmptyKey`).

## Model

| member | source | states |
|---|---|---|
| Tags.ErrorMessage | cli/src/admiral/tags/tags.go:18-21 | The TagError message is the fixed prefix, then the offending input, then the fixed suffix, at exactly those offsets. |
| Tags.TagString | cli/src/admiral/tags/tags.go:35-37 | A tag renders as `[`, key, `:`, value, `]`. |
| Tags.TrimSpace | cli/src/admiral/tags/tags.go:54-55 | Go's `strings.TrimSpace` returns a contiguous part `s[i..j]` of the input with no white space at either end, and everything before `i` and from `j` on is white space. An already trimmed string is returned unchanged. |
| Tags.Split | cli/src/admiral/tags/tags.go:50-51 | `strings.Split` on one character gives one more piece than there are separators. No piece holds the separator. A string without the separator splits into itself. |
| Tags.SplitJoin | cli/src/admiral/tags/tags.go:50-51 | Splitting loses nothing: joining the pieces with the separator gives the input back. |
| Tags.ParseKeyValue | cli/src/admiral/tags/tags.go:43-59 | Input without `:` gives the whole input as key and `""` as value. Input with `:` fails exactly when it has more than one `:` or its key trims to nothing. The error carries the input. A parsed key is non-empty, trimmed and free of `:`, and so is the value (which may be empty). |
| Tags.ParsesToTrimmedHalves | cli/src/admiral/tags/tags.go:50-59 | An input with exactly one `:` and a key that does not trim to nothing parses to the trimmed text before the `:` and the trimmed text after it. |
| Tags.SetKeyValues | cli/src/admiral/tags/tags.go:43-63 | On error, the receiver is unchanged and the error holds the input. On success, only key and value change, to the parsed pair; the self link is kept. |
| Tags.NewTag | cli/src/admiral/tags/tags.go:65-69 | The tag is returned even on error, and is then empty. On success it holds the parsed pair and an empty self link. |
| Tags.KeyValueRoundTrip | cli/src/admiral/tags/tags.go:50-61 | A non-empty, trimmed, colon-free key and a trimmed, colon-free value joined by `:` parse back to that key and value. |
| Tags.TagStringParses | cli/src/admiral/tags/tags.go:35-61 | For such a tag, parsing the text between the brackets of its rendering recovers its key and value. |
| Tags.EmptyInputGivesEmptyKey | cli/src/admiral/tags/tags.go:46-48 | For every receiver, the empty input is accepted: key and value become empty, everything else is kept, and there is no error. |
| Tags.BlankKeyRejected | cli/src/admiral/tags/tags.go:54-58 | A key made only of white space, followed by `:` and a value, is rejected. The receiver stays unchanged. |
| Tags.TagsToString | cli/src/admiral/tags/tags.go:127-137 | The result is `n/a` exactly for an empty list. Otherwise it is the renderings of the looked-up tags, concatenated in list order. |
| PlacementZones.PoolId | cli/src/admiral/placementzones/placementzones.go:43-45 | Removing every `/resources/pools/` never lengthens the link. A link without that text is its own id. |
| PlacementZones.PoolIdOfPoolLink | cli/src/admiral/placementzones/placementzones.go:43-45 | The id of `/resources/pools/` + id is that id, when the id does not itself contain the prefix. |
| PlacementZones.PlacementZone.GetID | cli/src/admiral/placementzones/placementzones.go:43-45 | The zone's id is its self link with the pool prefix removed, and is no longer than the link. |
| PlacementZones.ResourcePoolState.GetID | cli/src/admiral/placementzones/placementzones.go:55-57 | The pool's id is its self link with the pool prefix removed, and is no longer than the link. |
| PlacementZones.TagLinkFor | cli/src/admiral/placementzones/placementzones.go:110 | The link is empty exactly for an empty id. Otherwise it is `/resources/tags/` followed by the id. |
| PlacementZones.AddLinksKeepsExisting | cli/src/admiral/placementzones/placementzones.go:101-116 | Adding keeps every existing link in place, in order, at the front. This also holds when a resolution error stops the walk. |
| PlacementZones.AddLinksNoDuplicates | cli/src/admiral/placementzones/placementzones.go:110-113 | Adding to a list without duplicates gives a list without duplicates. No empty link is ever added. |
| PlacementZones.AddLinksAddsAll | cli/src/admiral/placementzones/placementzones.go:105-114 | When no resolution fails, every input resolved to a non-empty link has that link in the list afterwards. |
| PlacementZones.ResolveAdditionsSpec | cli/src/admiral/placementzones/placementzones.go:105-110 | Position by position, the links of the inputs that resolve (creating missing tags), up to the first input whose resolution fails. The error is that input's failure; without one, every input is resolved. |
| PlacementZones.AddLinksIsFresh | cli/src/admiral/placementzones/placementzones.go:101-116 | Adding appends exactly the non-empty links resolved before the first failure that are not yet present, each once, in input order. The error is the first failure. |
| PlacementZones.AddLinksStopsAtFirstError | cli/src/admiral/placementzones/placementzones.go:105-109 | When `bad` is the first input that fails to resolve, the list is what adding the inputs before it gives, the error is `bad`'s, and the inputs after it are ignored. |
| PlacementZones.EpzState.AddTagLinks | cli/src/admiral/placementzones/placementzones.go:101-116 | The list becomes the old list plus the non-empty links resolved before the first failure that were not yet present, each once, in input order. The error is the first resolution failure, and None when every input resolves. |
| PlacementZones.EpzState.ContainsTagLink | cli/src/admiral/placementzones/placementzones.go:143-150 | The scan finds the link exactly when it is in the list. |
| PlacementZones.EpzState.RemoveAllOccurrences | cli/src/admiral/placementzones/placementzones.go:132-137 | The splice loop with its `i--` rewind removes every occurrence of the link, adjacent copies included, and keeps the order of the rest. |
| PlacementZones.EpzState.RemoveTagLinks | cli/src/admiral/placementzones/placementzones.go:118-141 | Resolution of all inputs happens first, without creating tags, and skips empty ids. An error returns it and leaves the list as it was. Otherwise every occurrence of each resolved link is removed in turn. |
| PlacementZones.RemoveEveryIsWithout | cli/src/admiral/placementzones/placementzones.go:131-138 | The removal loops leave exactly the links not among the ones to remove, in their original order. |
| PlacementZones.EpzState.MarshalJson | cli/src/admiral/placementzones/placementzones.go:152-164 | The JSON is null exactly when there are no tag links and both links are empty. Otherwise it is the three fields. |
| PlacementZones.SelectByName | cli/src/admiral/placementzones/placementzones.go:211-217 | More than one match gives DuplicateNamesError, and none gives PlacementZoneNotFound. Exactly one match is selected. |
| PlacementZones.RemovePZ | cli/src/admiral/placementzones/placementzones.go:211-232 | The same by-name errors. A single match is deleted by the id derived from its link. A failed DELETE returns its error. Success happens exactly for one match and a successful DELETE, and returns that id. |
| PlacementZones.EditPZ | cli/src/admiral/placementzones/placementzones.go:266-305 | The same by-name errors, and nothing changes when one occurs. A non-empty new name is applied. Removals come first: an error leaves the tag links unchanged. Additions follow, and their error is returned. The PATCH outcome is returned last. Success returns the zone's id. Only the zone's pool state and its tag-link list can change. |
| CompositeComponents.ValidateStateOnStart | compute/src/main/java/com/vmware/admiral/compute/container/CompositeComponentService.java:94-96 | A state is valid exactly when its name is neither null nor empty. The error names the `name` field. |
| CompositeComponents.HandleCreate | compute/src/main/java/com/vmware/admiral/compute/container/CompositeComponentService.java:76-92 | Create succeeds exactly for a non-empty name. It stamps `created` with the current time and changes no other field. |
| CompositeComponents.CompositeComponentService.HandlePut | compute/src/main/java/com/vmware/admiral/compute/container/CompositeComponentService.java:98-113 | A valid body replaces the whole state, and the request completes with a null body. An invalid body fails and leaves the state as it was. |
| CompositeComponents.MergeProperty | compute/src/main/java/com/vmware/admiral/compute/container/CompositeComponentService.java:123-125 | A non-null patch value wins. A null patch, or a patch equal to the current value, leaves the current value. The result is null exactly when both sides are null. |
| CompositeComponents.MergeLists | compute/src/main/java/com/vmware/admiral/compute/container/CompositeComponentService.java:139-141 | A null patch keeps the current list, and a null current list takes the patch. |
| CompositeComponents.AppendMissingUnion | compute/src/main/java/com/vmware/admiral/compute/container/CompositeComponentService.java:139-141 | The merged list keeps the current links, in order, at the front. Its members are exactly the union of both lists. |
| CompositeComponents.AppendMissingIsFresh | compute/src/main/java/com/vmware/admiral/compute/container/CompositeComponentService.java:139-141 | The merged list is the current list followed by the patch links not already present, each once, in patch order. |
| CompositeComponents.AppendMissingNoDuplicates | compute/src/main/java/com/vmware/admiral/compute/container/CompositeComponentService.java:139-141 | Merging into a list without duplicates creates none. |
| CompositeComponents.RemoveFirst | compute/src/main/java/com/vmware/admiral/compute/container/CompositeComponentService.java:135 | `List.remove` takes out one occurrence: the multiset loses exactly one copy. An absent link leaves the list as it was. |
| CompositeComponents.RemoveFirstIsFirstSplice | compute/src/main/java/com/vmware/admiral/compute/container/CompositeComponentService.java:135 | `List.remove` cuts the link out at its first position and keeps the other links in their order. |
| CompositeComponents.RemoveFirstKeepsOrder | compute/src/main/java/com/vmware/admiral/compute/container/CompositeComponentService.java:135 | After one removal the remaining links are a subsequence of the original: their order is kept. |
| CompositeComponents.RemoveEachMultiset | compute/src/main/java/com/vmware/admiral/compute/container/CompositeComponentService.java:132-137 | The remainder is the current links minus the listed ones, as multisets. |
| CompositeComponents.RemoveEachKeepsOrder | compute/src/main/java/com/vmware/admiral/compute/container/CompositeComponentService.java:132-137 | The links left after all removals keep their original order. |
| CompositeComponents.RemoveListed | compute/src/main/java/com/vmware/admiral/compute/container/CompositeComponentService.java:132-137 | The loop removes the first occurrence of each listed link, in the patch order. The remainder is the current links minus the listed ones, as multisets, in their original order. |
| CompositeComponents.RemoveEachMembership | compute/src/main/java/com/vmware/admiral/compute/container/CompositeComponentService.java:132-137 | With no duplicate links, a link is in the remainder exactly when it was present and not listed. |
| CompositeComponents.PatchedState | compute/src/main/java/com/vmware/admiral/compute/container/CompositeComponentService.java:117-141 | Patch merges `name` and `compositeDescriptionLink` field by field and never changes `created`. |
| CompositeComponents.LinksToCheck | compute/src/main/java/com/vmware/admiral/compute/container/CompositeComponentService.java:130-141 | A remainder to check exists exactly for a delete patch with both lists non-null. It is the patched state's links. |
| CompositeComponents.PatchNeverDropsLinksWithoutRemoval | compute/src/main/java/com/vmware/admiral/compute/container/CompositeComponentService.java:138-141 | Outside the removal branch, no existing link is lost and their order is kept. The result holds exactly the current and the patch links. |
| CompositeComponents.PatchWithNothingNewIsNotModified | compute/src/main/java/com/vmware/admiral/compute/container/CompositeComponentService.java:143-148 | A patch that carries nothing new keeps the signature, so it is reported as not modified. |
| CompositeComponents.PatchWithSameContentIsNotModified | compute/src/main/java/com/vmware/admiral/compute/container/CompositeComponentService.java:143-148 | Patching a state with its own content is not a modification. |
| CompositeComponents.CompositeComponentService.HandlePatch | compute/src/main/java/com/vmware/admiral/compute/container/CompositeComponentService.java:116-158 | The field merge happens first, then the removal loop (`List.remove` per listed link) or the list merge. The status is NOT_MODIFIED exactly when the signature is unchanged, and the merged state is kept either way. The remainder is handed on for the removal branch only. |
| CompositeComponents.PrefixedBy | compute/src/main/java/com/vmware/admiral/compute/container/CompositeComponentService.java:170-176 | The filter keeps exactly the links that start with the prefix. |
| CompositeComponents.NeedsNetworkCheck | compute/src/main/java/com/vmware/admiral/compute/container/CompositeComponentService.java:170-178 | The check runs exactly when no link is a container link and at least one is a network link. Other links do not matter. |
| CompositeComponents.ContainerAndNetworkDisjoint | compute/src/main/java/com/vmware/admiral/compute/container/CompositeComponentService.java:170-176 | No link starts with both the container prefix and the network prefix. |
| CompositeComponents.NetworksOnlyNeedCheck | compute/src/main/java/com/vmware/admiral/compute/container/CompositeComponentService.java:170-178 | A non-empty remainder of network links only always needs the network check. |
| CompositeComponents.OnlyExternalNetworksDelete | compute/src/main/java/com/vmware/admiral/compute/container/CompositeComponentService.java:170-206 | A remainder of network links only, whose query reports every network external, deletes the composite. |
| CompositeComponents.AllExternalIffEvery | compute/src/main/java/com/vmware/admiral/compute/container/CompositeComponentService.java:186-203 | The AND accumulator over the query results is true exactly when every returned network is external. |
| CompositeComponents.DeleteDecision | compute/src/main/java/com/vmware/admiral/compute/container/CompositeComponentService.java:160-206 | An empty remainder deletes. Without a network check nothing happens. Otherwise deletion happens exactly when the query succeeds and every network is external. A failed query keeps the composite exactly when the check is needed, and a non-external network blocks it. |
| CompositeComponents.DeleteCompositeDescription | compute/src/main/java/com/vmware/admiral/compute/container/CompositeComponentService.java:219-254 | A null or empty link sends nothing. A description is deleted exactly when it was found and has a parent. The deleted link is the description's own self link, never its parent. |
| CompositeComponents.AfterPatch | compute/src/main/java/com/vmware/admiral/compute/container/CompositeComponentService.java:152-157 | The self-delete happens exactly when a remainder was handed on and the decision is to delete. The description clean-up happens only with the self-delete. |
| CompositeComponents.RemovingEveryLinkDeletes | compute/src/main/java/com/vmware/admiral/compute/container/CompositeComponentService.java:132-165 | A delete patch that lists every current link, with multiplicity, always deletes the composite. |
| ClosureAllocation.BuildUriPath | request/src/main/java/com/vmware/admiral/request/ClosureAllocationTaskService.java:153 | A null or empty segment leaves the base. Otherwise the result is the base, one `/`, and the segment: a segment that already begins with `/` supplies that `/` itself. |
| ClosureAllocation.GetCustomProperty | request/src/main/java/com/vmware/admiral/request/ClosureAllocationTaskService.java:149 | The value is present exactly when the key is, and then it is the stored value. |
| ClosureAllocation.BuildClosureRequest | request/src/main/java/com/vmware/admiral/request/ClosureAllocationTaskService.java:146-153 | The closure carries the task's description link and exactly two custom properties: the context id, and the composite-component factory path joined with that id. |
| ClosureAllocation.ClosureLinksToContextComposite | request/src/main/java/com/vmware/admiral/request/ClosureAllocationTaskService.java:149-153 | For a plain context id, the composite link is the factory link, `/`, and the id. |
| ClosureAllocation.BuildResourceLinks | request/src/main/java/com/vmware/admiral/request/ClosureAllocationTaskService.java:172-178 | The set has exactly one element, the closure link. |
| ClosureAllocation.GetFinishedCallbackResponse | request/src/main/java/com/vmware/admiral/request/ClosureAllocationTaskService.java:92-101 | The response copies the template and attaches the resource links. The warning is logged exactly for null or empty links, and the response is returned either way. |
| ClosureAllocation.CompletedResponseHasLinks | request/src/main/java/com/vmware/admiral/request/ClosureAllocationTaskService.java:92-113 | The response built on COMPLETED carries `{closureLink}` and never warns. |
| ClosureAllocation.ClosureAllocationTask.CreateRequestTrackerIfNoneProvided | request/src/main/java/com/vmware/admiral/request/ClosureAllocationTaskService.java:122-144 | A non-empty tracker link sends nothing and answers false. Otherwise exactly one tracker POST is sent, tracking "Closure Allocation", and the answer is true. |
| ClosureAllocation.ClosureAllocationTask.ValidateStateOnStart | request/src/main/java/com/vmware/admiral/request/ClosureAllocationTaskService.java:81-89 | Every state passes the plain check, so the answer and the requests are those of the tracker step. |
| ClosureAllocation.ClosureAllocationTask.HandleStart | request/src/main/java/com/vmware/admiral/request/ClosureAllocationTaskService.java:85-89 | With a tracker link, start completes at once and sends nothing. Without one, start stays pending behind one tracker POST. |
| ClosureAllocation.ClosureAllocationTask.OnTrackerCreated | request/src/main/java/com/vmware/admiral/request/ClosureAllocationTaskService.java:132-142 | A failed tracker POST fails the task and the start, and notifies the caller of the failure. A successful one records the tracker link, then completes the start, and sends nothing. |
| ClosureAllocation.ClosureAllocationTask.HandleStartedStagePatch | request/src/main/java/com/vmware/admiral/request/ClosureAllocationTaskService.java:104-120 | CREATED posts the closure request. COMPLETED sets `resourceLinks` to `{closureLink}`, finishes and notifies with it. ERROR fails and notifies the failure. There is no other outcome. |
| ClosureAllocation.ClosureAllocationTask.OnClosureCreated | request/src/main/java/com/vmware/admiral/request/ClosureAllocationTaskService.java:155-168 | From CREATED, failure moves to ERROR and leaves `closureLink`, and success moves to COMPLETED with `closureLink` set to the created closure's self link. |
| ClosureAllocation.AllocationWithoutTracker | request/src/main/java/com/vmware/admiral/request/ClosureAllocationTaskService.java:104-178 | A run without a tracker link sends one tracker POST, one closure POST and one finished notice carrying `{closureLink}`. |
| ClosureAllocation.AllocationFailingClosure | request/src/main/java/com/vmware/admiral/request/ClosureAllocationTaskService.java:104-162 | A run with a tracker link and a failing closure sends no tracker POST. It ends failed, with no resource links. |
| ComponentDescriptions.DecodeByType | compute/src/main/java/com/vmware/admiral/compute/ComponentDescription.java:47-50 | An unknown type is an error. Otherwise the result is the registry's decoder for that type applied to the JSON. |
| ComponentDescriptions.ComponentDescription.constructor | compute/src/main/java/com/vmware/admiral/compute/ComponentDescription.java:30-37 | The component is both cached and encoded. Type, name and bindings are stored unchanged. |
| ComponentDescriptions.ComponentDescription.Empty | compute/src/main/java/com/vmware/admiral/compute/ComponentDescription.java:39-40 | Every field is null. |
| ComponentDescriptions.ComponentDescription.FromWire | compute/src/main/java/com/vmware/admiral/compute/ComponentDescription.java:23-28 | A transported description has its JSON and metadata but no cache, because the cache is transient. |
| ComponentDescriptions.ComponentDescription.GetServiceDocument | compute/src/main/java/com/vmware/admiral/compute/ComponentDescription.java:42-52 | No JSON gives null. A set cache is returned without decoding. Otherwise the JSON is decoded by the type's class and becomes the cache. Only the cache changes. |
| ComponentDescriptions.ComponentDescription.UpdateServiceDocument | compute/src/main/java/com/vmware/admiral/compute/ComponentDescription.java:54-57 | The document becomes both the cache and the JSON. |
| ComponentDescriptions.UpdateThenGet | compute/src/test/java/com/vmware/admiral/compute/container/CompositeDescriptionServiceTest.java:166-170 | A get after an update returns the updated document, whatever the type and the registry. |
| ComponentDescriptions.GetTwice | compute/src/main/java/com/vmware/admiral/compute/ComponentDescription.java:47-51 | Two gets in a row return the same result. |
| ComponentDescriptions.TransportRoundTrip | compute/src/main/java/com/vmware/admiral/compute/ComponentDescription.java:30-52 | A description built from a document and then transported decodes back to that document. This needs the type's decoder to invert the encoder. |

## Left out

- Every HTTP request, the document store and JSON (un)marshalling are not modelled:
  `FetchPZ`, `AddPZ`, `RemovePZID`, `GetPlacementZone`, `GetPZLinks`, `GetTagIdByEqualKeyVals`,
  `AddTag` and `getTag`. Their outcomes are parameters (the resolver, `idOf`, `deleteError`,
  `patchError`, `getTag`, the network query result, the description fetch, the registry).
- `selflink.GetFullId` and `utils.GetResourceID`, used by `EditPZID`/`RemovePZ`, are folded into
  the `idOf` parameter. `Tag.GetID` is not modelled, because it is only reached through the
  HTTP lookups.
- `GetUsedMemoryPercentage` and `GetUsedCpuPercentage` are not modelled. They use floating
  point, `%.2f` formatting and `os.Exit`.
- `GetOutputString`, `GetCount` and `GetResource` of the placement-zone list are not modelled.
  They are output formatting over fetched data.
- `cmd/login.go` is not modelled. It is flag registration, terminal prompts and login calls.
- `ComputeInitialBootService` is not modelled. It is a seed-data bootstrap.
- `getDocumentTemplate` is not modelled. It only builds a sample document.
- The Xenon framework is not modelled: persistence, replication, owner selection, broadcast
  and expanded queries, `checkForBody`, and operation plumbing.
- The `AtomicBoolean` accumulation in `deleteDocumentIfNeeded` is modelled as a sequential
  AND fold over the query results. Concurrent delivery of results is not modelled.
- Log messages are not modelled, except the warning flag of `GetFinishedCallbackResponse`.
  The failure message of `failTask` is modelled as the error's cause only.
- PlacementZones.PoolId: the contract bounds the length and proves the identity and
  prefix-stripping cases. It does not characterise the id of a link in which the prefix
  occurs anywhere other than once at the start (several times, or away from the start, such as
  `/x/resources/pools/y`), where a removal can also form a new occurrence just as Go's
  `strings.Replace` does.
- CompositeComponents.MergeLists: this is the behaviour assumed for `PropertyUtils.mergeLists`,
  which is not part of this model.
- Go strings are byte strings, and the model treats them as sequences of characters. Go's
  `strings.TrimSpace` decodes UTF-8, so `Tags.TrimSpace`, `Tags.ParseKeyValue` and the link
  operations of `PlacementZones` cannot express input that is not valid UTF-8.
- ClosureAllocation.BuildUriPath: trailing-slash normalisation of `UriUtils.buildUriPath` is not
  modelled.
- ComponentDescriptions.DecodeByType: an unknown type is modelled as an error value. A null
  type or an unregistered one makes the Java code throw, and that exception is not modelled.
- Integer widths (`int64` counts, `created` timestamps) are unbounded integers. No arithmetic
  on them is performed.
- Tags.TagsToString: the lookup `getTag` is a parameter yielding a tag. In the Go code it always
  returns a non-nil `&Tag{}`: an HTTP or JSON failure is ignored and gives an empty tag, which
  renders as `[:]`. The model does not distinguish that case from a real tag.
- PlacementZones.EditPZ: `EditPZID` ignores the error of `GetPlacementZone`
  (placementzones.go:283). A failed fetch leaves a nil zone, and the Go code then panics when it
  dereferences it. The model takes the fetched zone as a parameter and does not model the panic.
- PlacementZones.RemovePZ: `selflink.GetFullId` errors in `RemovePZID` and `EditPZID` go to
  `utils.CheckBlockingError`, which exits the process. The model folds the id lookup into `idOf`
  and does not model that exit.
