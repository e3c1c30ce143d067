/**
 * The closure allocation task: a staged task that, once started (creating a
 * request tracker first when none was given), posts one closure built from
 * its description link and context id, moves to COMPLETED with the created
 * closure's link or to ERROR, and finally reports that link to its caller.
 *
 * The task framework around it (self patches, the completion and failure
 * notifications) is modelled by fields: the sub-stage, the task stage, the
 * status of the start request, and the sequence of requests sent so far.
 */
module ClosureAllocation {
  import opened Wrappers

  const DisplayName: string := "Closure Allocation"
  const RequestStatusFactoryLink: string := "/request-status"
  const ClosureFactoryLink: string := "/resources/closures"
  const CompositeComponentFactoryLink: string := "/resources/composite-components"
  /** Custom property holding the composition context id. */
  const ContextIdKey: string := "__composition_context_id"
  /** Custom property holding the link of the composite component. */
  const CompositeComponentLinkKey: string := "__composite_component"

  datatype SubStage = Created | Completed | Error

  /** The task's overall stage: it is dispatched only while Started. */
  datatype TaskStage = Started | Finished | Failed

  /** The status of the request that started the task. */
  datatype StartStatus = StartPending | StartCompleted | StartFailed(cause: string)

  /** The closure document posted on CREATED. */
  datatype ClosureRequest = ClosureRequest(descriptionLink: Option<string>, customProperties: map<string, Option<string>>)

  /** The caller-declared response to copy on success (its content is opaque here). */
  datatype CallbackTemplate = CallbackTemplate(taskSubStage: string, customProperties: map<string, string>)

  /** The response sent to the caller on success: the copied template and the resource links. */
  datatype FinishedResponse = FinishedResponse(copied: CallbackTemplate, resourceLinks: Option<set<Option<string>>>)

  /** The requests the task sends. */
  datatype Request =
    | TrackerPost(factoryLink: string, trackedTasks: seq<string>)
    | ClosurePost(factoryLink: string, closure: ClosureRequest)
    | NotifyFinished(response: FinishedResponse)
    | NotifyFailed(cause: Option<string>)

  /** A tracker link counts as provided when it is neither null nor empty. */
  predicate TrackerProvided(link: Option<string>) {
    link.Some? && link.value != ""
  }

  /**
   * UriUtils.buildUriPath(base, segment): a null or empty segment is skipped;
   * otherwise it is joined to base with exactly one '/'.
   */
  function BuildUriPath(base: string, segment: Option<string>): (path: string)
    ensures segment.None? || segment.value == "" ==> path == base
    ensures segment.Some? && segment.value != "" ==>
              |path| > |base| && path[..|base|] == base && path[|base|] == '/'
    ensures segment.Some? && segment.value != "" && segment.value[0] != '/' ==>
              path[|base| + 1..] == segment.value
    ensures segment.Some? && segment.value != "" && segment.value[0] == '/' ==>
              path[|base|..] == segment.value
  {
    if segment.None? || segment.value == "" then base
    else if segment.value[0] == '/' then base + segment.value
    else base + "/" + segment.value
  }

  /** getCustomProperty: the value, or null when the key is absent. */
  function GetCustomProperty(props: map<string, string>, key: string): (v: Option<string>)
    ensures v.Some? <==> key in props
    ensures v.Some? ==> v.value == props[key]
  {
    if key in props then Some(props[key]) else None
  }

  /**
   * createClosure's request body: the task's description link, and exactly two
   * custom properties, the context id and the composite-component link derived from it.
   */
  function BuildClosureRequest(resourceDescriptionLink: Option<string>, props: map<string, string>): (r: ClosureRequest)
    ensures r.descriptionLink == resourceDescriptionLink
    ensures r.customProperties.Keys == {ContextIdKey, CompositeComponentLinkKey}
    ensures |r.customProperties| == 2
    ensures r.customProperties[ContextIdKey] == GetCustomProperty(props, ContextIdKey)
    ensures r.customProperties[CompositeComponentLinkKey] ==
              Some(BuildUriPath(CompositeComponentFactoryLink, GetCustomProperty(props, ContextIdKey)))
  {
    var contextId := GetCustomProperty(props, ContextIdKey);
    var m := map[ContextIdKey := contextId,
                 CompositeComponentLinkKey := Some(BuildUriPath(CompositeComponentFactoryLink, contextId))];
    ClosureRequest(resourceDescriptionLink, m)
  }

  /** The composite link of the closure names the composite of the task's context. */
  lemma ClosureLinksToContextComposite(resourceDescriptionLink: Option<string>, props: map<string, string>)
    requires ContextIdKey in props && props[ContextIdKey] != "" && props[ContextIdKey][0] != '/'
    ensures BuildClosureRequest(resourceDescriptionLink, props).customProperties[CompositeComponentLinkKey]
            == Some(CompositeComponentFactoryLink + "/" + props[ContextIdKey])
  {
  }

  /** buildResourceLinks: the set holding the closure link and nothing else (null included). */
  function BuildResourceLinks(closureLink: Option<string>): (links: set<Option<string>>)
    ensures |links| == 1
    ensures closureLink in links
    ensures forall l :: l in links ==> l == closureLink
  {
    {closureLink}
  }

  /**
   * getFinishedCallbackResponse: the template copied with the resource links
   * attached; the second component says whether the "no resource links" warning
   * is logged. A warning never turns the response into a failure.
   */
  function GetFinishedCallbackResponse(template: CallbackTemplate, resourceLinks: Option<set<Option<string>>>)
    : (r: (FinishedResponse, bool))
    ensures r.0.copied == template && r.0.resourceLinks == resourceLinks
    ensures r.1 <==> resourceLinks.None? || |resourceLinks.value| == 0
  {
    (FinishedResponse(template, resourceLinks), resourceLinks.None? || resourceLinks.value == {})
  }

  /** The links built on COMPLETED never cause the warning. */
  lemma CompletedResponseHasLinks(template: CallbackTemplate, closureLink: Option<string>)
    ensures !GetFinishedCallbackResponse(template, Some(BuildResourceLinks(closureLink))).1
    ensures GetFinishedCallbackResponse(template, Some(BuildResourceLinks(closureLink))).0.resourceLinks == Some({closureLink})
  {
  }

  /** One closure allocation task and the framework state around it. */
  class ClosureAllocationTask {
    var subStage: SubStage
    var stage: TaskStage
    var requestTrackerLink: Option<string>
    var resourceDescriptionLink: Option<string>
    var closureLink: Option<string>
    var resourceLinks: Option<set<Option<string>>>
    var customProperties: map<string, string>
    var finishedTemplate: CallbackTemplate
    var startStatus: StartStatus
    var failure: Option<string>
    /** The requests sent so far, oldest first. */
    var outbox: seq<Request>

    /** The task as its start request carries it. */
    constructor (requestTrackerLink: Option<string>, resourceDescriptionLink: Option<string>,
                 customProperties: map<string, string>, finishedTemplate: CallbackTemplate)
      ensures subStage == Created && stage == Started && startStatus == StartPending
      ensures this.requestTrackerLink == requestTrackerLink
      ensures this.resourceDescriptionLink == resourceDescriptionLink
      ensures this.customProperties == customProperties
      ensures this.finishedTemplate == finishedTemplate
      ensures closureLink.None? && resourceLinks.None? && failure.None? && outbox == []
    {
      subStage := Created;
      stage := Started;
      this.requestTrackerLink := requestTrackerLink;
      this.resourceDescriptionLink := resourceDescriptionLink;
      closureLink := None;
      resourceLinks := None;
      this.customProperties := customProperties;
      this.finishedTemplate := finishedTemplate;
      startStatus := StartPending;
      failure := None;
      outbox := [];
    }

    /**
     * createRequestTrackerIfNoneProvided: a non-empty tracker link means nothing
     * is sent and false is returned; otherwise exactly one tracker POST, tracking
     * this task's display name, is sent and true ("do not complete the start yet") is returned.
     */
    method CreateRequestTrackerIfNoneProvided() returns (deferred: bool)
      modifies this`outbox
      ensures deferred <==> !TrackerProvided(requestTrackerLink)
      ensures outbox == if deferred then old(outbox) + [TrackerPost(RequestStatusFactoryLink, [DisplayName])]
                        else old(outbox)
    {
      if requestTrackerLink.Some? && requestTrackerLink.value != "" {
        return false;
      }
      outbox := outbox + [TrackerPost(RequestStatusFactoryLink, [DisplayName])];
      return true;
    }

    /**
     * validateStateOnStart(state, op): the plain state check accepts every state,
     * so the answer is that of createRequestTrackerIfNoneProvided.
     */
    method ValidateStateOnStart() returns (deferred: bool)
      modifies this`outbox
      ensures deferred <==> !TrackerProvided(requestTrackerLink)
      ensures outbox == if deferred then old(outbox) + [TrackerPost(RequestStatusFactoryLink, [DisplayName])]
                        else old(outbox)
    {
      deferred := CreateRequestTrackerIfNoneProvided();
    }

    /** The start: completed at once when a tracker was provided, otherwise left to the tracker callback. */
    method HandleStart()
      requires startStatus == StartPending
      modifies this`outbox, this`startStatus
      ensures TrackerProvided(requestTrackerLink) ==> startStatus == StartCompleted && outbox == old(outbox)
      ensures !TrackerProvided(requestTrackerLink) ==>
                startStatus == StartPending
                && outbox == old(outbox) + [TrackerPost(RequestStatusFactoryLink, [DisplayName])]
    {
      var deferred := ValidateStateOnStart();
      if !deferred {
        startStatus := StartCompleted;
      }
    }

    /**
     * The completion of the tracker POST: a failure fails the task (notifying the
     * caller of the failure) and the start; a success records the tracker link
     * and completes the start.
     */
    method OnTrackerCreated(result: Result<string, string>)
      requires startStatus == StartPending
      modifies this`stage, this`failure, this`startStatus, this`requestTrackerLink, this`outbox
      ensures result.Failure? ==>
                stage == Failed && failure == Some(result.error) && startStatus == StartFailed(result.error)
                && requestTrackerLink == old(requestTrackerLink)
                && outbox == old(outbox) + [NotifyFailed(Some(result.error))]
      ensures result.Success? ==>
                requestTrackerLink == Some(result.value) && startStatus == StartCompleted
                && stage == old(stage) && failure == old(failure) && outbox == old(outbox)
    {
      match result
      case Failure(e) =>
        stage := Failed;
        failure := Some(e);
        startStatus := StartFailed(e);
        outbox := outbox + [NotifyFailed(Some(e))];
      case Success(link) =>
        requestTrackerLink := Some(link);
        startStatus := StartCompleted;
    }

    /**
     * handleStartedStagePatch: CREATED posts the closure, COMPLETED finishes with
     * the resource links, ERROR finishes with the failure. The sub-stage is not changed.
     */
    method HandleStartedStagePatch()
      requires stage == Started
      modifies this`outbox, this`resourceLinks, this`stage
      ensures subStage == Created ==>
                outbox == old(outbox) + [ClosurePost(ClosureFactoryLink, BuildClosureRequest(resourceDescriptionLink, customProperties))]
                && stage == Started && resourceLinks == old(resourceLinks)
      ensures subStage == Completed ==>
                resourceLinks == Some({closureLink}) && stage == Finished
                && outbox == old(outbox) + [NotifyFinished(FinishedResponse(finishedTemplate, Some({closureLink})))]
      ensures subStage == Error ==>
                stage == Failed && resourceLinks == old(resourceLinks)
                && outbox == old(outbox) + [NotifyFailed(failure)]
    {
      match subStage
      case Created =>
        var closure := BuildClosureRequest(resourceDescriptionLink, customProperties);
        outbox := outbox + [ClosurePost(ClosureFactoryLink, closure)];
      case Completed =>
        resourceLinks := Some(BuildResourceLinks(closureLink));
        stage := Finished;
        var response := GetFinishedCallbackResponse(finishedTemplate, resourceLinks);
        outbox := outbox + [NotifyFinished(response.0)];
      case Error =>
        stage := Failed;
        outbox := outbox + [NotifyFailed(failure)];
    }

    /**
     * The completion of the closure POST: a failure moves to ERROR, a success to
     * COMPLETED with the created closure's self link. There is no third outcome.
     */
    method OnClosureCreated(result: Result<string, string>)
      requires subStage == Created
      modifies this`subStage, this`closureLink
      ensures result.Success? ==> subStage == Completed
      ensures result.Failure? ==> subStage == Error
      ensures result.Success? ==> closureLink == Some(result.value)
      ensures result.Failure? ==> closureLink == old(closureLink)
    {
      match result
      case Failure(_) =>
        subStage := Error;
      case Success(selfLink) =>
        subStage := Completed;
        closureLink := Some(selfLink);
    }
  }

  /**
   * The first half of a run without a tracker link: the tracker POST, its
   * success, then the closure POST sent from CREATED.
   */
  method StartWithoutTracker(descriptionLink: string, contextId: string, template: CallbackTemplate, tracker: string)
    returns (task: ClosureAllocationTask)
    ensures fresh(task)
    ensures task.stage == Started && task.subStage == Created && task.finishedTemplate == template
    ensures |task.outbox| == 2
    ensures task.outbox[0] == TrackerPost(RequestStatusFactoryLink, [DisplayName])
    ensures task.outbox[1].ClosurePost? && task.outbox[1].closure.descriptionLink == Some(descriptionLink)
  {
    task := new ClosureAllocationTask(None, Some(descriptionLink), map[ContextIdKey := contextId], template);
    task.HandleStart();
    task.OnTrackerCreated(Success(tracker));
    task.HandleStartedStagePatch();
  }

  /**
   * A start without a tracker, a successful tracker, a successful closure: one
   * tracker POST, one closure POST, and a finished response with the closure link.
   */
  method AllocationWithoutTracker(descriptionLink: string, contextId: string, template: CallbackTemplate,
                                  tracker: string, closure: string)
    returns (task: ClosureAllocationTask)
    ensures task.stage == Finished && task.subStage == Completed
    ensures task.resourceLinks == Some({Some(closure)})
    ensures |task.outbox| == 3
    ensures task.outbox[0] == TrackerPost(RequestStatusFactoryLink, [DisplayName])
    ensures task.outbox[1].ClosurePost? && task.outbox[1].closure.descriptionLink == Some(descriptionLink)
    ensures task.outbox[2] == NotifyFinished(FinishedResponse(template, Some({Some(closure)})))
  {
    task := StartWithoutTracker(descriptionLink, contextId, template, tracker);
    task.OnClosureCreated(Success(closure));
    task.HandleStartedStagePatch();
  }

  /** A start with a tracker and a failing closure: no tracker POST, and the task ends failed. */
  method AllocationFailingClosure(tracker: string, template: CallbackTemplate, cause: string)
    returns (task: ClosureAllocationTask)
    requires tracker != ""
    ensures task.startStatus == StartCompleted
    ensures task.stage == Failed && task.subStage == Error
    ensures task.resourceLinks.None?
    ensures |task.outbox| == 2 && task.outbox[0].ClosurePost? && task.outbox[1].NotifyFailed?
  {
    task := new ClosureAllocationTask(Some(tracker), None, map[], template);
    task.HandleStart();
    task.HandleStartedStagePatch();
    task.OnClosureCreated(Failure(cause));
    task.HandleStartedStagePatch();
  }
}
