/** The webhook endpoint: the signature gate, the event and action matching,
    and the background tasks it queues, in the order it queues them. */
module Webhook {
  import opened Wrappers
  import opened Json
  import opened Config
  import opened Utils
  import PullRequest

  /** A queued background job, carrying the payload it will process. */
  datatype Task = ProcessPullRequest(payload: Payload) | ProcessPrDesc(payload: Payload)

  /** What the handler hands back. A bad signature RETURNS the 401 exception
      object rather than raising it; a failing lookup while logging raises. */
  datatype Response =
    | ReturnedHttpException(statusCode: int, detail: string)
    | Received
    | Raised(error: PyError)

  /** A delivery: its headers, its raw body and the body decoded as a JSON object. */
  datatype Delivery = Delivery(headers: map<string, string>, body: Bytes, payload: Payload)

  const EventHeader: string := "X-GitHub-Event"
  const PullRequestEvent: string := "pull_request"
  const InvalidSignature: string := "Invalid signature"

  /** `payload.get("action", "")`. */
  function ActionOf(payload: Payload): Json {
    if "action" in payload then payload["action"] else Str("")
  }

  /** Python's `action in actions` for a list of strings: only a string equal
      to a member matches. */
  predicate ActionIn(action: Json, actions: seq<string>) {
    action.Str? && action.s in actions
  }

  /** The signature gate lets the delivery through: either signature
      checking is off, or the header carries the expected signature under the
      configured secret. */
  predicate SignatureAccepted(cfg: Config, d: Delivery, hexHmac: HexHmac) {
    !cfg.checkSignature
    || IsGithubSignatureValid(d.headers, d.body, cfg.webhookSecret, cfg.webhookSecret, hexHmac)
  }

  predicate IsPullRequestEvent(d: Delivery) {
    EventHeader in d.headers && d.headers[EventHeader] == PullRequestEvent
  }

  predicate WantsReview(cfg: Config, d: Delivery) {
    cfg.autoPrReview && ActionIn(ActionOf(d.payload), PullRequest.ActionsToProcessPr)
  }

  predicate WantsDescription(cfg: Config, d: Delivery) {
    cfg.editPrDesc && ActionIn(ActionOf(d.payload), PullRequest.ActionsToUpdateDesc)
  }

  /** `payload['pull_request']['number']`, evaluated for the log line before
      each job is queued. */
  function LoggedNumber(payload: Payload): Result<Json, PyError> {
    Lookup(Object(payload), ["pull_request", "number"])
  }

  datatype Outcome = Outcome(response: Response, tasks: seq<Task>)

  /** `config[key]` on the loaded configuration: a key the document leaves
      out raises `KeyError`. */
  function Read(cfg: Config, key: string): Result<(), PyError> {
    if key in cfg.absent then Failure(KeyError(key)) else Success(())
  }

  /** The decision `handle_webhook` takes for one delivery: the response and
      the jobs it has queued by then. Jobs queued before a raise are never
      run, since the handler produces no response to run them after. */
  function Dispatch(cfg: Config, d: Delivery, hexHmac: HexHmac): (o: Outcome)
    ensures |o.tasks| <= 2
    ensures forall i | 0 <= i < |o.tasks| :: o.tasks[i].payload == d.payload
    ensures o.response.ReturnedHttpException? ==> o.tasks == []
    ensures o.response.Raised? && o.tasks != [] ==>
              o.response.error == KeyError("edit_pr_desc") && o.tasks == [ProcessPullRequest(d.payload)]
  {
    if Read(cfg, "check_signature").Failure? then
      Outcome(Raised(Read(cfg, "check_signature").error), [])
    else if cfg.checkSignature && Read(cfg, "webhook_secret").Failure? then
      Outcome(Raised(Read(cfg, "webhook_secret").error), [])
    else if !SignatureAccepted(cfg, d, hexHmac) then
      Outcome(ReturnedHttpException(401, InvalidSignature), [])
    else if !IsPullRequestEvent(d) then
      Outcome(Received, [])
    else if Read(cfg, "auto_pr_review").Failure? then
      Outcome(Raised(Read(cfg, "auto_pr_review").error), [])
    else
      var review := WantsReview(cfg, d);
      if review && LoggedNumber(d.payload).Failure? then
        Outcome(Raised(LoggedNumber(d.payload).error), [])
      else
        var queued := if review then [ProcessPullRequest(d.payload)] else [];
        if Read(cfg, "edit_pr_desc").Failure? then
          Outcome(Raised(Read(cfg, "edit_pr_desc").error), queued)
        else
          var description := WantsDescription(cfg, d);
          if description && LoggedNumber(d.payload).Failure? then
            Outcome(Raised(LoggedNumber(d.payload).error), queued)
          else
            Outcome(Received, queued + (if description then [ProcessPrDesc(d.payload)] else []))
  }

  /** FastAPI's `BackgroundTasks`: the queue of jobs to run after the response. */
  class BackgroundTasks {
    var tasks: seq<Task>

    constructor ()
      ensures tasks == []
    {
      tasks := [];
    }

    method AddTask(t: Task)
      modifies this
      ensures tasks == old(tasks) + [t]
    {
      tasks := tasks + [t];
    }
  }

  /** `handle_webhook`: gate on the signature, then queue the review and the
      description jobs the configuration and the action call for. */
  method HandleWebhook(cfg: Config, d: Delivery, hexHmac: HexHmac, background: BackgroundTasks)
    returns (response: Response)
    modifies background
    ensures response == Dispatch(cfg, d, hexHmac).response
    ensures background.tasks == old(background.tasks) + Dispatch(cfg, d, hexHmac).tasks
  {
    var check := Read(cfg, "check_signature");
    if check.Failure? {
      return Raised(check.error);
    }
    if cfg.checkSignature {
      var secret := Read(cfg, "webhook_secret");
      if secret.Failure? {
        return Raised(secret.error);
      }
      if !IsGithubSignatureValid(d.headers, d.body, cfg.webhookSecret, cfg.webhookSecret, hexHmac) {
        return ReturnedHttpException(401, InvalidSignature);
      }
    }
    var event := if EventHeader in d.headers then Some(d.headers[EventHeader]) else None;
    if event == Some(PullRequestEvent) {
      var action := ActionOf(d.payload);
      var autoReview := Read(cfg, "auto_pr_review");
      if autoReview.Failure? {
        return Raised(autoReview.error);
      }
      if cfg.autoPrReview && ActionIn(action, PullRequest.ActionsToProcessPr) {
        var number := LoggedNumber(d.payload);
        if number.Failure? {
          return Raised(number.error);
        }
        background.AddTask(ProcessPullRequest(d.payload));
      }
      var editDesc := Read(cfg, "edit_pr_desc");
      if editDesc.Failure? {
        return Raised(editDesc.error);
      }
      if cfg.editPrDesc && ActionIn(action, PullRequest.ActionsToUpdateDesc) {
        var number := LoggedNumber(d.payload);
        if number.Failure? {
          return Raised(number.error);
        }
        background.AddTask(ProcessPrDesc(d.payload));
      }
    }
    response := Received;
  }

  // ---------------------------------------------------------------------
  // Properties of the dispatch rule.

  /** The configuration keys the handler reads with `config[key]`. */
  const HandlerKeys: set<string> := {"check_signature", "webhook_secret", "auto_pr_review", "edit_pr_desc"}

  /** The keys the signature gate reads are all there. */
  predicate GateKeysPresent(cfg: Config) {
    "check_signature" !in cfg.absent && (cfg.checkSignature ==> "webhook_secret" !in cfg.absent)
  }

  /** The 401 comes back exactly when the gate's keys are there, signature
      checking is on and the signature is bad, and then nothing is queued. */
  lemma RejectsExactlyBadSignatures(cfg: Config, d: Delivery, hexHmac: HexHmac)
    ensures Dispatch(cfg, d, hexHmac).response.ReturnedHttpException?
            <==> GateKeysPresent(cfg) && cfg.checkSignature
                 && !IsGithubSignatureValid(d.headers, d.body, cfg.webhookSecret, cfg.webhookSecret, hexHmac)
    ensures Dispatch(cfg, d, hexHmac).response.ReturnedHttpException? ==>
              Dispatch(cfg, d, hexHmac) == Outcome(ReturnedHttpException(401, InvalidSignature), [])
  {
  }

  /** With signature checking on and no `webhook_secret` key, the handler
      raises `KeyError` before it looks at the signature. */
  lemma MissingSecretRaises(cfg: Config, d: Delivery, hexHmac: HexHmac)
    requires cfg.checkSignature && "check_signature" !in cfg.absent && "webhook_secret" in cfg.absent
    ensures Dispatch(cfg, d, hexHmac) == Outcome(Raised(KeyError("webhook_secret")), [])
  {
  }

  /** With signature checking off, the body and the HMAC are never
      consulted: the outcome does not depend on them. */
  lemma SignatureIgnoredWhenCheckOff(
    cfg: Config, headers: map<string, string>, payload: Payload,
    body: Bytes, otherBody: Bytes, hexHmac: HexHmac, otherHmac: HexHmac)
    requires !cfg.checkSignature
    ensures Dispatch(cfg, Delivery(headers, body, payload), hexHmac)
         == Dispatch(cfg, Delivery(headers, otherBody, payload), otherHmac)
    ensures !Dispatch(cfg, Delivery(headers, body, payload), hexHmac).response.ReturnedHttpException?
  {
  }

  /** Any event other than `pull_request` that passes the gate is
      acknowledged and queues nothing, whatever review and description keys
      the configuration has. */
  lemma OtherEventsQueueNothing(cfg: Config, d: Delivery, hexHmac: HexHmac)
    requires GateKeysPresent(cfg) && SignatureAccepted(cfg, d, hexHmac) && !IsPullRequestEvent(d)
    ensures Dispatch(cfg, d, hexHmac) == Outcome(Received, [])
  {
  }

  /** The review job is queued iff the gate passes, the event is a pull
      request, review is enabled and the action is opened, synchronize or
      reopened; the description job likewise for opened or edited, and only
      once both feature keys have been read. */
  lemma TaskIffConditions(cfg: Config, d: Delivery, hexHmac: HexHmac)
    ensures ProcessPullRequest(d.payload) in Dispatch(cfg, d, hexHmac).tasks
            <==> GateKeysPresent(cfg) && SignatureAccepted(cfg, d, hexHmac) && IsPullRequestEvent(d)
                 && "auto_pr_review" !in cfg.absent
                 && WantsReview(cfg, d) && LoggedNumber(d.payload).Success?
    ensures ProcessPrDesc(d.payload) in Dispatch(cfg, d, hexHmac).tasks
            <==> GateKeysPresent(cfg) && SignatureAccepted(cfg, d, hexHmac) && IsPullRequestEvent(d)
                 && "auto_pr_review" !in cfg.absent && "edit_pr_desc" !in cfg.absent
                 && WantsDescription(cfg, d) && LoggedNumber(d.payload).Success?
  {
  }

  /** A pull-request delivery whose payload has a number, under a
      configuration holding every key the handler reads, queues the review
      job before the description job, each at most once. */
  lemma TasksInOrder(cfg: Config, d: Delivery, hexHmac: HexHmac)
    requires cfg.absent !! HandlerKeys
    requires SignatureAccepted(cfg, d, hexHmac) && IsPullRequestEvent(d)
    requires LoggedNumber(d.payload).Success?
    ensures Dispatch(cfg, d, hexHmac).response == Received
    ensures Dispatch(cfg, d, hexHmac).tasks
         == (if WantsReview(cfg, d) then [ProcessPullRequest(d.payload)] else [])
            + (if WantsDescription(cfg, d) then [ProcessPrDesc(d.payload)] else [])
  {
  }

  /** `opened` with both features on queues both jobs, review first. */
  lemma OpenedQueuesBoth(cfg: Config, d: Delivery, hexHmac: HexHmac)
    requires cfg.absent !! HandlerKeys
    requires SignatureAccepted(cfg, d, hexHmac) && IsPullRequestEvent(d)
    requires cfg.autoPrReview && cfg.editPrDesc
    requires "action" in d.payload && d.payload["action"] == Str("opened")
    requires LoggedNumber(d.payload).Success?
    ensures Dispatch(cfg, d, hexHmac) == Outcome(Received, [ProcessPullRequest(d.payload), ProcessPrDesc(d.payload)])
  {
    assert "opened" in PullRequest.ActionsToProcessPr && "opened" in PullRequest.ActionsToUpdateDesc;
  }

  /** A delivery without an `action` reads as `""`, which no list holds: it
      queues nothing, and it can raise only on a missing configuration key. */
  lemma MissingActionQueuesNothing(cfg: Config, d: Delivery, hexHmac: HexHmac)
    requires "action" !in d.payload
    ensures Dispatch(cfg, d, hexHmac).tasks == []
    ensures Dispatch(cfg, d, hexHmac).response.Raised? ==>
              Dispatch(cfg, d, hexHmac).response.error.KeyError?
              && Dispatch(cfg, d, hexHmac).response.error.key in HandlerKeys
  {
    assert "" !in PullRequest.ActionsToProcessPr && "" !in PullRequest.ActionsToUpdateDesc;
  }

  /** The handler raises exactly when a key it reads is missing from the
      configuration, or when a pull-request delivery that wants a job lacks
      `pull_request.number`. */
  lemma RaisesOnMissingKeyOrNumber(cfg: Config, d: Delivery, hexHmac: HexHmac)
    ensures Dispatch(cfg, d, hexHmac).response.Raised?
            <==> !GateKeysPresent(cfg)
                 || (SignatureAccepted(cfg, d, hexHmac) && IsPullRequestEvent(d)
                     && ("auto_pr_review" in cfg.absent || "edit_pr_desc" in cfg.absent
                         || ((WantsReview(cfg, d) || WantsDescription(cfg, d))
                             && LoggedNumber(d.payload).Failure?)))
    ensures Dispatch(cfg, d, hexHmac).response.Raised? ==>
              (Dispatch(cfg, d, hexHmac).response.error.KeyError?
               && Dispatch(cfg, d, hexHmac).response.error.key in HandlerKeys)
              || (LoggedNumber(d.payload).Failure?
                  && Dispatch(cfg, d, hexHmac).response.error == LoggedNumber(d.payload).error)
  {
  }
}
