/**
 The way of a request through a bucket: to a session, into the queue of deferred commands, to
 a back-off timer, and to its callback.
 */
module BucketRequests {
  import opened Wrappers

  datatype Reason =
    | UnknownReason | SocketNotAvailable | ServiceNotAvailable | NodeNotAvailable | NotMyVbucketReason
    | CollectionOutdated | ErrorMapRetryIndicated | LockedReason | TemporaryFailureReason
    | SyncWriteInProgressReason | SyncWriteReCommitReason | ServiceResponseCodeIndicated
    | SocketClosedWhileInFlight | CircuitBreakerOpen | QueryPreparedStatementFailure | QueryIndexNotFound
    | AnalyticsTemporaryFailure | SearchTooManyRequests | ViewsTemporaryFailure | ViewsNoActivePartition
    | DoNotRetry

  predicate AllowsNonIdempotentRetry(reason: Reason) {
    reason != UnknownReason && reason != SocketClosedWhileInFlight && reason != DoNotRetry
  }

  predicate AlwaysRetry(reason: Reason) {
    reason == NotMyVbucketReason || reason == CollectionOutdated || reason == ViewsNoActivePartition
  }

  // granted: the reasons for which the request's retry strategy agrees; none without one
  predicate ShouldRetry(reason: Reason, granted: set<Reason>) {
    AlwaysRetry(reason) || reason in granted
  }

  datatype Status =
    | UnknownStatus | NotMyVbucket | Locked | TemporaryFailure | SyncWriteInProgress | SyncWriteReCommitInProgress
    | OtherStatus(code: nat)

  datatype Error =
    | NoError | OperationAborted | RequestCanceled | AmbiguousTimeout | UnambiguousTimeout | BucketClosed
    | ServiceUnavailable | EncodingFailure | OtherError(code: nat)

  datatype Request = Request(id: nat, idempotent: bool, unlock: bool)

  // ---------- Responses ----------

  datatype Response = Response(status: Option<Status>, error: Error, reason: Reason, retryAttribute: bool)

  // Forget: the retry was refused and nobody is told.
  datatype Fate = CallBack(error: Error) | Retry(reason: Reason) | Forget

  function ReasonFor(r: Request, p: Response): Reason {
    var status := p.status.GetOr(UnknownStatus);
    var reason := if status == NotMyVbucket then NotMyVbucketReason else p.reason;
    if status == UnknownStatus && p.retryAttribute then ErrorMapRetryIndicated
    else match status
      case Locked => if r.unlock then reason else LockedReason
      case TemporaryFailure => TemporaryFailureReason
      case SyncWriteInProgress => SyncWriteInProgressReason
      case SyncWriteReCommitInProgress => SyncWriteReCommitReason
      case _ => reason
  }

  function Resolve(r: Request, p: Response, granted: set<Reason>): Fate {
    if p.error == OperationAborted then
      CallBack(if r.idempotent then UnambiguousTimeout else AmbiguousTimeout)
    else if p.error == RequestCanceled then
      if !r.idempotent && !AllowsNonIdempotentRetry(p.reason) then CallBack(RequestCanceled)
      else
        var reason := if p.reason == DoNotRetry then NodeNotAvailable else p.reason;
        if ShouldRetry(reason, granted) then Retry(reason) else Forget
    else
      var reason := ReasonFor(r, p);
      if reason == DoNotRetry || !ShouldRetry(reason, granted) then CallBack(p.error) else Retry(reason)
  }

  // ---------- The bucket ----------

  // What route_request finds: no session, one without configuration, a stopped one, or a
  // session that takes the request.
  datatype Route = NoSession | NoConfig | Stopped | Ready

  // inSession, backoff, done, refused and forgotten say who holds a request, or who was told
  // about it, once it is not deferred.
  datatype Bucket = Bucket(
    closed: bool,
    configured: bool,
    deferred: seq<Request>,
    inSession: seq<Request>,
    backoff: seq<Request>,
    done: seq<(Request, Error)>,
    refused: seq<Request>,
    forgotten: seq<Request>
  ) {
    function Finish(r: Request, error: Error): Bucket { this.(done := done + [(r, error)]) }
    function Defer(r: Request): Bucket { this.(deferred := deferred + [r]) }
    function Subscribe(r: Request): Bucket { this.(inSession := inSession + [r]) }
    function BackOff(r: Request): Bucket { this.(backoff := backoff + [r]) }
    function Refuse(r: Request): Bucket { this.(refused := refused + [r]) }
    function Lose(r: Request): Bucket { this.(forgotten := forgotten + [r]) }
  }

  // A deferred command discards what direct_dispatch returns.
  function Dispatch(b: Bucket, r: Request, route: Route, granted: set<Reason>, fromQueue: bool): Bucket {
    if b.closed then b.Finish(r, BucketClosed)
    else if !b.configured || route == NoSession || route == NoConfig then b.Defer(r)
    else if route == Stopped then
      if ShouldRetry(NodeNotAvailable, granted) then b.BackOff(r)
      else if fromQueue then b.Lose(r)
      else b.Refuse(r)
    else b.Subscribe(r)
  }

  // A back-off timer fires. Neither closed nor configured is looked at.
  function ReQueue(b: Bucket, r: Request, route: Route, granted: set<Reason>, encodes: bool): Bucket {
    if route == NoSession || route == NoConfig then b.Defer(r)
    else if route == Stopped then
      if ShouldRetry(NodeNotAvailable, granted) then b.BackOff(r) else b.Finish(r, ServiceUnavailable)
    else if !encodes then b.Finish(r, EncodingFailure)
    else b.Subscribe(r)
  }

  function Respond(b: Bucket, r: Request, p: Response, granted: set<Reason>): Bucket {
    match Resolve(r, p, granted)
    case CallBack(error) => b.Finish(r, error)
    case Retry(_) => b.BackOff(r)
    case Forget => b.Lose(r)
  }

  // What each deferred command meets when it runs.
  datatype Answer = Answer(route: Route, granted: set<Reason>)

  function RunCommands(b: Bucket, commands: seq<Request>, answers: seq<Answer>): Bucket
    requires |answers| == |commands|
    decreases |commands|
  {
    if commands == [] then b
    else RunCommands(Dispatch(b, commands[0], answers[0].route, answers[0].granted, true), commands[1..], answers[1..])
  }

  function Drain(b: Bucket, answers: seq<Answer>): Bucket
    requires |answers| == |b.deferred|
  {
    RunCommands(b.(deferred := []), b.deferred, answers)
  }

  function Close(b: Bucket, answers: seq<Answer>): Bucket
    requires |answers| == |b.deferred|
  {
    if b.closed then b else Drain(b.(closed := true), answers)
  }

  class BucketRequestHandler {
    var closed: bool
    var configured: bool
    var deferredCommands: seq<Request>
    var inSession: seq<Request>
    var backoff: seq<Request>
    ghost var done: seq<(Request, Error)>
    ghost var refused: seq<Request>
    ghost var forgotten: seq<Request>

    ghost function View(): Bucket
      reads this
    {
      Bucket(closed, configured, deferredCommands, inSession, backoff, done, refused, forgotten)
    }

    constructor ()
      ensures View() == Bucket(false, false, [], [], [], [], [], [])
    {
      closed, configured, deferredCommands, inSession, backoff := false, false, [], [], [];
      done, refused, forgotten := [], [], [];
    }

    method DirectDispatch(r: Request, route: Route, granted: set<Reason>, ghost fromQueue: bool)
      returns (error: Error)
      modifies this
      ensures View() == Dispatch(old(View()), r, route, granted, fromQueue)
      ensures error == (if old(closed) then BucketClosed
                        else if configured && route == Stopped && !ShouldRetry(NodeNotAvailable, granted)
                        then ServiceUnavailable else NoError)
    {
      if closed {
        done := done + [(r, BucketClosed)];
        return BucketClosed;
      }
      if !configured || route == NoSession || route == NoConfig {
        deferredCommands := deferredCommands + [r];
        return NoError;
      }
      if route == Stopped {
        var retried := BackoffAndRetry(r, NodeNotAvailable, granted);
        if retried {
          return NoError;
        }
        if fromQueue {
          forgotten := forgotten + [r];
        } else {
          refused := refused + [r];
        }
        return ServiceUnavailable;
      }
      inSession := inSession + [r];
      return NoError;
    }

    method DirectReQueue(r: Request, route: Route, granted: set<Reason>, encodes: bool)
      modifies this
      ensures View() == ReQueue(old(View()), r, route, granted, encodes)
    {
      if route == NoSession || route == NoConfig {
        deferredCommands := deferredCommands + [r];
        return;
      }
      if route == Stopped {
        var retried := BackoffAndRetry(r, NodeNotAvailable, granted);
        if !retried {
          done := done + [(r, ServiceUnavailable)];
        }
        return;
      }
      if !encodes {
        done := done + [(r, EncodingFailure)];
        return;
      }
      inSession := inSession + [r];
    }

    method BackoffAndRetry(r: Request, reason: Reason, granted: set<Reason>) returns (retried: bool)
      modifies this`backoff
      ensures retried == ShouldRetry(reason, granted)
      ensures backoff == if retried then old(backoff) + [r] else old(backoff)
    {
      retried := ShouldRetry(reason, granted);
      if retried {
        backoff := backoff + [r];
      }
    }

    method ResolveResponse(r: Request, p: Response, granted: set<Reason>)
      modifies this
      ensures View() == Respond(old(View()), r, p, granted)
    {
      if p.error == OperationAborted {
        done := done + [(r, if r.idempotent then UnambiguousTimeout else AmbiguousTimeout)];
        return;
      }
      if p.error == RequestCanceled {
        if !r.idempotent && !AllowsNonIdempotentRetry(p.reason) {
          done := done + [(r, p.error)];
          return;
        }
        var retried := BackoffAndRetry(r, if p.reason == DoNotRetry then NodeNotAvailable else p.reason, granted);
        if !retried {
          forgotten := forgotten + [r];
        }
        return;
      }
      var status := p.status.GetOr(UnknownStatus);
      var reason := p.reason;
      if status == NotMyVbucket {
        reason := NotMyVbucketReason;
      }
      if status == UnknownStatus && p.retryAttribute {
        reason := ErrorMapRetryIndicated;
      } else {
        match status {
          case Locked => if !r.unlock { reason := LockedReason; }
          case TemporaryFailure => reason := TemporaryFailureReason;
          case SyncWriteInProgress => reason := SyncWriteInProgressReason;
          case SyncWriteReCommitInProgress => reason := SyncWriteReCommitReason;
          case _ =>
        }
      }
      var retried := false;
      if reason != DoNotRetry {
        retried := BackoffAndRetry(r, reason, granted);
      }
      if !retried {
        done := done + [(r, p.error)];
      }
    }

    method DrainDeferredQueue(answers: seq<Answer>)
      requires |answers| == |deferredCommands|
      modifies this
      ensures View() == Drain(old(View()), answers)
    {
      var commands := deferredCommands;
      deferredCommands := [];
      var k := 0;
      while commands != []
        invariant k + |commands| == |answers|
        invariant RunCommands(View(), commands, answers[k..]) == Drain(old(View()), answers)
        decreases |commands|
      {
        assert answers[k..][1..] == answers[k + 1..];
        var _ := DirectDispatch(commands[0], answers[k].route, answers[k].granted, true);
        commands := commands[1..];
        k := k + 1;
      }
    }

    method CloseBucket(answers: seq<Answer>)
      requires |answers| == |deferredCommands|
      modifies this
      ensures View() == Close(old(View()), answers)
    {
      if closed {
        return;
      }
      closed := true;
      DrainDeferredQueue(answers);
    }
  }
}
