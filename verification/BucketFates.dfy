/**
 What becomes of a request, said by what comes back for it, what its strategy grants, and the
 state of the bucket alone.
 */
module BucketFates {
  import opened Wrappers
  import opened BucketRequests

  const ALWAYS := {NotMyVbucketReason, CollectionOutdated, ViewsNoActivePartition}

  // No status, or none that is known.
  predicate NoStatus(p: Response) {
    p.status in {None, Some(UnknownStatus)}
  }

  // A status that has a reason of its own, and that reason. An unlock command finds a locked
  // document when someone else has unlocked it, so there it has none.
  predicate HasReason(r: Request, p: Response, reason: Reason) {
    || (p.status == Some(Locked) && !r.unlock && reason == LockedReason)
    || (p.status == Some(TemporaryFailure) && reason == TemporaryFailureReason)
    || (p.status == Some(SyncWriteInProgress) && reason == SyncWriteInProgressReason)
    || (p.status == Some(SyncWriteReCommitInProgress) && reason == SyncWriteReCommitReason)
    || (NoStatus(p) && p.retryAttribute && reason == ErrorMapRetryIndicated)
  }

  // Only the reason that the session gives counts.
  predicate HasNoReason(r: Request, p: Response) {
    || (p.status == Some(Locked) && r.unlock)
    || (p.status.Some? && p.status.value.OtherStatus?)
    || (NoStatus(p) && !p.retryAttribute)
  }

  /** A response that was neither aborted nor cancelled is retried always if it comes from the
      wrong vbucket, with a status that has a reason exactly if that is granted, and otherwise
      exactly if the session's own reason is granted or one that is always retried. In every
      other case the request is called back with the error of the response. */
  lemma ResponseIsRetriedExactlyWhen(b: Bucket, r: Request, p: Response, granted: set<Reason>)
    requires p.error != OperationAborted && p.error != RequestCanceled
    ensures var retried := || p.status == Some(NotMyVbucket)
                           || (exists reason :: HasReason(r, p, reason) && reason in granted)
                           || (HasNoReason(r, p) && p.reason != DoNotRetry && p.reason in granted + ALWAYS);
            Respond(b, r, p, granted) == if retried then b.(backoff := b.backoff + [r])
                                         else b.(done := b.done + [(r, p.error)])
  {
    assert HasReason(r, p, ReasonFor(r, p)) || HasNoReason(r, p) || p.status == Some(NotMyVbucket);
  }

  /** So with the reason that the session passes for all but one of the statuses: a locked
      document is waited for exactly if that is granted, but never by an unlock. */
  lemma LockedIsRetriedExactlyWhen(b: Bucket, r: Request, p: Response, granted: set<Reason>)
    requires p.status == Some(Locked) && p.reason == DoNotRetry
    requires p.error != OperationAborted && p.error != RequestCanceled
    ensures Respond(b, r, p, granted) == if !r.unlock && LockedReason in granted then b.(backoff := b.backoff + [r])
                                         else b.(done := b.done + [(r, p.error)])
  {
    ResponseIsRetriedExactlyWhen(b, r, p, granted);
    if !r.unlock {
      assert HasReason(r, p, LockedReason);
    }
  }

  /** An aborted request is told of a timeout, which is unambiguous exactly if it is idempotent. */
  lemma AbortedIsTimedOut(b: Bucket, r: Request, p: Response, granted: set<Reason>)
    requires p.error == OperationAborted
    ensures Respond(b, r, p, granted)
         == b.(done := b.done + [(r, if r.idempotent then UnambiguousTimeout else AmbiguousTimeout)])
  {
  }

  /** A cancelled request is told so exactly if it must not be sent twice and may have been
      sent; otherwise it is retried if that is granted, and told nothing if it is not. */
  lemma CancelledIsRetriedExactlyWhen(b: Bucket, r: Request, p: Response, granted: set<Reason>)
    requires p.error == RequestCanceled
    ensures var mayBeSent := p.reason in {UnknownReason, SocketClosedWhileInFlight, DoNotRetry};
            var grants := if p.reason == DoNotRetry then NodeNotAvailable in granted else p.reason in granted + ALWAYS;
            Respond(b, r, p, granted)
            == if mayBeSent && !r.idempotent then b.(done := b.done + [(r, RequestCanceled)])
               else if grants then b.(backoff := b.backoff + [r])
               else b.(forgotten := b.forgotten + [r])
  {
  }


  /** Where a dispatched request goes: each place exactly under its own condition. */
  lemma DispatchedTo(b: Bucket, r: Request, route: Route, granted: set<Reason>, fromQueue: bool)
    ensures var d := Dispatch(b, r, route, granted, fromQueue);
            && (d.inSession == b.inSession + [r] <==> !b.closed && b.configured && route == Ready)
            && (d.deferred == b.deferred + [r] <==> !b.closed && (!b.configured || route in {NoSession, NoConfig}))
            && (d.backoff == b.backoff + [r] <==>
                  !b.closed && b.configured && route == Stopped && NodeNotAvailable in granted)
            && (d.done == b.done + [(r, BucketClosed)] <==> b.closed)
            && (d.refused == b.refused + [r] <==>
                  !b.closed && b.configured && route == Stopped && NodeNotAvailable !in granted && !fromQueue)
            && (d.forgotten == b.forgotten + [r] <==>
                  !b.closed && b.configured && route == Stopped && NodeNotAvailable !in granted && fromQueue)
            && |d.inSession| + |d.deferred| + |d.backoff| + |d.done| + |d.refused| + |d.forgotten|
               == |b.inSession| + |b.deferred| + |b.backoff| + |b.done| + |b.refused| + |b.forgotten| + 1
  {
  }

  /** Where a request goes when its back-off ends; nothing is ever refused or forgotten there. */
  lemma RetriedTo(b: Bucket, r: Request, route: Route, granted: set<Reason>, encodes: bool)
    ensures var d := ReQueue(b, r, route, granted, encodes);
            && (d.inSession == b.inSession + [r] <==> route == Ready && encodes)
            && (d.deferred == b.deferred + [r] <==> route in {NoSession, NoConfig})
            && (d.backoff == b.backoff + [r] <==> route == Stopped && NodeNotAvailable in granted)
            && (d.done == b.done + [(r, ServiceUnavailable)] <==> route == Stopped && NodeNotAvailable !in granted)
            && (d.done == b.done + [(r, EncodingFailure)] <==> route == Ready && !encodes)
            && d.refused == b.refused && d.forgotten == b.forgotten
            && |d.inSession| + |d.deferred| + |d.backoff| + |d.done|
               == |b.inSession| + |b.deferred| + |b.backoff| + |b.done| + 1
  {
    assert (b.done + [(r, ServiceUnavailable)])[|b.done|].1 == ServiceUnavailable;
    assert (b.done + [(r, EncodingFailure)])[|b.done|].1 == EncodingFailure;
  }
}
