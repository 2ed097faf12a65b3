/**
 Where the requests of a bucket are, over any run of dispatches, responses, retries, drains
 and a close.
 */
module BucketRequestRuns {
  import opened Wrappers
  import opened Sequences
  import opened BucketRequests

  datatype Action =
    | NewRequest(r: Request, route: Route, granted: set<Reason>)
    | Answered(i: nat, p: Response, granted: set<Reason>)
    | TimerFires(i: nat, route: Route, granted: set<Reason>, encodes: bool)
    | DrainQueue(answers: seq<Answer>)
    | Configured
    | CloseIt(answers: seq<Answer>)

  datatype World = World(b: Bucket, accepted: seq<Request>)

  ghost predicate NewId(w: World, r: Request) {
    forall j :: 0 <= j < |w.accepted| ==> w.accepted[j].id != r.id
  }

  // An action that is not possible changes nothing.
  ghost function Apply(w: World, a: Action): World {
    match a
    case NewRequest(r, route, granted) =>
      if NewId(w, r) then World(Dispatch(w.b, r, route, granted, false), w.accepted + [r]) else w
    case Answered(i, p, granted) =>
      if i < |w.b.inSession|
      then w.(b := Respond(w.b.(inSession := TakeOut(w.b.inSession, i)), w.b.inSession[i], p, granted)) else w
    case TimerFires(i, route, granted, encodes) =>
      if i < |w.b.backoff|
      then w.(b := ReQueue(w.b.(backoff := TakeOut(w.b.backoff, i)), w.b.backoff[i], route, granted, encodes)) else w
    case DrainQueue(answers) =>
      if |answers| == |w.b.deferred| then w.(b := Drain(w.b, answers)) else w
    case Configured => w.(b := w.b.(configured := true))
    case CloseIt(answers) =>
      if |answers| == |w.b.deferred| then w.(b := Close(w.b, answers)) else w
  }

  ghost function After(w: World, run: seq<Action>): World {
    if run == [] then w else Apply(After(w, run[..|run| - 1]), run[|run| - 1])
  }

  function Start(): World {
    World(Bucket(false, false, [], [], [], [], [], []), [])
  }

  // ---------- Each request is in one place ----------

  function Told(done: seq<(Request, Error)>): seq<Request> {
    seq(|done|, i requires 0 <= i < |done| => done[i].0)
  }

  function Places(b: Bucket, r: Request): nat {
    Count(b.deferred, r) + Count(b.inSession, r) + Count(b.backoff, r)
    + Count(Told(b.done), r) + Count(b.refused, r) + Count(b.forgotten, r)
  }

  function One(q: Request, r: Request): nat {
    if q == r then 1 else 0
  }

  // Whichever way a request goes, it is in one place more.
  lemma OneMorePlace(b: Bucket, q: Request, error: Error, r: Request)
    ensures Places(b.Finish(q, error), r) == Places(b, r) + One(q, r)
    ensures Places(b.Defer(q), r) == Places(b, r) + One(q, r)
    ensures Places(b.Subscribe(q), r) == Places(b, r) + One(q, r)
    ensures Places(b.BackOff(q), r) == Places(b, r) + One(q, r)
    ensures Places(b.Refuse(q), r) == Places(b, r) + One(q, r)
    ensures Places(b.Lose(q), r) == Places(b, r) + One(q, r)
  {
    assert Told(b.done + [(q, error)]) == Told(b.done) + [q];
  }

  lemma DispatchPlaces(b: Bucket, q: Request, route: Route, granted: set<Reason>, fromQueue: bool, r: Request)
    ensures Places(Dispatch(b, q, route, granted, fromQueue), r) == Places(b, r) + One(q, r)
  {
    OneMorePlace(b, q, BucketClosed, r);
  }

  lemma ReQueuePlaces(b: Bucket, q: Request, route: Route, granted: set<Reason>, encodes: bool, r: Request)
    ensures Places(ReQueue(b, q, route, granted, encodes), r) == Places(b, r) + One(q, r)
  {
    OneMorePlace(b, q, ServiceUnavailable, r);
    OneMorePlace(b, q, EncodingFailure, r);
  }

  lemma RespondPlaces(b: Bucket, q: Request, p: Response, granted: set<Reason>, r: Request)
    ensures Places(Respond(b, q, p, granted), r) == Places(b, r) + One(q, r)
  {
    var fate := Resolve(q, p, granted);
    OneMorePlace(b, q, if fate.CallBack? then fate.error else NoError, r);
  }

  lemma {:induction false} RunCommandsPlaces(b: Bucket, commands: seq<Request>, answers: seq<Answer>, r: Request)
    requires |answers| == |commands|
    ensures Places(RunCommands(b, commands, answers), r) == Places(b, r) + Count(commands, r)
    decreases |commands|
  {
    if commands != [] {
      var next := Dispatch(b, commands[0], answers[0].route, answers[0].granted, true);
      DispatchPlaces(b, commands[0], answers[0].route, answers[0].granted, true, r);
      RunCommandsPlaces(next, commands[1..], answers[1..], r);
      assert commands == [commands[0]] + commands[1..];
    }
  }

  lemma DrainPlaces(b: Bucket, answers: seq<Answer>, r: Request)
    requires |answers| == |b.deferred|
    ensures Places(Drain(b, answers), r) == Places(b, r)
  {
    RunCommandsPlaces(b.(deferred := []), b.deferred, answers, r);
  }

  lemma AnsweredPlaces(b: Bucket, i: nat, p: Response, granted: set<Reason>, r: Request)
    requires i < |b.inSession|
    ensures Places(Respond(b.(inSession := TakeOut(b.inSession, i)), b.inSession[i], p, granted), r) == Places(b, r)
  {
    CountTakeOut(b.inSession, i, r);
    RespondPlaces(b.(inSession := TakeOut(b.inSession, i)), b.inSession[i], p, granted, r);
  }

  lemma FiredPlaces(b: Bucket, i: nat, route: Route, granted: set<Reason>, encodes: bool, r: Request)
    requires i < |b.backoff|
    ensures Places(ReQueue(b.(backoff := TakeOut(b.backoff, i)), b.backoff[i], route, granted, encodes), r)
         == Places(b, r)
  {
    CountTakeOut(b.backoff, i, r);
    ReQueuePlaces(b.(backoff := TakeOut(b.backoff, i)), b.backoff[i], route, granted, encodes, r);
  }

  lemma NewPlaces(w: World, q: Request, route: Route, granted: set<Reason>, r: Request)
    ensures Places(Dispatch(w.b, q, route, granted, false), r) - Count(w.accepted + [q], r)
         == Places(w.b, r) - Count(w.accepted, r)
  {
    DispatchPlaces(w.b, q, route, granted, false, r);
  }

  lemma ClosePlaces(b: Bucket, answers: seq<Answer>, r: Request)
    requires |answers| == |b.deferred|
    ensures Places(Close(b, answers), r) == Places(b, r)
  {
    DrainPlaces(b.(closed := true), answers, r);
  }

  lemma StepPlaces(w: World, a: Action, r: Request)
    ensures Places(Apply(w, a).b, r) - Count(Apply(w, a).accepted, r) == Places(w.b, r) - Count(w.accepted, r)
  {
    match a
    case NewRequest(q, route, granted) => NewPlaces(w, q, route, granted, r);
    case Answered(i, p, granted) => if i < |w.b.inSession| { AnsweredPlaces(w.b, i, p, granted, r); }
    case TimerFires(i, route, granted, encodes) =>
      if i < |w.b.backoff| { FiredPlaces(w.b, i, route, granted, encodes, r); }
    case DrainQueue(answers) => if |answers| == |w.b.deferred| { DrainPlaces(w.b, answers, r); }
    case Configured =>
    case CloseIt(answers) => if |answers| == |w.b.deferred| { ClosePlaces(w.b, answers, r); }
  }

  lemma {:induction false} RunPlaces(run: seq<Action>, r: Request)
    ensures Places(After(Start(), run).b, r) == Count(After(Start(), run).accepted, r)
  {
    if run != [] {
      RunPlaces(run[..|run| - 1], r);
      StepPlaces(After(Start(), run[..|run| - 1]), run[|run| - 1], r);
    }
  }

  ghost predicate DistinctIds(accepted: seq<Request>) {
    forall i, j :: 0 <= i < j < |accepted| ==> accepted[i].id != accepted[j].id
  }

  lemma StepKeepsIds(w: World, a: Action)
    requires DistinctIds(w.accepted)
    ensures DistinctIds(Apply(w, a).accepted)
  {
  }

  lemma {:induction false} RunIdsDistinct(run: seq<Action>)
    ensures DistinctIds(After(Start(), run).accepted)
  {
    if run != [] {
      RunIdsDistinct(run[..|run| - 1]);
      StepKeepsIds(After(Start(), run[..|run| - 1]), run[|run| - 1]);
    }
  }

  /** In every run each accepted request is in exactly one place, and nothing else is in any. */
  lemma EachRequestInOnePlace(run: seq<Action>, r: Request)
    ensures var w := After(Start(), run);
            Places(w.b, r) == if r in w.accepted then 1 else 0
  {
    RunPlaces(run, r);
    RunIdsDistinct(run);
    var accepted := After(Start(), run).accepted;
    if i :| 0 <= i < |accepted| && accepted[i] == r {
      OccursOnce(accepted, i);
    }
  }

  lemma OccursOnce(s: seq<Request>, i: nat)
    requires i < |s| && DistinctIds(s)
    ensures Count(s, s[i]) == 1
  {
    CountTakeOut(s, i, s[i]);
    var rest := TakeOut(s, i);
    forall j | 0 <= j < |rest|
      ensures rest[j] != s[i]
    {
      assert rest[j] == s[if j < i then j else j + 1];
    }
    assert s[i] !in rest;
  }

  /** So no callback is ever attempted twice. */
  lemma CallbackAtMostOnce(run: seq<Action>, i: nat, j: nat)
    requires i < j < |After(Start(), run).b.done|
    ensures After(Start(), run).b.done[i].0 != After(Start(), run).b.done[j].0
  {
    var told := Told(After(Start(), run).b.done);
    EachRequestInOnePlace(run, told[i]);
    if told[i] == told[j] {
      TwiceCountsTwo(told, i, j);
    }
  }

  lemma TwiceCountsTwo(s: seq<Request>, i: nat, j: nat)
    requires i < j < |s| && s[i] == s[j]
    ensures Count(s, s[i]) >= 2
  {
    CountTakeOut(s, i, s[i]);
    assert TakeOut(s, i)[j - 1] == s[i];
  }

  // ---------- What a drain does ----------

  datatype Way = Again | Sent | Waits | Lost

  // Where an open, configured bucket puts a deferred command.
  function WayOf(answer: Answer): Way {
    match answer.route
    case NoSession => Again
    case NoConfig => Again
    case Stopped => if NodeNotAvailable in answer.granted then Waits else Lost
    case Ready => Sent
  }

  function Picked(commands: seq<Request>, answers: seq<Answer>, way: Way): seq<Request>
    requires |answers| == |commands|
  {
    if commands == [] then []
    else (if WayOf(answers[0]) == way then [commands[0]] else []) + Picked(commands[1..], answers[1..], way)
  }

  function TellClosed(commands: seq<Request>): seq<(Request, Error)> {
    seq(|commands|, i requires 0 <= i < |commands| => (commands[i], BucketClosed))
  }

  /** One pass over the deferred commands runs each of them once, in order. Those that are
      deferred again make up the new queue and are not run in this pass. */
  lemma DrainRunsEachOnceInOrder(b: Bucket, answers: seq<Answer>)
    requires |answers| == |b.deferred|
    ensures var d := Drain(b, answers);
            if b.closed then
              d == b.(deferred := [], done := b.done + TellClosed(b.deferred))
            else if !b.configured then d == b
            else
              d == b.(deferred := Picked(b.deferred, answers, Again),
                      inSession := b.inSession + Picked(b.deferred, answers, Sent),
                      backoff := b.backoff + Picked(b.deferred, answers, Waits),
                      forgotten := b.forgotten + Picked(b.deferred, answers, Lost))
  {
    var swapped := b.(deferred := []);
    if b.closed {
      ClosedRunTellsAll(swapped, b.deferred, answers);
    } else if !b.configured {
      UnconfiguredRunDefersAll(swapped, b.deferred, answers);
      assert [] + b.deferred == b.deferred;
    } else {
      OpenRunSplits(swapped, b.deferred, answers);
    }
  }

  function Put(b: Bucket, way: Way, rs: seq<Request>): Bucket {
    match way
    case Again => b.(deferred := b.deferred + rs)
    case Sent => b.(inSession := b.inSession + rs)
    case Waits => b.(backoff := b.backoff + rs)
    case Lost => b.(forgotten := b.forgotten + rs)
  }

  function PutAll(b: Bucket, again: seq<Request>, sent: seq<Request>, waits: seq<Request>, lost: seq<Request>): Bucket {
    Put(Put(Put(Put(b, Again, again), Sent, sent), Waits, waits), Lost, lost)
  }

  lemma PutFirst(b: Bucket, way: Way, r: Request, again: seq<Request>, sent: seq<Request>, waits: seq<Request>,
                 lost: seq<Request>)
    ensures PutAll(Put(b, way, [r]), again, sent, waits, lost)
         == PutAll(b, (if way == Again then [r] else []) + again, (if way == Sent then [r] else []) + sent,
                   (if way == Waits then [r] else []) + waits, (if way == Lost then [r] else []) + lost)
  {
    assert [] + again == again && [] + sent == sent && [] + waits == waits && [] + lost == lost;
  }

  lemma {:induction false} OpenRunSplits(b: Bucket, commands: seq<Request>, answers: seq<Answer>)
    requires |answers| == |commands| && !b.closed && b.configured
    ensures RunCommands(b, commands, answers)
         == PutAll(b, Picked(commands, answers, Again), Picked(commands, answers, Sent),
                   Picked(commands, answers, Waits), Picked(commands, answers, Lost))
    decreases |commands|
  {
    if commands != [] {
      var way := WayOf(answers[0]);
      assert Dispatch(b, commands[0], answers[0].route, answers[0].granted, true) == Put(b, way, [commands[0]]);
      var rest, others := commands[1..], answers[1..];
      OpenRunSplits(Put(b, way, [commands[0]]), rest, others);
      PutFirst(b, way, commands[0], Picked(rest, others, Again), Picked(rest, others, Sent),
               Picked(rest, others, Waits), Picked(rest, others, Lost));
    }
  }

  lemma {:induction false} UnconfiguredRunDefersAll(b: Bucket, commands: seq<Request>, answers: seq<Answer>)
    requires |answers| == |commands| && !b.closed && !b.configured
    ensures RunCommands(b, commands, answers) == b.(deferred := b.deferred + commands)
    decreases |commands|
  {
    if commands != [] {
      UnconfiguredRunDefersAll(b.Defer(commands[0]), commands[1..], answers[1..]);
      assert [commands[0]] + commands[1..] == commands;
    }
  }

  lemma {:induction false} ClosedRunTellsAll(b: Bucket, commands: seq<Request>, answers: seq<Answer>)
    requires |answers| == |commands| && b.closed
    ensures RunCommands(b, commands, answers) == b.(done := b.done + TellClosed(commands))
    decreases |commands|
  {
    if commands != [] {
      ClosedRunTellsAll(b.Finish(commands[0], BucketClosed), commands[1..], answers[1..]);
      assert [(commands[0], BucketClosed)] + TellClosed(commands[1..]) == TellClosed(commands);
    }
  }

  // ---------- Who is forgotten ----------

  // A response to a cancelled request whose retry is refused, with nobody told.
  ghost predicate RefusedSilently(q: Request, p: Response, granted: set<Reason>) {
    && p.error == RequestCanceled && (q.idempotent || AllowsNonIdempotentRetry(p.reason))
    && !ShouldRetry(if p.reason == DoNotRetry then NodeNotAvailable else p.reason, granted)
  }

  ghost function ForgottenBy(b: Bucket, a: Action): seq<Request> {
    match a
    case Answered(i, p, granted) =>
      if i < |b.inSession| && RefusedSilently(b.inSession[i], p, granted) then [b.inSession[i]] else []
    case DrainQueue(answers) =>
      if |answers| == |b.deferred| && !b.closed && b.configured then Picked(b.deferred, answers, Lost) else []
    case _ => []
  }

  /** A request is forgotten in exactly two ways: the retry of a cancelled one is refused, or a
      deferred one meets a stopped session and its retry is refused. */
  lemma ForgottenExactlyWhen(w: World, a: Action)
    ensures Apply(w, a).b.forgotten == w.b.forgotten + ForgottenBy(w.b, a)
  {
    match a
    case DrainQueue(answers) => if |answers| == |w.b.deferred| { DrainRunsEachOnceInOrder(w.b, answers); }
    case CloseIt(answers) =>
      if |answers| == |w.b.deferred| && !w.b.closed {
        DrainRunsEachOnceInOrder(w.b.(closed := true), answers);
      }
    case _ =>
  }

  ghost predicate Grants(granted: set<Reason>) {
    forall reason :: reason != DoNotRetry ==> reason in granted
  }

  ghost predicate GrantsAll(a: Action) {
    match a
    case Answered(i, p, granted) => Grants(granted)
    case DrainQueue(answers) => forall k :: 0 <= k < |answers| ==> Grants(answers[k].granted)
    case _ => true
  }

  lemma {:induction false} NobodyPicked(commands: seq<Request>, answers: seq<Answer>)
    requires |answers| == |commands| && forall k :: 0 <= k < |answers| ==> Grants(answers[k].granted)
    ensures Picked(commands, answers, Lost) == []
  {
    if commands != [] {
      assert NodeNotAvailable in answers[0].granted;
      NobodyPicked(commands[1..], answers[1..]);
    }
  }

  /** While the strategies grant their retries, no run forgets a request. */
  lemma {:induction false} NobodyForgottenWhileGranted(run: seq<Action>)
    requires forall i :: 0 <= i < |run| ==> GrantsAll(run[i])
    ensures After(Start(), run).b.forgotten == []
  {
    if run != [] {
      var n := |run| - 1;
      var w := After(Start(), run[..n]);
      NobodyForgottenWhileGranted(run[..n]);
      ForgottenExactlyWhen(w, run[n]);
      match run[n]
      case DrainQueue(answers) => if |answers| == |w.b.deferred| { NobodyPicked(w.b.deferred, answers); }
      case _ =>
    }
  }

  // ---------- After a close ----------

  // Somewhere in the run the deferred queue is drained once more.
  ghost predicate DrainsOnceMore(w: World, run: seq<Action>) {
    run != [] &&
    var n := |run| - 1;
    || DrainsOnceMore(w, run[..n])
    || (run[n].DrainQueue? && |run[n].answers| == |After(w, run[..n]).b.deferred|)
  }

  // What a closed bucket does to a request that is deferred or has been told.
  lemma ClosedStep(w: World, a: Action, r: Request)
    requires w.b.closed
    ensures Apply(w, a).b.closed
    ensures r in Told(w.b.done) ==> r in Told(Apply(w, a).b.done)
    ensures r in w.b.deferred ==>
              if a.DrainQueue? && |a.answers| == |w.b.deferred| then r in Told(Apply(w, a).b.done)
              else r in Apply(w, a).b.deferred
  {
    match a
    case NewRequest(q, route, granted) => ToldGrows(w.b.done, q, BucketClosed, r);
    case Answered(i, p, granted) =>
      if i < |w.b.inSession| {
        var fate := Resolve(w.b.inSession[i], p, granted);
        ToldGrows(w.b.done, w.b.inSession[i], if fate.CallBack? then fate.error else NoError, r);
      }
    case TimerFires(i, route, granted, encodes) =>
      if i < |w.b.backoff| {
        ToldGrows(w.b.done, w.b.backoff[i], ServiceUnavailable, r);
        ToldGrows(w.b.done, w.b.backoff[i], EncodingFailure, r);
      }
    case DrainQueue(answers) =>
      if |answers| == |w.b.deferred| {
        DrainRunsEachOnceInOrder(w.b, answers);
        ClosedAreTold(w.b.done, w.b.deferred, r);
      }
    case Configured =>
    case CloseIt(answers) =>
  }

  lemma ToldGrows(done: seq<(Request, Error)>, q: Request, error: Error, r: Request)
    ensures r in Told(done) ==> r in Told(done + [(q, error)])
  {
    assert Told(done + [(q, error)]) == Told(done) + [q];
  }

  lemma ClosedAreTold(done: seq<(Request, Error)>, commands: seq<Request>, r: Request)
    ensures r in Told(done) || r in commands ==> r in Told(done + TellClosed(commands))
  {
    assert Told(done + TellClosed(commands)) == Told(done) + commands;
  }

  lemma {:induction false} DeferredUntilDrained(w: World, r: Request, run: seq<Action>)
    requires w.b.closed && r in w.b.deferred
    ensures After(w, run).b.closed
    ensures if DrainsOnceMore(w, run) then r in Told(After(w, run).b.done) else r in After(w, run).b.deferred
  {
    if run != [] {
      var n := |run| - 1;
      DeferredUntilDrained(w, r, run[..n]);
      ClosedStep(After(w, run[..n]), run[n], r);
    }
  }

  lemma {:induction false} AfterBoth(w: World, first: seq<Action>, second: seq<Action>)
    ensures After(w, first + second) == After(After(w, first), second)
  {
    if second == [] {
      assert first + second == first;
    } else {
      var n := |second| - 1;
      AfterBoth(w, first, second[..n]);
      assert (first + second)[..|first + second| - 1] == first + second[..n];
    }
  }

  /** A request that is deferred when the bucket is closed is told so if and only if the
      deferred queue is drained once more. Otherwise it stays there. */
  lemma ToldExactlyWhenDrained(before: seq<Action>, r: Request, run: seq<Action>)
    requires After(Start(), before).b.closed && r in After(Start(), before).b.deferred
    ensures var w := After(Start(), before);
            && (r in Told(After(w, run).b.done) <==> DrainsOnceMore(w, run))
            && (r in After(w, run).b.deferred <==> !DrainsOnceMore(w, run))
  {
    var w := After(Start(), before);
    DeferredUntilDrained(w, r, run);
    AfterBoth(Start(), before, run);
    EachRequestInOnePlace(before + run, r);
  }

  /** So a request that is backing off when the bucket closes goes to the deferred queue when
      its timer fires and no session is left, and is called back if and only if someone drains
      that queue once more. */
  lemma ClosedBucketStrandsExactlyWhen(before: seq<Action>, i: nat, route: Route, granted: set<Reason>, encodes: bool,
                                       run: seq<Action>)
    requires After(Start(), before).b.closed && i < |After(Start(), before).b.backoff|
    requires route == NoSession || route == NoConfig
    ensures var r := After(Start(), before).b.backoff[i];
            var fired := After(Start(), before + [TimerFires(i, route, granted, encodes)]);
            r in Told(After(fired, run).b.done) <==> DrainsOnceMore(fired, run)
  {
    var w, timer := After(Start(), before), TimerFires(i, route, granted, encodes);
    assert (before + [timer])[..|before|] == before;
    var fired := After(Start(), before + [timer]);
    assert fired == Apply(w, timer);
    assert fired.b.deferred[|w.b.deferred|] == w.b.backoff[i];
    ToldExactlyWhenDrained(before + [timer], w.b.backoff[i], run);
  }

  // ---------- Runs that come to that ----------

  lemma AfterThree(w: World, a: Action, b: Action, c: Action)
    ensures After(w, [a, b, c]) == Apply(Apply(Apply(w, a), b), c)
  {
    assert [a][..0] == [] && After(w, [a]) == Apply(w, a);
    assert [a, b][..1] == [a] && After(w, [a, b]) == Apply(After(w, [a]), b);
    assert [a, b, c][..2] == [a, b];
  }

  /** A request that is cancelled in its session, and may not be retried, is forgotten. */
  lemma CancelledCanBeForgotten(r: Request)
    requires r.idempotent
    ensures var cancelled := Response(None, RequestCanceled, UnknownReason, false);
            After(Start(), [Configured, NewRequest(r, Ready, {}), Answered(0, cancelled, {})]).b.forgotten == [r]
  {
    var cancelled := Response(None, RequestCanceled, UnknownReason, false);
    AfterThree(Start(), Configured, NewRequest(r, Ready, {}), Answered(0, cancelled, {}));
    FirstIsSent(r);
    ForgottenExactlyWhen(OneSent(r), Answered(0, cancelled, {}));
  }

  function OneSent(r: Request): World {
    World(Start().b.(configured := true, inSession := [r]), [r])
  }

  lemma FirstIsSent(r: Request)
    ensures Apply(Apply(Start(), Configured), NewRequest(r, Ready, {})) == OneSent(r)
  {
  }

  /** So is one that is deferred and then meets a stopped session. */
  lemma DeferredCanBeForgotten(r: Request)
    ensures After(Start(), [NewRequest(r, Ready, {}), Configured, DrainQueue([Answer(Stopped, {})])]).b.forgotten == [r]
  {
    var drain := [Answer(Stopped, {})];
    AfterThree(Start(), NewRequest(r, Ready, {}), Configured, DrainQueue(drain));
    var waiting := Apply(Apply(Start(), NewRequest(r, Ready, {})), Configured);
    assert waiting.b.deferred == [r] && waiting.b.forgotten == [];
    ForgottenExactlyWhen(waiting, DrainQueue(drain));
    PickedOne(r, drain);
  }

  lemma PickedOne(r: Request, answers: seq<Answer>)
    requires answers == [Answer(Stopped, {})]
    ensures Picked([r], answers, Lost) == [r]
  {
    assert Picked([r][1..], answers[1..], Lost) == [];
  }

  /** A request that backs off while the bucket closes is deferred after it has closed, and is
      still there after any run that does not drain the queue once more. */
  lemma RequestCanBeStranded(r: Request, run: seq<Action>)
    ensures var close := [Configured, NewRequest(r, Stopped, {NodeNotAvailable}), CloseIt([])];
            var w := After(Start(), close + [TimerFires(0, NoSession, {}, true)]);
            && w.b.closed && w.b.deferred == [r] && w.b.done == []
            && (!DrainsOnceMore(w, run) ==> r in After(w, run).b.deferred && r !in Told(After(w, run).b.done))
  {
    var backsOff, timer := NewRequest(r, Stopped, {NodeNotAvailable}), TimerFires(0, NoSession, {}, true);
    var close := [Configured, backsOff, CloseIt([])];
    AfterThree(Start(), Configured, backsOff, CloseIt([]));
    assert (close + [timer])[..3] == close;
    var w := After(Start(), close + [timer]);
    assert w == Apply(After(Start(), close), timer);
    assert After(Start(), close).b.backoff == [r];
    ToldExactlyWhenDrained(close + [timer], r, run);
  }
}
