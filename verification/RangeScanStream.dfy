/**
 One vbucket's scan stream. Every callback is a method; what it tells the stream
 manager is its Notice, what it asks of the io_context or the agent is its Task.
 */
module RangeScanStream {
  import opened Wrappers

  datatype ErrorCode =
    | DocumentNotFound
    | TemporaryFailure
    | InternalServerFailure
    | CollectionNotFound
    | AuthenticationFailure
    | RequestCanceled
    | FeatureNotAvailable
    | InvalidArgument
    | UnambiguousTimeout
    | UnexpectedError(code: int)

  datatype ScanKind = RangeScan | PrefixScan | SamplingScan

  // The variant state_: std::monostate, failed, running or completed.
  datatype State = NotRunning | Failed(ec: ErrorCode, fatal: bool) | Running | Completed

  datatype ScanItem = ScanItem(key: string, body: seq<bv8>)

  datatype Notice =
    | Silent
    | ItemReceived(item: ScanItem)
    | StreamCompleted
    | StreamFailed(ec: ErrorCode, fatal: bool)
    | StartFailedAwaitingRetry

  datatype Task = NoTask | SendCreate | PostContinue | PostCancel

  datatype BatchEnd = BatchError(ec: ErrorCode) | BatchComplete | BatchMore | BatchNeither

  datatype Stream = Stream(
    node: int,
    kind: ScanKind,
    from: Option<string>,      // set once the start of the range is moved behind a seen key
    lastSeenKey: string,
    state: State,
    shouldCancel: bool,
    attempted: bool            // first_attempt_timestamp_ has a value
  )

  datatype Outcome = Outcome(stream: Stream, notice: Notice, task: Task)

  function NewStream(node: int, kind: ScanKind): Stream {
    Stream(node, kind, None, "", NotRunning, false, false)
  }

  // timedOut is what the clock says about a retry; it is not asked on the first attempt.
  function Start(s: Stream, timedOut: bool): Outcome {
    if s.attempted && timedOut then
      var fatal := !s.kind.SamplingScan?;
      Outcome(s.(state := Failed(UnambiguousTimeout, fatal)), StreamFailed(UnambiguousTimeout, fatal), NoTask)
    else
      var s := s.(attempted := true);
      var s := if s.kind.RangeScan? && s.lastSeenKey != "" then s.(from := Some(s.lastSeenKey)) else s;
      Outcome(s, Silent, SendCreate)
  }

  function Resume(s: Stream): Outcome {
    if !s.state.Running? then Outcome(s, Silent, NoTask)
    else if s.shouldCancel then Outcome(s, Silent, PostCancel)
    else Outcome(s, Silent, PostContinue)
  }

  function CreateAnswered(s: Stream, error: Option<ErrorCode>): Outcome {
    match error
    case None => Resume(s.(state := Running))
    case Some(TemporaryFailure) => Outcome(s.(state := NotRunning), StartFailedAwaitingRetry, NoTask)
    case Some(ec) =>
      var fatal := ec != DocumentNotFound;
      Outcome(s.(state := Failed(ec, fatal)), StreamFailed(ec, fatal), NoTask)
  }

  function FatalInBatch(kind: ScanKind, ec: ErrorCode): bool {
    match ec
    case DocumentNotFound => !kind.SamplingScan?
    case AuthenticationFailure => !kind.SamplingScan?
    case CollectionNotFound => !kind.SamplingScan?
    case RequestCanceled => !kind.SamplingScan?
    case _ => true
  }

  function ItemArrived(s: Stream, item: ScanItem): Outcome {
    if s.shouldCancel then Outcome(s, Silent, NoTask)
    else Outcome(s.(lastSeenKey := item.key), ItemReceived(item), NoTask)
  }

  function BatchEnded(s: Stream, end: BatchEnd): Outcome {
    match end
    case BatchError(ec) =>
      if s.state.Failed? then Outcome(s, Silent, NoTask)
      else
        var fatal := FatalInBatch(s.kind, ec);
        Outcome(s.(state := Failed(ec, fatal)), StreamFailed(ec, fatal), NoTask)
    case BatchComplete =>
      if s.state.Failed? || s.state.Completed? then Outcome(s, Silent, NoTask)
      else Outcome(s.(state := Completed), StreamCompleted, NoTask)
    case BatchMore => Resume(s)
    case BatchNeither => Outcome(s, Silent, NoTask)
  }

  predicate Terminal(state: State) {
    state.Failed? || state.Completed?
  }

  // The stream object itself. View() is its value.
  class RangeScanStream {
    const node: int
    const kind: ScanKind
    var from: Option<string>
    var lastSeenKey: string
    var state: State
    var shouldCancel: bool
    var attempted: bool

    ghost function View(): Stream
      reads this
    {
      Stream(node, kind, from, lastSeenKey, state, shouldCancel, attempted)
    }

    constructor (node: int, kind: ScanKind)
      ensures View() == NewStream(node, kind)
    {
      this.node, this.kind := node, kind;
      from, lastSeenKey, state, shouldCancel, attempted := None, "", NotRunning, false, false;
    }

    method StartAttempt(timedOut: bool) returns (notice: Notice, task: Task)
      modifies this
      ensures Outcome(View(), notice, task) == Start(old(View()), timedOut)
    {
      if attempted {
        if timedOut {
          var fatal := !kind.SamplingScan?;
          state := Failed(UnambiguousTimeout, fatal);
          return StreamFailed(UnambiguousTimeout, fatal), NoTask;
        }
      } else {
        attempted := true;
      }
      if kind.RangeScan? && lastSeenKey != "" {
        from := Some(lastSeenKey);
      }
      return Silent, SendCreate;
    }

    method OnCreateAnswer(error: Option<ErrorCode>) returns (notice: Notice, task: Task)
      modifies this
      ensures Outcome(View(), notice, task) == CreateAnswered(old(View()), error)
    {
      if error.Some? {
        var ec := error.value;
        if ec == DocumentNotFound {
          state := Failed(ec, false);
          return StreamFailed(ec, false), NoTask;
        } else if ec == TemporaryFailure {
          state := NotRunning;
          return StartFailedAwaitingRetry, NoTask;
        } else {
          state := Failed(ec, true);
          return StreamFailed(ec, true), NoTask;
        }
      }
      state := Running;
      notice, task := ResumeScan();
    }

    method ResumeScan() returns (notice: Notice, task: Task)
      ensures Outcome(View(), notice, task) == Resume(View())
    {
      if !state.Running? {
        return Silent, NoTask;
      }
      if shouldCancel {
        return Silent, PostCancel;
      }
      return Silent, PostContinue;
    }

    method OnItem(item: ScanItem) returns (notice: Notice)
      modifies this
      ensures Outcome(View(), notice, NoTask) == ItemArrived(old(View()), item)
    {
      if shouldCancel {
        return Silent;
      }
      lastSeenKey := item.key;
      return ItemReceived(item);
    }

    method OnBatchEnd(end: BatchEnd) returns (notice: Notice, task: Task)
      modifies this
      ensures Outcome(View(), notice, task) == BatchEnded(old(View()), end)
    {
      match end
      case BatchError(ec) =>
        notice := Fail(ec);
        return notice, NoTask;
      case BatchComplete =>
        if state.Failed? || state.Completed? {
          return Silent, NoTask;
        }
        state := Completed;
        return StreamCompleted, NoTask;
      case BatchMore =>
        notice, task := ResumeScan();
      case BatchNeither =>
        return Silent, NoTask;
    }

    method Fail(ec: ErrorCode) returns (notice: Notice)
      modifies this
      ensures Outcome(View(), notice, NoTask) == BatchEnded(old(View()), BatchError(ec))
    {
      if state.Failed? {
        return Silent;
      }
      var fatal := true;
      if ec == DocumentNotFound || ec == AuthenticationFailure || ec == CollectionNotFound || ec == RequestCanceled {
        fatal := !kind.SamplingScan?;
      }
      state := Failed(ec, fatal);
      return StreamFailed(ec, fatal);
    }
  }
}
