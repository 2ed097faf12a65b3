/**
 The same scan when the callbacks of different streams overlap: each access to a shared
 counter or queue is a step of its own. Callbacks at the same point are alike, so the
 state only counts how many there are at each point.

 select_vbucket runs under its own mutex, and only enqueue_vbucket can overlap with it, so
 an unsuccessful selection saw every queue empty when it began; it is one step here.
 */
module RangeScanRaces {
  // running: posted or sent attempts that have not come back to the manager.
  // Inside a callback: selecting is about to call select_vbucket, counting has a vbucket
  // and is about to increment active_stream_count_, posting is about to post its start;
  // enqueuing has decremented the count after a busy answer, checking has put the vbucket
  // back and is about to test the count.
  datatype Race = Race(
    concurrency: nat,
    pending: nat,
    counter: int,
    running: nat,
    selecting: nat,
    counting: nat,
    posting: nat,
    enqueuing: nat,
    checking: nat,
    cancelled: bool,
    busies: nat,
    declined: nat       // busy callbacks that found the count above zero
  )

  datatype Step =
    | AttemptCompletes
    | AttemptFailsFatally
    | AttemptIsBusy
    | Select
    | LeaveCancelled
    | Count
    | Post
    | Enqueue
    | Check
    | Cancel

  // The loop of the first start_streams call is at most as free as `concurrency` callbacks
  // that each want to start one stream.
  function Start(concurrency: nat, vbuckets: nat): Race {
    Race(concurrency, vbuckets, 0, 0, concurrency, 0, 0, 0, 0, false, 0, 0)
  }

  function Do(r: Race, step: Step): Race {
    match step
    case AttemptCompletes =>
      if r.running > 0 then
        r.(running := r.running - 1, counter := r.counter - 1, selecting := r.selecting + 1)
      else r
    case AttemptFailsFatally =>
      if r.running > 0 then r.(running := r.running - 1, counter := r.counter - 1, cancelled := true) else r
    case AttemptIsBusy =>
      if r.running > 0 then
        r.(running := r.running - 1, counter := r.counter - 1, enqueuing := r.enqueuing + 1, busies := r.busies + 1)
      else r
    case Select =>
      if r.selecting == 0 then r
      else if r.pending == 0 then r.(selecting := r.selecting - 1)
      else r.(selecting := r.selecting - 1, pending := r.pending - 1, counting := r.counting + 1)
    case LeaveCancelled =>
      if r.selecting > 0 && r.cancelled then r.(selecting := r.selecting - 1) else r
    case Count =>
      if r.counting > 0 then
        r.(counting := r.counting - 1, counter := r.counter + 1, posting := r.posting + 1)
      else r
    case Post =>
      if r.posting > 0 then r.(posting := r.posting - 1, running := r.running + 1) else r
    case Enqueue =>
      if r.enqueuing > 0 then
        r.(enqueuing := r.enqueuing - 1, pending := r.pending + 1, checking := r.checking + 1)
      else r
    case Check =>
      if r.checking == 0 then r
      else if r.counter == 0 then r.(checking := r.checking - 1, selecting := r.selecting + 1)
      else r.(checking := r.checking - 1, declined := r.declined + 1)
    case Cancel => r.(cancelled := true)
  }

  ghost function DoAll(r: Race, steps: seq<Step>): Race {
    if steps == [] then r else Do(DoAll(r, steps[..|steps| - 1]), steps[|steps| - 1])
  }

  ghost function InCallbacks(r: Race): nat {
    r.selecting + r.counting + r.posting + r.enqueuing + r.checking
  }

  ghost predicate RaceInv(r: Race) {
    && r.counter == r.running + r.posting
    && r.running + InCallbacks(r) + r.declined <= r.concurrency
    && (!r.cancelled && r.pending > 0 && r.concurrency > 0 ==> r.running + InCallbacks(r) > 0)
  }

  lemma StepKeepsInv(r: Race, step: Step)
    requires RaceInv(r)
    ensures RaceInv(Do(r, step)) && Do(r, step).concurrency == r.concurrency
  {
  }

  lemma {:induction false} EveryInterleavingKeepsInv(concurrency: nat, vbuckets: nat, steps: seq<Step>)
    ensures RaceInv(DoAll(Start(concurrency, vbuckets), steps))
    ensures DoAll(Start(concurrency, vbuckets), steps).concurrency == concurrency
  {
    if steps != [] {
      var earlier := steps[..|steps| - 1];
      EveryInterleavingKeepsInv(concurrency, vbuckets, earlier);
      StepKeepsInv(DoAll(Start(concurrency, vbuckets), earlier), steps[|steps| - 1]);
    }
  }

  // However the callbacks overlap: the atomic count is the number of attempts it stands
  // for, there are never more attempts than the concurrency allows, and each busy callback
  // that found another attempt lowers that bound for good.
  lemma AttemptsStayBounded(concurrency: nat, vbuckets: nat, steps: seq<Step>)
    ensures var r := DoAll(Start(concurrency, vbuckets), steps);
            && 0 <= r.counter == r.running + r.posting
            && r.running + r.posting + r.counting <= concurrency - r.declined
  {
    EveryInterleavingKeepsInv(concurrency, vbuckets, steps);
  }

  // Between callbacks, an uncancelled scan with pending vbuckets has an attempt under way.
  lemma NoStallWhenCallbacksAreDone(concurrency: nat, vbuckets: nat, steps: seq<Step>)
    requires concurrency > 0
    ensures var r := DoAll(Start(concurrency, vbuckets), steps);
            !r.cancelled && r.pending > 0 && InCallbacks(r) == 0 ==> r.running > 0
  {
    EveryInterleavingKeepsInv(concurrency, vbuckets, steps);
  }

  ghost predicate Possible(concurrency: nat, vbuckets: nat, r: Race) {
    exists steps :: r == DoAll(Start(concurrency, vbuckets), steps)
  }

  lemma TwoMore(concurrency: nat, vbuckets: nat, r: Race, step: Step) returns (r': Race)
    requires Possible(concurrency, vbuckets, r)
    ensures r' == Do(Do(r, step), step) && Possible(concurrency, vbuckets, r')
  {
    var steps :| r == DoAll(Start(concurrency, vbuckets), steps);
    r' := Do(Do(r, step), step);
    var longer := steps + [step];
    assert longer[..|steps|] == steps;
    assert (longer + [step])[..|longer|] == longer;
    assert r' == DoAll(Start(concurrency, vbuckets), longer + [step]);
  }

  lemma TwoStarts(r: Race)
    requires r.selecting == 2 && r.pending == 2 && r.counting == r.posting == 0
    ensures Do(Do(r, Select), Select) == r.(selecting := 0, pending := 0, counting := 2)
    ensures var counting := r.(selecting := 0, pending := 0, counting := 2);
            var posting := counting.(counting := 0, counter := r.counter + 2, posting := 2);
            && Do(Do(counting, Count), Count) == posting
            && Do(Do(posting, Post), Post) == posting.(posting := 0, running := r.running + 2)
  {
  }

  lemma BothStart(r: Race)
    requires Possible(2, 2, r) && r.selecting == 2 && r.pending == 2 && r.counting == r.posting == 0
    ensures Possible(2, 2, r.(selecting := 0, pending := 0, counter := r.counter + 2, running := r.running + 2))
  {
    TwoStarts(r);
    var r1 := TwoMore(2, 2, r, Select);
    var r2 := TwoMore(2, 2, r1, Count);
    var r3 := TwoMore(2, 2, r2, Post);
  }

  lemma BothAreBusy(r: Race)
    requires Possible(2, 2, r) && r.running == r.counter == 2 && r.selecting == r.enqueuing == r.checking == 0
    ensures Possible(2, 2, r.(running := 0, counter := 0, selecting := 2, pending := r.pending + 2,
                              busies := r.busies + 2))
  {
    var r1 := TwoMore(2, 2, r, AttemptIsBusy);
    assert r1 == r.(running := 0, counter := 0, enqueuing := 2, busies := r.busies + 2);
    var r2 := TwoMore(2, 2, r1, Enqueue);
    assert r2 == r.(running := 0, counter := 0, pending := r.pending + 2, checking := 2, busies := r.busies + 2);
    var r3 := TwoMore(2, 2, r2, Check);
  }

  // The back-off bound max(1, concurrency - busies) needs atomic callbacks: two busy
  // answers that overlap both find the count at zero, and both start a stream again.
  lemma OverlappingBusyAnswersDoNotBackOff()
    ensures exists r :: Possible(2, 2, r) && r.busies == 2 && r.running == 2 && InCallbacks(r) == 0
  {
    var nothing: seq<Step> := [];
    assert Start(2, 2) == DoAll(Start(2, 2), nothing);
    BothStart(Start(2, 2));
    var started := Race(2, 0, 2, 2, 0, 0, 0, 0, 0, false, 0, 0);
    BothAreBusy(started);
    BothStart(Race(2, 2, 0, 0, 2, 0, 0, 0, 0, false, 2, 0));
    assert Possible(2, 2, Race(2, 0, 2, 2, 0, 0, 0, 0, 0, false, 2, 0));
  }
}
