/** The webhook's duplicate test under any interleaving of any number of requests: a check
    under the read lock, a second check and the mark under the write lock, then a
    non-blocking send to the job queue. */
module Webhook {
  import opened Lists

  datatype Job = Job(eventID: string, kind: string, objectID: string, created: int)

  type Thread = nat

  /** Where a request stands: parsed, past the read-locked check, told "not duplicate". */
  datatype Request = Parsed(job: Job) | Unseen(job: Job) | Claimed(job: Job)

  /** The first line is the program's state, the rest the history. */
  datatype State = State(
    seen: set<string>, requests: map<Thread, Request>, jobs: seq<Job>,
    parsed: seq<string>, duplicates: nat, claims: seq<string>, enqueued: seq<Job>, full: seq<string>,
    processed: seq<Job>)

  function Init(): State {
    State({}, map[], [], [], 0, [], [], [], [])
  }

  function QueueDepth(configured: int): (depth: nat)
    ensures depth >= 1
  {
    if configured <= 0 then 1000 else configured
  }

  datatype Step =
    | Arrive(thread: Thread, job: Job)  // a verified request with this event
    | ReadCheck(thread: Thread)         // isDuplicate: under the read lock
    | WriteCheck(thread: Thread)        // isDuplicate: under the write lock
    | Offer(thread: Thread)             // the non-blocking send
    | Process                           // processJobs takes the next job

  predicate Enabled(s: State, step: Step) {
    match step
    case Arrive(t, _) => t !in s.requests
    case ReadCheck(t) => t in s.requests && s.requests[t].Parsed?
    case WriteCheck(t) => t in s.requests && s.requests[t].Unseen?
    case Offer(t) => t in s.requests && s.requests[t].Claimed?
    case Process => s.jobs != []
  }

  function Duplicate(s: State, t: Thread): State {
    s.(requests := s.requests - {t}, duplicates := s.duplicates + 1)
  }

  function Next(depth: nat, s: State, step: Step): State
    requires Enabled(s, step)
  {
    match step
    case Arrive(t, job) => s.(requests := s.requests[t := Parsed(job)], parsed := s.parsed + [job.eventID])
    case ReadCheck(t) =>
      var job := s.requests[t].job;
      if job.eventID in s.seen then Duplicate(s, t) else s.(requests := s.requests[t := Unseen(job)])
    case WriteCheck(t) =>
      var job := s.requests[t].job;
      if job.eventID in s.seen then Duplicate(s, t)
      else s.(seen := s.seen + {job.eventID}, requests := s.requests[t := Claimed(job)],
              claims := s.claims + [job.eventID])
    case Offer(t) =>
      var job := s.requests[t].job;
      if |s.jobs| < depth then
        s.(requests := s.requests - {t}, jobs := s.jobs + [job], enqueued := s.enqueued + [job])
      else s.(requests := s.requests - {t}, full := s.full + [job.eventID])
    case Process => s.(jobs := s.jobs[1..], processed := s.processed + [s.jobs[0]])
  }

  predicate IsRun(depth: nat, s: State, steps: seq<Step>)
    decreases |steps|
  {
    steps == [] || (Enabled(s, steps[0]) && IsRun(depth, Next(depth, s, steps[0]), steps[1..]))
  }

  function Run(depth: nat, s: State, steps: seq<Step>): State
    requires IsRun(depth, s, steps)
    decreases |steps|
  {
    if steps == [] then s else Run(depth, Next(depth, s, steps[0]), steps[1..])
  }

  // ----- the invariant ------------------------------------------------------------------

  function IDs(jobs: seq<Job>): seq<string> {
    Map((job: Job) => job.eventID, jobs)
  }

  /** Claims are unique, and what was claimed is what is marked. */
  ghost predicate ClaimsInv(s: State) {
    && Distinct(s.claims)
    && (forall id :: id in s.claims <==> id in s.seen)
  }

  /** A claim is held by one request, or was enqueued, or met a full queue; never two of these. */
  ghost predicate FateInv(s: State) {
    && Distinct(IDs(s.enqueued)) && Distinct(s.full)
    && (forall id :: id in IDs(s.enqueued) ==> id in s.seen && id !in s.full)
    && (forall id :: id in s.full ==> id in s.seen)
    && (forall t :: t in s.requests && s.requests[t].Claimed? ==>
          var id := s.requests[t].job.eventID;
          id in s.seen && id !in IDs(s.enqueued) && id !in s.full)
    && (forall t, u :: t in s.requests && u in s.requests && t != u
                       && s.requests[t].Claimed? && s.requests[u].Claimed? ==>
          s.requests[t].job.eventID != s.requests[u].job.eventID)
  }

  /** Every claim is accounted for: it was enqueued, met a full queue, or is under way. */
  ghost predicate AccountedInv(s: State) {
    forall id :: id in s.seen ==> id in IDs(s.enqueued) || id in s.full || Held(s, id)
  }

  ghost predicate Held(s: State, id: string) {
    exists t :: t in s.requests && s.requests[t].Claimed? && s.requests[t].job.eventID == id
  }

  ghost predicate OrderInv(depth: nat, s: State) {
    s.enqueued == s.processed + s.jobs && |s.jobs| <= depth
  }

  ghost predicate CountInv(s: State) {
    |s.parsed| == s.duplicates + |s.enqueued| + |s.full| + |s.requests|
  }

  /** Every event that was parsed is marked, or its request is still before the mark. */
  ghost predicate PendingInv(s: State) {
    && (forall id :: id in s.seen ==> id in s.parsed)
    && (forall id :: id in s.parsed && id !in s.seen ==> Awaited(s, id))
    && (forall t :: t in s.requests ==> s.requests[t].job.eventID in s.parsed)
  }

  ghost predicate Awaited(s: State, id: string) {
    exists t :: t in s.requests && !s.requests[t].Claimed? && s.requests[t].job.eventID == id
  }

  ghost predicate Inv(depth: nat, s: State) {
    ClaimsInv(s) && FateInv(s) && AccountedInv(s) && OrderInv(depth, s) && CountInv(s) && PendingInv(s)
  }

  lemma ClaimsStep(depth: nat, s: State, step: Step)
    requires ClaimsInv(s) && Enabled(s, step)
    ensures ClaimsInv(Next(depth, s, step))
  {
  }

  lemma IDsAppend(jobs: seq<Job>, job: Job)
    ensures IDs(jobs + [job]) == IDs(jobs) + [job.eventID]
  {
  }

  lemma FateStep(depth: nat, s: State, step: Step)
    requires FateInv(s) && Enabled(s, step)
    ensures FateInv(Next(depth, s, step))
  {
    if step.Offer? { IDsAppend(s.enqueued, s.requests[step.thread].job); }
  }

  lemma AccountedStep(depth: nat, s: State, step: Step)
    requires AccountedInv(s) && Enabled(s, step)
    ensures AccountedInv(Next(depth, s, step))
  {
    var n := Next(depth, s, step);
    if step.Offer? { IDsAppend(s.enqueued, s.requests[step.thread].job); }
    forall id | id in n.seen ensures id in IDs(n.enqueued) || id in n.full || Held(n, id) {
      if id !in s.seen {
        assert n.requests[step.thread].job.eventID == id;
      } else if Held(s, id) {
        var t :| t in s.requests && s.requests[t].Claimed? && s.requests[t].job.eventID == id;
        assert t in n.requests ==> n.requests[t] == s.requests[t];
      }
    }
  }

  lemma MapSizes<K, V>(m: map<K, V>, k: K, v: V)
    ensures k in m ==> |m - {k}| == |m| - 1 && |m[k := v]| == |m|
    ensures k !in m ==> |m[k := v]| == |m| + 1
  {
    assert (m - {k}).Keys == m.Keys - {k};
    assert m[k := v].Keys == m.Keys + {k};
    assert |m| == |m.Keys| && |m - {k}| == |(m - {k}).Keys| && |m[k := v]| == |m[k := v].Keys|;
  }

  lemma OrderStep(depth: nat, s: State, step: Step)
    requires OrderInv(depth, s) && Enabled(s, step)
    ensures OrderInv(depth, Next(depth, s, step))
  {
    match step {
      case Offer(t) => assert s.enqueued + [s.requests[t].job] == s.processed + (s.jobs + [s.requests[t].job]);
      case Process => assert s.jobs == [s.jobs[0]] + s.jobs[1..];
      case _ =>
    }
  }

  lemma CountStep(depth: nat, s: State, step: Step)
    requires CountInv(s) && Enabled(s, step)
    ensures CountInv(Next(depth, s, step))
  {
    match step {
      case Arrive(t, job) => MapSizes(s.requests, t, Parsed(job));
      case ReadCheck(t) => MapSizes(s.requests, t, Unseen(s.requests[t].job));
      case WriteCheck(t) => MapSizes(s.requests, t, Claimed(s.requests[t].job));
      case Offer(t) => MapSizes(s.requests, t, s.requests[t]);
      case Process =>
    }
  }

  lemma PendingStep(depth: nat, s: State, step: Step)
    requires PendingInv(s) && Enabled(s, step)
    ensures PendingInv(Next(depth, s, step))
  {
    var n := Next(depth, s, step);
    forall id | id in n.parsed && id !in n.seen ensures Awaited(n, id) {
      if id in s.parsed {
        var t :| t in s.requests && !s.requests[t].Claimed? && s.requests[t].job.eventID == id;
        assert t in n.requests && !n.requests[t].Claimed? && n.requests[t].job.eventID == id;
      } else {
        assert step.Arrive? && n.requests[step.thread].job.eventID == id;
      }
    }
  }

  lemma StepKeepsInv(depth: nat, s: State, step: Step)
    requires Inv(depth, s) && Enabled(s, step)
    ensures Inv(depth, Next(depth, s, step))
  {
    ClaimsStep(depth, s, step);
    FateStep(depth, s, step);
    AccountedStep(depth, s, step);
    OrderStep(depth, s, step);
    CountStep(depth, s, step);
    PendingStep(depth, s, step);
  }

  lemma {:induction false} RunKeepsInv(depth: nat, s: State, steps: seq<Step>)
    requires Inv(depth, s) && IsRun(depth, s, steps)
    ensures Inv(depth, Run(depth, s, steps))
    decreases |steps|
  {
    if steps != [] {
      StepKeepsInv(depth, s, steps[0]);
      RunKeepsInv(depth, Next(depth, s, steps[0]), steps[1..]);
    }
  }

  // ----- the theorems -------------------------------------------------------------------

  /** No event is told "not duplicate", enqueued or processed twice, and jobs are processed in
      the order in which they were enqueued. */
  lemma AtMostOnce(depth: nat, steps: seq<Step>)
    requires IsRun(depth, Init(), steps)
    ensures var s := Run(depth, Init(), steps);
            && Distinct(s.claims) && Distinct(IDs(s.enqueued)) && Distinct(IDs(s.processed))
            && s.processed <= s.enqueued
  {
    RunKeepsInv(depth, Init(), steps);
    var s := Run(depth, Init(), steps);
    forall i, j | 0 <= i < j < |s.processed| ensures IDs(s.processed)[i] != IDs(s.processed)[j] {
      assert IDs(s.enqueued)[i] != IDs(s.enqueued)[j];
    }
  }

  ghost predicate JobsFrom(s: State, known: set<Job>) {
    && (forall t :: t in s.requests ==> s.requests[t].job in known)
    && (forall job :: job in s.enqueued ==> job in known)
    && (forall job :: job in s.jobs ==> job in known)
    && (forall job :: job in s.processed ==> job in known)
  }

  lemma {:induction false} RunKeepsJobs(depth: nat, s: State, steps: seq<Step>, known: set<Job>)
    requires IsRun(depth, s, steps) && JobsFrom(s, known)
    requires forall step :: step in steps && step.Arrive? ==> step.job in known
    ensures JobsFrom(Run(depth, s, steps), known)
    decreases |steps|
  {
    if steps != [] {
      assert steps[0] in steps;
      RunKeepsJobs(depth, Next(depth, s, steps[0]), steps[1..], known);
    }
  }

  /** What is enqueued, and processed, is a whole job as some request brought it: ID, kind,
      object and time belong together. */
  lemma JobsArriveWhole(depth: nat, steps: seq<Step>, job: Job)
    requires IsRun(depth, Init(), steps)
    requires job in Run(depth, Init(), steps).enqueued || job in Run(depth, Init(), steps).processed
    ensures exists t: Thread :: Arrive(t, job) in steps
  {
    var known := set step | step in steps && step.Arrive? :: step.job;
    RunKeepsJobs(depth, Init(), steps, known);
    var step :| step in steps && step.Arrive? && step.job == job;
    assert step == Arrive(step.thread, job);
  }

  /** Once no request is under way, every parsed event has been told "not duplicate" exactly
      once, and the counters add up. */
  lemma ExactlyOnceWhenQuiescent(depth: nat, steps: seq<Step>)
    requires IsRun(depth, Init(), steps)
    requires Run(depth, Init(), steps).requests == map[]
    ensures var s := Run(depth, Init(), steps);
            && (forall id :: id in s.parsed ==> multiset(s.claims)[id] == 1)
            && |s.parsed| == s.duplicates + |s.enqueued| + |s.full|
  {
    RunKeepsInv(depth, Init(), steps);
    var s := Run(depth, Init(), steps);
    forall id | id in s.parsed ensures multiset(s.claims)[id] == 1 {
      assert !Awaited(s, id);
      DistinctCount(s.claims, id);
    }
  }

  lemma {:induction false} FullGrows(depth: nat, s: State, steps: seq<Step>)
    requires IsRun(depth, s, steps)
    ensures s.full <= Run(depth, s, steps).full
    decreases |steps|
  {
    if steps != [] { FullGrows(depth, Next(depth, s, steps[0]), steps[1..]); }
  }

  /** An event that met a full queue stays marked: no later delivery of it is ever enqueued. */
  lemma DroppedForGood(depth: nat, steps: seq<Step>, later: seq<Step>, id: string)
    requires IsRun(depth, Init(), steps) && id in Run(depth, Init(), steps).full
    requires IsRun(depth, Run(depth, Init(), steps), later)
    ensures id !in IDs(Run(depth, Run(depth, Init(), steps), later).enqueued)
  {
    RunKeepsInv(depth, Init(), steps);
    RunKeepsInv(depth, Run(depth, Init(), steps), later);
    FullGrows(depth, Run(depth, Init(), steps), later);
  }

  /** Once no request is under way, a parsed event has been enqueued exactly if it did not meet
      a full queue. */
  lemma EnqueuedIffNotFull(depth: nat, steps: seq<Step>, id: string)
    requires IsRun(depth, Init(), steps)
    requires Run(depth, Init(), steps).requests == map[]
    requires id in Run(depth, Init(), steps).parsed
    ensures var s := Run(depth, Init(), steps);
            id in IDs(s.enqueued) <==> id !in s.full
  {
    RunKeepsInv(depth, Init(), steps);
    var s := Run(depth, Init(), steps);
    assert !Awaited(s, id) && !Held(s, id);
  }

  // ----- when an event can be dropped ---------------------------------------------------

  /** The requests carry events from `ids` only, each as often as it likes. */
  predicate Within(steps: seq<Step>, ids: set<string>) {
    forall step :: step in steps && step.Arrive? ==> step.job.eventID in ids
  }

  ghost predicate NeverDrops(depth: nat, ids: set<string>) {
    forall steps: seq<Step> ::
      IsRun(depth, Init(), steps) && Within(steps, ids) ==> Run(depth, Init(), steps).full == []
  }

  lemma {:induction false} DistinctFits(xs: seq<string>, ids: set<string>)
    requires Distinct(xs) && forall x :: x in xs ==> x in ids
    ensures |xs| <= |ids|
  {
    if xs != [] {
      var last := xs[|xs| - 1];
      DistinctFits(xs[..|xs| - 1], ids - {last});
    }
  }

  /** With no more events than places, every claim finds one. */
  lemma OfferFits(depth: nat, s: State, ids: set<string>, t: Thread)
    requires Inv(depth, s) && Enabled(s, Offer(t))
    requires (forall id :: id in s.parsed ==> id in ids) && |ids| <= depth
    ensures |s.jobs| < depth
  {
    var id := s.requests[t].job.eventID;
    assert id in s.parsed;
    DistinctFits(IDs(s.enqueued), ids - {id});
  }

  lemma {:induction false} FewEventsFit(depth: nat, s: State, steps: seq<Step>, ids: set<string>)
    requires Inv(depth, s) && IsRun(depth, s, steps) && Within(steps, ids) && |ids| <= depth
    requires (forall id :: id in s.parsed ==> id in ids) && s.full == []
    ensures Run(depth, s, steps).full == []
    decreases |steps|
  {
    if steps != [] {
      assert steps[0] in steps;
      if steps[0].Offer? { OfferFits(depth, s, ids, steps[0].thread); }
      StepKeepsInv(depth, s, steps[0]);
      FewEventsFit(depth, Next(depth, s, steps[0]), steps[1..], ids);
    }
  }

  lemma RunCons(depth: nat, s: State, step: Step, rest: seq<Step>)
    requires Enabled(s, step) && IsRun(depth, Next(depth, s, step), rest)
    ensures IsRun(depth, s, [step] + rest)
    ensures Run(depth, s, [step] + rest) == Run(depth, Next(depth, s, step), rest)
  {
    assert ([step] + rest)[1..] == rest;
  }

  function JobOf(id: string): Job {
    Job(id, "", "", 0)
  }

  /** One whole request with a new event. */
  function Served(depth: nat, s: State, id: string): State
    requires s.requests == map[] && id !in s.seen
  {
    Next(depth, Next(depth, Next(depth, Next(depth, s, Arrive(0, JobOf(id))), ReadCheck(0)), WriteCheck(0)), Offer(0))
  }

  lemma ServedIs(depth: nat, s: State, id: string)
    requires s.requests == map[] && id !in s.seen
    ensures var n := Served(depth, s, id);
            && n.requests == map[] && n.seen == s.seen + {id}
            && (|s.jobs| < depth ==> n.jobs == s.jobs + [JobOf(id)] && n.full == s.full)
            && (|s.jobs| >= depth ==> n.full == s.full + [id])
  {
    assert s.requests[0 := Parsed(JobOf(id))][0 := Unseen(JobOf(id))][0 := Claimed(JobOf(id))] - {0} == map[];
  }

  lemma ServeFirst(depth: nat, s: State, id: string, rest: seq<Step>) returns (steps: seq<Step>)
    requires s.requests == map[] && id !in s.seen && IsRun(depth, Served(depth, s, id), rest)
    ensures IsRun(depth, s, steps) && Run(depth, s, steps) == Run(depth, Served(depth, s, id), rest)
    ensures forall step :: step in steps && step.Arrive? ==> step.job.eventID == id || step in rest
  {
    var a, b, d, e := Arrive(0, JobOf(id)), ReadCheck(0), WriteCheck(0), Offer(0);
    var s1 := Next(depth, s, a);
    var s2 := Next(depth, s1, b);
    var s3 := Next(depth, s2, d);
    RunCons(depth, s3, e, rest);
    RunCons(depth, s2, d, [e] + rest);
    RunCons(depth, s1, b, [d] + ([e] + rest));
    RunCons(depth, s, a, [b] + ([d] + ([e] + rest)));
    steps := [a] + ([b] + ([d] + ([e] + rest)));
  }

  /** More new events than places left: some run drops one. */
  lemma {:induction false} ManyEventsOverflow(depth: nat, s: State, ids: set<string>) returns (steps: seq<Step>)
    requires s.requests == map[] && ids !! s.seen
    requires |s.jobs| <= depth < |s.jobs| + |ids|
    ensures IsRun(depth, s, steps) && Within(steps, ids)
    ensures Run(depth, s, steps).full != []
    decreases |ids|
  {
    var id :| id in ids;
    ServedIs(depth, s, id);
    var rest: seq<Step> := [];
    if |s.jobs| < depth {
      rest := ManyEventsOverflow(depth, Served(depth, s, id), ids - {id});
    }
    steps := ServeFirst(depth, s, id, rest);
  }

  /** No run over the events `ids` ever drops one exactly when the queue has a place for each
      of them. */
  lemma NeverDropsIff(depth: nat, ids: set<string>)
    ensures NeverDrops(depth, ids) <==> |ids| <= depth
  {
    if |ids| <= depth {
      forall steps: seq<Step> | IsRun(depth, Init(), steps) && Within(steps, ids)
        ensures Run(depth, Init(), steps).full == []
      {
        FewEventsFit(depth, Init(), steps, ids);
      }
    } else {
      var steps := ManyEventsOverflow(depth, Init(), ids);
    }
  }

  /** The queue has as many places as configured, 1000 unless that is positive. */
  lemma ConfiguredPlaces(configured: int, ids: set<string>)
    ensures configured <= 0 ==> (NeverDrops(QueueDepth(configured), ids) <==> |ids| <= 1000)
    ensures configured > 0 ==> (NeverDrops(QueueDepth(configured), ids) <==> |ids| <= configured)
  {
    NeverDropsIff(QueueDepth(configured), ids);
  }

  function Repeated(n: nat): string {
    seq(n, _ => 'e')
  }

  lemma {:induction false} ManyIDs(n: nat) returns (ids: set<string>)
    ensures |ids| == n && forall id :: id in ids ==> |id| < n
  {
    ids := {};
    if n > 0 {
      var fewer := ManyIDs(n - 1);
      assert Repeated(n - 1) !in fewer;
      ids := fewer + {Repeated(n - 1)};
    }
  }

  /** Under every configuration some run drops an event, which `DroppedForGood` makes final. */
  lemma DropsHappen(configured: int)
    ensures exists steps: seq<Step> ::
              IsRun(QueueDepth(configured), Init(), steps) && Run(QueueDepth(configured), Init(), steps).full != []
  {
    var ids := ManyIDs(QueueDepth(configured) + 1);
    var steps := ManyEventsOverflow(QueueDepth(configured), Init(), ids);
  }
}
