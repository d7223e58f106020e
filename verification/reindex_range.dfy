/** The reindex range endpoints: creating a job, reconciling it, and continuing it under a lease. */
module ReindexRange {
  import opened Wrappers
  import opened TextOrder
  import opened ReindexJobs

  datatype Sent = WasEnqueued | WasRejected | WasSkipped | LostLease

  datatype Summary = Summary(attempted: nat, enqueued: nat, rejected: nat, skipped: nat, lostLease: nat)

  /** The dispatch order: unblocked first, then least recently attempted, then by session id. */
  predicate PageBefore(w: World, j: Job, cutoff: int, a: string, b: string)
    requires a in j.targets && b in j.targets
  {
    var ba, bb := FreshlyReserved(FileOf(w, j.targets[a]), cutoff), FreshlyReserved(FileOf(w, j.targets[b]), cutoff);
    if ba != bb then bb
    else if j.targets[a].lastAttempt != j.targets[b].lastAttempt then
      j.targets[a].lastAttempt < j.targets[b].lastAttempt
    else Less(a, b)
  }

  predicate Eligible(w: World, j: Job, cutoff: int, sid: string) {
    && sid in j.targets && !j.targets[sid].state.Enqueued?
    && (OutcomeOf(w, sid, j.targets[sid], cutoff).OutPending? || OutcomeOf(w, sid, j.targets[sid], cutoff).OutBlocked?)
  }

  /** The targets one call tries: eligible, each once, and before every eligible target left out. */
  ghost predicate IsPage(w: World, j: Job, cutoff: int, page: seq<string>) {
    && |page| <= 10
    && (forall sid | sid in page :: Eligible(w, j, cutoff, sid))
    && Distinct(page)
    && (forall a, b | a in page && Eligible(w, j, cutoff, b) && b !in page :: PageBefore(w, j, cutoff, a, b))
    && (|page| < 10 ==> forall sid | Eligible(w, j, cutoff, sid) :: sid in page)
  }

  lemma PageOrderIsTotal(w: World, j: Job, cutoff: int, a: string, b: string)
    requires a in j.targets && b in j.targets && a != b
    ensures PageBefore(w, j, cutoff, a, b) <==> !PageBefore(w, j, cutoff, b, a)
  {
    LessIsTotal(a, b);
    if Less(a, b) && Less(b, a) {
      LessIsTransitive(a, b, a);
      LessIsIrreflexive(a);
    }
  }

  lemma PageOrderIsTransitive(w: World, j: Job, cutoff: int, a: string, b: string, c: string)
    requires a in j.targets && b in j.targets && c in j.targets
    requires PageBefore(w, j, cutoff, a, b) && PageBefore(w, j, cutoff, b, c)
    ensures PageBefore(w, j, cutoff, a, c)
  {
    if Less(a, b) && Less(b, c) { LessIsTransitive(a, b, c); }
  }

  /** The first of some targets in dispatch order. */
  method FirstOf(w: World, j: Job, cutoff: int, rest: set<string>) returns (first: string)
    requires rest != {} && forall sid | sid in rest :: sid in j.targets
    ensures first in rest && forall sid | sid in rest && sid != first :: PageBefore(w, j, cutoff, first, sid)
  {
    first :| first in rest;
    var todo := rest - {first};
    while todo != {}
      invariant first in rest && todo <= rest && first !in todo
      invariant forall sid | sid in rest && sid !in todo && sid != first :: PageBefore(w, j, cutoff, first, sid)
      decreases |todo|
    {
      var sid :| sid in todo;
      todo := todo - {sid};
      PageOrderIsTotal(w, j, cutoff, first, sid);
      if PageBefore(w, j, cutoff, sid, first) {
        forall o | o in rest && o !in todo && o != sid ensures PageBefore(w, j, cutoff, sid, o) {
          if o != first { PageOrderIsTransitive(w, j, cutoff, sid, first, o); }
        }
        first := sid;
      }
    }
  }

  method SelectPage(w: World, j: Job, cutoff: int) returns (page: seq<string>)
    ensures IsPage(w, j, cutoff, page)
  {
    page := [];
    var rest := set sid | sid in j.targets && Eligible(w, j, cutoff, sid);
    while rest != {} && |page| < PAGE_SIZE
      invariant |page| <= PAGE_SIZE && forall sid | sid in rest :: Eligible(w, j, cutoff, sid) && sid !in page
      invariant forall sid | sid in page :: Eligible(w, j, cutoff, sid)
      invariant forall sid | Eligible(w, j, cutoff, sid) :: sid in page || sid in rest
      invariant forall a, b | 0 <= a < b < |page| :: page[a] != page[b]
      invariant forall a, b | a in page && b in rest :: PageBefore(w, j, cutoff, a, b)
      decreases |rest|
    {
      var sid := FirstOf(w, j, cutoff, rest);
      page, rest := page + [sid], rest - {sid};
    }
  }

  /** The sessions a range selects: they started by its end, and started or ended after its start. */
  predicate InRange(s: Session, from: int, to: int) {
    && ((s.endedAt.Some? && s.endedAt.value >= from) || (s.startedAt.Some? && s.startedAt.value >= from))
    && s.startedAt.Some? && s.startedAt.value <= to
  }

  function Selected(sessions: map<string, Session>, from: int, to: int): set<string> {
    set sid | sid in sessions && InRange(sessions[sid], from, to)
  }

  datatype Response = BadRange | Accepted202(status: Status) | Unprocessable422(unsupported: nat)

  /** Only this call writes its token: others neither give the lease to it nor stamp attempts with it. */
  ghost predicate TokenKept(j: Job, j': Job, token: string) {
    && (j'.leaseToken == Some(token) ==> j.leaseToken == Some(token))
    && forall sid | sid in j.targets && sid in j'.targets ::
         j'.targets[sid].attemptToken == Some(token) ==> j.targets[sid].attemptToken == Some(token)
  }

  /** Attempts on other targets keep their tokens. */
  ghost predicate TokenElsewhere(j: Job, j': Job, sid: string, token: string) {
    forall o | o in j.targets && o in j'.targets && o != sid ::
      j'.targets[o].attemptToken == Some(token) ==> j.targets[o].attemptToken == Some(token)
  }

  /** The creation batch on the new job's rows: insert, select targets, decide, abort a failed preflight. */
  method CreateJob(w: World, selected: set<string>, now: int) returns (j: Job)
    ensures j == Created(w, selected, now)
  {
    j := Job(Dispatching, None, None, None, 0, map[]);
    j := j.(targets := Selection(w, selected));
    var bad := set sid | sid in j.targets && j.targets[sid].errorCode.Some?;
    j := j.(unsupported := |bad|,
            status := if bad != {} then Failed else if j.targets == map[] then Complete else Dispatching,
            finishedAt := if bad != {} || j.targets == map[] then Some(now) else None);
    if j.status.Failed? {
      j := j.(targets := map sid | sid in j.targets :: Aborted(j.targets[sid], now));
    }
  }

  /** The reconciliation batch on one dispatching job. */
  method ReconcileJob(w: World, j0: Job, cutoff: int, now: int) returns (j: Job, finished: bool)
    requires j0.status.Dispatching?
    ensures j == Reconciled(w, j0, cutoff, now) && (finished <==> !j.status.Dispatching?)
  {
    j, finished := j0.(targets := SettleTargets(w, j0.targets, cutoff, now)), false;
    if AllTerminal(j.targets) {
      j := j.(status := FinalStatus(j.targets), finishedAt := Some(now));
      finished := true;
    }
  }

  /** Reconciling stamps no attempt and gives no lease. */
  lemma ReconcileKeepsToken(w: World, j: Job, cutoff: int, now: int, token: string)
    ensures TokenKept(j, Reconciled(w, j, cutoff, now), token)
  {
  }

  // ---- The dispatch batch, statement by statement ----

  predicate Guarded(w: World, id: string, sid: string, token: string, now: int) {
    && id in w.jobs && sid in w.jobs[id].targets
    && Open(w.jobs[id].targets[sid].state) && LeaseLive(w.jobs[id], token, now)
  }

  /** The target carries this attempt's token. */
  predicate Coupled(w: World, id: string, sid: string, token: string) {
    id in w.jobs && sid in w.jobs[id].targets && w.jobs[id].targets[sid].attemptToken == Some(token)
  }

  function Noted(w: World, id: string, sid: string, token: string, cutoff: int, now: int): World {
    if Guarded(w, id, sid, token, now)
    then w.(jobs := w.jobs[id := WithTarget(w.jobs[id], sid, Attempted(w, w.jobs[id].targets[sid], cutoff, now))])
    else w
  }

  function StampedSending(w: World, id: string, sid: string, token: string, cutoff: int, now: int): World {
    if Guarded(w, id, sid, token, now) && Dispatchable(w, sid, w.jobs[id].targets[sid], cutoff)
    then w.(jobs := w.jobs[id := WithTarget(w.jobs[id], sid, SentTarget(w, w.jobs[id].targets[sid], token, now))])
    else w
  }

  function FileInvalidated(w: World, id: string, sid: string, token: string): World {
    if !Coupled(w, id, sid, token) then w
    else
      var file := w.jobs[id].targets[sid].fileId;
      if file.Some? && file.value in w.files
      then w.(files := w.files[file.value := InvalidatedFile(w.files[file.value])])
      else w
  }

  function SessionInvalidated(w: World, id: string, sid: string, token: string): World {
    if Coupled(w, id, sid, token) && sid in w.sessions && w.jobs[id].targets[sid].fileId.Some?
       && w.sessions[sid].canonical == w.jobs[id].targets[sid].fileId
    then w.(sessions := w.sessions[sid := w.sessions[sid].(indexState := IndexParsing)]) else w
  }

  /** With a token new to the target, the four statements are the dispatch step: nothing is invalidated on the
      strength of an older intent. */
  lemma StatementsAreDispatch(w: World, n: World, a: World, id: string, sid: string, token: string, cutoff: int,
                              now: int)
    requires !Coupled(w, id, sid, token)
    requires n == Noted(w, id, sid, token, cutoff, now) && a == StampedSending(n, id, sid, token, cutoff, now)
    ensures SessionInvalidated(FileInvalidated(a, id, sid, token), id, sid, token)
         == Prepared(w, id, sid, token, cutoff, now)
    ensures Coupled(a, id, sid, token) <==> WillSend(w, id, sid, token, cutoff, now)
  {
    if Guarded(w, id, sid, token, now) {
      AttemptedAgain(w, n, id, sid, token, cutoff, now);
      var t := n.jobs[id].targets[sid];
      if Dispatchable(w, sid, t, cutoff) {
        StampTwice(w, n, a, id, sid, token, cutoff, now);
      } else {
        assert a == n && !Coupled(n, id, sid, token);
      }
    }
  }

  /** Noting and stamping is one update of the target. */
  lemma StampTwice(w: World, n: World, a: World, id: string, sid: string, token: string, cutoff: int, now: int)
    requires Guarded(w, id, sid, token, now) && n == Noted(w, id, sid, token, cutoff, now)
    requires Guarded(n, id, sid, token, now) && Dispatchable(n, sid, n.jobs[id].targets[sid], cutoff)
    requires a == StampedSending(n, id, sid, token, cutoff, now)
    ensures var t := Attempted(w, w.jobs[id].targets[sid], cutoff, now);
            && FileOf(w, t).Some?
            && a == w.(jobs := w.jobs[id := WithTarget(w.jobs[id], sid, SentTarget(w, t, token, now))])
  {
    var t := Attempted(w, w.jobs[id].targets[sid], cutoff, now);
    var j, s := w.jobs[id], SentTarget(w, t, token, now);
    assert WithTarget(WithTarget(j, sid, t), sid, s).targets == WithTarget(j, sid, s).targets;
    assert a.jobs == w.jobs[id := WithTarget(j, sid, s)];
  }

  /** Noting the attempt leaves the target open or blocked by a fresh reservation, with nothing else changed. */
  lemma AttemptedAgain(w: World, n: World, id: string, sid: string, token: string, cutoff: int, now: int)
    requires Guarded(w, id, sid, token, now) && n == Noted(w, id, sid, token, cutoff, now)
    ensures Guarded(n, id, sid, token, now) && n.files == w.files && n.sessions == w.sessions
    ensures n.jobs[id].targets[sid] == Attempted(w, w.jobs[id].targets[sid], cutoff, now)
    ensures Dispatchable(n, sid, n.jobs[id].targets[sid], cutoff)
       <==> Dispatchable(w, sid, n.jobs[id].targets[sid], cutoff)
  {
  }

  /** SELECT ... JOIN files: the message of a stamped target. */
  function MessageOf(w: World, id: string, sid: string): Option<Message>
    requires id in w.jobs && sid in w.jobs[id].targets
  {
    var t := w.jobs[id].targets[sid];
    if t.fileId.Some? && t.fileId.value in w.files then
      Some(Message(t.fileId.value, t.contentHash, t.reason.GetOr(Reindex)))
    else None
  }

  /** The target is being sent under this attempt, its session is marked as being parsed, and the message names its
      file, content and reason. */
  ghost predicate SendsFor(w: World, id: string, sid: string, token: string, m: Message) {
    && Coupled(w, id, sid, token) && w.jobs[id].targets[sid].state.Sending?
    && w.jobs[id].targets[sid].dispatchedAt.Some?
    && m.fileId in w.files && w.files[m.fileId].parseState.ParsePending?
    && w.jobs[id].targets[sid].fileId == Some(m.fileId) && w.jobs[id].targets[sid].contentHash == m.contentHash
    && w.jobs[id].targets[sid].reason == Some(m.reason)
    && sid in w.sessions && w.sessions[sid].indexState.IndexParsing? && w.sessions[sid].canonical == Some(m.fileId)
  }

  /** The four statements of the dispatch batch and the query of its message. */
  method DispatchBatch(w0: World, id: string, sid: string, token: string, cutoff: int, now: int)
    returns (w: World, message: Option<Message>)
    requires !Coupled(w0, id, sid, token)
    ensures w == Prepared(w0, id, sid, token, cutoff, now)
    ensures message.Some? <==> WillSend(w0, id, sid, token, cutoff, now)
    ensures message.Some? ==> SendsFor(w, id, sid, token, message.value)
    ensures id in w0.jobs ==> id in w.jobs && TokenElsewhere(w0.jobs[id], w.jobs[id], sid, token)
  {
    var noted := Noted(w0, id, sid, token, cutoff, now);
    w := StampedSending(noted, id, sid, token, cutoff, now);
    StatementsAreDispatch(w0, noted, w, id, sid, token, cutoff, now);
    var sent := Coupled(w, id, sid, token);
    w := FileInvalidated(w, id, sid, token);
    w := SessionInvalidated(w, id, sid, token);
    message := if sent then MessageOf(w, id, sid) else None;
  }

  predicate Distinct(page: seq<string>) { forall a, b | 0 <= a < b < |page| :: page[a] != page[b] }

  function Counted(s: Summary, sent: Option<Sent>): Summary {
    var s := s.(attempted := s.attempted + 1);
    match sent
    case Some(WasEnqueued) => s.(enqueued := s.enqueued + 1)
    case Some(WasRejected) => s.(rejected := s.rejected + 1)
    case Some(WasSkipped) => s.(skipped := s.skipped + 1)
    case Some(LostLease) => s.(lostLease := s.lostLease + 1)
    case None => s
  }

  /** Every attempt has exactly one outcome, unless storage failed during the last one; the lease is lost at most once.
      */
  predicate SummaryIsHonest(s: Summary, threw: bool) {
    var outcomes := s.enqueued + s.rejected + s.skipped + s.lostLease;
    s.lostLease <= 1 && if threw then outcomes <= s.attempted <= outcomes + 1 else s.attempted == outcomes
  }

  /** Each counter is the number of attempts with its outcome. */
  ghost predicate Tally(s: Summary, outcomes: seq<Option<Sent>>) {
    && s.attempted == |outcomes|
    && s.enqueued == Times(outcomes, WasEnqueued) && s.rejected == Times(outcomes, WasRejected)
    && s.skipped == Times(outcomes, WasSkipped) && s.lostLease == Times(outcomes, LostLease)
  }

  function Times(outcomes: seq<Option<Sent>>, sent: Sent): nat {
    if outcomes == [] then 0
    else Times(outcomes[..|outcomes| - 1], sent) + if outcomes[|outcomes| - 1] == Some(sent) then 1 else 0
  }

  lemma TimesOne(outcomes: seq<Option<Sent>>, o: Option<Sent>, sent: Sent)
    ensures Times(outcomes + [o], sent) == Times(outcomes, sent) + if o == Some(sent) then 1 else 0
  {
    assert (outcomes + [o])[..|outcomes|] == outcomes;
  }

  method CountOutcome(s0: Summary, sent: Option<Sent>, ghost outcomes0: seq<Option<Sent>>)
    returns (s: Summary, ghost outcomes: seq<Option<Sent>>)
    requires Tally(s0, outcomes0) && SummaryIsHonest(s0, false) && s0.lostLease == 0
    ensures outcomes == outcomes0 + [sent] && Tally(s, outcomes)
    ensures SummaryIsHonest(s, sent.None?) && s.attempted == s0.attempted + 1
  {
    TimesOne(outcomes0, sent, WasEnqueued);
    TimesOne(outcomes0, sent, WasRejected);
    TimesOne(outcomes0, sent, WasSkipped);
    TimesOne(outcomes0, sent, LostLease);
    s, outcomes := Counted(s0, sent), outcomes0 + [sent];
  }

  /** The page a call selected, and the state it was selected from. */
  datatype Choice = Choice(seen: World, cutoff: int, page: seq<string>)

  /** A call tries its page in order, all of it unless the lease was lost or storage failed. */
  ghost predicate PageTried(sel: Choice, id: string, tried: seq<string>, summary: Summary, threw: bool) {
    && tried <= sel.page && |tried| == summary.attempted
    && (!threw ==> id in sel.seen.jobs && IsPage(sel.seen, sel.seen.jobs[id], sel.cutoff, sel.page))
    && (!threw && summary.lostLease == 0 ==> tried == sel.page)
  }

  /** A token no lease and no target of the job carries. */
  ghost predicate FreshToken(w: World, id: string, token: string) {
    id in w.jobs ==> w.jobs[id].leaseToken != Some(token) && Unstamped(w, id, w.jobs[id].targets.Keys, token)
  }

  /** The moments of the two batches of a dispatch, as they found the database. */
  datatype Trace = Trace(prepared: World, cutoff: int, preparedAt: int, accepted: World, acceptedAt: int)

  /** A message is sent only when the dispatch batch would send one, it is reported as enqueued only after the
      acceptance batch ran, a target is skipped only when the dispatch batch would not send, and the lease counts as
      lost only when it could not be renewed. */
  ghost predicate Happened(trace: Trace, after: World, id: string, sid: string, token: string, sent: Option<Sent>,
                           message: Option<Message>)
  {
    && (sent == Some(LostLease) ==>
          after == trace.prepared && !(id in after.jobs && LeaseLive(after.jobs[id], token, trace.preparedAt)))
    && (sent == Some(WasSkipped) ==> !WillSend(trace.prepared, id, sid, token, trace.cutoff, trace.preparedAt))
    && (message.Some? ==> WillSend(trace.prepared, id, sid, token, trace.cutoff, trace.preparedAt))
    && (sent == Some(WasEnqueued) && message.Some? ==>
          after == Accepted(trace.accepted, id, sid, token, message.value, trace.acceptedAt))
  }

  /** The dispatch time is recorded beside the file and content that were sent: a rejected send keeps both. */
  ghost predicate TargetSent(t: Target, m: Message) {
    t.dispatchedAt.Some? && t.fileId == Some(m.fileId) && t.contentHash == m.contentHash
  }

  lemma SentStaysSent(w: World, w': World, id: string, sid: string, m: Message)
    requires Later(w, w') && id in w.jobs && sid in w.jobs[id].targets && TargetSent(w.jobs[id].targets[sid], m)
    ensures id in w'.jobs && sid in w'.jobs[id].targets && TargetSent(w'.jobs[id].targets[sid], m)
  {
    assert JobLater(w.jobs[id], w'.jobs[id]);
    assert TargetLater(w.jobs[id].targets[sid], w'.jobs[id].targets[sid]);
  }

  /** None of these targets carries this attempt's token. */
  ghost predicate Unstamped(w: World, id: string, todo: set<string>, token: string) {
    id in w.jobs && forall sid | sid in todo :: !Coupled(w, id, sid, token)
  }

  lemma KeptIsUnstamped(w: World, w': World, id: string, todo: set<string>, token: string)
    requires Unstamped(w, id, todo, token) && id in w'.jobs && w'.jobs[id].targets.Keys == w.jobs[id].targets.Keys
    requires TokenKept(w.jobs[id], w'.jobs[id], token)
    ensures Unstamped(w', id, todo, token)
  {
    forall sid | sid in todo ensures !Coupled(w', id, sid, token) {
      assert !Coupled(w, id, sid, token);
    }
  }

  lemma OtherStamped(w: World, w': World, id: string, todo: set<string>, sid: string, token: string)
    requires Unstamped(w, id, todo, token) && id in w'.jobs && w'.jobs[id].targets.Keys == w.jobs[id].targets.Keys
    requires sid !in todo && TokenElsewhere(w.jobs[id], w'.jobs[id], sid, token)
    ensures Unstamped(w', id, todo, token)
  {
    forall o | o in todo ensures !Coupled(w', id, o, token) {
      assert !Coupled(w, id, o, token);
    }
  }

  class ReindexDb {
    var jobs: map<string, Job>
    var files: map<int, File>
    var sessions: map<string, Session>

    ghost function W(): World
      reads this
    {
      World(jobs, files, sessions)
    }

    ghost predicate Valid()
      reads this
    {
      Inv(W())
    }

    constructor (files0: map<int, File>, sessions0: map<string, Session>)
      ensures Valid() && jobs == map[] && files == files0 && sessions == sessions0
    {
      jobs, files, sessions := map[], files0, sessions0;
    }

    /** Any steps of other callers, consumers and uploads. */
    method Interleave(id: string, token: string)
      requires Valid()
      modifies this
      ensures Valid() && Later(old(W()), W())
      ensures id in old(jobs) ==> id in jobs && TokenKept(old(jobs)[id], jobs[id], token)
    {
      LaterIsReflexive(W());
    }

    /** Whether a storage or queue call fails. */
    method CallFails() returns (fails: bool)
    {
      fails := false;
    }

    method Clock() returns (now: int)
    {
      now := 0;
    }

    /** The creation batch: job, targets, disposition, and the abort of a failed preflight. */
    method CreateReindexRange(id: string, from: Option<int>, to: Option<int>, now: int) returns (response: Response)
      requires Valid() && id !in jobs
      modifies this
      ensures Valid() && Later(old(W()), W())
      ensures response.BadRange? <==> from.None? || to.None? || from.value > to.value
      ensures response.BadRange? ==> W() == old(W())
      ensures !response.BadRange? ==>
        W() == Apply(old(W()), Create(id, Selected(old(sessions), from.value, to.value), now)) && id in jobs
      ensures response.Unprocessable422? ==> jobs[id].status == Failed && response.unsupported == jobs[id].unsupported
      ensures response.Accepted202? ==> jobs[id].status == response.status && response.status != Failed
    {
      LaterIsReflexive(W());
      if from.None? || to.None? || from.value > to.value { return BadRange; }
      var selected := Selected(sessions, from.value, to.value);
      StepKeeps(W(), Create(id, selected, now));
      var job := CreateJob(World(jobs, files, sessions), selected, now);
      jobs := jobs[id := job];
      response := if job.status.Failed? then Unprocessable422(job.unsupported) else Accepted202(job.status);
    }

    /** The two reconciliation statements, as one batch. */
    method Reconcile(id: string, cutoff: int, now: int) returns (finished: bool)
      requires Valid()
      modifies `jobs
      ensures Valid() && Later(old(W()), W()) && W() == Apply(old(W()), ReindexJobs.Reconcile(id, cutoff, now))
      ensures finished <==> id in old(jobs) && old(jobs)[id].status.Dispatching? && !jobs[id].status.Dispatching?
      ensures id in old(jobs) ==> jobs[id] == Reconciled(old(W()), old(jobs)[id], cutoff, now)
    {
      StepKeeps(W(), ReindexJobs.Reconcile(id, cutoff, now));
      finished := false;
      if id !in jobs || !jobs[id].status.Dispatching? { return; }
      var job;
      job, finished := ReconcileJob(World(jobs, files, sessions), jobs[id], cutoff, now);
      jobs := jobs[id := job];
    }

    method Claim(id: string, token: string, now: int) returns (claimed: bool)
      requires Valid()
      modifies `jobs
      ensures Valid() && Later(old(W()), W()) && W() == Apply(old(W()), ReindexJobs.Claim(id, token, now))
      ensures claimed <==> id in old(jobs) && Claimable(old(jobs)[id], now)
    {
      StepKeeps(W(), ReindexJobs.Claim(id, token, now));
      claimed := id in jobs && Claimable(jobs[id], now);
      if claimed { jobs := jobs[id := Claimed(jobs[id], token, now)]; }
    }

    method Renew(id: string, token: string, now: int) returns (renewed: bool)
      requires Valid()
      modifies `jobs
      ensures Valid() && Later(old(W()), W()) && W() == Apply(old(W()), ReindexJobs.Renew(id, token, now))
      ensures renewed <==> id in old(jobs) && LeaseLive(old(jobs)[id], token, now)
      ensures id in old(jobs) ==> TokenKept(old(jobs)[id], jobs[id], token)
    {
      StepKeeps(W(), ReindexJobs.Renew(id, token, now));
      renewed := id in jobs && LeaseLive(jobs[id], token, now);
      if renewed { jobs := jobs[id := Renewed(jobs[id], token, now)]; }
    }

    method Release(id: string, token: string)
      requires Valid()
      modifies `jobs
      ensures Valid() && Later(old(W()), W()) && W() == Apply(old(W()), ReindexJobs.Release(id, token))
    {
      StepKeeps(W(), ReindexJobs.Release(id, token));
      if id in jobs && jobs[id].leaseToken == Some(token) { jobs := jobs[id := Released(jobs[id], token)]; }
    }

    /** The dispatch batch. The token is new to this target, so only a stamp made here couples the rest. */
    method Prepare(id: string, sid: string, token: string, cutoff: int, now: int) returns (message: Option<Message>)
      requires Valid() && !Coupled(W(), id, sid, token)
      modifies this
      ensures Valid() && Later(old(W()), W())
      ensures W() == Apply(old(W()), ReindexJobs.Prepare(id, sid, token, cutoff, now))
      ensures message.Some? <==> WillSend(old(W()), id, sid, token, cutoff, now)
      ensures message.Some? ==> SendsFor(W(), id, sid, token, message.value)
      ensures id in old(jobs) ==> id in jobs && TokenElsewhere(old(jobs)[id], jobs[id], sid, token)
    {
      StepKeeps(W(), ReindexJobs.Prepare(id, sid, token, cutoff, now));
      var w;
      w, message := DispatchBatch(World(jobs, files, sessions), id, sid, token, cutoff, now);
      jobs, files, sessions := w.jobs, w.files, w.sessions;
    }

    /** The acceptance batch. */
    method Accept(id: string, sid: string, token: string, message: Message, now: int)
      requires Valid()
      modifies this
      ensures Valid() && Later(old(W()), W())
      ensures W() == Apply(old(W()), ReindexJobs.Accept(id, sid, token, message, now))
      ensures id in old(jobs) ==> TokenKept(old(jobs)[id], jobs[id], token)
    {
      StepKeeps(W(), ReindexJobs.Accept(id, sid, token, message, now));
      if id !in jobs { return; }
      var live := LeaseLive(jobs[id], token, now);
      if Coupled(World(jobs, files, sessions), id, sid, token) && live {
        jobs := jobs[id := WithTarget(jobs[id], sid, AcceptedTarget(jobs[id].targets[sid], now))];
      }
      if live { files := ClearedFiles(files, message); }
    }

    /** One interleaving, leaving this call's own tokens alone. */
    method Await(id: string, token: string, ghost todo: set<string>)
      requires Valid() && Unstamped(W(), id, todo, token)
      modifies this
      ensures Valid() && Later(old(W()), W()) && Unstamped(W(), id, todo, token)
      ensures jobs[id].leaseToken == Some(token) ==> old(jobs)[id].leaseToken == Some(token)
    {
      Interleave(id, token);
      assert JobLater(old(jobs)[id], jobs[id]);
      KeptIsUnstamped(old(W()), W(), id, todo, token);
    }

    /** Renew, prepare, send, accept; other steps in between. None: a storage call failed. */
    method DispatchTarget(id: string, sid: string, token: string, ghost todo: set<string>)
      returns (sent: Option<Sent>, message: Option<Message>, ghost trace: Trace)
      requires Valid() && sid !in todo && Unstamped(W(), id, todo + {sid}, token)
      modifies this
      ensures Valid() && Later(old(W()), W()) && Unstamped(W(), id, todo, token)
      ensures sent == Some(LostLease) ==> W() == old(W())
      ensures sent == Some(WasEnqueued) || sent == Some(WasRejected) ==> message.Some?
      ensures sent == Some(LostLease) || sent == Some(WasSkipped) ==> message.None?
      ensures message.Some? ==> sid in jobs[id].targets && TargetSent(jobs[id].targets[sid], message.value)
      ensures Happened(trace, W(), id, sid, token, sent, message)
    {
      ghost var w0 := W();
      LaterIsReflexive(w0);
      trace := Trace(w0, 0, 0, w0, 0);
      sent, message := None, None;
      var fails := CallFails();
      if fails { return; }
      var now := Clock();
      var renewed := Renew(id, token, now);
      KeptIsUnstamped(w0, W(), id, todo + {sid}, token);
      if !renewed { sent, trace := Some(LostLease), Trace(w0, 0, now, w0, 0); return; }
      ghost var w1 := W();
      fails := CallFails();
      if fails { return; }
      Await(id, token, todo + {sid});
      LaterIsTransitive(w0, w1, W());
      assert !Coupled(W(), id, sid, token);
      sent, message, trace := SendTarget(id, sid, token, todo, w0);
    }

    /** The dispatch batch, and whatever runs before the send. */
    method PrepareTarget(id: string, sid: string, token: string, cutoff: int, now: int, ghost todo: set<string>,
                         ghost w0: World)
      returns (message: Option<Message>)
      requires Valid() && sid !in todo && Unstamped(W(), id, todo, token) && !Coupled(W(), id, sid, token)
      requires Later(w0, W())
      modifies this
      ensures Valid() && Later(w0, W()) && Unstamped(W(), id, todo, token)
      ensures message.Some? <==> WillSend(old(W()), id, sid, token, cutoff, now)
      ensures message.Some? ==> sid in jobs[id].targets && TargetSent(jobs[id].targets[sid], message.value)
    {
      ghost var w1 := W();
      message := Prepare(id, sid, token, cutoff, now);
      OtherStamped(w1, W(), id, todo, sid, token);
      LaterIsTransitive(w0, w1, W());
      ghost var w2 := W();
      Await(id, token, todo);
      LaterIsTransitive(w0, w2, W());
      if message.Some? { SentStaysSent(w2, W(), id, sid, message.value); }
    }

    /** The acceptance batch. */
    method AcceptTarget(id: string, sid: string, token: string, message: Message, now: int, ghost todo: set<string>,
                        ghost w0: World)
      requires Valid() && Unstamped(W(), id, todo, token) && Later(w0, W())
      requires sid in jobs[id].targets && TargetSent(jobs[id].targets[sid], message)
      modifies this
      ensures Valid() && Later(w0, W()) && Unstamped(W(), id, todo, token)
      ensures sid in jobs[id].targets && TargetSent(jobs[id].targets[sid], message)
      ensures W() == Accepted(old(W()), id, sid, token, message, now)
    {
      ghost var w3 := W();
      Accept(id, sid, token, message, now);
      KeptIsUnstamped(w3, W(), id, todo, token);
      LaterIsTransitive(w0, w3, W());
      SentStaysSent(w3, W(), id, sid, message);
    }

    /** The dispatch batch, the send, and the acceptance batch. */
    method SendTarget(id: string, sid: string, token: string, ghost todo: set<string>, ghost w0: World)
      returns (sent: Option<Sent>, message: Option<Message>, ghost trace: Trace)
      requires Valid() && sid !in todo && Unstamped(W(), id, todo, token) && !Coupled(W(), id, sid, token)
      requires Later(w0, W())
      modifies this
      ensures Valid() && Later(w0, W()) && Unstamped(W(), id, todo, token)
      ensures sent == Some(WasEnqueued) || sent == Some(WasRejected) ==> message.Some?
      ensures sent == Some(WasSkipped) ==> message.None?
      ensures sent != Some(LostLease)
      ensures message.Some? ==> sid in jobs[id].targets && TargetSent(jobs[id].targets[sid], message.value)
      ensures Happened(trace, W(), id, sid, token, sent, message)
    {
      var now := Clock();
      var cutoff := Clock();
      trace := Trace(W(), cutoff, now, W(), 0);
      sent := None;
      message := PrepareTarget(id, sid, token, cutoff, now, todo, w0);
      var fails := CallFails();
      if fails { return; }
      if message.None? { sent := Some(WasSkipped); return; }
      fails := CallFails();
      if fails { sent := Some(WasRejected); return; }
      fails := CallFails();
      if fails { return; }
      now := Clock();
      trace := trace.(accepted := W(), acceptedAt := now);
      AcceptTarget(id, sid, token, message.value, now, todo, w0);
      fails := CallFails();
      if fails { return; }
      sent := Some(WasEnqueued);
    }

    /** Reconcile, select a page, and try its targets one by one until the lease is lost. */
    method DispatchPage(id: string, token: string)
      returns (summary: Summary, threw: bool, tried: seq<string>, ghost selection: Choice,
               ghost outcomes: seq<Option<Sent>>)
      requires Valid() && id in jobs && Unstamped(W(), id, jobs[id].targets.Keys, token)
      modifies this
      ensures Valid() && Later(old(W()), W()) && id in jobs
      ensures SummaryIsHonest(summary, threw) && summary.attempted <= 10 && Distinct(tried)
      ensures PageTried(selection, id, tried, summary, threw) && Tally(summary, outcomes)
    {
      ghost var w0 := W();
      ghost var todo := jobs[id].targets.Keys;
      LaterIsReflexive(w0);
      summary, tried, threw := Summary(0, 0, 0, 0, 0), [], true;
      selection, outcomes := Choice(w0, 0, []), [];
      Await(id, token, todo);
      ghost var w1 := W();
      var fails := CallFails();
      if fails { return; }
      var now := Clock();
      var cutoff := Clock();
      ReconcileKeepsToken(w1, jobs[id], cutoff, now, token);
      var _ := Reconcile(id, cutoff, now);
      KeptIsUnstamped(w1, W(), id, todo, token);
      LaterIsTransitive(w0, w1, W());
      fails := CallFails();
      if fails { return; }
      assert jobs[id].targets.Keys == todo by { assert JobLater(w0.jobs[id], jobs[id]); }
      var page := SelectPage(World(jobs, files, sessions), jobs[id], cutoff);
      selection := Choice(W(), cutoff, page);
      summary, threw, tried, outcomes := DispatchAll(id, token, page, todo, w0);
    }

    /** One turn of the loop. */
    method TryTarget(id: string, sid: string, token: string, ghost todo: set<string>, ghost w0: World)
      returns (sent: Option<Sent>)
      requires Valid() && Later(w0, W()) && sid !in todo && Unstamped(W(), id, todo + {sid}, token)
      modifies this
      ensures Valid() && Later(w0, W()) && Unstamped(W(), id, todo, token)
    {
      ghost var w1 := W();
      Await(id, token, todo + {sid});
      LaterIsTransitive(w0, w1, W());
      ghost var w2 := W();
      var message;
      ghost var trace;
      sent, message, trace := DispatchTarget(id, sid, token, todo);
      LaterIsTransitive(w0, w2, W());
    }

    /** The attempt and its count. */
    method TryNext(id: string, sid: string, token: string, ghost todo: set<string>, ghost w0: World, summary0: Summary,
                   ghost outcomes0: seq<Option<Sent>>)
      returns (summary: Summary, threw: bool, ghost outcomes: seq<Option<Sent>>)
      requires Valid() && Later(w0, W()) && sid !in todo && Unstamped(W(), id, todo + {sid}, token)
      requires Tally(summary0, outcomes0) && SummaryIsHonest(summary0, false) && summary0.lostLease == 0
      modifies this
      ensures Valid() && Later(w0, W()) && Unstamped(W(), id, todo, token)
      ensures Tally(summary, outcomes) && SummaryIsHonest(summary, threw)
      ensures summary.attempted == summary0.attempted + 1
    {
      var sent := TryTarget(id, sid, token, todo, w0);
      summary, outcomes := CountOutcome(summary0, sent, outcomes0);
      threw := sent.None?;
    }

    /** The loop over the page. */
    method DispatchAll(id: string, token: string, page: seq<string>, ghost all: set<string>, ghost w0: World)
      returns (summary: Summary, threw: bool, tried: seq<string>, ghost outcomes: seq<Option<Sent>>)
      requires Valid() && Later(w0, W()) && Unstamped(W(), id, all, token) && Distinct(page)
      requires forall sid | sid in page :: sid in all
      modifies this
      ensures Valid() && Later(w0, W()) && id in jobs
      ensures SummaryIsHonest(summary, threw) && tried <= page && |tried| == summary.attempted
      ensures Tally(summary, outcomes)
      ensures !threw && summary.lostLease == 0 ==> tried == page
    {
      summary, threw, outcomes := Summary(0, 0, 0, 0, 0), false, [];
      ghost var todo := all;
      var i := 0;
      while i < |page| && !threw && summary.lostLease == 0
        invariant i <= |page| && Valid() && Later(w0, W())
        invariant Unstamped(W(), id, todo, token)
        invariant todo == all - set k | 0 <= k < i :: page[k]
        invariant SummaryIsHonest(summary, threw) && summary.attempted == i
        invariant Tally(summary, outcomes)
        decreases |page| - i
      {
        assert Unstamped(W(), id, (todo - {page[i]}) + {page[i]}, token);
        todo := todo - {page[i]};
        summary, threw, outcomes := TryNext(id, page[i], token, todo, w0, summary, outcomes);
        i := i + 1;
      }
      tried := page[..i];
    }

    /** Claim the lease, dispatch a page, and give the lease back whatever happened. */
    method ContinueReindexRange(id: string, token: string)
      returns (claimed: bool, released: bool, summary: Summary, threw: bool, tried: seq<string>,
               ghost selection: Choice, ghost outcomes: seq<Option<Sent>>, ghost at: int)
      requires Valid() && FreshToken(W(), id, token)
      modifies this
      ensures Valid() && Later(old(W()), W())
      ensures SummaryIsHonest(summary, threw) && summary.attempted <= 10
      ensures Tally(summary, outcomes) && (!claimed ==> summary.attempted == 0)
      ensures !threw ==> (claimed <==> id in old(jobs) && Claimable(old(jobs)[id], at))
      ensures Distinct(tried) && |tried| == summary.attempted
      ensures claimed && !threw ==> PageTried(selection, id, tried, summary, threw)
      ensures claimed ==> id in old(jobs) && old(jobs)[id].status.Dispatching?
      ensures id in jobs && released ==> jobs[id].leaseToken != Some(token)
      ensures !released ==> threw
    {
      ghost var w0 := W();
      LaterIsReflexive(w0);
      claimed, released, summary, threw := false, false, Summary(0, 0, 0, 0, 0), true;
      tried, selection, outcomes, at := [], Choice(w0, 0, []), [], 0;
      var fails := CallFails();
      if fails { return; }
      var now := Clock();
      at := now;
      claimed := Claim(id, token, now);
      if !claimed { released, threw := true, false; return; }
      ghost var w1 := W();
      fails := CallFails();
      if fails { return; }
      assert Unstamped(w1, id, jobs[id].targets.Keys, token) by { assert jobs[id].targets == w0.jobs[id].targets; }
      summary, threw, tried, selection, outcomes := DispatchPage(id, token);
      LaterIsTransitive(w0, w1, W());
      released, threw := GiveBack(id, token, threw, w0);
    }

    /** The finally block and what follows it. */
    method GiveBack(id: string, token: string, failed: bool, ghost w0: World) returns (released: bool, threw: bool)
      requires Valid() && Later(w0, W()) && id in jobs
      modifies this
      ensures Valid() && Later(w0, W())
      ensures id in jobs && released ==> jobs[id].leaseToken != Some(token)
      ensures threw <==> failed || !released
    {
      ghost var w1 := W();
      released := false;
      threw := true;
      var fails := CallFails();
      if fails { return; }
      Release(id, token);
      LaterIsTransitive(w0, w1, W());
      fails := CallFails();
      if fails { return; }
      ghost var w2 := W();
      Interleave(id, token);
      LaterIsTransitive(w0, w2, W());
      released, threw := true, failed;
    }
  }
}
