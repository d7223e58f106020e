/** Range reindex jobs: what their steps do to jobs, targets, files and sessions. */
module ReindexJobs {
  import opened Wrappers

  const PAGE_SIZE: nat := 10
  const LEASE_MS: int := 5 * 60 * 1000

  datatype Status = Dispatching | Complete | Partial | Failed

  datatype DispatchState = Pending | Sending | Enqueued | Blocked | Ready | Errored

  datatype ParseState = Reserved | ParsePending | Parsed | ParseError | Skipped | Superseded | OtherParse

  datatype IndexState = IndexReady | IndexParsing | IndexError | OtherIndex

  datatype Reason = Reindex | Recover | Upload

  /** Timestamps are points of a total order. */
  datatype File = File(parseState: ParseState, parsedAt: Option<int>, reservedAt: Option<int>,
                       reservedReason: Option<Reason>,
                       generation: int, contentHash: Option<string>, archive: bool)

  datatype Session = Session(canonical: Option<int>, indexState: IndexState, updatedAt: Option<int>,
                             startedAt: Option<int>,
                             endedAt: Option<int>)

  datatype Target = Target(fileId: Option<int>, contentHash: Option<string>, state: DispatchState,
                           dispatchedAt: Option<int>,
                           enqueuedAt: Option<int>, completedAt: Option<int>, readyParsedAt: Option<int>,
                           readyUpdatedAt: Option<int>,
                           attemptToken: Option<string>, lastAttempt: int, reason: Option<Reason>,
                           errorCode: Option<string>)

  datatype Job = Job(status: Status, leaseToken: Option<string>, leaseUntil: Option<int>, finishedAt: Option<int>,
                     unsupported: nat, targets: map<string, Target>)

  datatype World = World(jobs: map<string, Job>, files: map<int, File>, sessions: map<string, Session>)

  predicate Terminal(s: DispatchState) { s.Ready? || s.Errored? }

  // ---- What a target's file and session show ----

  function FileOf(w: World, t: Target): Option<File> {
    if t.fileId.Some? && t.fileId.value in w.files then Some(w.files[t.fileId.value]) else None
  }

  function SessionOf(w: World, sid: string): Option<Session> {
    if sid in w.sessions then Some(w.sessions[sid]) else None
  }

  /** Another session has the file as its canonical one. */
  predicate Shared(w: World, sid: string, file: int) {
    exists o :: o in w.sessions && o != sid && w.sessions[o].canonical == Some(file)
  }

  predicate Unsupported(w: World, sid: string, file: Option<int>) {
    file.Some? && file.value in w.files && (w.files[file.value].archive || Shared(w, sid, file.value))
  }

  /** Why a target cannot succeed any more: the first failing check. */
  function Failure(w: World, sid: string, t: Target): Option<string> {
    var s, f := SessionOf(w, sid), FileOf(w, t);
    if t.state.Ready? then None
    else if t.errorCode.Some? then t.errorCode
    else if s.None? then Some("missing_session")
    else if f.None? then Some("missing_file")
    else if s.value.canonical != t.fileId then Some("changed_canonical")
    else if f.value.contentHash != t.contentHash then Some("changed_hash")
    else if Unsupported(w, sid, t.fileId) then Some("unsupported_file")
    else if t.dispatchedAt.Some? && (f.value.parseState.ParseError? || s.value.indexState.IndexError?) then
      Some("parse_failed")
    else if t.dispatchedAt.Some? && (f.value.parseState.Skipped? || f.value.parseState.Superseded?) then
      Some("parse_not_indexed")
    else None
  }

  predicate NotBefore(at: Option<int>, since: int) { at.Some? && at.value >= since }

  /** The dispatched parse was observed: file and session are newer than the dispatch. */
  predicate Observed(w: World, sid: string, t: Target) {
    var s, f := SessionOf(w, sid), FileOf(w, t);
    && s.Some? && f.Some? && t.dispatchedAt.Some?
    && f.value.parseState.Parsed? && s.value.indexState.IndexReady?
    && NotBefore(f.value.parsedAt, t.dispatchedAt.value) && NotBefore(s.value.updatedAt, t.dispatchedAt.value)
  }

  /** Somebody reserved the file recently. */
  predicate FreshlyReserved(f: Option<File>, cutoff: int) {
    f.Some? && f.value.parseState.Reserved? && f.value.reservedAt.Some? && f.value.reservedAt.value > cutoff
  }

  datatype Outcome = OutError | OutReady | OutBlocked | OutPending

  function OutcomeOf(w: World, sid: string, t: Target, cutoff: int): Outcome {
    if Failure(w, sid, t).Some? then OutError
    else if t.state.Ready? || Observed(w, sid, t) then OutReady
    else if FreshlyReserved(FileOf(w, t), cutoff) then OutBlocked
    else OutPending
  }

  // ---- Reconciling ----

  function Settled(w: World, sid: string, t: Target, cutoff: int, now: int): Target {
    if Terminal(t.state) then t
    else
      match OutcomeOf(w, sid, t, cutoff)
      case OutReady =>
        t.(state := Ready, errorCode := None, completedAt := Some(now), readyParsedAt := FileOf(w, t).value.parsedAt,
           readyUpdatedAt := SessionOf(w, sid).value.updatedAt)
      case OutError =>
        t.(state := Errored, errorCode := Failure(w, sid, t), completedAt := Some(now), readyParsedAt := None,
           readyUpdatedAt := None)
      case _ => t
  }

  predicate AllTerminal(ts: map<string, Target>) { forall sid | sid in ts :: Terminal(ts[sid].state) }

  predicate AllReady(ts: map<string, Target>) { forall sid | sid in ts :: ts[sid].state.Ready? }

  predicate SomeReady(ts: map<string, Target>) { exists sid :: sid in ts && ts[sid].state.Ready? }

  predicate SomeErrored(ts: map<string, Target>) { exists sid :: sid in ts && ts[sid].state.Errored? }

  function SettleTargets(w: World, ts: map<string, Target>, cutoff: int, now: int): map<string, Target> {
    map sid | sid in ts :: Settled(w, sid, ts[sid], cutoff, now)
  }

  function FinalStatus(ts: map<string, Target>): Status {
    if AllReady(ts) then Complete else if SomeReady(ts) then Partial else Failed
  }

  /** Both statements: settle what can be settled, then close the job when all its targets are settled. */
  function Reconciled(w: World, j: Job, cutoff: int, now: int): Job {
    if !j.status.Dispatching? then j
    else
      var ts := SettleTargets(w, j.targets, cutoff, now);
      if AllTerminal(ts) then j.(targets := ts, status := FinalStatus(ts), finishedAt := Some(now))
      else j.(targets := ts)
  }

  // ---- What every step keeps ----

  /** A finished job says what became of its targets. */
  ghost predicate JobInv(j: Job) {
    && (j.status.Complete? ==> AllReady(j.targets))
    && (j.status.Partial? ==> AllTerminal(j.targets) && SomeReady(j.targets) && SomeErrored(j.targets))
    && (j.status.Failed? ==> AllTerminal(j.targets) && !SomeReady(j.targets) && SomeErrored(j.targets))
    && TargetsInv(j.targets)
  }

  ghost predicate TargetsInv(ts: map<string, Target>) { forall sid | sid in ts :: TargetInv(ts[sid]) }

  /** A target errs with a code; one sent was dispatched; and what made one ready is no older than its first dispatch.
      */
  ghost predicate TargetInv(t: Target) {
    && (t.state.Errored? <==> t.errorCode.Some?)
    && (t.state.Sending? || t.state.Enqueued? ==> t.dispatchedAt.Some? && t.attemptToken.Some? && t.reason.Some?)
    && (t.state.Ready? ==>
          && t.dispatchedAt.Some? && NotBefore(t.readyParsedAt, t.dispatchedAt.value)
          && NotBefore(t.readyUpdatedAt, t.dispatchedAt.value))
  }

  ghost predicate Inv(w: World) { forall id | id in w.jobs :: JobInv(w.jobs[id]) }

  /** A settled target only ever gains its acceptance time, an accepted one is not opened again, and no step changes
      the file a target names or the time of its first dispatch. */
  ghost predicate TargetLater(t: Target, t': Target) {
    && (Terminal(t.state) ==> t' == t.(enqueuedAt := t'.enqueuedAt))
    && (t.state.Enqueued? ==> t'.state.Enqueued? || Terminal(t'.state))
    && t'.fileId == t.fileId && t'.contentHash == t.contentHash
    && (t.dispatchedAt.Some? ==> t'.dispatchedAt == t.dispatchedAt)
  }

  /** Finished jobs keep their status; the selection never changes. */
  ghost predicate JobLater(j: Job, j': Job) {
    && (!j.status.Dispatching? ==> j'.status == j.status && j'.finishedAt == j.finishedAt)
    && j'.targets.Keys == j.targets.Keys
    && forall sid | sid in j.targets :: TargetLater(j.targets[sid], j'.targets[sid])
  }

  ghost predicate Later(w: World, w': World) {
    forall id | id in w.jobs :: id in w'.jobs && JobLater(w.jobs[id], w'.jobs[id])
  }

  lemma SettledKeeps(w: World, sid: string, t: Target, cutoff: int, now: int)
    requires TargetInv(t)
    ensures TargetLater(t, Settled(w, sid, t, cutoff, now)) && TargetInv(Settled(w, sid, t, cutoff, now))
  {
  }

  lemma SettleTargetsKeeps(w: World, ts: map<string, Target>, cutoff: int, now: int)
    requires TargetsInv(ts)
    ensures TargetsInv(SettleTargets(w, ts, cutoff, now))
    ensures forall sid | sid in ts :: TargetLater(ts[sid], SettleTargets(w, ts, cutoff, now)[sid])
  {
    forall sid | sid in ts
      ensures TargetLater(ts[sid], Settled(w, sid, ts[sid], cutoff, now))
      ensures TargetInv(Settled(w, sid, ts[sid], cutoff, now))
    {
      SettledKeeps(w, sid, ts[sid], cutoff, now);
    }
  }

  lemma FinalStatusIsHonest(ts: map<string, Target>)
    requires AllTerminal(ts)
    ensures FinalStatus(ts).Complete? <==> AllReady(ts)
    ensures FinalStatus(ts).Partial? <==> SomeReady(ts) && SomeErrored(ts)
    ensures FinalStatus(ts).Failed? <==> !SomeReady(ts) && SomeErrored(ts)
  {
    if !AllReady(ts) {
      var sid :| sid in ts && !ts[sid].state.Ready?;
      assert Terminal(ts[sid].state);
    }
  }

  lemma ReconcileKeeps(w: World, j: Job, cutoff: int, now: int)
    requires JobInv(j)
    ensures JobInv(Reconciled(w, j, cutoff, now)) && JobLater(j, Reconciled(w, j, cutoff, now))
  {
    if j.status.Dispatching? {
      var ts := SettleTargets(w, j.targets, cutoff, now);
      SettleTargetsKeeps(w, j.targets, cutoff, now);
      if AllTerminal(ts) { FinalStatusIsHonest(ts); }
    }
  }

  // ---- Creating ----

  function NewTarget(w: World, sid: string): Target
    requires sid in w.sessions
  {
    var s := w.sessions[sid];
    var unsupported := Unsupported(w, sid, s.canonical);
    var file := s.canonical;
    var hash := if file.Some? && file.value in w.files then w.files[file.value].contentHash else None;
    Target(s.canonical, hash,
           if unsupported then Errored else Pending, None, None, None, None, None, None, 0, None,
           if unsupported then Some("unsupported_file") else None)
  }

  function Selection(w: World, selected: set<string>): map<string, Target> {
    map sid | sid in selected && sid in w.sessions :: NewTarget(w, sid)
  }

  /** The closing statement of a failed preflight: every target errs. */
  function Aborted(t: Target, now: int): Target {
    t.(state := Errored, errorCode := Some(t.errorCode.GetOr("preflight_aborted")), completedAt := Some(now))
  }

  /** A new job over the sessions the range selects: failed when any is unsupported, complete when there is none. */
  function Created(w: World, selected: set<string>, now: int): Job {
    var ts := Selection(w, selected);
    var bad := set sid | sid in ts && ts[sid].errorCode.Some?;
    if bad != {} then Job(Failed, None, None, Some(now), |bad|, map sid | sid in ts :: Aborted(ts[sid], now))
    else if ts == map[] then Job(Complete, None, None, Some(now), 0, ts)
    else Job(Dispatching, None, None, None, 0, ts)
  }

  lemma CreatedIsGood(w: World, selected: set<string>, now: int)
    ensures JobInv(Created(w, selected, now))
  {
    var ts := Selection(w, selected);
    var bad := set sid | sid in ts && ts[sid].errorCode.Some?;
    var j := Created(w, selected, now);
    if bad != {} {
      var sid :| sid in bad;
      assert j.targets[sid].state.Errored?;
    } else if ts != map[] {
      forall sid | sid in ts ensures TargetInv(ts[sid]) {
        assert sid !in bad;
      }
    }
  }

  // ---- The lease ----

  predicate LeaseLive(j: Job, token: string, now: int) {
    j.status.Dispatching? && j.leaseToken == Some(token) && j.leaseUntil.Some? && j.leaseUntil.value > now
  }

  predicate Claimable(j: Job, now: int) {
    j.status.Dispatching? && (j.leaseToken.None? || (j.leaseUntil.Some? && j.leaseUntil.value <= now))
  }

  function Claimed(j: Job, token: string, now: int): Job {
    if Claimable(j, now) then j.(leaseToken := Some(token), leaseUntil := Some(now + LEASE_MS)) else j
  }

  function Renewed(j: Job, token: string, now: int): Job {
    if LeaseLive(j, token, now) then j.(leaseUntil := Some(now + LEASE_MS)) else j
  }

  function Released(j: Job, token: string): Job {
    if j.leaseToken == Some(token) then j.(leaseToken := None, leaseUntil := None) else j
  }

  // ---- Dispatching one target ----

  predicate Open(s: DispatchState) { s.Pending? || s.Sending? || s.Blocked? }

  /** The attempt is noted; a freshly reserved file blocks the target. */
  function Attempted(w: World, t: Target, cutoff: int, now: int): Target {
    t.(lastAttempt := now, state := if FreshlyReserved(FileOf(w, t), cutoff) then Blocked else t.state)
  }

  /** Session and file are there, nothing failed, nobody holds the file, and the parse was not observed yet. */
  predicate Dispatchable(w: World, sid: string, t: Target, cutoff: int) {
    && SessionOf(w, sid).Some? && FileOf(w, t).Some? && Failure(w, sid, t).None?
    && !FreshlyReserved(FileOf(w, t), cutoff) && !Observed(w, sid, t)
  }

  predicate Owed(f: File) { f.parseState.Reserved? || f.parseState.ParsePending? }

  function ReasonFor(f: File, t: Target): Reason {
    if Owed(f) && f.reservedReason.Some? && !f.reservedReason.value.Reindex? then f.reservedReason.value
    else if t.reason.Some? then t.reason.value
    else Reindex
  }

  function SentTarget(w: World, t: Target, token: string, now: int): Target
    requires FileOf(w, t).Some?
  {
    t.(state := Sending, attemptToken := Some(token),
       dispatchedAt := Some(t.dispatchedAt.GetOr(now)), reason := Some(ReasonFor(FileOf(w, t).value, t)))
  }

  function InvalidatedFile(f: File): File {
    f.(parseState := ParsePending, reservedAt := None, reservedReason := if Owed(f) then f.reservedReason else None,
       generation := if f.parseState.Reserved? then f.generation + 1 else f.generation)
  }

  predicate WillSend(w: World, id: string, sid: string, token: string, cutoff: int, now: int) {
    && id in w.jobs && LeaseLive(w.jobs[id], token, now) && sid in w.jobs[id].targets
    && Open(w.jobs[id].targets[sid].state)
    && Dispatchable(w, sid, Attempted(w, w.jobs[id].targets[sid], cutoff, now), cutoff)
  }

  function WithTarget(j: Job, sid: string, t: Target): Job { j.(targets := j.targets[sid := t]) }

  /** The whole dispatch batch: all of it, or only the note of the attempt, or nothing. */
  function Prepared(w: World, id: string, sid: string, token: string, cutoff: int, now: int): World {
    if id !in w.jobs || !LeaseLive(w.jobs[id], token, now) then w
    else if sid !in w.jobs[id].targets || !Open(w.jobs[id].targets[sid].state) then w
    else
      var j := w.jobs[id];
      var t := Attempted(w, j.targets[sid], cutoff, now);
      if !Dispatchable(w, sid, t, cutoff) then w.(jobs := w.jobs[id := WithTarget(j, sid, t)])
      else
        var file := t.fileId.value;
        World(w.jobs[id := WithTarget(j, sid, SentTarget(w, t, token, now))],
              w.files[file := InvalidatedFile(w.files[file])],
              w.sessions[sid := w.sessions[sid].(indexState := IndexParsing)])
  }

  /** The queue took the message. */
  function AcceptedTarget(t: Target, now: int): Target {
    t.(state := if t.state.Sending? then Enqueued else t.state, enqueuedAt := Some(now))
  }

  predicate Accepts(w: World, id: string, sid: string, token: string, now: int) {
    && id in w.jobs && LeaseLive(w.jobs[id], token, now) && sid in w.jobs[id].targets
    && w.jobs[id].targets[sid].attemptToken == Some(token)
  }

  datatype Message = Message(fileId: int, contentHash: Option<string>, reason: Reason)

  /** A pending file's reason is cleared, when it is still the one that was sent. */
  function ClearedFiles(files: map<int, File>, m: Message): map<int, File> {
    if m.fileId in files && files[m.fileId].contentHash.Some? && files[m.fileId].contentHash == m.contentHash
       && files[m.fileId].parseState.ParsePending? && files[m.fileId].reservedReason == Some(m.reason)
    then files[m.fileId := files[m.fileId].(reservedReason := None)] else files
  }

  function Accepted(w: World, id: string, sid: string, token: string, m: Message, now: int): World {
    if id !in w.jobs then w
    else
      w.(jobs := if Accepts(w, id, sid, token, now)
                 then w.jobs[id := WithTarget(w.jobs[id], sid, AcceptedTarget(w.jobs[id].targets[sid], now))]
                 else w.jobs,
         files := if LeaseLive(w.jobs[id], token, now) then ClearedFiles(w.files, m) else w.files)
  }

  // ---- Every step ----

  datatype Action =
    | Create(id: string, selected: set<string>, now: int)
    | Reconcile(id: string, cutoff: int, now: int)
    | Claim(id: string, token: string, now: int)
    | Renew(id: string, token: string, now: int)
    | Release(id: string, token: string)
    | Prepare(id: string, sid: string, token: string, cutoff: int, now: int)
    | Accept(id: string, sid: string, token: string, message: Message, now: int)
    | Elsewhere(files: map<int, File>, sessions: map<string, Session>)

  predicate Enabled(w: World, a: Action) {
    a.Create? ==> a.id !in w.jobs
  }

  function OnJob(w: World, id: string, f: Job -> Job): World {
    if id in w.jobs then w.(jobs := w.jobs[id := f(w.jobs[id])]) else w
  }

  function Apply(w: World, a: Action): World {
    match a
    case Create(id, selected, now) => w.(jobs := w.jobs[id := Created(w, selected, now)])
    case Reconcile(id, cutoff, now) => OnJob(w, id, j => Reconciled(w, j, cutoff, now))
    case Claim(id, token, now) => OnJob(w, id, j => Claimed(j, token, now))
    case Renew(id, token, now) => OnJob(w, id, j => Renewed(j, token, now))
    case Release(id, token) => OnJob(w, id, j => Released(j, token))
    case Prepare(id, sid, token, cutoff, now) => Prepared(w, id, sid, token, cutoff, now)
    case Accept(id, sid, token, message, now) => Accepted(w, id, sid, token, message, now)
    case Elsewhere(files, sessions) => w.(files := files, sessions := sessions)
  }

  lemma JobReplaced(w: World, w': World, id: string, j': Job)
    requires Inv(w) && id in w.jobs && w'.jobs == w.jobs[id := j'] && JobInv(j') && JobLater(w.jobs[id], j')
    ensures Inv(w') && Later(w, w')
  {
    forall o | o in w.jobs ensures o in w'.jobs && JobLater(w.jobs[o], w'.jobs[o]) {}
  }

  lemma OpenTargetReplaced(j: Job, sid: string, t: Target)
    requires JobInv(j) && j.status.Dispatching? && sid in j.targets && !Terminal(j.targets[sid].state)
    requires !Terminal(t.state) && TargetInv(t) && TargetLater(j.targets[sid], t)
    ensures JobInv(WithTarget(j, sid, t)) && JobLater(j, WithTarget(j, sid, t))
  {
  }

  lemma PrepareKeeps(w: World, id: string, sid: string, token: string, cutoff: int, now: int)
    requires Inv(w)
    ensures Inv(Prepared(w, id, sid, token, cutoff, now)) && Later(w, Prepared(w, id, sid, token, cutoff, now))
  {
    var w' := Prepared(w, id, sid, token, cutoff, now);
    if && id in w.jobs && LeaseLive(w.jobs[id], token, now)
       && sid in w.jobs[id].targets && Open(w.jobs[id].targets[sid].state)
    {
      var j := w.jobs[id];
      var t := Attempted(w, j.targets[sid], cutoff, now);
      assert JobInv(j);
      OpenTargetReplaced(j, sid, t);
      if Dispatchable(w, sid, t, cutoff) { OpenTargetReplaced(j, sid, SentTarget(w, t, token, now)); }
      JobReplaced(w, w', id, w'.jobs[id]);
    }
  }

  lemma AcceptKeeps(w: World, id: string, sid: string, token: string, m: Message, now: int)
    requires Inv(w)
    ensures Inv(Accepted(w, id, sid, token, m, now)) && Later(w, Accepted(w, id, sid, token, m, now))
  {
    if Accepts(w, id, sid, token, now) {
      var j := w.jobs[id];
      assert JobInv(j);
      JobReplaced(w, Accepted(w, id, sid, token, m, now), id, WithTarget(j, sid, AcceptedTarget(j.targets[sid], now)));
    }
  }

  /** Whatever creation, reconciliation, dispatch, queue and everybody else do, in any order. */
  lemma StepKeeps(w: World, a: Action)
    requires Inv(w) && Enabled(w, a)
    ensures Inv(Apply(w, a)) && Later(w, Apply(w, a))
  {
    match a
    case Create(id, selected, now) => CreatedIsGood(w, selected, now);
    case Prepare(id, sid, token, cutoff, now) => PrepareKeeps(w, id, sid, token, cutoff, now);
    case Accept(id, sid, token, message, now) => AcceptKeeps(w, id, sid, token, message, now);
    case Reconcile(id, cutoff, now) =>
      if id in w.jobs {
        ReconcileKeeps(w, w.jobs[id], cutoff, now);
        JobReplaced(w, Apply(w, a), id, Reconciled(w, w.jobs[id], cutoff, now));
      }
    case Claim(id, token, now) =>
      if id in w.jobs { LeaseKeeps(w, id, Claimed(w.jobs[id], token, now)); }
    case Renew(id, token, now) =>
      if id in w.jobs { LeaseKeeps(w, id, Renewed(w.jobs[id], token, now)); }
    case Release(id, token) =>
      if id in w.jobs { LeaseKeeps(w, id, Released(w.jobs[id], token)); }
    case Elsewhere(files, sessions) =>
  }

  /** Only the lease changed. */
  lemma LeaseKeeps(w: World, id: string, j': Job)
    requires Inv(w) && id in w.jobs
    requires j' == w.jobs[id].(leaseToken := j'.leaseToken, leaseUntil := j'.leaseUntil)
    ensures Inv(w.(jobs := w.jobs[id := j'])) && Later(w, w.(jobs := w.jobs[id := j']))
  {
    assert JobInv(w.jobs[id]);
    JobReplaced(w, w.(jobs := w.jobs[id := j']), id, j');
  }

  lemma LaterIsTransitive(a: World, b: World, c: World)
    requires Later(a, b) && Later(b, c)
    ensures Later(a, c)
  {
    forall id | id in a.jobs ensures id in c.jobs && JobLater(a.jobs[id], c.jobs[id]) {
      assert JobLater(a.jobs[id], b.jobs[id]) && JobLater(b.jobs[id], c.jobs[id]);
      JobLaterIsTransitive(a.jobs[id], b.jobs[id], c.jobs[id]);
    }
  }

  lemma JobLaterIsTransitive(a: Job, b: Job, c: Job)
    requires JobLater(a, b) && JobLater(b, c)
    ensures JobLater(a, c)
  {
    forall sid | sid in a.targets ensures TargetLater(a.targets[sid], c.targets[sid]) {
      assert TargetLater(a.targets[sid], b.targets[sid]) && TargetLater(b.targets[sid], c.targets[sid]);
    }
  }

  lemma LaterIsReflexive(w: World)
    ensures Later(w, w)
  {
  }

  ghost predicate Linked(w: World, a: Action, w': World) { Enabled(w, a) && w' == Apply(w, a) }

  ghost predicate IsRun(states: seq<World>, actions: seq<Action>) {
    |states| == |actions| + 1 && forall k | 0 <= k < |actions| :: Linked(states[k], actions[k], states[k + 1])
  }

  /** Every world starts a run, and every step that is possible continues one. */
  lemma RunGoesOn(states: seq<World>, actions: seq<Action>, a: Action)
    ensures |states| == 1 && actions == [] ==> IsRun(states, actions)
    ensures IsRun(states, actions) && Enabled(states[|states| - 1], a) ==>
      IsRun(states + [Apply(states[|states| - 1], a)], actions + [a])
  {
    if IsRun(states, actions) && Enabled(states[|states| - 1], a) {
      var run, all := states + [Apply(states[|states| - 1], a)], actions + [a];
      forall k | 0 <= k < |all| ensures Linked(run[k], all[k], run[k + 1]) {
        if k < |actions| { assert Linked(states[k], actions[k], states[k + 1]); }
      }
    }
  }

  /** Over every run: finished jobs say what became of their targets, and nothing settled ever changes. */
  lemma {:induction false} RunKeeps(states: seq<World>, actions: seq<Action>, j: nat, k: nat)
    requires IsRun(states, actions) && Inv(states[0]) && j <= k < |states|
    ensures Inv(states[k]) && Later(states[j], states[k])
  {
    if k == 0 {
      LaterIsReflexive(states[0]);
    } else {
      RunKeeps(states, actions, if j < k then j else k - 1, k - 1);
      assert Linked(states[k - 1], actions[k - 1], states[k - 1 + 1]);
      StepKeeps(states[k - 1], actions[k - 1]);
      if j < k { LaterIsTransitive(states[j], states[k - 1], states[k]); } else { LaterIsReflexive(states[k]); }
    }
  }

  /** A file is marked for parsing, or a session as being parsed, only by a dispatch that moves its target to
      sending while the caller's lease is live; an acceptance clears a reservation's reason and nothing else. */
  lemma InvalidationNeedsLease(w: World, a: Action, file: int, sid: string)
    requires !a.Elsewhere?
    ensures file in w.files ==> file in Apply(w, a).files
    ensures sid in w.sessions ==> sid in Apply(w, a).sessions
    ensures file in w.files && Apply(w, a).files[file] != w.files[file] && !ReasonCleared(w, a, file) ==>
      Dispatches(w, a) && Apply(w, a).jobs[a.id].targets[a.sid].fileId == Some(file)
    ensures sid in w.sessions && Apply(w, a).sessions[sid] != w.sessions[sid] ==>
      Dispatches(w, a) && a.sid == sid
  {
  }

  /** The step is an acceptance under the caller's live lease and only clears the reason of a pending file. */
  ghost predicate ReasonCleared(w: World, a: Action, file: int)
    requires file in w.files
  {
    && a.Accept? && a.id in w.jobs && LeaseLive(w.jobs[a.id], a.token, a.now)
    && file in Apply(w, a).files && w.files[file].parseState.ParsePending?
    && Apply(w, a).files[file] == w.files[file].(reservedReason := None)
  }

  /** While one caller's lease runs, no other claims, keeps or ends it, and no other dispatches from the job. */
  lemma LiveLeaseExcludes(w: World, a: Action, id: string, token: string, now: int)
    requires Enabled(w, a) && id in w.jobs && LeaseLive(w.jobs[id], token, now)
    requires (a.Claim? || a.Renew? || a.Prepare? || a.Accept?) ==> a.token != token && a.now == now
    requires a.Release? ==> a.token != token
    ensures id in Apply(w, a).jobs
    ensures Apply(w, a).jobs[id].leaseToken == Some(token) && Apply(w, a).jobs[id].leaseUntil == w.jobs[id].leaseUntil
    ensures Dispatches(w, a) ==> a.id != id
    ensures !a.Reconcile? ==> Apply(w, a).jobs[id] == w.jobs[id]
  {
  }

  /** The step moves its target to sending under the caller's live lease. */
  ghost predicate Dispatches(w: World, a: Action) {
    && a.Prepare? && WillSend(w, a.id, a.sid, a.token, a.cutoff, a.now)
    && LeaseLive(Apply(w, a).jobs[a.id], a.token, a.now)
    && a.sid in Apply(w, a).jobs[a.id].targets
    && Apply(w, a).jobs[a.id].targets[a.sid].state.Sending?
    && Apply(w, a).jobs[a.id].targets[a.sid].attemptToken == Some(a.token)
  }
}
