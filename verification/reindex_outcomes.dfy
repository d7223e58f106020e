/** When a reindex settles a target and when it sends one, on the stored rows: the target, its session and its file. */
module ReindexOutcomes {
  import opened Wrappers
  import opened TextOrder
  import opened ReindexJobs
  import opened ReindexRange

  // ---- Settling ----

  /** The target errs with a code. */
  predicate Errs(t: Target, t': Target, code: string, now: int) {
    t' == t.(state := Errored, errorCode := Some(code), completedAt := Some(now), readyParsedAt := None,
             readyUpdatedAt := None)
  }

  /** The target is ready, with the times that were observed. */
  predicate IsReadied(t: Target, t': Target, f: File, s: Session, now: int) {
    t' == t.(state := Ready, errorCode := None, completedAt := Some(now), readyParsedAt := f.parsedAt,
             readyUpdatedAt := s.updatedAt)
  }

  /** Another session's canonical file. */
  ghost predicate Sibling(w: World, sid: string, file: int) {
    exists o :: o in w.sessions && o != sid && w.sessions[o].canonical == Some(file)
  }

  /** An open target of a dispatching job that has not failed. */
  ghost predicate OpenTarget(j: Job, sid: string) {
    && j.status == Dispatching && sid in j.targets && j.targets[sid].errorCode.None?
    && j.targets[sid].state != Ready && j.targets[sid].state != Errored
  }

  /** The target's session and file are what they were when the job was created, and the file is its session's own. */
  ghost predicate Intact(w: World, sid: string, t: Target, s: Session, f: File) {
    && sid in w.sessions && w.sessions[sid] == s
    && t.fileId.Some? && t.fileId.value in w.files && w.files[t.fileId.value] == f
    && s.canonical == t.fileId && f.contentHash == t.contentHash
    && !f.archive && !Sibling(w, sid, t.fileId.value)
  }

  predicate Since(at: Option<int>, d: int) { match at case Some(x) => d <= x case None => false }

  predicate InError(f: File, s: Session) { f.parseState == ParseError || s.indexState == IndexError }

  predicate NotIndexed(f: File, s: Session) {
    !InError(f, s) && (f.parseState == Skipped || f.parseState == Superseded)
  }

  predicate ParsedSince(f: File, s: Session, d: int) {
    f.parseState == Parsed && s.indexState == IndexReady && Since(f.parsedAt, d) && Since(s.updatedAt, d)
  }

  /** A target that was never sent stays, whatever the parse and index states say: a failed session can be reindexed. */
  lemma UnsentStays(w: World, j: Job, sid: string, s: Session, f: File, cutoff: int, now: int)
    requires OpenTarget(j, sid) && Intact(w, sid, j.targets[sid], s, f) && j.targets[sid].dispatchedAt.None?
    ensures Reconciled(w, j, cutoff, now).targets[sid] == j.targets[sid]
  {
  }

  /** A target that was sent errs when its file or session is in error, or its file was skipped or superseded; it is
      ready when both were renewed since; otherwise it stays. */
  lemma SentSettles(w: World, j: Job, sid: string, s: Session, f: File, d: int, cutoff: int, now: int)
    requires OpenTarget(j, sid) && Intact(w, sid, j.targets[sid], s, f) && j.targets[sid].dispatchedAt == Some(d)
    ensures var t, t' := j.targets[sid], Reconciled(w, j, cutoff, now).targets[sid];
            if InError(f, s) then Errs(t, t', "parse_failed", now)
            else if NotIndexed(f, s) then Errs(t, t', "parse_not_indexed", now)
            else if ParsedSince(f, s, d) then IsReadied(t, t', f, s, now)
            else t' == t
  {
  }

  predicate Moved(w: World, sid: string, t: Target) { sid in w.sessions && w.sessions[sid].canonical != t.fileId }

  predicate Rewritten(w: World, t: Target) {
    t.fileId.Some? && t.fileId.value in w.files && w.files[t.fileId.value].contentHash != t.contentHash
  }

  ghost predicate Unsafe(w: World, sid: string, t: Target) {
    && t.fileId.Some? && t.fileId.value in w.files
    && (w.files[t.fileId.value].archive || Sibling(w, sid, t.fileId.value))
  }

  /** Sent or not, every other failure has its own condition, and a target that errs has exactly one code. */
  lemma OtherFailures(w: World, j: Job, sid: string, cutoff: int, now: int)
    requires OpenTarget(j, sid)
    ensures var t, t' := j.targets[sid], Reconciled(w, j, cutoff, now).targets[sid];
            var gone := sid !in w.sessions;
            var lost := t.fileId.None? || t.fileId.value !in w.files;
            && (gone <==> Errs(t, t', "missing_session", now))
            && ((!gone && lost) <==> Errs(t, t', "missing_file", now))
            && ((!gone && !lost && Moved(w, sid, t)) <==> Errs(t, t', "changed_canonical", now))
            && ((!gone && !lost && !Moved(w, sid, t) && Rewritten(w, t)) <==> Errs(t, t', "changed_hash", now))
            && ((!gone && !lost && !Moved(w, sid, t) && !Rewritten(w, t) && Unsafe(w, sid, t))
                <==> Errs(t, t', "unsupported_file", now))
  {
  }

  /** Settled targets and the targets of a finished job stay as they are. */
  lemma SettledStays(w: World, j: Job, sid: string, cutoff: int, now: int)
    requires sid in j.targets && (j.status != Dispatching || j.targets[sid].state in {Ready, Errored})
    ensures Reconciled(w, j, cutoff, now).targets.Keys == j.targets.Keys
    ensures Reconciled(w, j, cutoff, now).targets[sid] == j.targets[sid]
  {
  }

  /** Reconciling closes a job exactly when it leaves no target open: complete with every target ready, failed with
      none ready and some erred, partial with both. */
  lemma JobCloses(w: World, j: Job, cutoff: int, now: int)
    requires j.status == Dispatching
    ensures var j' := Reconciled(w, j, cutoff, now);
            var ready := exists sid :: sid in j'.targets && j'.targets[sid].state == Ready;
            var erred := exists sid :: sid in j'.targets && j'.targets[sid].state == Errored;
            var open := exists sid :: sid in j'.targets && j'.targets[sid].state !in {Ready, Errored};
            && (j'.status == Dispatching <==> open)
            && (j'.status == Complete <==> !open && !erred)
            && (j'.status == Partial <==> !open && ready && erred)
            && (j'.status == Failed <==> !open && !ready && erred)
            && j'.finishedAt == (if open then j.finishedAt else Some(now))
            && j'.leaseToken == j.leaseToken && j'.leaseUntil == j.leaseUntil
  {
  }

  // ---- Sending ----

  /** A reservation of the file that is newer than the cutoff. */
  predicate Held(f: File, cutoff: int) {
    f.parseState == Reserved && match f.reservedAt case Some(at) => at > cutoff case None => false
  }

  /** The caller holds a lease that runs beyond now. */
  predicate Holds(j: Job, token: string, now: int) {
    && j.status == Dispatching && j.leaseToken == Some(token)
    && match j.leaseUntil case Some(until) => now < until case None => false
  }

  /** What was sent before has neither failed nor succeeded. */
  predicate Undecided(t: Target, f: File, s: Session) {
    match t.dispatchedAt
    case None => true
    case Some(d) => !InError(f, s) && !NotIndexed(f, s) && !ParsedSince(f, s, d)
  }

  /** The target may be tried: nobody has it in the queue and it is not settled. */
  predicate Tryable(j: Job, sid: string) { sid in j.targets && j.targets[sid].state in {Pending, Sending, Blocked} }

  /** A message is sent exactly under a live lease, for a target that may be tried, whose session and file are intact,
      undecided and not held by an upload. */
  lemma SendsWhen(w: World, id: string, sid: string, token: string, cutoff: int, now: int)
    ensures WillSend(w, id, sid, token, cutoff, now)
       <==> && id in w.jobs && Holds(w.jobs[id], token, now) && Tryable(w.jobs[id], sid)
            && w.jobs[id].targets[sid].errorCode.None?
            && exists s, f :: Intact(w, sid, w.jobs[id].targets[sid], s, f)
                           && Undecided(w.jobs[id].targets[sid], f, s) && !Held(f, cutoff)
  {
    if id in w.jobs && sid in w.jobs[id].targets && sid in w.sessions {
      var t := w.jobs[id].targets[sid];
      if t.fileId.Some? && t.fileId.value in w.files {
        var s, f := w.sessions[sid], w.files[t.fileId.value];
        assert Intact(w, sid, t, s, f) <==>
          s.canonical == t.fileId && f.contentHash == t.contentHash && !f.archive && !Sibling(w, sid, t.fileId.value);
      }
    }
  }

  /** The reason of an upload or a recovery that is still owed is kept; otherwise an earlier reason of the target. */
  predicate IsReason(f: File, t: Target, reason: Reason) {
    if f.parseState in {Reserved, ParsePending} && f.reservedReason in {Some(Recover), Some(Upload)}
    then f.reservedReason == Some(reason)
    else reason == t.reason.GetOr(Reindex)
  }

  /** The target as it was sent: its first dispatch time stays. */
  predicate IsSent(t: Target, t': Target, f: File, token: string, now: int) {
    && t'.reason.Some? && IsReason(f, t, t'.reason.value)
    && t' == t.(state := Sending, attemptToken := Some(token), lastAttempt := now, reason := t'.reason,
                dispatchedAt := if t.dispatchedAt.Some? then t.dispatchedAt else Some(now))
  }

  /** The file as it waits for the parser: a reservation ends and its generation is over. */
  predicate IsInvalidated(f: File, f': File) {
    && f' == f.(parseState := ParsePending, reservedAt := None, generation := f'.generation,
                reservedReason := f'.reservedReason)
    && f'.generation == (if f.parseState == Reserved then f.generation + 1 else f.generation)
    && f'.reservedReason == (if f.parseState in {Reserved, ParsePending} then f.reservedReason else None)
  }

  /** Nothing but one target, one file and one session may differ. */
  predicate OnlyThese(w: World, w': World, id: string, sid: string, file: int) {
    && id in w.jobs && id in w'.jobs && sid in w'.jobs[id].targets && sid in w.jobs[id].targets
    && w'.jobs == w.jobs[id := w.jobs[id].(targets := w.jobs[id].targets[sid := w'.jobs[id].targets[sid]])]
    && file in w'.files && w'.files == w.files[file := w'.files[file]]
    && sid in w'.sessions && w'.sessions == w.sessions[sid := w'.sessions[sid]]
  }

  /** A dispatch that sends marks its target, its file and its session, and nothing else. */
  lemma SendingLeaves(w: World, id: string, sid: string, token: string, cutoff: int, now: int)
    requires WillSend(w, id, sid, token, cutoff, now)
    ensures var w', t := Prepared(w, id, sid, token, cutoff, now), w.jobs[id].targets[sid];
            && t.fileId.Some? && t.fileId.value in w.files && sid in w.sessions
            && OnlyThese(w, w', id, sid, t.fileId.value)
            && IsSent(t, w'.jobs[id].targets[sid], w.files[t.fileId.value], token, now)
            && IsInvalidated(w.files[t.fileId.value], w'.files[t.fileId.value])
            && w'.sessions[sid] == w.sessions[sid].(indexState := IndexParsing)
  {
  }

  /** A dispatch that does not send notes the attempt of a target that may be tried, which a held file blocks, and
      does nothing without the lease. */
  lemma NotSendingLeaves(w: World, id: string, sid: string, token: string, cutoff: int, now: int)
    requires !WillSend(w, id, sid, token, cutoff, now)
    ensures var w' := Prepared(w, id, sid, token, cutoff, now);
            if !(id in w.jobs && Holds(w.jobs[id], token, now) && Tryable(w.jobs[id], sid)) then w' == w
            else
              var t := w.jobs[id].targets[sid];
              var held := t.fileId.Some? && t.fileId.value in w.files && Held(w.files[t.fileId.value], cutoff);
              var t' := t.(lastAttempt := now, state := if held then Blocked else t.state);
              w' == w.(jobs := w.jobs[id := w.jobs[id].(targets := w.jobs[id].targets[sid := t'])])
  {
  }

  /** An acceptance under the lease marks the attempt that was sent as taken by the queue, and clears the reason it
      carried from a file that still waits with that content. */
  lemma AcceptingLeaves(w: World, id: string, sid: string, token: string, m: Message, now: int)
    ensures var w' := Accepted(w, id, sid, token, m, now);
            if !(id in w.jobs && Holds(w.jobs[id], token, now)) then w' == w
            else
              && w'.sessions == w.sessions
              && (if sid in w.jobs[id].targets && w.jobs[id].targets[sid].attemptToken == Some(token) then
                    var t := w.jobs[id].targets[sid];
                    var t' := t.(enqueuedAt := Some(now), state := if t.state == Sending then Enqueued else t.state);
                    w'.jobs == w.jobs[id := w.jobs[id].(targets := w.jobs[id].targets[sid := t'])]
                  else w'.jobs == w.jobs)
              && forall file :: (file in w'.files <==> file in w.files)
                   && (file in w.files ==>
                         w'.files[file] == if file == m.fileId && WaitsWith(w.files[file], m)
                                           then w.files[file].(reservedReason := None) else w.files[file])
  {
  }

  predicate WaitsWith(f: File, m: Message) {
    && f.parseState == ParsePending && f.contentHash == m.contentHash && f.contentHash != None
    && f.reservedReason == Some(m.reason)
  }

  // ---- The lease ----

  /** A claim succeeds exactly for a dispatching job without a lease or with an expired one, and holds for five
      minutes. */
  lemma ClaimHolds(w: World, id: string, token: string, now: int, later: int)
    requires id in w.jobs && w.jobs[id].leaseToken != Some(token)
    ensures var j, j' := w.jobs[id], Apply(w, Claim(id, token, now)).jobs[id];
            var free := j.leaseToken.None? || (match j.leaseUntil case Some(until) => until <= now case None => false);
            if j.status == Dispatching && free
            then now <= later ==> (Holds(j', token, later) <==> later < now + 300000)
            else j' == j
  {
  }

  /** A renewal extends a lease that is still held by five minutes from now, and revives none. */
  lemma RenewalHolds(w: World, id: string, token: string, now: int, later: int)
    requires id in w.jobs
    ensures var j, j' := w.jobs[id], Apply(w, Renew(id, token, now)).jobs[id];
            if Holds(j, token, now) then now <= later ==> (Holds(j', token, later) <==> later < now + 300000)
            else j' == j
  {
  }

  /** Giving the lease back frees the job at once; another caller's lease stays. */
  lemma ReleaseFrees(w: World, id: string, token: string, other: string, now: int)
    requires id in w.jobs
    ensures var j, j' := w.jobs[id], Apply(w, Release(id, token)).jobs[id];
            && !Holds(j', token, now) && (other != token ==> (Holds(j', other, now) <==> Holds(j, other, now)))
            && (j.leaseToken == Some(token) ==> j' == j.(leaseToken := None, leaseUntil := None))
            && (j.leaseToken != Some(token) ==> j' == j)
  {
  }

  // ---- Creating ----

  /** A session whose file is an archive or shared cannot be reindexed by itself. */
  ghost predicate Refused(w: World, sid: string) {
    && sid in w.sessions && w.sessions[sid].canonical.Some? && w.sessions[sid].canonical.value in w.files
    && (w.files[w.sessions[sid].canonical.value].archive || Sibling(w, sid, w.sessions[sid].canonical.value))
  }

  /** A target as a new job records it. */
  predicate IsNew(w: World, sid: string, t: Target) {
    && sid in w.sessions && t.fileId == w.sessions[sid].canonical
    && t.contentHash == (match t.fileId
                         case Some(file) => if file in w.files then w.files[file].contentHash else None
                         case None => None)
    && t.dispatchedAt.None? && t.enqueuedAt.None? && t.attemptToken.None? && t.reason.None? && t.lastAttempt == 0
    && t.readyParsedAt.None? && t.readyUpdatedAt.None?
  }

  lemma NewTargetIs(w: World, sid: string)
    requires sid in w.sessions
    ensures var t := NewTarget(w, sid);
            && IsNew(w, sid, t) && t.state == (if Refused(w, sid) then Errored else Pending) && t.completedAt.None?
            && t.errorCode == if Refused(w, sid) then Some("unsupported_file") else None
  {
  }

  ghost function RefusedOf(w: World, selected: set<string>): set<string> {
    set sid | sid in selected && Refused(w, sid)
  }

  /** A job with a refused session fails at once: all its targets err, and the refused ones say why. */
  ghost predicate FailedJob(w: World, j: Job, now: int) {
    && j.status == Failed && j.finishedAt == Some(now)
    && forall sid | sid in j.targets ::
         && j.targets[sid].state == Errored && j.targets[sid].completedAt == Some(now)
         && j.targets[sid].errorCode == Some(if Refused(w, sid) then "unsupported_file" else "preflight_aborted")
  }

  /** Any other job has all its targets still to do, and is complete when there are none. */
  predicate PendingJob(j: Job, now: int) {
    && (forall sid | sid in j.targets ::
          j.targets[sid].state == Pending && j.targets[sid].errorCode.None? && j.targets[sid].completedAt.None?)
    && j.status == (if j.targets == map[] then Complete else Dispatching)
    && j.finishedAt == if j.targets == map[] then Some(now) else None
  }

  /** A new job has one target for each selected session, nobody's lease, and fails if and only if a selected session
      cannot be reindexed by itself. */
  lemma NewJob(w: World, selected: set<string>, now: int)
    ensures var j := Created(w, selected, now);
            && j.targets.Keys == selected * w.sessions.Keys && j.leaseToken.None? && j.leaseUntil.None?
            && (forall sid | sid in j.targets :: IsNew(w, sid, j.targets[sid]))
            && j.unsupported == |RefusedOf(w, selected)|
            && if RefusedOf(w, selected) != {} then FailedJob(w, j, now) else PendingJob(j, now)
  {
    var ts := Selection(w, selected);
    var bad := set sid | sid in ts && ts[sid].errorCode.Some?;
    assert ts.Keys == selected * w.sessions.Keys;
    forall sid | sid in ts
      ensures IsNew(w, sid, ts[sid]) && ts[sid].state == (if Refused(w, sid) then Errored else Pending)
      ensures ts[sid].completedAt.None?
      ensures ts[sid].errorCode == if Refused(w, sid) then Some("unsupported_file") else None
    {
      NewTargetIs(w, sid);
    }
    assert bad == RefusedOf(w, selected);
    forall sid | sid in ts ensures Refused(w, sid) <==> sid in bad {}
  }

  /** The session was active at some moment of the range. */
  ghost predicate ActiveWithin(s: Session, from: int, to: int) {
    exists at :: from <= at <= to && ActiveAt(s, at)
  }

  /** From its start to its end; without an end, or with one before the start, at its start only. */
  predicate ActiveAt(s: Session, at: int) {
    s.startedAt.Some? && s.startedAt.value <= at
    && at <= match s.endedAt case Some(end) => (if s.startedAt.value <= end then end else s.startedAt.value)
                             case None => s.startedAt.value
  }

  /** A range selects the sessions active at some moment of it. */
  lemma RangeSelects(sessions: map<string, Session>, from: int, to: int, sid: string)
    requires from <= to
    ensures sid in Selected(sessions, from, to) <==> sid in sessions && ActiveWithin(sessions[sid], from, to)
  {
    if sid in sessions && sessions[sid].startedAt.Some? {
      var s := sessions[sid];
      var start := s.startedAt.value;
      if sid in Selected(sessions, from, to) {
        assert ActiveAt(s, if start >= from then start else from);
      }
    }
  }

  // ---- The page ----

  /** The targets a page is chosen from: not in the queue, and left open by reconciling. */
  lemma EligibleAreOpen(w: World, j: Job, cutoff: int, now: int, sid: string)
    requires j.status == Dispatching && sid in j.targets && TargetInv(j.targets[sid])
    ensures Eligible(w, j, cutoff, sid)
       <==> j.targets[sid].state != Enqueued && Reconciled(w, j, cutoff, now).targets[sid].state !in {Ready, Errored}
  {
  }

  /** Targets whose file is held come last; then the attempt times decide, then the ids. */
  lemma PageOrder(w: World, j: Job, cutoff: int, a: string, b: string)
    requires a in j.targets && b in j.targets && a != b
    ensures var heldA := exists f :: HeldFile(w, j.targets[a], f, cutoff);
            var heldB := exists f :: HeldFile(w, j.targets[b], f, cutoff);
            PageBefore(w, j, cutoff, a, b)
            <==> || (!heldA && heldB)
                 || (heldA == heldB && j.targets[a].lastAttempt < j.targets[b].lastAttempt)
                 || (heldA == heldB && j.targets[a].lastAttempt == j.targets[b].lastAttempt && Less(a, b))
  {
    forall t | t in j.targets.Values && FreshlyReserved(FileOf(w, t), cutoff)
      ensures exists f :: HeldFile(w, t, f, cutoff)
    {
      assert HeldFile(w, t, t.fileId.value, cutoff);
    }
  }

  predicate HeldFile(w: World, t: Target, f: int, cutoff: int) {
    t.fileId == Some(f) && f in w.files && Held(w.files[f], cutoff)
  }
}
