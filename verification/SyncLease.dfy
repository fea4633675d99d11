/** What the run token protects: one live lease at a time, no write by a worker whose lease is over, a
    bounded number of retries, and metadata progress that is never lost. */
module SyncLease {
  import opened Tags
  import opened Interning
  import opened Repository
  import opened SyncSystem
  import opened SyncInvariants
  import opened SyncTheorems

  // ----- Fencing -----

  /** The worker that takes a step, if one does. */
  function StepToken(step: Step): Option<Token> {
    match step
    case BeginRun(token, _) => Some(token)
    case FetchMetadata(token) => Some(token)
    case PersistMetadata(token, _) => Some(token)
    case ListPending(token) => Some(token)
    case Download(token, _, _) => Some(token)
    case FinalizeBatch(token) => Some(token)
    case ListProcessable(token) => Some(token)
    case ApplyNext(token, _) => Some(token)
    case Resume(token) => Some(token)
    case Complete(token) => Some(token)
    case Cancel(token) => Some(token)
    case FailRun(token, _) => Some(token)
    case ThrottleRun(token, _, _) => Some(token)
    case Crash(token) => Some(token)
    case _ => None
  }

  /** The token has been given out and its lease is over. */
  predicate Spent(s: Sys, token: Token) {
    token in s.issued && !Active(s.store, token)
  }

  /** Nothing durable differs: not the database, not what has been applied to it. */
  predicate SameTables(s: Sys, t: Sys) {
    t.store == s.store && t.history == s.history && t.known == s.known && t.streak == s.streak
  }

  lemma SpentStep(w: World, s: Sys, token: Token, step: Step)
    requires Spent(s, token)
    ensures Spent(Next(w, s, step), token)
    ensures StepToken(step) == Some(token) ==> SameTables(s, Next(w, s, step))
  {
    hide NextIndex, Processable, RegisterTables, StoreTables, Supported, ApplyContent, Obstacle, InIdOrder,
      Interned, IsMetadata, FailureText, StagedPairs, CleanTags, NotEmpty, NamesExtend, ValidNames;
  }

  /** Once a lease is over, its token is never live again, and no step of a worker that still carries it
      changes anything, however the steps of stale and new workers interleave. */
  lemma {:induction false} Fenced(w: World, s: Sys, token: Token, steps: seq<Step>, step: Step)
    requires Spent(s, token)
    ensures var t := Exec(w, s, steps);
            Spent(t, token) && (StepToken(step) == Some(token) ==> SameTables(t, Next(w, t, step)))
  {
    hide Next, Spent, SameTables;
    if steps != [] {
      var init, last := steps[..|steps| - 1], steps[|steps| - 1];
      Fenced(w, s, token, init, last);
      SpentStep(w, Exec(w, s, init), token, last);
    }
    SpentStep(w, Exec(w, s, steps), token, step);
  }

  /** While a lease is live no other token can be, and a second begin leaves the database as it is. */
  lemma OneLiveLease(w: World, names: Names, steps: seq<Step>, token: Token, other: Token, now: int)
    requires ValidNames(names) && Active(Exec(w, Start(names), steps).store, token)
    ensures var s := Exec(w, Start(names), steps);
            && token in s.issued
            && (other != token ==> !Active(s.store, other))
            && SameTables(s, Next(w, s, BeginRun(other, now)))
  {
    hide Exec, MirrorInv, CountInv, HistoryInv, WorkerInv;
    Reachable(w, names, steps);
  }

  /** The steps that end a lease, once they are enabled, and recovery. */
  predicate EndsLease(s: Sys, token: Token, step: Step) {
    match step
    case Complete(t) => t == token && Has(s, token) && s.workers[token].pc == Drained
    case Cancel(t) => t == token && Has(s, token)
    case FailRun(t, _) => t == token && Has(s, token)
    case ThrottleRun(t, _, _) => t == token && Has(s, token)
    case RecoverState => true
    case _ => false
  }

  /** Whichever way a live lease ends, its token is spent from then on. */
  lemma EndedIsFenced(w: World, names: Names, steps: seq<Step>, token: Token, end: Step, later: seq<Step>, step: Step)
    requires ValidNames(names)
    requires var s := Exec(w, Start(names), steps); Active(s.store, token) && EndsLease(s, token, end)
    ensures var t := Exec(w, Next(w, Exec(w, Start(names), steps), end), later);
            Spent(t, token) && (StepToken(step) == Some(token) ==> SameTables(t, Next(w, t, step)))
  {
    hide Exec, MirrorInv, CountInv, HistoryInv, WorkerInv;
    var s := Exec(w, Start(names), steps);
    Reachable(w, names, steps);
    LeaseOver(w, s, token, end);
    Fenced(w, Next(w, s, end), token, later, step);
  }

  lemma LeaseOver(w: World, s: Sys, token: Token, end: Step)
    requires LeaseInv(s) && Active(s.store, token) && EndsLease(s, token, end)
    ensures Spent(Next(w, s, end), token)
  {
  }

  // ----- Retries -----

  /** In every reachable state: running, holding a token and syncing are the same; an idle service has no
      retry data; a retrying one has used between one and ten attempts, one for each lease that ended
      throttled since the service was last idle. */
  lemma LeaseShape(w: World, names: Names, steps: seq<Step>)
    requires ValidNames(names)
    ensures var s := Exec(w, Start(names), steps);
            var sync := s.store.sync;
            && (sync.running <==> sync.token.Some?) && (sync.running <==> sync.phase == Syncing)
            && (sync.phase == Idle ==> sync.retryAt == 0 && sync.retryAttempt == 0)
            && (sync.phase == Retrying ==> 1 <= sync.retryAttempt)
            && s.streak == sync.retryAttempt && s.streak <= 10
  {
    hide Exec, MirrorInv, CountInv, HistoryInv, WorkerInv;
    Reachable(w, names, steps);
  }

  /** Start-up recovery in any reachable state: a retry that waits is left as it is, with the count of throttled
      leases, and so is a clean idle state; any other state becomes idle with no lease, error or retry, while
      progress, counters, updates and content stay. */
  lemma RecoveryKeepsRetries(w: World, names: Names, steps: seq<Step>)
    requires ValidNames(names)
    ensures var s := Exec(w, Start(names), steps);
            var t := Next(w, s, RecoverState);
            var before, after := s.store.sync, t.store.sync;
            if before.phase == Retrying || (before.phase == Idle && before.lastError == None) then
              t == s
            else
              && after == SyncState(Idle, false, None, before.metadataSlice, before.downloaded,
                                    before.definitionsDone, before.contentDone, 0, 0, None, before.lastMappingCount)
              && t == s.(store := s.store.(sync := after), streak := 0)
  {
    hide Exec, MirrorInv, CountInv, HistoryInv, WorkerInv;
    Reachable(w, names, steps);
  }

  /** A busy or transient answer to the holder of the lease: one more retry while fewer than ten leases in a
      row ended so, and after ten the service goes idle with an error. */
  lemma RetriesRunOut(w: World, names: Names, steps: seq<Step>, token: Token, retryAt: int, text: string)
    requires ValidNames(names)
    requires var s := Exec(w, Start(names), steps); Has(s, token) && Active(s.store, token)
    ensures var s := Exec(w, Start(names), steps);
            var t := Next(w, s, ThrottleRun(token, retryAt, text));
            && t.store == s.store.(sync := t.store.sync)
            && if s.streak < 10 then
                 && t.store.sync.phase == Retrying && t.store.sync.retryAt == retryAt
                 && t.store.sync.retryAttempt == s.streak + 1 == t.streak
               else
                 && t.store.sync.phase == Idle && t.store.sync.lastError == Some(FailureText(text))
                 && t.store.sync.retryAttempt == 0 == t.streak
  {
    hide Exec, MirrorInv, CountInv, HistoryInv;
    var s := Exec(w, Start(names), steps);
    Reachable(w, names, steps);
    HolderAttempt(s, token);
  }

  /** After the retries are used up, the failure is written twice: by the retry path and by the run's own
      cleanup.  The second write changes nothing, whatever happened in between. */
  lemma SecondFailureWriteIsVoid(w: World, names: Names, steps: seq<Step>, token: Token, retryAt: int, text: string,
                                 between: seq<Step>, again: string)
    requires ValidNames(names)
    requires var s := Exec(w, Start(names), steps);
             Has(s, token) && Active(s.store, token) && NextAttempt(s.workers[token]) > MAX_BUSY_RETRIES
    ensures var failed := Next(w, Exec(w, Start(names), steps), ThrottleRun(token, retryAt, text));
            var t := Exec(w, failed, between);
            && failed.store.sync.phase == Idle && failed.store.sync.lastError == Some(FailureText(text))
            && SameTables(t, Next(w, t, FailRun(token, again)))
  {
    hide Exec, MirrorInv, CountInv, HistoryInv;
    var s := Exec(w, Start(names), steps);
    Reachable(w, names, steps);
    LeaseOver(w, s, token, ThrottleRun(token, retryAt, text));
    Fenced(w, Next(w, s, ThrottleRun(token, retryAt, text)), token, between, FailRun(token, again));
  }

  // ----- Metadata progress -----

  lemma SliceStep(w: World, s: Sys, step: Step)
    requires s.store.sync.metadataSlice <= NextIndex(s.store.updates.registered)
    ensures s.store.sync.metadataSlice <= Next(w, s, step).store.sync.metadataSlice
  {
    hide NextIndex, Processable, RegisterTables, StoreTables, Supported, ApplyContent, Obstacle, InIdOrder, Items,
      Interned, IsMetadata, FailureText, StagedPairs, CleanTags, NotEmpty, NamesExtend, ValidNames;
  }

  /** The metadata slice never decreases. */
  lemma {:induction false} SliceMonotone(w: World, s: Sys, steps: seq<Step>)
    requires Inv(w, s)
    ensures s.store.sync.metadataSlice <= Exec(w, s, steps).store.sync.metadataSlice
  {
    hide Next, MirrorInv, HistoryInv, WorkerInv;
    if steps != [] {
      var init := steps[..|steps| - 1];
      SliceMonotone(w, s, init);
      ExecInv(w, s, init);
      SliceStep(w, Exec(w, s, init), steps[|steps| - 1]);
    }
  }

  /** One more than the largest index the log will ever have. */
  function LogEnd(w: World): nat {
    NextIndex(map id | id in w.log :: w.log[id].index)
  }

  lemma SliceBounded(w: World, s: Sys)
    requires Inv(w, s)
    ensures s.store.sync.metadataSlice <= LogEnd(w)
  {
    NextIndexMonotone(s.store.updates.registered, map id | id in w.log :: w.log[id].index);
  }

  /** A run is followed by another at once only when an update is due and the run advanced the slice. */
  predicate ShouldContinue(nextUpdateDue: int, previousSlice: nat, currentSlice: nat, now: int) {
    nextUpdateDue > 0 && nextUpdateDue <= now && currentSlice > previousSlice
  }

  /** The k-th run of a chain: the steps until it ended, and when the next update was due, and the time. */
  datatype ChainLink = ChainLink(end: nat, due: int, now: int)

  function SliceAt(w: World, names: Names, steps: seq<Step>, n: nat): nat {
    Exec(w, Start(names), if n <= |steps| then steps[..n] else steps).store.sync.metadataSlice
  }

  /** The k-th run of the chain continued from the one before it. */
  predicate Continues(w: World, names: Names, steps: seq<Step>, start: nat, chain: seq<ChainLink>, k: nat)
    requires k < |chain|
  {
    ShouldContinue(chain[k].due, SliceAt(w, names, steps, if k == 0 then start else chain[k - 1].end),
                   SliceAt(w, names, steps, chain[k].end), chain[k].now)
  }

  predicate IsChain(w: World, names: Names, steps: seq<Step>, start: nat, chain: seq<ChainLink>) {
    forall k | 0 <= k < |chain| :: Continues(w, names, steps, start, chain, k)
  }

  lemma {:induction false} ChainAdvances(w: World, names: Names, steps: seq<Step>, start: nat, chain: seq<ChainLink>,
                                         n: nat)
    requires IsChain(w, names, steps, start, chain) && n < |chain|
    ensures n < SliceAt(w, names, steps, chain[n].end)
    decreases n
  {
    hide SliceAt;
    assert Continues(w, names, steps, start, chain, n);
    if n > 0 {
      ChainAdvances(w, names, steps, start, chain, n - 1);
    }
  }

  /** Runs that follow each other at once are no more than the log has indices: each advances the slice, and
      the slice never passes the end of the log. */
  lemma ChainIsBounded(w: World, names: Names, steps: seq<Step>, start: nat, chain: seq<ChainLink>)
    requires ValidNames(names) && IsChain(w, names, steps, start, chain)
    ensures |chain| <= LogEnd(w)
  {
    hide Exec, Inv;
    if chain != [] {
      ChainAdvances(w, names, steps, start, chain, |chain| - 1);
      var n := chain[|chain| - 1].end;
      var before := if n <= |steps| then steps[..n] else steps;
      Reachable(w, names, before);
      SliceBounded(w, Exec(w, Start(names), before));
    }
  }
}
