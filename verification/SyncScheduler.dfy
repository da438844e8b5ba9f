/**
 When a client context syncs its changes: debouncing with an upper bound, back-off after a refused
 sync, and what is kept across a sync that other changes interleave with.  A tick is cut at its two
 suspension points: the sync itself, and the vacuuming that follows a local sync with no local change
 left.  Any other sync runs on to the end of its tick in one step, and so does a tick with nothing to sync.
 */
module SyncScheduler {
  import opened Common

  type EntryId = nat

  const MIN_WAIT: real := 1.0
  const MAX_WAIT: real := 60.0
  const MAINTENANCE_MIN_WAIT: real := 30.0

  /** A moment, or never. */
  datatype Due = At(time: real) | Never

  function Min(a: real, b: real): real { if a <= b then a else b }

  /** Whether a due time is at or before the given moment. */
  predicate By(due: Due, moment: real) { due.At? && due.time <= moment }

  predicate Within(a: Due, b: Due) { b.Never? || By(a, b.time) }

  function Later(a: Due, b: real): Due { if By(a, b) then At(b) else a }

  datatype LocalChange = LocalChange(firstChangedOn: real, lastChangedOn: real) {
    function DueTime(): real { Min(lastChangedOn + MIN_WAIT, firstChangedOn + MAX_WAIT) }

    function Changed(on: real): LocalChange { this.(lastChangedOn := on) }
  }

  function NewChange(now: real): LocalChange { LocalChange(now, now) }

  type LocalChanges = map<EntryId, LocalChange>

  datatype Phase =
    | Idle
    | SyncingRemote(now: real, entry: EntryId)
    | SyncingLocal(now: real, entry: EntryId)
    | Finishing(now: real, minDueTime: Option<real>)

  datatype SyncResult = Synced | NoReadAccess | NoWriteAccess | InMaintenance

  /** What happened so far; a success refers to the position of its start. */
  datatype Event = ChangeMade(entry: EntryId) | SyncStarted(entry: EntryId) | SyncSucceeded(entry: EntryId, start: nat)

  /** A loaded, writable context with the clock it reads; `backOff` and `history` are for the reasoning only. */
  datatype Scheduler = Scheduler(
    dueTime: Due, localChanges: LocalChanges, remoteChanges: set<EntryId>, phase: Phase, clock: real,
    backOff: Option<real>, history: seq<Event>, syncStart: nat)

  // ---------- steps ----------

  datatype Touch = Touch(entry: EntryId, now: real)

  function Touched(changes: LocalChanges, t: Touch): LocalChange {
    if t.entry in changes then changes[t.entry].Changed(t.now) else NewChange(t.now)
  }

  predicate WakesUp(s: Scheduler, t: Touch) {
    Within(At(Touched(s.localChanges, t).DueTime()), s.dueTime)
  }

  function ChangeOne(s: Scheduler, t: Touch): Scheduler {
    var change := Touched(s.localChanges, t);
    s.(
      localChanges := s.localChanges[t.entry := change],
      dueTime := if WakesUp(s, t) then At(change.DueTime()) else s.dueTime,
      clock := t.now,
      history := s.history + [ChangeMade(t.entry)])
  }

  function ChangeAll(s: Scheduler, touches: seq<Touch>): Scheduler {
    if touches == [] then s else ChangeOne(ChangeAll(s, touches[..|touches| - 1]), touches[|touches| - 1])
  }

  /** Some change of the sequence asked for a wake-up. */
  predicate AnyWakesUp(s: Scheduler, touches: seq<Touch>) {
    touches != [] &&
    (AnyWakesUp(s, touches[..|touches| - 1]) || WakesUp(ChangeAll(s, touches[..|touches| - 1]), touches[|touches| - 1]))
  }

  function AfterRemoteChange(s: Scheduler, entry: EntryId, now: real): Scheduler {
    s.(remoteChanges := s.remoteChanges + {entry}, dueTime := At(now), clock := now)
  }

  predicate SomeDue(changes: LocalChanges, now: real) {
    exists e :: e in changes && changes[e].DueTime() <= now
  }

  /** The entry to sync, and whether it is a remote change. */
  predicate MayPick(s: Scheduler, now: real, pick: Option<EntryId>) {
    if s.remoteChanges != {} then pick.Some? && pick.value in s.remoteChanges
    else if SomeDue(s.localChanges, now) then
      pick.Some? && pick.value in s.localChanges && s.localChanges[pick.value].DueTime() <= now
    else pick.None?
  }

  function AfterBeginTick(s: Scheduler, now: real, pick: Option<EntryId>): Scheduler {
    var n := s.(clock := now);
    if !By(s.dueTime, now) then n
    else if pick.None? then n.(phase := Finishing(now, None))
    else if s.remoteChanges != {} then
      n.(remoteChanges := s.remoteChanges - {pick.value}, phase := SyncingRemote(now, pick.value))
    else
      n.(localChanges := s.localChanges - {pick.value}, phase := SyncingLocal(now, pick.value),
         history := s.history + [SyncStarted(pick.value)], syncStart := |s.history|)
  }

  predicate IsSyncing(s: Scheduler) { s.phase.SyncingRemote? || s.phase.SyncingLocal? }

  function AfterEndSync(s: Scheduler, result: SyncResult): Scheduler
    requires IsSyncing(s)
  {
    var now, entry := s.phase.now, s.phase.entry;
    if s.phase.SyncingRemote? then
      match result
      case Synced => s.(phase := Finishing(now, None))
      case NoReadAccess => s.(remoteChanges := s.remoteChanges + {entry}, phase := Finishing(now, Some(now + MIN_WAIT)))
      case NoWriteAccess => s.(phase := Finishing(now, None))
      case InMaintenance => s.(remoteChanges := s.remoteChanges + {entry},
        phase := Finishing(now, Some(now + MAINTENANCE_MIN_WAIT)))
    else
      match result
      case Synced => s.(phase := Finishing(now, None), history := s.history + [SyncSucceeded(entry, s.syncStart)])
      case NoReadAccess => s.(localChanges := s.localChanges[entry := NewChange(now)], phase := Finishing(now, None))
      case NoWriteAccess => s.(localChanges := s.localChanges[entry := NewChange(now)], phase := Finishing(now, None))
      case InMaintenance =>
        s.(localChanges := s.localChanges[entry := NewChange(now)],
          phase := Finishing(now, Some(now + MAINTENANCE_MIN_WAIT)))
  }

  /** A number that is None or zero counts as absent. */
  function OrElse(x: Option<real>, y: real): real {
    if x.Some? && x.value != 0.0 then x.value else y
  }

  ghost predicate IsEarliest(changes: LocalChanges, due: Due) {
    && (due.Never? <==> changes == map[])
    && (due.At? ==> exists e :: e in changes && changes[e].DueTime() == due.time)
    && forall e :: e in changes ==> By(due, changes[e].DueTime())
  }

  /** The due time for these changes; `read` is what the clock says if it has to be asked. */
  ghost predicate IsDueTime(s: Scheduler, now: Option<real>, minDueTime: Option<real>, read: real, due: Due) {
    exists base: Due :: IsBase(s, now, read, base) && due == NotBefore(base, minDueTime)
  }

  ghost predicate IsBase(s: Scheduler, now: Option<real>, read: real, base: Due) {
    if s.remoteChanges != {} then base == At(OrElse(now, read)) else IsEarliest(s.localChanges, base)
  }

  function NotBefore(base: Due, minDueTime: Option<real>): Due {
    if minDueTime.Some? && minDueTime.value != 0.0 then Later(base, minDueTime.value) else base
  }

  function BackOff(minDueTime: Option<real>): Option<real> {
    if minDueTime == Some(0.0) then None else minDueTime
  }

  function AfterFinishTick(s: Scheduler, read: real, due: Due): Scheduler
    requires s.phase.Finishing?
  {
    s.(dueTime := due, phase := Idle, clock := read, backOff := BackOff(s.phase.minDueTime))
  }

  /** The end of a tick: the due time is computed anew, and nothing is under way. */
  ghost predicate IsAfterFinish(s: Scheduler, read: real, t: Scheduler)
    requires s.phase.Finishing?
  {
    && s.clock <= read
    && IsDueTime(s, Some(s.phase.now), s.phase.minDueTime, read, t.dueTime)
    && t == AfterFinishTick(s, read, t.dueTime)
  }

  /** A tick up to where it is first suspended, which is its end when it takes no change to sync. */
  ghost predicate IsAfterBegin(s: Scheduler, now: real, pick: Option<EntryId>, read: real, t: Scheduler) {
    var n := AfterBeginTick(s, now, pick);
    if n.phase.Finishing? then IsAfterFinish(n, read, t) else t == n
  }

  /** A local sync that leaves no local change is followed by vacuuming. */
  predicate Vacuums(s: Scheduler, result: SyncResult)
    requires IsSyncing(s)
  {
    s.phase.SyncingLocal? && AfterEndSync(s, result).localChanges == map[]
  }

  /** From the outcome of a sync to the vacuuming, or to the end of the tick. */
  ghost predicate IsAfterSync(s: Scheduler, result: SyncResult, read: real, t: Scheduler)
    requires IsSyncing(s)
  {
    if Vacuums(s, result) then t == AfterEndSync(s, result) else IsAfterFinish(AfterEndSync(s, result), read, t)
  }

  // ---------- the invariant ----------

  /** A change is tracked, or part of a sync that started after it, or covered by a later sync that succeeded. */
  ghost predicate Safe(s: Scheduler, i: nat)
    requires i < |s.history| && s.history[i].ChangeMade?
  {
    var e := s.history[i].entry;
    || e in s.localChanges
    || (s.phase.SyncingLocal? && s.phase.entry == e && i < s.syncStart)
    || SyncedSince(s.history, e, i)
  }

  ghost predicate SyncedSince(history: seq<Event>, e: EntryId, i: nat) {
    exists k :: 0 <= k < |history| && IsSuccess(history, k, e, i)
  }

  /** Event `k` is the success of a sync of `e` that started after event `i`. */
  ghost predicate IsSuccess(history: seq<Event>, k: nat, e: EntryId, i: nat)
    requires k < |history|
  {
    && history[k].SyncSucceeded? && history[k].entry == e
    && i < history[k].start < k && history[history[k].start] == SyncStarted(e)
  }

  ghost predicate NothingForgotten(s: Scheduler) {
    forall i :: 0 <= i < |s.history| && s.history[i].ChangeMade? ==> Safe(s, i)
  }

  ghost predicate ClockFits(s: Scheduler) {
    && (forall e :: e in s.localChanges ==>
          s.localChanges[e].firstChangedOn <= s.localChanges[e].lastChangedOn <= s.clock)
    && (!s.phase.Idle? ==> s.phase.now <= s.clock && By(s.dueTime, s.clock))
    && (s.phase.SyncingLocal? ==>
          && s.syncStart < |s.history| && s.history[s.syncStart] == SyncStarted(s.phase.entry)
          && (s.phase.entry in s.localChanges ==> s.phase.now <= s.localChanges[s.phase.entry].firstChangedOn))
  }

  /** At most the larger of the back-off and the given moment. */
  predicate AtMost(due: Due, backOff: Option<real>, moment: real) {
    By(due, moment) || (backOff.Some? && By(due, backOff.value))
  }

  ghost predicate Bounded(s: Scheduler) {
    forall e :: e in s.localChanges ==> AtMost(s.dueTime, s.backOff, s.localChanges[e].DueTime())
  }

  /** A due time that is still to come is not later than the back-off allows for any change waiting. */
  ghost predicate Prompt(s: Scheduler) {
    !By(s.dueTime, s.clock) ==>
      Bounded(s) && (s.remoteChanges != {} ==> s.backOff.Some? && By(s.dueTime, s.backOff.value))
  }

  ghost predicate Inv(s: Scheduler) {
    ClockFits(s) && NothingForgotten(s) && Prompt(s)
  }

  // ---------- what each step keeps ----------

  lemma SafeAfter(s: Scheduler, t: Scheduler, i: nat)
    requires i < |s.history| && s.history[i].ChangeMade? && Safe(s, i)
    requires s.history <= t.history
    requires s.history[i].entry in s.localChanges ==> s.history[i].entry in t.localChanges
    requires t.phase == s.phase && t.syncStart == s.syncStart
    ensures Safe(t, i)
  {
    var e := s.history[i].entry;
    if SyncedSince(s.history, e, i) {
      SuccessStays(s.history, t.history, e, i);
    }
  }

  lemma SuccessStays(a: seq<Event>, b: seq<Event>, e: EntryId, i: nat)
    requires a <= b && SyncedSince(a, e, i)
    ensures SyncedSince(b, e, i)
  {
    var k :| 0 <= k < |a| && IsSuccess(a, k, e, i);
    assert IsSuccess(b, k, e, i);
  }

  lemma ChangeKeepsHistory(s: Scheduler, t: Touch)
    requires NothingForgotten(s)
    ensures NothingForgotten(ChangeOne(s, t))
  {
    var n := ChangeOne(s, t);
    forall i | 0 <= i < |n.history| && n.history[i].ChangeMade? ensures Safe(n, i) {
      if i < |s.history| {
        SafeAfter(s, n, i);
      }
    }
  }

  lemma ChangeKeepsClock(s: Scheduler, t: Touch)
    requires ClockFits(s) && s.clock <= t.now
    ensures ClockFits(ChangeOne(s, t))
  {
  }

  lemma ChangeKeepsPrompt(s: Scheduler, t: Touch)
    requires ClockFits(s) && Prompt(s) && s.clock <= t.now
    ensures Prompt(ChangeOne(s, t))
  {
  }

  lemma ChangeKeeps(s: Scheduler, t: Touch)
    requires Inv(s) && s.clock <= t.now
    ensures Inv(ChangeOne(s, t))
  {
    ChangeKeepsHistory(s, t);
    ChangeKeepsClock(s, t);
    ChangeKeepsPrompt(s, t);
  }

  predicate InOrder(from: real, touches: seq<Touch>, to: real) {
    && (touches == [] ==> from <= to)
    && (touches != [] ==> from <= touches[0].now && touches[|touches| - 1].now <= to)
    && forall i :: 1 <= i < |touches| ==> touches[i - 1].now <= touches[i].now
  }

  lemma {:induction false} ChangesKeep(s: Scheduler, touches: seq<Touch>)
    requires Inv(s) && InOrder(s.clock, touches, ChangeAll(s, touches).clock)
    ensures Inv(ChangeAll(s, touches))
  {
    if touches != [] {
      var init := touches[..|touches| - 1];
      ClockAfterChanges(s, init);
      ClockAfterChanges(s, touches);
      ChangesKeep(s, init);
      ChangeKeeps(ChangeAll(s, init), touches[|touches| - 1]);
    }
  }

  lemma ClockAfterChanges(s: Scheduler, touches: seq<Touch>)
    ensures ChangeAll(s, touches).clock == if touches == [] then s.clock else touches[|touches| - 1].now
  {
  }

  lemma RemoteChangeKeeps(s: Scheduler, entry: EntryId, now: real)
    requires Inv(s) && s.clock <= now
    ensures Inv(AfterRemoteChange(s, entry, now))
  {
    var n := AfterRemoteChange(s, entry, now);
    forall i | 0 <= i < |n.history| && n.history[i].ChangeMade? ensures Safe(n, i) {
      SafeAfter(s, n, i);
    }
  }

  lemma BeginTickKeeps(s: Scheduler, now: real, pick: Option<EntryId>)
    requires Inv(s) && s.phase.Idle? && s.clock <= now && MayPick(s, now, pick)
    ensures Inv(AfterBeginTick(s, now, pick))
  {
    var n := AfterBeginTick(s, now, pick);
    forall i | 0 <= i < |n.history| && n.history[i].ChangeMade? ensures Safe(n, i) {
      assert n.history[i] == s.history[i];
      assert Safe(s, i);
      if SyncedSince(s.history, s.history[i].entry, i) {
        SuccessStays(s.history, n.history, s.history[i].entry, i);
      }
    }
  }

  lemma EndSyncKeepsHistory(s: Scheduler, result: SyncResult)
    requires ClockFits(s) && NothingForgotten(s) && IsSyncing(s)
    ensures NothingForgotten(AfterEndSync(s, result))
  {
    var n := AfterEndSync(s, result);
    forall i | 0 <= i < |n.history| && n.history[i].ChangeMade? ensures Safe(n, i) {
      assert n.history[i] == s.history[i];
      assert Safe(s, i);
      var e := s.history[i].entry;
      if SyncedSince(s.history, e, i) {
        SuccessStays(s.history, n.history, e, i);
      } else if e !in s.localChanges && result == Synced {
        assert IsSuccess(n.history, |s.history|, e, i);
      }
    }
  }

  lemma EndSyncKeeps(s: Scheduler, result: SyncResult)
    requires Inv(s) && IsSyncing(s)
    ensures Inv(AfterEndSync(s, result))
  {
    EndSyncKeepsHistory(s, result);
  }

  lemma FinishTickIsPrompt(s: Scheduler, read: real, due: Due)
    requires ClockFits(s) && s.phase.Finishing? && s.clock <= read
    requires IsDueTime(s, Some(s.phase.now), s.phase.minDueTime, read, due)
    ensures Prompt(AfterFinishTick(s, read, due))
  {
    var base: Due :| IsBase(s, Some(s.phase.now), read, base) && due == NotBefore(base, s.phase.minDueTime);
  }

  lemma FinishTickKeeps(s: Scheduler, read: real, t: Scheduler)
    requires Inv(s) && s.phase.Finishing? && IsAfterFinish(s, read, t)
    ensures Inv(t)
  {
    FinishTickIsPrompt(s, read, t.dueTime);
    forall i | 0 <= i < |t.history| && t.history[i].ChangeMade? ensures Safe(t, i) {
      assert Safe(s, i);
    }
  }

  lemma BeginKeeps(s: Scheduler, now: real, pick: Option<EntryId>, read: real, t: Scheduler)
    requires Inv(s) && s.phase.Idle? && s.clock <= now && MayPick(s, now, pick)
    requires IsAfterBegin(s, now, pick, read, t)
    ensures Inv(t)
  {
    BeginTickKeeps(s, now, pick);
    if AfterBeginTick(s, now, pick).phase.Finishing? {
      FinishTickKeeps(AfterBeginTick(s, now, pick), read, t);
    }
  }

  lemma SyncKeeps(s: Scheduler, result: SyncResult, read: real, t: Scheduler)
    requires Inv(s) && IsSyncing(s) && IsAfterSync(s, result, read, t)
    ensures Inv(t)
  {
    EndSyncKeeps(s, result);
    if !Vacuums(s, result) {
      FinishTickKeeps(AfterEndSync(s, result), read, t);
    }
  }

  // ---------- runs ----------

  datatype Action =
    | LocalChanged(touches: seq<Touch>)
    | RemoteChanged(entry: EntryId, now: real)
    | BeginTick(now: real, pick: Option<EntryId>, read: real)
    | EndSync(result: SyncResult, read: real)
    | EndVacuum(read: real)

  ghost predicate Step(s: Scheduler, action: Action, t: Scheduler) {
    match action
    case LocalChanged(touches) => t == ChangeAll(s, touches) && InOrder(s.clock, touches, t.clock)
    case RemoteChanged(entry, now) => s.clock <= now && t == AfterRemoteChange(s, entry, now)
    case BeginTick(now, pick, read) =>
      s.phase.Idle? && s.clock <= now && MayPick(s, now, pick) && IsAfterBegin(s, now, pick, read, t)
    case EndSync(result, read) => IsSyncing(s) && IsAfterSync(s, result, read, t)
    case EndVacuum(read) => s.phase.Finishing? && IsAfterFinish(s, read, t)
  }

  /** A context whose changes have just been loaded. */
  ghost predicate Loaded(s: Scheduler) {
    && s.phase.Idle? && s.backOff.None? && s.history == []
    && (forall e :: e in s.localChanges ==> s.localChanges[e] == NewChange(s.clock))
    && IsDueTime(s, None, None, s.clock, s.dueTime)
  }

  ghost predicate StepAt(states: seq<Scheduler>, actions: seq<Action>, i: nat)
    requires i < |actions| && |states| == |actions| + 1
  {
    Step(states[i], actions[i], states[i + 1])
  }

  ghost predicate IsRun(states: seq<Scheduler>, actions: seq<Action>) {
    && |states| == |actions| + 1
    && Loaded(states[0])
    && forall i :: 0 <= i < |actions| ==> StepAt(states, actions, i)
  }

  lemma LoadedKeeps(s: Scheduler)
    requires Loaded(s)
    ensures Inv(s)
  {
    var base: Due :| IsBase(s, None, s.clock, base) && s.dueTime == NotBefore(base, None);
  }

  lemma StepKeeps(s: Scheduler, action: Action, t: Scheduler)
    requires Inv(s) && Step(s, action, t)
    ensures Inv(t)
  {
    match action
    case LocalChanged(touches) => ChangesKeep(s, touches);
    case RemoteChanged(entry, now) => RemoteChangeKeeps(s, entry, now);
    case BeginTick(now, pick, read) => BeginKeeps(s, now, pick, read, t);
    case EndSync(result, read) => SyncKeeps(s, result, read, t);
    case EndVacuum(read) => FinishTickKeeps(s, read, t);
  }

  lemma {:induction false} EveryRunKeepsInv(states: seq<Scheduler>, actions: seq<Action>, i: nat)
    requires IsRun(states, actions) && i < |states|
    ensures Inv(states[i])
  {
    if i == 0 {
      LoadedKeeps(states[0]);
    } else {
      EveryRunKeepsInv(states, actions, i - 1);
      assert StepAt(states, actions, i - 1);
      StepKeeps(states[i - 1], actions[i - 1], states[i]);
    }
  }

  /** A local change, made before or during a sync, stays tracked until a sync of it that started later succeeds. */
  lemma NoChangeIsForgotten(states: seq<Scheduler>, actions: seq<Action>, i: nat, c: nat)
    requires IsRun(states, actions) && i < |states|
    requires c < |states[i].history| && states[i].history[c].ChangeMade?
    ensures var (s, e) := (states[i], states[i].history[c].entry);
      || e in s.localChanges
      || (s.phase.SyncingLocal? && s.phase.entry == e && c < s.syncStart)
      || exists k :: 0 <= k < |s.history| && IsSuccess(s.history, k, e, c)
  {
    EveryRunKeepsInv(states, actions, i);
    assert Safe(states[i], c);
  }

  /** When the clock has reached the back-off and something is due, the context is due: a tick does not return early. */
  lemma WorkIsNotDelayed(states: seq<Scheduler>, actions: seq<Action>, i: nat)
    requires IsRun(states, actions) && i < |states|
    ensures var s := states[i];
      (s.backOff.None? || s.backOff.value <= s.clock) && (s.remoteChanges != {} || SomeDue(s.localChanges, s.clock)) ==>
        By(s.dueTime, s.clock)
  {
    EveryRunKeepsInv(states, actions, i);
  }

  /**
   While it is still to come, the due time is at most the larger of the back-off and the earliest tracked due time.
   */
  lemma ComingDueTimeIsBounded(states: seq<Scheduler>, actions: seq<Action>, i: nat)
    requires IsRun(states, actions) && i < |states| && !By(states[i].dueTime, states[i].clock)
    ensures Bounded(states[i])
  {
    EveryRunKeepsInv(states, actions, i);
  }

  // ---------- remote changes ----------

  ghost predicate InRemoteSync(s: Scheduler, e: EntryId) { s.phase.SyncingRemote? && s.phase.entry == e }

  /** One sync of the remote change `e`, begun by step `k` and under way at moment `l`. */
  ghost predicate RemoteSync(states: seq<Scheduler>, e: EntryId, k: nat, l: nat)
    requires l < |states|
  {
    k < l && states[k].phase.Idle? && forall x :: k < x <= l ==> InRemoteSync(states[x], e)
  }

  /** A sync of the remote change `e`, begun by step `k`, ended at step `l` as done or as not writable. */
  ghost predicate RemoteSynced(states: seq<Scheduler>, actions: seq<Action>, e: EntryId, k: nat, l: nat)
    requires l < |actions| < |states|
  {
    RemoteSync(states, e, k, l) && actions[l].EndSync? && actions[l].result in {Synced, NoWriteAccess}
  }

  /** What became of a remote change that was waiting at moment `m`. */
  ghost predicate RemoteKept(states: seq<Scheduler>, actions: seq<Action>, e: EntryId, m: nat, i: nat)
    requires i < |states| == |actions| + 1
  {
    || e in states[i].remoteChanges
    || (exists k :: m <= k < i && RemoteSync(states, e, k, i))
    || (exists k, l :: m <= k < l < i && RemoteSynced(states, actions, e, k, l))
  }

  /** A remote change leaves the waiting ones only for a sync of its own. */
  lemma RemoteChangeIsTaken(s: Scheduler, action: Action, t: Scheduler, e: EntryId)
    requires Step(s, action, t) && e in s.remoteChanges && e !in t.remoteChanges
    ensures s.phase.Idle? && InRemoteSync(t, e)
  {
    if action.LocalChanged? {
      ChangesKeepRemote(s, action.touches);
    }
  }

  lemma {:induction false} ChangesKeepRemote(s: Scheduler, touches: seq<Touch>)
    ensures ChangeAll(s, touches).remoteChanges == s.remoteChanges && ChangeAll(s, touches).phase == s.phase
  {
    if touches != [] {
      ChangesKeepRemote(s, touches[..|touches| - 1]);
    }
  }

  /** A remote sync goes on, or succeeds, or its change waits again. */
  lemma RemoteSyncGoesOn(s: Scheduler, action: Action, t: Scheduler, e: EntryId)
    requires Step(s, action, t) && InRemoteSync(s, e)
    ensures || InRemoteSync(t, e) || e in t.remoteChanges
            || (action.EndSync? && action.result in {Synced, NoWriteAccess})
  {
    if action.LocalChanged? {
      ChangesKeepRemote(s, action.touches);
    }
  }

  lemma RemoteKeptOn(states: seq<Scheduler>, actions: seq<Action>, e: EntryId, m: nat, i: nat)
    requires IsRun(states, actions) && m <= i < |actions| && RemoteKept(states, actions, e, m, i)
    ensures RemoteKept(states, actions, e, m, i + 1)
  {
    assert StepAt(states, actions, i);
    if e in states[i].remoteChanges {
      if e !in states[i + 1].remoteChanges {
        RemoteChangeIsTaken(states[i], actions[i], states[i + 1], e);
        assert RemoteSync(states, e, i, i + 1);
      }
    } else if exists k :: m <= k < i && RemoteSync(states, e, k, i) {
      var k :| m <= k < i && RemoteSync(states, e, k, i);
      RemoteSyncGoesOn(states[i], actions[i], states[i + 1], e);
      if InRemoteSync(states[i + 1], e) {
        assert RemoteSync(states, e, k, i + 1);
      } else if e !in states[i + 1].remoteChanges {
        assert RemoteSynced(states, actions, e, k, i);
      }
    } else {
      var k, l :| m <= k < l < i && RemoteSynced(states, actions, e, k, l);
      assert RemoteSynced(states, actions, e, k, l);
    }
  }

  lemma {:induction false} RemoteKeptAlongRun(
    states: seq<Scheduler>, actions: seq<Action>, e: EntryId, m: nat, i: nat)
    requires IsRun(states, actions) && m <= i < |states| && e in states[m].remoteChanges
    ensures RemoteKept(states, actions, e, m, i)
    decreases i
  {
    if m < i {
      RemoteKeptAlongRun(states, actions, e, m, i - 1);
      RemoteKeptOn(states, actions, e, m, i - 1);
    }
  }

  /**
   A remote change, loaded or recorded at step `m`, waits until a sync of it that begins later ends as done
   or as not writable.
   */
  lemma NoRemoteChangeIsForgotten(states: seq<Scheduler>, actions: seq<Action>, e: EntryId, m: nat, i: nat)
    requires IsRun(states, actions) && m <= i < |states|
    requires m == 0 ==> e in states[0].remoteChanges
    requires m > 0 ==> actions[m - 1].RemoteChanged? && actions[m - 1].entry == e
    ensures || e in states[i].remoteChanges
            || (exists k :: m <= k < i && RemoteSync(states, e, k, i))
            || (exists k, l :: m <= k < l < i && RemoteSynced(states, actions, e, k, l))
  {
    if m > 0 {
      assert StepAt(states, actions, m - 1);
    }
    RemoteKeptAlongRun(states, actions, e, m, i);
  }

  /** How long the tick after a refused sync has to wait, in seconds; nothing when it is not held back. */
  function Wait(remote: bool, result: SyncResult): Option<real> {
    if result.InMaintenance? then Some(30.0)
    else if remote && result.NoReadAccess? then Some(1.0)
    else None
  }

  /**
   After a refused sync its entry waits again, and the context is due no earlier than the wait asked for,
   counted from the start of the tick; a moment that comes to zero counts as no wait.
   */
  lemma RefusedSyncWaits(states: seq<Scheduler>, actions: seq<Action>, i: nat)
    requires IsRun(states, actions) && i < |actions| && IsSyncing(states[i]) && actions[i].EndSync?
    requires states[i].phase.SyncingRemote? ==> actions[i].result in {NoReadAccess, InMaintenance}
    requires states[i].phase.SyncingLocal? ==> actions[i].result != Synced
    ensures var (s, t, wait) :=
      (states[i], states[i + 1], Wait(states[i].phase.SyncingRemote?, actions[i].result));
      && t.phase.Idle?
      && s.phase.entry in (if s.phase.SyncingRemote? then t.remoteChanges else t.localChanges.Keys)
      && (wait.Some? && s.phase.now + wait.value != 0.0 ==>
            t.dueTime.At? && s.phase.now + wait.value <= t.dueTime.time && t.backOff == Some(s.phase.now + wait.value))
  {
    var s, t, result := states[i], states[i + 1], actions[i].result;
    assert StepAt(states, actions, i);
    var n := AfterEndSync(s, result);
    assert s.phase.SyncingLocal? ==> s.phase.entry in n.localChanges;
    assert IsAfterFinish(n, actions[i].read, t);
    var base: Due :|
      IsBase(n, Some(n.phase.now), actions[i].read, base) && t.dueTime == NotBefore(base, n.phase.minDueTime);
    assert s.phase.SyncingLocal? ==> base.At?;
  }

  /**
   What a tick takes: nothing before the due time; then a remote change whenever there is one, otherwise a
   local change whose own time has come, and nothing only when there is none.  What it takes waits no longer.
   */
  lemma TickTakes(states: seq<Scheduler>, actions: seq<Action>, i: nat)
    requires IsRun(states, actions) && i < |actions| && actions[i].BeginTick?
    ensures var (s, t, now) := (states[i], states[i + 1], actions[i].now);
      var due := s.dueTime.At? && s.dueTime.time <= now;
      && (t.phase.SyncingRemote? <==> due && s.remoteChanges != {})
      && (t.phase.SyncingLocal? <==>
            due && s.remoteChanges == {} && exists e :: e in s.localChanges && s.localChanges[e].DueTime() <= now)
      && (t.phase.SyncingRemote? ==>
            t.phase.entry in s.remoteChanges && t.remoteChanges == s.remoteChanges - {t.phase.entry} &&
              t.localChanges == s.localChanges)
      && (t.phase.SyncingLocal? ==>
            && t.phase.entry in s.localChanges && s.localChanges[t.phase.entry].DueTime() <= now
            && t.localChanges == s.localChanges - {t.phase.entry} && t.remoteChanges == {})
      && (t.phase.Idle? ==> t.localChanges == s.localChanges && t.remoteChanges == s.remoteChanges)
      && (!due ==> t == s.(clock := now))
  {
    assert StepAt(states, actions, i);
  }

  // ---------- exactly when the bound holds at every moment ----------

  /**
   What a step has to meet for the due time to stay at most the larger of the back-off and the earliest
   tracked due time: a remote change finds nothing overdue, and the end of a tick that leaves remote
   changes finds nothing overdue since the start of the tick.
   */
  ghost predicate KeepsBound(s: Scheduler, action: Action) {
    match action
    case RemoteChanged(_, now) => NothingOverdue(s, s.backOff, now)
    case EndSync(result, read) =>
      IsSyncing(s) && !Vacuums(s, result) ==> EndsWithinBound(AfterEndSync(s, result), read)
    case EndVacuum(read) => s.phase.Finishing? ==> EndsWithinBound(s, read)
    case _ => true
  }

  ghost predicate EndsWithinBound(s: Scheduler, read: real)
    requires s.phase.Finishing?
  {
    s.remoteChanges != {} ==> NothingOverdue(s, BackOff(s.phase.minDueTime), OrElse(Some(s.phase.now), read))
  }

  /** Every tracked change is due at that moment or later, or the moment is within the back-off. */
  ghost predicate NothingOverdue(s: Scheduler, backOff: Option<real>, moment: real) {
    forall e :: e in s.localChanges ==> AtMost(At(moment), backOff, s.localChanges[e].DueTime())
  }

  lemma ChangeKeepsBound(s: Scheduler, t: Touch)
    requires Bounded(s)
    ensures Bounded(ChangeOne(s, t))
  {
  }

  lemma {:induction false} ChangesKeepBound(s: Scheduler, touches: seq<Touch>)
    requires Bounded(s)
    ensures Bounded(ChangeAll(s, touches))
  {
    if touches != [] {
      ChangesKeepBound(s, touches[..|touches| - 1]);
      ChangeKeepsBound(ChangeAll(s, touches[..|touches| - 1]), touches[|touches| - 1]);
    }
  }

  /** A remote change sets the due time to now, which meets the bound exactly when no tracked change is overdue. */
  lemma RemoteChangeBound(s: Scheduler, entry: EntryId, now: real)
    ensures Bounded(AfterRemoteChange(s, entry, now)) <==> KeepsBound(s, RemoteChanged(entry, now))
  {
    var n := AfterRemoteChange(s, entry, now);
    assert forall e :: e in s.localChanges ==> n.localChanges[e] == s.localChanges[e];
  }

  /** A tick that leaves remote changes sets the due time to its start, or to the back-off it asks for. */
  lemma FinishTickBound(s: Scheduler, read: real, due: Due)
    requires s.phase.Finishing? && IsDueTime(s, Some(s.phase.now), s.phase.minDueTime, read, due)
    ensures Bounded(AfterFinishTick(s, read, due)) <==> EndsWithinBound(s, read)
  {
    var n := AfterFinishTick(s, read, due);
    var base: Due :| IsBase(s, Some(s.phase.now), read, base) && due == NotBefore(base, s.phase.minDueTime);
    forall e | e in s.localChanges
      ensures AtMost(due, n.backOff, s.localChanges[e].DueTime()) <==>
        AtMost(base, n.backOff, s.localChanges[e].DueTime())
    {
    }
    assert forall e :: e in s.localChanges ==> n.localChanges[e] == s.localChanges[e];
  }

  /** However the due time stood during a sync, what comes after it is decided by the end of the tick alone. */
  lemma EndSyncBound(s: Scheduler, result: SyncResult, read: real, t: Scheduler)
    requires IsSyncing(s) && IsAfterSync(s, result, read, t)
    ensures Bounded(t) <==> KeepsBound(s, EndSync(result, read))
  {
    if !Vacuums(s, result) {
      FinishTickBound(AfterEndSync(s, result), read, t.dueTime);
    }
  }

  /** A tick that begins with nothing to sync has no remote change either, and ends within the bound. */
  lemma BeginTickBound(s: Scheduler, now: real, pick: Option<EntryId>, read: real, t: Scheduler)
    requires Bounded(s) && s.phase.Idle? && MayPick(s, now, pick) && IsAfterBegin(s, now, pick, read, t)
    ensures Bounded(t)
  {
    var n := AfterBeginTick(s, now, pick);
    if n.phase.Finishing? {
      FinishTickBound(n, read, t.dueTime);
    }
  }

  /** From a state that meets the bound, a step leads to one that does exactly when it meets its condition. */
  lemma StepBound(s: Scheduler, action: Action, t: Scheduler)
    requires Bounded(s) && Step(s, action, t)
    ensures Bounded(t) <==> KeepsBound(s, action)
  {
    match action
    case LocalChanged(touches) => ChangesKeepBound(s, touches);
    case RemoteChanged(entry, now) => RemoteChangeBound(s, entry, now);
    case BeginTick(now, pick, read) => BeginTickBound(s, now, pick, read, t);
    case EndSync(result, read) => EndSyncBound(s, result, read, t);
    case EndVacuum(read) => FinishTickBound(s, read, t.dueTime);
  }

  lemma LoadedIsBounded(s: Scheduler)
    requires Loaded(s)
    ensures Bounded(s)
  {
    var base: Due :| IsBase(s, None, s.clock, base) && s.dueTime == NotBefore(base, None);
  }

  lemma {:induction false} BoundedUpTo(states: seq<Scheduler>, actions: seq<Action>, n: nat)
    requires IsRun(states, actions) && n < |states|
    requires forall i :: 0 <= i < n ==> KeepsBound(states[i], actions[i])
    ensures Bounded(states[n])
  {
    if n == 0 {
      LoadedIsBounded(states[0]);
    } else {
      BoundedUpTo(states, actions, n - 1);
      assert StepAt(states, actions, n - 1);
      StepBound(states[n - 1], actions[n - 1], states[n]);
    }
  }

  /** Along a run the due time meets the bound at every moment exactly when every step meets its condition. */
  lemma RunBound(states: seq<Scheduler>, actions: seq<Action>)
    requires IsRun(states, actions)
    ensures (forall i :: 0 <= i < |states| ==> Bounded(states[i])) <==>
      (forall i :: 0 <= i < |actions| ==> KeepsBound(states[i], actions[i]))
  {
    if forall i :: 0 <= i < |states| ==> Bounded(states[i]) {
      forall i | 0 <= i < |actions| ensures KeepsBound(states[i], actions[i]) {
        assert StepAt(states, actions, i);
        StepBound(states[i], actions[i], states[i + 1]);
      }
    }
    if forall i :: 0 <= i < |actions| ==> KeepsBound(states[i], actions[i]) {
      forall i | 0 <= i < |states| ensures Bounded(states[i]) {
        BoundedUpTo(states, actions, i);
      }
    }
  }

  // ---------- runs that go past the bound ----------

  /** A context loaded at time 0, with at most one local change. */
  function JustLoaded(due: Due, localChanges: LocalChanges): Scheduler {
    Scheduler(due, localChanges, {}, Idle, 0.0, None, [], 0)
  }

  lemma OneChangeLoaded(entry: EntryId)
    ensures Loaded(JustLoaded(At(1.0), map[entry := NewChange(0.0)]))
  {
    var s := JustLoaded(At(1.0), map[entry := NewChange(0.0)]);
    assert entry in s.localChanges && NewChange(0.0).DueTime() == 1.0;
    assert IsBase(s, None, 0.0, At(1.0));
  }

  /** An overdue local change is passed over by the due time of a remote change. */
  lemma RemoteChangeMayExceedBound()
    ensures var s := JustLoaded(At(1.0), map[7 := NewChange(0.0)]);
      Loaded(s) && Bounded(s) && !Bounded(AfterRemoteChange(s, 8, 5.0))
  {
    OneChangeLoaded(7);
    LoadedIsBounded(JustLoaded(At(1.0), map[7 := NewChange(0.0)]));
    var n := AfterRemoteChange(JustLoaded(At(1.0), map[7 := NewChange(0.0)]), 8, 5.0);
    assert 7 in n.localChanges && n.localChanges[7].DueTime() == 1.0;
  }

  /**
   Two remote changes come in time, the first is synced late, and its tick ends with the second left and an
   overdue local change.
   */
  lemma FinishedTickMayExceedBound() returns (states: seq<Scheduler>, actions: seq<Action>)
    ensures actions ==
      [RemoteChanged(8, 0.5), RemoteChanged(9, 0.6), BeginTick(5.0, Some(8), 5.0), EndSync(Synced, 5.0)]
    ensures IsRun(states, actions)
    ensures forall i :: 0 <= i < 3 ==> KeepsBound(states[i], actions[i])
    ensures states[4].phase.Idle? && states[4].backOff.None? && !Bounded(states[4])
  {
    var s0 := JustLoaded(At(1.0), map[7 := NewChange(0.0)]);
    var s1 := AfterRemoteChange(s0, 8, 0.5);
    var s2 := AfterRemoteChange(s1, 9, 0.6);
    var s3 := AfterBeginTick(s2, 5.0, Some(8));
    var synced := AfterEndSync(s3, Synced);
    var s4 := AfterFinishTick(synced, 5.0, At(5.0));
    OneChangeLoaded(7);
    states := [s0, s1, s2, s3, s4];
    actions := [RemoteChanged(8, 0.5), RemoteChanged(9, 0.6), BeginTick(5.0, Some(8), 5.0), EndSync(Synced, 5.0)];
    assert NewChange(0.0).DueTime() == 1.0;
    assert Step(s2, actions[2], s3);
    assert 9 in synced.remoteChanges && 7 in s4.localChanges;
    assert IsBase(synced, Some(5.0), 5.0, At(5.0));
    assert Step(s3, actions[3], s4);
  }

  /** A refused local sync has put its entry back, so it is never followed by vacuuming: its tick ends at once. */
  lemma RefusedSyncEndsTick(s: Scheduler, result: SyncResult, read: real, t: Scheduler)
    requires s.phase.SyncingLocal? && result != Synced && IsAfterSync(s, result, read, t)
    ensures t.phase.Idle? && s.phase.entry in t.localChanges
  {
    assert s.phase.entry in AfterEndSync(s, result).localChanges;
  }

  // ---------- the upper bound on waiting ----------

  function ChangedAt(c: LocalChange, times: seq<real>): LocalChange {
    if times == [] then c else ChangedAt(c, times[..|times| - 1]).Changed(times[|times| - 1])
  }

  /**
   However often an entry changes, its due time is one second after the last change and at most a minute after the
   first.
   */
  lemma ManyChanges(first: real, times: seq<real>)
    ensures var due := ChangedAt(NewChange(first), times).DueTime();
      && due <= first + 60.0
      && due == Min((if times == [] then first else times[|times| - 1]) + 1.0, first + 60.0)
  {
    FirstStays(NewChange(first), times);
  }

  lemma {:induction false} FirstStays(c: LocalChange, times: seq<real>)
    ensures ChangedAt(c, times).firstChangedOn == c.firstChangedOn
  {
    if times != [] {
      FirstStays(c, times[..|times| - 1]);
    }
  }

  /** No step moves the first change of an entry that stays tracked to a later time. */
  lemma StepKeepsFirst(s: Scheduler, action: Action, t: Scheduler, e: EntryId)
    requires Inv(s) && Step(s, action, t) && e in s.localChanges && e in t.localChanges
    ensures t.localChanges[e].firstChangedOn <= s.localChanges[e].firstChangedOn
  {
    if action.LocalChanged? {
      ChangesKeepFirst(s, action.touches, e);
    }
  }

  lemma {:induction false} ChangesKeepFirst(s: Scheduler, touches: seq<Touch>, e: EntryId)
    requires e in s.localChanges
    ensures e in ChangeAll(s, touches).localChanges
    ensures ChangeAll(s, touches).localChanges[e].firstChangedOn == s.localChanges[e].firstChangedOn
  {
    if touches != [] {
      ChangesKeepFirst(s, touches[..|touches| - 1], e);
    }
  }

  lemma {:induction false} FirstAlongRun(states: seq<Scheduler>, actions: seq<Action>, i: nat, j: nat, e: EntryId)
    requires IsRun(states, actions) && i <= j < |states|
    requires forall k :: i <= k <= j ==> e in states[k].localChanges
    ensures states[j].localChanges[e].firstChangedOn <= states[i].localChanges[e].firstChangedOn
    decreases j
  {
    if i < j {
      FirstAlongRun(states, actions, i, j - 1, e);
      EveryRunKeepsInv(states, actions, j - 1);
      assert StepAt(states, actions, j - 1);
      StepKeepsFirst(states[j - 1], actions[j - 1], states[j], e);
    }
  }

  /**
   As long as an entry stays tracked it is due a minute after its first change at the latest, however often it
   changes.
   */
  lemma NeverPostponedForLong(states: seq<Scheduler>, actions: seq<Action>, i: nat, j: nat, e: EntryId)
    requires IsRun(states, actions) && i <= j < |states|
    requires forall k :: i <= k <= j ==> e in states[k].localChanges
    ensures states[j].localChanges[e].DueTime() <= states[i].localChanges[e].firstChangedOn + 60.0
  {
    FirstAlongRun(states, actions, i, j, e);
  }

  /**
   A sync takes its entry off the tracked ones.  When it is refused the entry is tracked again, due a
   second after the start of that tick, and from then on never later than a minute after that start.
   */
  lemma RefusalRestartsWait(states: seq<Scheduler>, actions: seq<Action>, i: nat, j: nat)
    requires IsRun(states, actions) && i < j < |states|
    requires states[i].phase.SyncingLocal? && actions[i].EndSync? && actions[i].result != Synced
    requires forall k :: i < k <= j ==> states[i].phase.entry in states[k].localChanges
    ensures states[i + 1].localChanges[states[i].phase.entry].DueTime() == states[i].phase.now + MIN_WAIT
    ensures states[j].localChanges[states[i].phase.entry].DueTime() <= states[i].phase.now + MAX_WAIT
  {
    assert StepAt(states, actions, i);
    NeverPostponedForLong(states, actions, i + 1, j, states[i].phase.entry);
  }
}
