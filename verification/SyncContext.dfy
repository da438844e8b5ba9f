/** The sync context itself, and the recursion by which a local change frees the entries confined by it. */
module SyncContexts {
  import opened Common
  import opened Reachability
  import opened SyncScheduler

  /** For each cause, the entries that wait for it. */
  type Confined = map<EntryId, set<EntryId>>

  ghost function Edge(confined: Confined): (EntryId, EntryId) -> bool {
    (cause, entry) => cause in confined && entry in confined[cause]
  }

  function Entries(touches: seq<Touch>): set<EntryId> {
    set t | t in touches :: t.entry
  }

  /** The touched entries: closed under confinement, and each reached from `entry`. */
  ghost predicate Explored(confined: Confined, entry: EntryId, touched: set<EntryId>) {
    && entry in touched
    && (forall x :: x in touched && x in confined ==> confined[x] <= touched)
    && (forall x :: x in touched ==> Reaches(Edge(confined), entry, x))
  }

  /** Then they are exactly the entries reached from `entry`. */
  lemma ExploredIsReached(confined: Confined, entry: EntryId, touched: set<EntryId>)
    requires Explored(confined, entry, touched)
    ensures forall x :: x in touched <==> Reaches(Edge(confined), entry, x)
  {
    forall x | Reaches(Edge(confined), entry, x) ensures x in touched {
      ClosedSetHoldsReached(Edge(confined), touched, entry, x);
    }
  }

  /** Part way: the entries touched so far, whose own entries are all touched too, except for `entry`'s. */
  ghost predicate Exploring(confined: Confined, entry: EntryId, touched: set<EntryId>, handled: set<EntryId>) {
    && entry in confined && handled <= confined[entry]
    && handled <= touched
    && (forall x :: x in touched && x in confined && x != entry ==> confined[x] <= touched + {entry})
    && (forall x :: x in touched ==> Reaches(Edge(confined), entry, x))
  }

  lemma FewerEdges(small: Confined, large: Confined, from: EntryId, to: EntryId)
    requires forall x :: x in small ==> x in large && small[x] == large[x]
    requires Reaches(Edge(small), from, to)
    ensures Reaches(Edge(large), from, to)
  {
    var path :| IsPath(Edge(small), from, to, path);
    forall i | 0 <= i < |path| - 1 ensures Edge(large)(path[i], path[i + 1]) {
      assert Edge(small)(path[i], path[i + 1]);
    }
    assert IsPath(Edge(large), from, to, path);
  }

  /** Following one more entry of `entry`, in what is left of the graph. */
  lemma ExploreOneMore(
    confined: Confined, entry: EntryId, touched: set<EntryId>, handled: set<EntryId>, next: EntryId,
    found: set<EntryId>)
    requires Exploring(confined, entry, touched, handled) && next in confined[entry]
    requires Explored(confined - (touched + {entry}), next, found)
    ensures Exploring(confined, entry, touched + found, handled + {next})
  {
    var left := confined - (touched + {entry});
    forall x | x in found ensures Reaches(Edge(confined), entry, x) {
      FewerEdges(left, confined, next, x);
      Prepend(Edge(confined), entry, next, x);
    }
    forall x | x in found && x in confined && x != entry ensures confined[x] <= touched + found + {entry} {
      if x in touched {
        assert confined[x] <= touched + {entry};
      } else {
        assert x in left && left[x] == confined[x];
      }
    }
  }

  lemma ExploringEnds(confined: Confined, entry: EntryId, touched: set<EntryId>)
    requires entry in confined && Exploring(confined, entry, touched, confined[entry])
    ensures Explored(confined, entry, touched + {entry})
  {
    ReachesItself(Edge(confined), entry);
  }

  lemma {:induction false} ChangeAllAppend(s: Scheduler, a: seq<Touch>, b: seq<Touch>)
    ensures ChangeAll(s, a + b) == ChangeAll(ChangeAll(s, a), b)
    decreases |b|
  {
    if b == [] {
      assert a + b == a;
    } else {
      assert (a + b)[..|a + b| - 1] == a + b[..|b| - 1];
      ChangeAllAppend(s, a, b[..|b| - 1]);
    }
  }

  lemma InOrderAppend(from: real, a: seq<Touch>, middle: real, b: seq<Touch>, to: real)
    requires InOrder(from, a, middle) && InOrder(middle, b, to)
    ensures InOrder(from, a + b, to)
  {
    var all := a + b;
    OrderBounds(from, a, middle);
    OrderBounds(middle, b, to);
    forall i | 1 <= i < |all| ensures all[i - 1].now <= all[i].now {
      if i < |a| {
        assert all[i - 1] == a[i - 1] && all[i] == a[i];
      } else if i > |a| {
        assert all[i - 1] == b[i - 1 - |a|] && all[i] == b[i - |a|];
      }
    }
  }

  lemma {:induction false} OrderBounds(from: real, touches: seq<Touch>, to: real)
    requires InOrder(from, touches, to)
    ensures from <= to
    decreases |touches|
  {
    if touches != [] {
      if |touches| > 1 {
        assert touches[0].now <= touches[1].now;
        var rest := touches[1..];
        forall i | 1 <= i < |rest| ensures rest[i - 1].now <= rest[i].now {
          assert touches[i].now <= touches[i + 1].now;
        }
        OrderBounds(touches[0].now, rest, to);
      }
    }
  }

  lemma {:induction false} EntriesChanged(s: Scheduler, touches: seq<Touch>)
    ensures ChangeAll(s, touches).localChanges.Keys == s.localChanges.Keys + Entries(touches)
  {
    if touches != [] {
      var init := touches[..|touches| - 1];
      EntriesChanged(s, init);
      assert touches == init + [touches[|touches| - 1]];
      assert Entries(touches) == Entries(init) + {touches[|touches| - 1].entry};
    }
  }

  lemma EntriesAppend(a: seq<Touch>, b: seq<Touch>)
    ensures Entries(a + b) == Entries(a) + Entries(b)
  {
  }

  /** From `s` to `t` by these changes, in the order of the clock; whether to wake up. */
  ghost predicate Changes(s: Scheduler, touches: seq<Touch>, t: Scheduler, wakeUp: bool) {
    InOrder(s.clock, touches, t.clock) && t == ChangeAll(s, touches) && (wakeUp <==> AnyWakesUp(s, touches))
  }

  lemma ChangesThen(s: Scheduler, a: seq<Touch>, m: Scheduler, b: seq<Touch>, t: Scheduler, wakeA: bool, wakeB: bool)
    requires Changes(s, a, m, wakeA) && Changes(m, b, t, wakeB)
    ensures Changes(s, a + b, t, wakeA || wakeB)
  {
    InOrderAppend(s.clock, a, m.clock, b, t.clock);
    ChangeAllAppend(s, a, b);
    AnyWakesUpAppend(s, a, b);
  }

  lemma {:induction false} AnyWakesUpAppend(s: Scheduler, a: seq<Touch>, b: seq<Touch>)
    ensures AnyWakesUp(s, a + b) <==> AnyWakesUp(s, a) || AnyWakesUp(ChangeAll(s, a), b)
    decreases |b|
  {
    if b == [] {
      assert a + b == a;
    } else {
      var init := b[..|b| - 1];
      assert (a + b)[..|a + b| - 1] == a + init;
      AnyWakesUpAppend(s, a, init);
      ChangeAllAppend(s, a, init);
    }
  }

  /** The due time moves only with a wake-up, and then to an earlier or equal moment. */
  lemma {:induction false} DueTimeMovesWithWakeUp(s: Scheduler, touches: seq<Touch>)
    ensures !AnyWakesUp(s, touches) ==> ChangeAll(s, touches).dueTime == s.dueTime
    ensures Within(ChangeAll(s, touches).dueTime, s.dueTime)
  {
    if touches != [] {
      DueTimeMovesWithWakeUp(s, touches[..|touches| - 1]);
    }
  }

  lemma OneChange(s: Scheduler, touch: Touch, t: Scheduler)
    requires s.clock <= touch.now && t == ChangeOne(s, touch)
    ensures Changes(s, [touch], t, WakesUp(s, touch)) && Entries([touch]) == {touch.entry}
  {
    assert [touch][..0] == [];
    assert ChangeAll(s, []) == s;
    assert touch in [touch];
  }

  /** All that `entry` reaches was changed, and taken out of the graph. */
  ghost predicate Consumed(graph: Confined, entry: EntryId, touches: seq<Touch>, left: Confined) {
    Explored(graph, entry, Entries(touches)) && left == graph - Entries(touches)
  }

  ghost predicate Consuming(
    graph: Confined, entry: EntryId, touches: seq<Touch>, handled: set<EntryId>, left: Confined)
  {
    Exploring(graph, entry, Entries(touches), handled) && left == graph - (Entries(touches) + {entry})
  }

  /** So far: the changes made from `start` on, the entries handled, and what is left of the graph. */
  ghost predicate Progress(
    graph: Confined, entry: EntryId, handled: set<EntryId>, left: Confined,
    start: Scheduler, touches: seq<Touch>, now: Scheduler, wakeUp: bool)
  {
    Changes(start, touches, now, wakeUp) && Consuming(graph, entry, touches, handled, left) && |left| < |graph|
  }

  lemma ProgressStarts(graph: Confined, entry: EntryId, start: Scheduler)
    requires entry in graph
    ensures Progress(graph, entry, {}, graph - {entry}, start, [], start, false)
  {
    ConsumingStarts(graph, entry);
  }

  lemma ProgressOneMore(
    graph: Confined, entry: EntryId, handled: set<EntryId>, left: Confined,
    start: Scheduler, touches: seq<Touch>, middle: Scheduler, wakeUp: bool,
    next: EntryId, found: seq<Touch>, less: Confined, now: Scheduler, wakes: bool)
    requires Progress(graph, entry, handled, left, start, touches, middle, wakeUp) && next in graph[entry]
    requires Changes(middle, found, now, wakes) && Consumed(left, next, found, less)
    ensures Progress(graph, entry, handled + {next}, less, start, touches + found, now, wakeUp || wakes)
  {
    ChangesThen(start, touches, middle, found, now, wakeUp, wakes);
    ConsumeOneMore(graph, entry, touches, handled, left, next, found, less);
  }

  lemma ConsumingStarts(graph: Confined, entry: EntryId)
    requires entry in graph
    ensures Consuming(graph, entry, [], {}, graph - {entry})
    ensures |graph - {entry}| < |graph|
  {
    assert (graph - {entry}).Keys == graph.Keys - {entry};
    assert Entries([]) + {entry} == {entry};
  }

  lemma ConsumeOneMore(
    graph: Confined, entry: EntryId, touches: seq<Touch>, handled: set<EntryId>, left: Confined,
    next: EntryId, found: seq<Touch>, less: Confined)
    requires Consuming(graph, entry, touches, handled, left) && next in graph[entry] &&
      Consumed(left, next, found, less)
    ensures Consuming(graph, entry, touches + found, handled + {next}, less)
    ensures |less| <= |left|
  {
    EntriesAppend(touches, found);
    ExploreOneMore(graph, entry, Entries(touches), handled, next, Entries(found));
    FewerKeys(left, Entries(found));
    RemoveTwice(graph, Entries(touches), Entries(found), {entry});
  }

  lemma RemoveTwice(graph: Confined, a: set<EntryId>, b: set<EntryId>, c: set<EntryId>)
    ensures graph - (a + c) - b == graph - (a + b + c)
  {
  }

  lemma ConsumingEnds(graph: Confined, entry: EntryId, touches: seq<Touch>, left: Confined, touch: Touch)
    requires entry in graph && Consuming(graph, entry, touches, graph[entry], left) && touch.entry == entry
    ensures Consumed(graph, entry, touches + [touch], left)
  {
    ExploringEnds(graph, entry, Entries(touches));
    EntriesAppend(touches, [touch]);
    assert touch in [touch];
    assert Entries([touch]) == {entry};
  }

  /** Everything that waited for the entry has been changed, and the entry itself has not. */
  ghost predicate Waited(
    graph: Confined, entry: EntryId, start: Scheduler, before: seq<Touch>, middle: Scheduler, wakeUp: bool,
    left: Confined)
  {
    && Changes(start, before, middle, wakeUp)
    && (if entry in graph then Consuming(graph, entry, before, graph[entry], left) else before == [] && left == graph)
  }

  lemma NothingWaits(graph: Confined, entry: EntryId, start: Scheduler)
    requires entry !in graph
    ensures Waited(graph, entry, start, [], start, false, graph)
  {
  }

  /** The entry itself changes last, after all that waited for it. */
  lemma LastChange(
    graph: Confined, entry: EntryId, start: Scheduler, before: seq<Touch>, middle: Scheduler, wakeUp: bool,
    left: Confined, touch: Touch, now: Scheduler)
    requires Waited(graph, entry, start, before, middle, wakeUp, left) && touch.entry == entry
    requires middle.clock <= touch.now && now == ChangeOne(middle, touch)
    ensures Changes(start, before + [touch], now, wakeUp || WakesUp(middle, touch))
    ensures Consumed(graph, entry, before + [touch], left)
  {
    OneChange(middle, touch, now);
    ChangesThen(start, before, middle, [touch], now, wakeUp, WakesUp(middle, touch));
    if entry in graph {
      ConsumingEnds(graph, entry, before, left, touch);
    } else {
      ConsumeLeaf(graph, entry, touch);
      assert [] + [touch] == [touch];
    }
  }

  lemma ConsumeLeaf(graph: Confined, entry: EntryId, touch: Touch)
    requires entry !in graph && touch.entry == entry
    ensures Consumed(graph, entry, [touch], graph)
  {
    ReachesItself(Edge(graph), entry);
    assert touch in [touch];
    assert Entries([touch]) == {entry};
  }

  /** A clock that never goes back. */
  class Clock {
    var time: real

    constructor (time: real)
      ensures this.time == time
    {
      this.time := time;
    }

    method Read() returns (now: real)
      modifies this
      ensures now == time >= old(time)
    {
      var elapsed: real :| elapsed >= 0.0;
      time := time + elapsed;
      now := time;
    }
  }

  class SyncContext {
    const readOnly: bool
    const clock: Clock
    var dueTime: Due
    var localChanges: LocalChanges
    var remoteChanges: set<EntryId>
    var confinedEntries: Confined
    var phase: Phase
    ghost var backOff: Option<real>
    ghost var history: seq<Event>
    ghost var syncStart: nat

    ghost function Snapshot(): Scheduler
      reads this, clock
    {
      Scheduler(dueTime, localChanges, remoteChanges, phase, clock.time, backOff, history, syncStart)
    }

    constructor (readOnly: bool, clock: Clock)
      ensures this.readOnly == readOnly && this.clock == clock
      ensures localChanges == map[] && remoteChanges == {} && confinedEntries == map[]
      ensures dueTime == Never && phase == Idle && backOff == None && history == []
      ensures Inv(Snapshot())
    {
      this.readOnly, this.clock := readOnly, clock;
      dueTime, localChanges, remoteChanges, confinedEntries := Never, map[], {}, map[];
      phase, backOff, history, syncStart := Idle, None, [], 0;
    }

    /** Record a change of one entry. */
    method ChangeEntry(entry: EntryId) returns (wakeUp: bool, ghost touch: Touch)
      modifies this, clock
      ensures touch.entry == entry && touch.now == clock.time >= old(clock.time)
      ensures Snapshot() == ChangeOne(old(Snapshot()), touch)
      ensures confinedEntries == old(confinedEntries)
      ensures wakeUp <==> WakesUp(old(Snapshot()), touch)
    {
      var now := clock.Read();
      touch := Touch(entry, now);
      var change := if entry in localChanges then localChanges[entry].Changed(now) else NewChange(now);
      localChanges := localChanges[entry := change];
      wakeUp := Within(At(change.DueTime()), dueTime);
      if wakeUp {
        dueTime := At(change.DueTime());
      }
      history := history + [ChangeMade(entry)];
    }

    /**
     Changes the entry and, first, everything that waits for it.  On any confinement graph this ends;
     the entries changed are those reached from `entry`, and their records in the graph are gone.
     */
    method SetLocalChange(entry: EntryId) returns (wakeUp: bool, ghost touches: seq<Touch>)
      modifies this, clock
      ensures readOnly ==>
        !wakeUp && touches == [] && Snapshot() == old(Snapshot()) && confinedEntries == old(confinedEntries)
      ensures !readOnly ==> Changes(old(Snapshot()), touches, Snapshot(), wakeUp)
      ensures !readOnly ==> Consumed(old(confinedEntries), entry, touches, confinedEntries)
      decreases |confinedEntries|, 2
    {
      wakeUp, touches := false, [];
      if readOnly {
        return;
      }
      ghost var graph, start := confinedEntries, Snapshot();
      if entry in confinedEntries {
        var confined := confinedEntries[entry];
        confinedEntries := confinedEntries - {entry};
        wakeUp, touches := SetConfinedChanges(entry, confined, graph);
      } else {
        NothingWaits(graph, entry, start);
      }
      ghost var middle, before := Snapshot(), touches;
      assert Waited(graph, entry, start, before, middle, wakeUp, confinedEntries);
      ghost var touch;
      var wakes;
      wakes, touch := ChangeEntry(entry);
      touches := before + [touch];
      LastChange(graph, entry, start, before, middle, wakeUp, confinedEntries, touch, Snapshot());
      wakeUp := wakeUp || wakes;
    }

    /** Changes every entry that waited for `entry`, whose own record is removed already. */
    method SetConfinedChanges(entry: EntryId, confined: set<EntryId>, ghost graph: Confined)
      returns (wakeUp: bool, ghost touches: seq<Touch>)
      requires !readOnly && entry in graph && confined == graph[entry] && confinedEntries == graph - {entry}
      modifies this, clock
      ensures Progress(graph, entry, confined, confinedEntries, old(Snapshot()), touches, Snapshot(), wakeUp)
      decreases |graph|, 1
    {
      wakeUp, touches := false, [];
      var rest := confined;
      ghost var start, handled := Snapshot(), {};
      ProgressStarts(graph, entry, start);
      while rest != {}
        invariant rest <= confined && handled + rest == confined
        invariant Progress(graph, entry, handled, confinedEntries, start, touches, Snapshot(), wakeUp)
        decreases |rest|
      {
        var next :| next in rest;
        wakeUp, touches := SetNextConfined(next, wakeUp, entry, graph, handled, start, touches);
        handled, rest := handled + {next}, rest - {next};
      }
      assert handled == confined;
    }

    /** One more of the entries that waited for `entry`. */
    method SetNextConfined(
      next: EntryId, wakeUpBefore: bool,
      ghost entry: EntryId, ghost graph: Confined, ghost handled: set<EntryId>, ghost start: Scheduler,
      ghost before: seq<Touch>)
      returns (wakeUp: bool, ghost touches: seq<Touch>)
      requires !readOnly && entry in graph && next in graph[entry]
      requires Progress(graph, entry, handled, confinedEntries, start, before, Snapshot(), wakeUpBefore)
      modifies this, clock
      ensures Progress(graph, entry, handled + {next}, confinedEntries, start, touches, Snapshot(), wakeUp)
      decreases |graph|, 0
    {
      ghost var middle, left := Snapshot(), confinedEntries;
      ghost var found;
      wakeUp, found := SetLocalChange(next);
      ProgressOneMore(graph, entry, handled, left, start, before, middle, wakeUpBefore, next, found, confinedEntries,
        Snapshot(), wakeUp);
      wakeUp, touches := wakeUpBefore || wakeUp, before + found;
    }

    method SetRemoteChange(entry: EntryId) returns (wakeUp: bool)
      modifies this, clock
      ensures wakeUp && clock.time >= old(clock.time)
      ensures Snapshot() == AfterRemoteChange(old(Snapshot()), entry, clock.time)
      ensures confinedEntries == old(confinedEntries)
    {
      remoteChanges := remoteChanges + {entry};
      var now := clock.Read();
      dueTime := At(now);
      return true;
    }

    method SetConfinedEntry(entry: EntryId, cause: EntryId)
      modifies this`confinedEntries
      ensures forall x, y :: Edge(confinedEntries)(x, y) <==>
        old(Edge(confinedEntries))(x, y) || (x == cause && y == entry)
      ensures confinedEntries.Keys == old(confinedEntries).Keys + {cause}
    {
      var entries := if cause in confinedEntries then confinedEntries[cause] else {};
      confinedEntries := confinedEntries[cause := entries + {entry}];
    }

    method EarliestDue() returns (due: Due)
      requires localChanges != map[]
      ensures IsEarliest(localChanges, due)
    {
      var rest := localChanges.Keys;
      var first :| first in rest;
      var best := localChanges[first].DueTime();
      rest := rest - {first};
      while rest != {}
        invariant rest <= localChanges.Keys
        invariant exists e :: e in localChanges && localChanges[e].DueTime() == best
        invariant forall e :: e in localChanges && e !in rest ==> best <= localChanges[e].DueTime()
        decreases |rest|
      {
        var e :| e in rest;
        if localChanges[e].DueTime() < best {
          best := localChanges[e].DueTime();
        }
        rest := rest - {e};
      }
      return At(best);
    }

    method ComputeDueTime(now: Option<real>, minDueTime: Option<real>)
      modifies this`dueTime, clock
      ensures clock.time >= old(clock.time)
      ensures IsDueTime(old(Snapshot()), now, minDueTime, clock.time, dueTime)
    {
      ghost var s := Snapshot();
      if remoteChanges != {} {
        if now.Some? && now.value != 0.0 {
          dueTime := At(now.value);
        } else {
          var read := clock.Read();
          dueTime := At(read);
        }
      } else if localChanges != map[] {
        dueTime := EarliestDue();
      } else {
        dueTime := Never;
      }
      assert IsBase(s, now, clock.time, dueTime);
      if minDueTime.Some? && minDueTime.value != 0.0 {
        dueTime := Later(dueTime, minDueTime.value);
      }
    }

    /**
     A tick up to its first suspension: it returns early, or has taken a change to sync, or ends at once because
     it has nothing to sync.
     */
    method TickBegin() returns (ghost now: real, ghost pick: Option<EntryId>)
      requires phase.Idle?
      modifies this, clock
      ensures old(clock.time) <= now <= clock.time && MayPick(old(Snapshot()), now, pick)
      ensures IsAfterBegin(old(Snapshot()), now, pick, clock.time, Snapshot())
      ensures confinedEntries == old(confinedEntries)
    {
      var start := clock.Read();
      now := start;
      if !By(dueTime, start) {
        pick := AnyPick(Snapshot(), start);
        return;
      }
      if remoteChanges != {} {
        var entry :| entry in remoteChanges;
        remoteChanges := remoteChanges - {entry};
        phase := SyncingRemote(start, entry);
        pick := Some(entry);
      } else if SomeDue(localChanges, start) {
        var entry :| entry in localChanges && localChanges[entry].DueTime() <= start;
        syncStart, history := |history|, history + [SyncStarted(entry)];
        localChanges := localChanges - {entry};
        phase := SyncingLocal(start, entry);
        pick := Some(entry);
      } else {
        phase := Finishing(start, None);
        pick := None;
        EndTick();
      }
    }

    /** From the outcome of the sync to the vacuuming, or to the end of the tick. */
    method SyncDone(result: SyncResult)
      requires IsSyncing(Snapshot())
      modifies this, clock
      ensures clock.time >= old(clock.time)
      ensures IsAfterSync(old(Snapshot()), result, clock.time, Snapshot())
      ensures remoteChanges == old(remoteChanges) +
        (if old(phase).SyncingRemote? && result in {NoReadAccess, InMaintenance} then {old(phase).entry} else {})
      ensures localChanges == if old(phase).SyncingLocal? && result != Synced
        then old(localChanges)[old(phase).entry := LocalChange(old(phase).now, old(phase).now)]
        else old(localChanges)
      ensures confinedEntries == old(confinedEntries)
    {
      var local := phase.SyncingLocal?;
      TakeResult(result);
      if !(local && localChanges == map[]) {
        EndTick();
      }
    }

    method VacuumDone()
      requires phase.Finishing?
      modifies this, clock
      ensures clock.time >= old(clock.time)
      ensures IsAfterFinish(old(Snapshot()), clock.time, Snapshot())
      ensures confinedEntries == old(confinedEntries)
    {
      EndTick();
    }

    method TakeResult(result: SyncResult)
      requires IsSyncing(Snapshot())
      modifies this
      ensures Snapshot() == AfterEndSync(old(Snapshot()), result)
      ensures remoteChanges == old(remoteChanges) +
        (if old(phase).SyncingRemote? && result in {NoReadAccess, InMaintenance} then {old(phase).entry} else {})
      ensures localChanges == if old(phase).SyncingLocal? && result != Synced
        then old(localChanges)[old(phase).entry := LocalChange(old(phase).now, old(phase).now)]
        else old(localChanges)
      ensures confinedEntries == old(confinedEntries)
    {
      var now, entry := phase.now, phase.entry;
      var minDueTime: Option<real> := None;
      if phase.SyncingRemote? {
        match result {
          case NoReadAccess =>
            minDueTime := Some(now + MIN_WAIT);
            remoteChanges := remoteChanges + {entry};
          case InMaintenance =>
            minDueTime := Some(now + MAINTENANCE_MIN_WAIT);
            remoteChanges := remoteChanges + {entry};
          case _ =>
        }
      } else {
        match result {
          case Synced =>
            history := history + [SyncSucceeded(entry, syncStart)];
          case InMaintenance =>
            minDueTime := Some(now + MAINTENANCE_MIN_WAIT);
            localChanges := localChanges[entry := NewChange(now)];
          case _ =>
            localChanges := localChanges[entry := NewChange(now)];
        }
      }
      phase := Finishing(now, minDueTime);
    }

    method EndTick()
      requires phase.Finishing?
      modifies this, clock
      ensures clock.time >= old(clock.time)
      ensures IsAfterFinish(old(Snapshot()), clock.time, Snapshot())
      ensures confinedEntries == old(confinedEntries)
    {
      ComputeDueTime(Some(phase.now), phase.minDueTime);
      backOff := BackOff(phase.minDueTime);
      phase := Idle;
    }
  }

  lemma FewerKeys(confined: Confined, removed: set<EntryId>)
    ensures |confined - removed| <= |confined|
  {
    assert (confined - removed).Keys == confined.Keys - removed;
    assert confined.Keys == (confined.Keys - removed) + (confined.Keys * removed);
    assert |confined.Keys| == |confined.Keys - removed| + |confined.Keys * removed|;
  }

  lemma AnyPick(s: Scheduler, now: real) returns (pick: Option<EntryId>)
    ensures MayPick(s, now, pick)
  {
    if s.remoteChanges != {} {
      var e :| e in s.remoteChanges;
      pick := Some(e);
    } else if SomeDue(s.localChanges, now) {
      var e :| e in s.localChanges && s.localChanges[e].DueTime() <= now;
      pick := Some(e);
    } else {
      pick := None;
    }
  }

  /** What a local change of a writable context does, in one step: a sequence of changes of all the entries reached. */
  lemma LocalChangeReaches(
    s: Scheduler, confined: Confined, entry: EntryId, touches: seq<Touch>, n: Scheduler, left: Confined)
    requires Inv(s) && Changes(s, touches, n, AnyWakesUp(s, touches)) && Consumed(confined, entry, touches, left)
    ensures Inv(n)
    ensures forall x :: x in n.localChanges <==> x in s.localChanges || Reaches(Edge(confined), entry, x)
    ensures forall x :: x in left <==> x in confined && !Reaches(Edge(confined), entry, x)
  {
    ExploredIsReached(confined, entry, Entries(touches));
    EntriesChanged(s, touches);
    ChangesKeep(s, touches);
    assert forall x :: x in n.localChanges <==> x in n.localChanges.Keys;
    assert forall x :: x in s.localChanges <==> x in s.localChanges.Keys;
  }
}
