/**
 One greeter task and one claimer task that exchange payloads over a conduit.  Each waits on a
 coalescing flag set by the dispatcher, which drains the FIFO event channel; each may abandon and
 talk again at any moment and in any state.
 */
module ConduitProtocol {
  import opened Common
  import opened ConduitModel

  /** A waiting task remembers when it talked: the number of resets and of consumed rounds before it. */
  datatype Task = Idle | Waiting(ctx: ListenCtx, flag: bool, epoch: nat, round: nat)

  datatype Event = Updated | Unrelated

  /** A round that both sides talked in and that was consumed. */
  datatype Round = Round(state: ConduitState, greeterPayload: Bytes, claimerPayload: Bytes) {
    function Payload(side: Side): Bytes {
      if side == Greeter then greeterPayload else claimerPayload
    }
  }

  datatype TalkRecord = TalkRecord(side: Side, epoch: nat, round: nat, state: ConduitState, payload: Bytes)

  datatype ReturnRecord = ReturnRecord(side: Side, epoch: nat, round: nat, state: ConduitState, own: Bytes, peer: Bytes)

  /** `rounds` are the rounds consumed since the last reset, `past` those of each earlier epoch. */
  datatype World = World(
    conduit: Conduit, greeter: Task, claimer: Task, queue: seq<Event>, inFlight: Option<Event>,
    past: seq<seq<Round>>, rounds: seq<Round>, talks: seq<TalkRecord>, returned: seq<ReturnRecord>)
  {
    function TaskOf(side: Side): Task { if side == Greeter then greeter else claimer }

    function WithTask(side: Side, task: Task): World {
      if side == Greeter then this.(greeter := task) else this.(claimer := task)
    }

    /** The rounds consumed in a given epoch. */
    function RoundsOf(epoch: nat): seq<Round>
      requires epoch <= |past|
    {
      if epoch < |past| then past[epoch] else rounds
    }
  }

  const INITIAL := World(NEW_CONDUIT, Idle, Idle, [], None, [], [], [], [])

  datatype Step =
    | TalkIn(side: Side, state: ConduitState, payload: Bytes)
    | Wake(side: Side)
    | Abandon(side: Side)
    | OtherEvent
    | Dispatch
    | Deliver

  function RaiseFlag(task: Task): Task {
    if task.Waiting? then task.(flag := true) else task
  }

  /** The first half of an exchange: connect the waiter, then talk. */
  function TalkStep(w: World, side: Side, state: ConduitState, payload: Bytes): World {
    if !w.TaskOf(side).Idle? || TalkRefused(w.conduit, side, state) then w
    else
      var (conduit, ctx) := Talk(w.conduit, side, state, payload);
      var resets := Resets(w.conduit, side, state);
      var past := if resets then w.past + [w.rounds] else w.past;
      var rounds := if resets then [] else w.rounds;
      w.(conduit := conduit, queue := w.queue + [Updated], past := past, rounds := rounds,
         talks := w.talks + [TalkRecord(side, |past|, |rounds|, state, payload)])
       .WithTask(side, Waiting(ctx, false, |past|, |rounds|))
  }

  /** The second half: woken up, clear the flag and listen. */
  function WakeStep(w: World, side: Side): World {
    var task := w.TaskOf(side);
    if !(task.Waiting? && task.flag) then w
    else
      var heard := Listen(w.conduit, task.ctx);
      match heard
      case InvalidState => w.WithTask(side, Idle)
      case KeepWaiting => w.WithTask(side, task.(flag := false))
      case Got(payload, consumed) =>
        var next := w.WithTask(side, Idle).(
          conduit := AfterListen(w.conduit, task.ctx),
          returned := w.returned + [ReturnRecord(side, task.epoch, task.round, task.ctx.state, task.ctx.payload,
            payload)]);
        if consumed then
          next.(queue := w.queue + [Updated],
                rounds := w.rounds + [Round(task.ctx.state,
                  if side == Greeter then task.ctx.payload else payload,
                  if side == Greeter then payload else task.ctx.payload)])
        else next
  }

  function Apply(w: World, step: Step): World {
    match step
    case TalkIn(side, state, payload) => TalkStep(w, side, state, payload)
    case Wake(side) => WakeStep(w, side)
    case Abandon(side) => w.WithTask(side, Idle)
    case OtherEvent => w.(queue := w.queue + [Unrelated])
    case Dispatch =>
      if w.inFlight.Some? || w.queue == [] then w
      else w.(inFlight := Some(w.queue[0]), queue := w.queue[1..])
    case Deliver =>
      match w.inFlight
      case None => w
      case Some(Unrelated) => w.(inFlight := None)
      case Some(Updated) => w.(inFlight := None, greeter := RaiseFlag(w.greeter), claimer := RaiseFlag(w.claimer))
  }

  function Run(steps: seq<Step>): World {
    if steps == [] then INITIAL else Apply(Run(steps[..|steps| - 1]), steps[|steps| - 1])
  }

  // ---------- the invariant ----------

  function StateAt(k: nat): ConduitState {
    if k == 0 then WaitPeers else Next(StateAt(k - 1))
  }

  /** Lexicographic order on (epoch, round). */
  ghost predicate NotLater(epoch: nat, round: nat, epoch': nat, round': nat) {
    epoch < epoch' || (epoch == epoch' && round <= round')
  }

  /** The conduit stands right after the consumed rounds, which are those of the first states in order. */
  ghost predicate InStep(w: World) {
    && w.conduit.state == StateAt(|w.rounds|)
    && (forall i :: 0 <= i < |w.rounds| ==> w.rounds[i].state == StateAt(i))
    && (forall e, i :: 0 <= e < |w.past| && 0 <= i < |w.past[e]| ==> w.past[e][i].state == StateAt(i))
  }

  ghost predicate Talked(w: World, side: Side, epoch: nat, round: nat, state: ConduitState, payload: Bytes) {
    TalkRecord(side, epoch, round, state, payload) in w.talks
  }

  /** What the conduit holds and what was consumed had been talked, in that epoch and that round. */
  ghost predicate Backed(w: World) {
    && (forall side: Side :: w.conduit.Payload(side).Some? ==>
          Talked(w, side, |w.past|, |w.rounds|, w.conduit.state, w.conduit.Payload(side).value))
    && (forall e, i, side: Side :: 0 <= e <= |w.past| && 0 <= i < |w.RoundsOf(e)| ==>
          Talked(w, side, e, i, w.RoundsOf(e)[i].state, w.RoundsOf(e)[i].Payload(side)))
  }

  /** Talks happen in order: no round is talked in after a later round or a reset. */
  ghost predicate TalksInOrder(w: World) {
    && (forall i, j :: 0 <= i < j < |w.talks| ==>
      NotLater(w.talks[i].epoch, w.talks[i].round, w.talks[j].epoch, w.talks[j].round))
    && (forall i :: 0 <= i < |w.talks| ==> NotLater(w.talks[i].epoch, w.talks[i].round, |w.past|, |w.rounds|))
  }

  /** A side talks at most once in a round: the conduit holds its payload until the round is over. */
  ghost predicate TalkedOnce(w: World) {
    && (forall i, j :: 0 <= i < j < |w.talks| && w.talks[i].side == w.talks[j].side ==>
          w.talks[i].epoch != w.talks[j].epoch || w.talks[i].round != w.talks[j].round)
    && (forall i :: 0 <= i < |w.talks| && w.talks[i].epoch == |w.past| && w.talks[i].round == |w.rounds| ==>
          w.conduit.Payload(w.talks[i].side).Some?)
  }

  /** Every returned exchange is one of the consumed rounds, seen from its side. */
  ghost predicate ReturnsAreRounds(w: World) {
    forall k :: 0 <= k < |w.returned| ==>
      var r := w.returned[k];
      && r.epoch <= |w.past| && r.round < |w.RoundsOf(r.epoch)|
      && var round := w.RoundsOf(r.epoch)[r.round];
         round.state == r.state && round.Payload(r.side) == r.own && round.Payload(Peer(r.side)) == r.peer
  }

  /** The round a waiting task talked in is still open. */
  ghost predicate Open(w: World, side: Side) {
    var task := w.TaskOf(side);
    && task.Waiting? && task.epoch == |w.past| && task.round == |w.rounds|
    && w.conduit.state == task.ctx.state && w.conduit.Payload(side) == Some(task.ctx.payload)
    && (task.ctx.peerPayload.Some? ==> w.conduit.Payload(Peer(side)) == task.ctx.peerPayload)
  }

  /** The peer has consumed the round, and its listener has not noticed yet. */
  ghost predicate Consumed(w: World, side: Side) {
    var task := w.TaskOf(side);
    && task.Waiting? && task.epoch == |w.past| && |w.rounds| > 0 && task.round == |w.rounds| - 1
    && task.ctx.peerPayload.Some? && w.conduit.Payload(side).None? && w.conduit.state == Next(task.ctx.state)
    && w.rounds[task.round].state == task.ctx.state
    && w.rounds[task.round].Payload(side) == task.ctx.payload
    && w.rounds[task.round].Payload(Peer(side)) == task.ctx.peerPayload.value
  }

  /** The peer has reset the conduit since this side talked. */
  ghost predicate Overridden(w: World, side: Side) {
    var task := w.TaskOf(side);
    task.Waiting? && task.epoch < |w.past| && w.rounds == [] && w.conduit.state == WaitPeers &&
      w.conduit.Payload(side).None?
  }

  ghost predicate TaskFits(w: World, side: Side) {
    var task := w.TaskOf(side);
    task.Waiting? ==>
      && task.ctx.side == side
      && (Open(w, side) || Consumed(w, side) || Overridden(w, side))
  }

  /** In an open round with both sides waiting, exactly one of them talked first. */
  ghost predicate OneTalkedFirst(w: World) {
    Open(w, Greeter) && Open(w, Claimer) ==> (w.greeter.ctx.peerPayload.None? <==> w.claimer.ctx.peerPayload.Some?)
  }

  ghost predicate WakeUpComing(w: World) {
    Updated in w.queue || w.inFlight == Some(Updated)
  }

  /** A waiting task has its flag set, or an event on the way, or nothing to hear. */
  ghost predicate NoLostWakeUp(w: World, side: Side) {
    var task := w.TaskOf(side);
    task.Waiting? ==> task.flag || WakeUpComing(w) || Listen(w.conduit, task.ctx) == KeepWaiting
  }

  ghost predicate TasksFit(w: World) {
    && TaskFits(w, Greeter) && TaskFits(w, Claimer) && OneTalkedFirst(w)
    && NoLostWakeUp(w, Greeter) && NoLostWakeUp(w, Claimer)
  }

  ghost predicate Inv(w: World) {
    && InStep(w) && Backed(w) && TalksInOrder(w) && TalkedOnce(w) && ReturnsAreRounds(w)
    && TasksFit(w)
  }

  // ---------- every step keeps it ----------

  lemma TalkKeepsBacked(w: World, side: Side, state: ConduitState, payload: Bytes)
    requires InStep(w) && Backed(w)
    ensures var n := TalkStep(w, side, state, payload); InStep(n) && Backed(n)
  {
    var n := TalkStep(w, side, state, payload);
    if n != w {
      assert n.talks[|w.talks|] in n.talks;
      assert forall t :: t in w.talks ==> t in n.talks;
      assert forall e :: 0 <= e <= |w.past| ==> n.RoundsOf(e) == w.RoundsOf(e);
      forall s: Side | n.conduit.Payload(s).Some?
        ensures Talked(n, s, |n.past|, |n.rounds|, n.conduit.state, n.conduit.Payload(s).value)
      {
        if s != side {
          assert Talked(w, s, |w.past|, |w.rounds|, w.conduit.state, w.conduit.Payload(s).value);
        }
      }
    }
  }

  lemma TalkKeepsReturns(w: World, side: Side, state: ConduitState, payload: Bytes)
    requires ReturnsAreRounds(w)
    ensures ReturnsAreRounds(TalkStep(w, side, state, payload))
  {
    var n := TalkStep(w, side, state, payload);
    assert forall e :: 0 <= e <= |w.past| && e <= |n.past| ==> n.RoundsOf(e) == w.RoundsOf(e);
  }

  lemma TalkKeepsOrder(w: World, side: Side, state: ConduitState, payload: Bytes)
    requires TalksInOrder(w) && TalkedOnce(w)
    ensures var n := TalkStep(w, side, state, payload); TalksInOrder(n) && TalkedOnce(n)
  {
    var n := TalkStep(w, side, state, payload);
    if n != w {
      assert forall i :: 0 <= i < |w.talks| ==> n.talks[i] == w.talks[i];
      assert Resets(w.conduit, side, state) || w.conduit.Payload(side).None?;
    }
  }

  lemma TalkKeepsHistory(w: World, side: Side, state: ConduitState, payload: Bytes)
    requires Inv(w)
    ensures var n := TalkStep(w, side, state, payload);
      InStep(n) && Backed(n) && TalksInOrder(n) && TalkedOnce(n) && ReturnsAreRounds(n)
  {
    TalkKeepsBacked(w, side, state, payload);
    TalkKeepsReturns(w, side, state, payload);
    TalkKeepsOrder(w, side, state, payload);
  }

  lemma TalkKeepsTasks(w: World, side: Side, state: ConduitState, payload: Bytes)
    requires Inv(w)
    ensures var n := TalkStep(w, side, state, payload);
      && TaskFits(n, Greeter) && TaskFits(n, Claimer) && OneTalkedFirst(n)
      && NoLostWakeUp(n, Greeter) && NoLostWakeUp(n, Claimer)
  {
    var n := TalkStep(w, side, state, payload);
    if n != w {
      assert n.queue[|w.queue|] == Updated;
      var other := Peer(side);
      assert n.TaskOf(other) == w.TaskOf(other);
      assert TaskFits(w, other);
      assert Open(n, side);
    }
  }

  /** A step that touches neither the conduit nor the records keeps everything said about them. */
  lemma SameHistory(w: World, n: World)
    requires InStep(w) && Backed(w) && TalksInOrder(w) && TalkedOnce(w) && ReturnsAreRounds(w)
    requires n.conduit == w.conduit && n.past == w.past && n.rounds == w.rounds && n.talks == w.talks
    requires n.returned == w.returned
    ensures InStep(n) && Backed(n) && TalksInOrder(n) && TalkedOnce(n) && ReturnsAreRounds(n)
  {
    assert forall e :: 0 <= e <= |w.past| ==> n.RoundsOf(e) == w.RoundsOf(e);
  }

  /** The round that a listener consumes was talked in by both sides. */
  lemma ConsumingKeepsBacked(w: World, n: World, round: Round)
    requires Backed(w) && n.past == w.past && n.talks == w.talks
    requires n.rounds == w.rounds + [round] && n.conduit.claimerPayload.None? && n.conduit.greeterPayload.None?
    requires forall side: Side :: Talked(w, side, |w.past|, |w.rounds|, round.state, round.Payload(side))
    ensures Backed(n)
  {
    forall e, i, side: Side | 0 <= e <= |n.past| && 0 <= i < |n.RoundsOf(e)|
      ensures Talked(n, side, e, i, n.RoundsOf(e)[i].state, n.RoundsOf(e)[i].Payload(side))
    {
      if e == |w.past| && i == |w.rounds| {
        assert Talked(w, side, e, i, round.state, round.Payload(side));
      } else {
        assert n.RoundsOf(e)[i] == w.RoundsOf(e)[i];
      }
    }
  }

  lemma ReturningKeepsRounds(w: World, n: World, r: ReturnRecord)
    requires ReturnsAreRounds(w) && n.past == w.past && w.rounds <= n.rounds && n.returned == w.returned + [r]
    requires r.epoch == |n.past| && r.round < |n.rounds|
    requires var round := n.rounds[r.round];
      round.state == r.state && round.Payload(r.side) == r.own && round.Payload(Peer(r.side)) == r.peer
    ensures ReturnsAreRounds(n)
  {
    forall k | 0 <= k < |w.returned|
      ensures w.returned[k].epoch <= |n.past| && w.returned[k].round < |n.RoundsOf(w.returned[k].epoch)|
      ensures n.RoundsOf(w.returned[k].epoch)[w.returned[k].round] ==
        w.RoundsOf(w.returned[k].epoch)[w.returned[k].round]
    {
    }
  }

  lemma ConsumingKeepsOrder(w: World, n: World)
    requires TalksInOrder(w) && TalkedOnce(w)
    requires n.past == w.past && |n.rounds| == |w.rounds| + 1 && n.talks == w.talks
    ensures TalksInOrder(n) && TalkedOnce(n)
  {
  }

  lemma ConsumeKeepsHistory(w: World, side: Side)
    requires Inv(w) && Open(w, side) && w.TaskOf(side).flag && TaskFits(w, side)
    requires w.TaskOf(side).ctx.peerPayload.None? && w.conduit.Payload(Peer(side)).Some?
    ensures var n := WakeStep(w, side);
      InStep(n) && Backed(n) && TalksInOrder(n) && TalkedOnce(n) && ReturnsAreRounds(n)
  {
    var n := WakeStep(w, side);
    var task := w.TaskOf(side);
    var round := n.rounds[|w.rounds|];
    forall s: Side ensures Talked(w, s, |w.past|, |w.rounds|, round.state, round.Payload(s)) {
      assert s == side || s == Peer(side);
    }
    ConsumingKeepsBacked(w, n, round);
    ConsumingKeepsOrder(w, n);
    ReturningKeepsRounds(w, n,
      ReturnRecord(side, task.epoch, task.round, task.ctx.state, task.ctx.payload, round.Payload(Peer(side))));
  }

  lemma ReturnKeepsHistory(w: World, side: Side)
    requires Inv(w) && Consumed(w, side) && TaskFits(w, side) && w.TaskOf(side).flag
    ensures var n := WakeStep(w, side);
      InStep(n) && Backed(n) && TalksInOrder(n) && TalkedOnce(n) && ReturnsAreRounds(n)
  {
    var n := WakeStep(w, side);
    var task := w.TaskOf(side);
    var record := ReturnRecord(
      side, task.epoch, task.round, task.ctx.state, task.ctx.payload, task.ctx.peerPayload.value);
    SameHistory(w, n.(returned := w.returned));
    ReturningKeepsRounds(w, n, record);
    assert forall e :: 0 <= e <= |w.past| ==> n.RoundsOf(e) == w.RoundsOf(e);
  }

  lemma WakeKeepsHistory(w: World, side: Side)
    requires Inv(w)
    ensures var n := WakeStep(w, side);
      InStep(n) && Backed(n) && TalksInOrder(n) && TalkedOnce(n) && ReturnsAreRounds(n)
  {
    var n := WakeStep(w, side);
    var task := w.TaskOf(side);
    assert TaskFits(w, side);
    if n.returned == w.returned {
      SameHistory(w, n);
    } else if Listen(w.conduit, task.ctx).consumed {
      ConsumeKeepsHistory(w, side);
    } else {
      ReturnKeepsHistory(w, side);
    }
  }

  /** The listener that consumes the round leaves its peer with a round to notice and an event on the way. */
  lemma ConsumeKeepsTasks(w: World, side: Side)
    requires TasksFit(w) && Open(w, side) && w.TaskOf(side).flag && InStep(w)
    requires w.TaskOf(side).ctx.peerPayload.None? && w.conduit.Payload(Peer(side)).Some?
    ensures TasksFit(WakeStep(w, side))
  {
    var n := WakeStep(w, side);
    assert TaskFits(w, side) && TaskFits(w, Peer(side));
    assert n.TaskOf(Peer(side)) == w.TaskOf(Peer(side));
    assert n.queue[|w.queue|] == Updated;
  }

  /** Any other wake-up changes nothing for the peer. */
  lemma OtherWakeKeepsTasks(w: World, side: Side)
    requires TasksFit(w) && WakeStep(w, side).conduit == w.conduit && WakeStep(w, side).queue == w.queue
    requires WakeStep(w, side).rounds == w.rounds
    ensures TasksFit(WakeStep(w, side))
  {
    var n := WakeStep(w, side);
    assert n.TaskOf(Peer(side)) == w.TaskOf(Peer(side));
    assert TaskFits(w, side) && TaskFits(w, Peer(side)) && NoLostWakeUp(w, Peer(side));
  }

  lemma WakeKeepsTasks(w: World, side: Side)
    requires Inv(w)
    ensures TasksFit(WakeStep(w, side))
  {
    var task := w.TaskOf(side);
    assert TaskFits(w, side);
    var heard := if task.Waiting? && task.flag then Listen(w.conduit, task.ctx) else KeepWaiting;
    if heard.Got? && heard.consumed {
      ConsumeKeepsTasks(w, side);
    } else {
      OtherWakeKeepsTasks(w, side);
    }
  }

  // ---------- dispatching, delivering, abandoning and foreign events ----------

  lemma ChannelKeepsTask(w: World, step: Step, side: Side)
    requires TaskFits(w, side) && NoLostWakeUp(w, side)
    requires step.Abandon? || step.OtherEvent? || step.Dispatch? || step.Deliver?
    ensures var n := Apply(w, step);
      && TaskFits(n, side) && NoLostWakeUp(n, side)
      && (Open(n, side) ==> Open(w, side) && n.TaskOf(side).ctx == w.TaskOf(side).ctx)
  {
    assert step.OtherEvent? ==> forall e :: e in w.queue ==> e in Apply(w, step).queue;
  }

  lemma ChannelKeepsInvariant(w: World, step: Step)
    requires Inv(w) && (step.Abandon? || step.OtherEvent? || step.Dispatch? || step.Deliver?)
    ensures Inv(Apply(w, step))
  {
    SameHistory(w, Apply(w, step));
    ChannelKeepsTask(w, step, Greeter);
    ChannelKeepsTask(w, step, Claimer);
  }

  lemma StepKeepsInvariant(w: World, step: Step)
    requires Inv(w)
    ensures Inv(Apply(w, step))
  {
    match step
    case TalkIn(side, state, payload) =>
      TalkKeepsHistory(w, side, state, payload);
      TalkKeepsTasks(w, side, state, payload);
    case Wake(side) =>
      WakeKeepsHistory(w, side);
      WakeKeepsTasks(w, side);
    case _ =>
      ChannelKeepsInvariant(w, step);
  }

  /** The invariant holds after every run. */
  lemma {:induction false} EveryRunKeepsInvariant(steps: seq<Step>)
    ensures Inv(Run(steps))
  {
    if steps != [] {
      EveryRunKeepsInvariant(steps[..|steps| - 1]);
      StepKeepsInvariant(Run(steps[..|steps| - 1]), steps[|steps| - 1]);
    }
  }

  // ---------- what the invariant means for the two tasks ----------

  /**
   Agreement.  In every run, two exchanges that returned in the same round, one on each side, hold
   each other's payload; so do all rounds of the final state, which follows itself.
   */
  lemma Agreement(steps: seq<Step>, i: nat, j: nat)
    requires var w := Run(steps);
      && i < |w.returned| && j < |w.returned| && w.returned[i].side != w.returned[j].side
      && w.returned[i].epoch == w.returned[j].epoch && w.returned[i].round == w.returned[j].round
    ensures var w := Run(steps);
      && w.returned[i].state == w.returned[j].state
      && w.returned[i].peer == w.returned[j].own && w.returned[i].own == w.returned[j].peer
  {
    EveryRunKeepsInvariant(steps);
  }

  /** What an exchange returns was talked by the peer in that very round, and nothing else was. */
  lemma ReturnedWasTalked(steps: seq<Step>, k: nat)
    requires k < |Run(steps).returned|
    ensures var w := Run(steps);
      var r := w.returned[k];
      && Talked(w, r.side, r.epoch, r.round, r.state, r.own)
      && Talked(w, Peer(r.side), r.epoch, r.round, r.state, r.peer)
      && forall t :: t in w.talks && t.side == Peer(r.side) && t.epoch == r.epoch && t.round == r.round ==>
        t.payload == r.peer
  {
    EveryRunKeepsInvariant(steps);
    var w := Run(steps);
    var r := w.returned[k];
    var round := w.RoundsOf(r.epoch)[r.round];
    assert Talked(w, r.side, r.epoch, r.round, round.state, round.Payload(r.side));
    assert Talked(w, Peer(r.side), r.epoch, r.round, round.state, round.Payload(Peer(r.side)));
    forall t | t in w.talks && t.side == Peer(r.side) && t.epoch == r.epoch && t.round == r.round
      ensures t.payload == r.peer
    {
      var i :| 0 <= i < |w.talks| && w.talks[i] == t;
      var j :| 0 <= j < |w.talks| && w.talks[j] == TalkRecord(Peer(r.side), r.epoch, r.round, r.state, r.peer);
      assert i == j;
    }
  }

  /**
   Starting over is never refused: in every reached world an idle side that talks in the first state waits,
   in a conduit of the first state that holds what it said.
   */
  lemma StartingOverIsHeard(steps: seq<Step>, side: Side, payload: Bytes)
    requires Run(steps).TaskOf(side).Idle?
    ensures var n := Apply(Run(steps), TalkIn(side, WaitPeers, payload));
      && n.TaskOf(side).Waiting? && Open(n, side) && n.conduit.state == WaitPeers
      && n.conduit.Payload(side) == Some(payload) && n.rounds == []
  {
    EveryRunKeepsInvariant(steps);
    var w := Run(steps);
    StateAtIndex(|w.rounds|);
    assert w.conduit.state == WaitPeers ==> w.rounds == [];
  }

  /**
   After the first state a talk is heard exactly when it is in the conduit's own state and its side has not
   spoken in it; what the peer said there is kept.  Any other one changes nothing.
   */
  lemma TalkIsHeard(steps: seq<Step>, side: Side, state: ConduitState, payload: Bytes)
    requires Run(steps).TaskOf(side).Idle? && state != WaitPeers
    ensures var (w, n) := (Run(steps), Apply(Run(steps), TalkIn(side, state, payload)));
      && (n.TaskOf(side).Waiting? <==> w.conduit.state == state && w.conduit.Payload(side).None?)
      && (n.TaskOf(side).Waiting? ==>
            && Open(n, side) && n.conduit == w.conduit.With(side, payload) && n.rounds == w.rounds
            && n.conduit.Payload(Peer(side)) == w.conduit.Payload(Peer(side)))
      && (n.TaskOf(side).Idle? ==> n == w)
  {
    EveryRunKeepsInvariant(steps);
  }

  /** An exchange only ever returns within the epoch it talked in: no reset lies in between. */
  lemma NoReturnAcrossReset(steps: seq<Step>, side: Side)
    requires |Apply(Run(steps), Wake(side)).returned| > |Run(steps).returned|
    ensures var n := Apply(Run(steps), Wake(side));
      n.returned[|n.returned| - 1].epoch == |n.past| == |Run(steps).past|
  {
    EveryRunKeepsInvariant(steps);
    assert TaskFits(Run(steps), side);
  }

  function Index(state: ConduitState): nat {
    match state
    case WaitPeers => 0
    case ClaimerHashedNonce => 1
    case GreeterNonce => 2
    case ClaimerNonce => 3
    case ClaimerTrust => 4
    case GreeterTrust => 5
    case Communicate => 6
  }

  lemma {:induction false} StateAtIndex(k: nat)
    ensures Index(StateAt(k)) == if k <= 6 then k else 6
  {
    if k > 0 {
      StateAtIndex(k - 1);
    }
  }

  /**
   Ordered history.  When the conduit is in some state then, since the last reset, both sides
   talked in every earlier state, the rounds came in the order of the states, and each was consumed.
   */
  lemma EarlierStatesWereConsumed(steps: seq<Step>, i: nat)
    requires i < Index(Run(steps).conduit.state)
    ensures var w := Run(steps);
      && i < |w.rounds| && Index(w.rounds[i].state) == i
      && Talked(w, Greeter, |w.past|, i, w.rounds[i].state, w.rounds[i].greeterPayload)
      && Talked(w, Claimer, |w.past|, i, w.rounds[i].state, w.rounds[i].claimerPayload)
  {
    EveryRunKeepsInvariant(steps);
    var w := Run(steps);
    StateAtIndex(|w.rounds|);
    StateAtIndex(i);
    assert w.RoundsOf(|w.past|) == w.rounds;
    assert Talked(w, Greeter, |w.past|, i, w.rounds[i].state, w.rounds[i].Payload(Greeter));
    assert Talked(w, Claimer, |w.past|, i, w.rounds[i].state, w.rounds[i].Payload(Claimer));
  }

  /** A nonce is stored only once the previous commitments were consumed. */
  lemma NoncesComeInOrder(steps: seq<Step>, side: Side, state: ConduitState, payload: Bytes)
    requires state == GreeterNonce || state == ClaimerNonce
    requires Apply(Run(steps), TalkIn(side, state, payload)) != Run(steps)
    ensures var w := Run(steps);
      && |w.rounds| == Index(state)
      && w.rounds[1].state == ClaimerHashedNonce
      && Talked(w, Claimer, |w.past|, 1, ClaimerHashedNonce, w.rounds[1].claimerPayload)
      && (state == ClaimerNonce ==>
            w.rounds[2].state == GreeterNonce &&
              Talked(w, Greeter, |w.past|, 2, GreeterNonce, w.rounds[2].greeterPayload))
  {
    EveryRunKeepsInvariant(steps);
    var w := Run(steps);
    assert w.conduit.state == state;
    StateAtIndex(|w.rounds|);
    EarlierStatesWereConsumed(steps, 1);
    if state == ClaimerNonce {
      EarlierStatesWereConsumed(steps, 2);
    }
  }

  /** Nothing is on its way to a waiting task. */
  ghost predicate Quiet(w: World) {
    && !WakeUpComing(w)
    && (w.greeter.Waiting? ==> !w.greeter.flag) && (w.claimer.Waiting? ==> !w.claimer.flag)
  }

  /**
   No lost wake-up.  When nothing is on its way, whoever waits would still be told to wait: its round is
   open, so no reset has passed it by, and the two sides never wait for each other.
   */
  lemma NobodyIsStuck(steps: seq<Step>)
    requires Quiet(Run(steps))
    ensures var w := Run(steps);
      && (w.greeter.Waiting? ==> Open(w, Greeter) && Listen(w.conduit, w.greeter.ctx) == KeepWaiting)
      && (w.claimer.Waiting? ==> Open(w, Claimer) && Listen(w.conduit, w.claimer.ctx) == KeepWaiting)
      && !(w.greeter.Waiting? && w.claimer.Waiting?)
  {
    EveryRunKeepsInvariant(steps);
    var w := Run(steps);
    assert NoLostWakeUp(w, Greeter) && NoLostWakeUp(w, Claimer) && TaskFits(w, Greeter) && TaskFits(w, Claimer);
  }

  /** The task has returned from its exchange with this payload. */
  ghost predicate ReturnsWith(w: World, n: World, side: Side, payload: Bytes) {
    var task := w.TaskOf(side);
    && task.Waiting? && n.TaskOf(side).Idle?
    && n.returned ==
       w.returned + [ReturnRecord(side, task.epoch, task.round, task.ctx.state, task.ctx.payload, payload)]
  }

  /**
   What waking up comes to, in every reached world.  A reset since the talk ends the exchange with nothing.
   A round that the peer has consumed returns what the peer had said before.  In an open round the side that
   spoke first consumes it as soon as the peer has spoken; otherwise it waits on.
   */
  lemma WakingUpIsDecided(steps: seq<Step>, side: Side)
    requires Run(steps).TaskOf(side).Waiting? && Run(steps).TaskOf(side).flag
    ensures var w := Run(steps);
      var (n, ctx, theirs) := (Apply(w, Wake(side)), w.TaskOf(side).ctx, w.conduit.Payload(Peer(side)));
      if w.TaskOf(side).epoch < |w.past| then
        n == w.WithTask(side, Idle)
      else if w.TaskOf(side).round < |w.rounds| then
        && ctx.peerPayload.Some? && ReturnsWith(w, n, side, ctx.peerPayload.value) && n.conduit == w.conduit
      else if ctx.peerPayload.None? && theirs.Some? then
        && ReturnsWith(w, n, side, theirs.value) && n.conduit == Conduit(Next(w.conduit.state), None, None)
      else
        n.TaskOf(side).Waiting? && n.returned == w.returned && n.conduit == w.conduit
  {
    EveryRunKeepsInvariant(steps);
    assert TaskFits(Run(steps), side);
  }

  function Weight(task: Task): nat {
    if task.Idle? then 0 else if task.flag then 9 else 8
  }

  /** How many internal steps are left at most. */
  function Measure(w: World): nat {
    Weight(w.greeter) + Weight(w.claimer) + 4 * |w.queue| + if w.inFlight.Some? then 3 else 0
  }

  /** Dispatching, delivering and waking up cannot go on for ever without a talk: every such step counts down. */
  lemma InternalStepsEnd(w: World, step: Step)
    requires step.Wake? || step.Dispatch? || step.Deliver?
    requires Apply(w, step) != w
    ensures Measure(Apply(w, step)) < Measure(w)
  {
  }
}
