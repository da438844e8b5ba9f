/**
 From a round that both sides have talked in to its end: without a further talk, reset or departure, both
 sides return with each other's payload.
 */
module ConduitProgress {
  import opened Common
  import opened ConduitModel
  import opened ConduitProtocol

  /** What happens without either side doing anything new; other invitations may send events. */
  predicate Internal(step: Step) { step.Wake? || step.Dispatch? || step.Deliver? || step.OtherEvent? }

  /** The round at stake and what each side talked in it. */
  datatype Meeting = Meeting(epoch: nat, round: nat, state: ConduitState, greeterPayload: Bytes,
    claimerPayload: Bytes) {
    function Payload(side: Side): Bytes { if side == Greeter then greeterPayload else claimerPayload }

    function Return(side: Side): ReturnRecord {
      ReturnRecord(side, epoch, round, state, Payload(side), Payload(Peer(side)))
    }
  }

  /** Both sides wait in this round, which is still open. */
  ghost predicate Met(w: World, m: Meeting) {
    && |w.past| == m.epoch && |w.rounds| == m.round && w.conduit.state == m.state
    && forall side: Side :: Open(w, side) && w.TaskOf(side).ctx.payload == m.Payload(side)
  }

  ghost predicate HasReturned(w: World, m: Meeting, side: Side) {
    w.TaskOf(side).Idle? && m.Return(side) in w.returned
  }

  /** The side is about to learn that its peer has consumed the round. */
  ghost predicate AboutToReturn(w: World, m: Meeting, side: Side) {
    && Consumed(w, side)
    && w.TaskOf(side).ctx == ListenCtx(side, m.state, m.Payload(side), Some(m.Payload(Peer(side))))
  }

  /** The round was consumed, and each side has returned or is about to. */
  ghost predicate Over(w: World, m: Meeting) {
    && |w.past| == m.epoch && |w.rounds| == m.round + 1
    && forall side: Side :: HasReturned(w, m, side) || AboutToReturn(w, m, side)
  }

  ghost predicate Settling(w: World, m: Meeting) { Met(w, m) || Over(w, m) }

  function RunFrom(w: World, steps: seq<Step>): World
    decreases |steps|
  {
    if steps == [] then w else RunFrom(Apply(w, steps[0]), steps[1..])
  }

  ghost predicate AllInternal(steps: seq<Step>) {
    forall i :: 0 <= i < |steps| ==> Internal(steps[i])
  }

  lemma ChannelSettles(w: World, m: Meeting, step: Step)
    requires Settling(w, m) && (step.Dispatch? || step.Deliver? || step.OtherEvent?)
    ensures Settling(Apply(w, step), m)
  {
    var n := Apply(w, step);
    if Met(w, m) {
      forall side: Side ensures Open(n, side) && n.TaskOf(side).ctx.payload == m.Payload(side) {
        assert Open(w, side);
      }
    } else {
      forall side: Side ensures HasReturned(n, m, side) || AboutToReturn(n, m, side) {
        assert HasReturned(w, m, side) || AboutToReturn(w, m, side);
      }
    }
  }

  /** The side that talked first consumes the round when it wakes up; the other one keeps waiting. */
  lemma WakeWhenMet(w: World, m: Meeting, side: Side)
    requires Inv(w) && Met(w, m) && w.TaskOf(side).flag
    ensures Settling(WakeStep(w, side), m)
  {
    var (n, other) := (WakeStep(w, side), Peer(side));
    assert Open(w, side) && Open(w, other) && TaskFits(w, side) && TaskFits(w, other);
    if w.TaskOf(side).ctx.peerPayload.Some? {
      forall s: Side ensures Open(n, s) && n.TaskOf(s).ctx.payload == m.Payload(s) {
        assert s == side || s == other;
      }
    } else {
      assert n.returned[|w.returned|] == m.Return(side);
      assert HasReturned(n, m, side);
      assert AboutToReturn(n, m, other);
      forall s: Side ensures HasReturned(n, m, s) || AboutToReturn(n, m, s) {
        assert s == side || s == other;
      }
    }
  }

  lemma WakeWhenOver(w: World, m: Meeting, side: Side)
    requires Over(w, m) && AboutToReturn(w, m, side) && w.TaskOf(side).flag
    ensures Over(WakeStep(w, side), m)
  {
    var (n, other) := (WakeStep(w, side), Peer(side));
    assert n.returned[|w.returned|] == m.Return(side);
    forall s: Side ensures HasReturned(n, m, s) || AboutToReturn(n, m, s) {
      assert s == side || s == other;
      assert HasReturned(w, m, s) || AboutToReturn(w, m, s);
    }
  }

  lemma StepSettles(w: World, m: Meeting, step: Step)
    requires Inv(w) && Settling(w, m) && Internal(step)
    ensures Inv(Apply(w, step)) && Settling(Apply(w, step), m)
  {
    StepKeepsInvariant(w, step);
    if !step.Wake? {
      ChannelSettles(w, m, step);
    } else if w.TaskOf(step.side).Waiting? && w.TaskOf(step.side).flag {
      if Met(w, m) {
        WakeWhenMet(w, m, step.side);
      } else {
        assert HasReturned(w, m, step.side) || AboutToReturn(w, m, step.side);
        WakeWhenOver(w, m, step.side);
      }
    }
  }

  lemma {:induction false} RunSettles(w: World, m: Meeting, steps: seq<Step>)
    requires Inv(w) && Settling(w, m) && AllInternal(steps)
    ensures Inv(RunFrom(w, steps)) && Settling(RunFrom(w, steps), m)
    decreases |steps|
  {
    if steps != [] {
      StepSettles(w, m, steps[0]);
      RunSettles(Apply(w, steps[0]), m, steps[1..]);
    }
  }

  lemma QuietIsSettled(w: World, m: Meeting)
    requires Inv(w) && Settling(w, m) && Quiet(w)
    ensures HasReturned(w, m, Greeter) && HasReturned(w, m, Claimer)
  {
    assert NoLostWakeUp(w, Greeter) && NoLostWakeUp(w, Claimer) && TaskFits(w, Greeter) && TaskFits(w, Claimer);
    assert Met(w, m) ==> Open(w, Greeter) && Open(w, Claimer);
    assert Over(w, m) ==> HasReturned(w, m, Greeter) || AboutToReturn(w, m, Greeter);
    assert Over(w, m) ==> HasReturned(w, m, Claimer) || AboutToReturn(w, m, Claimer);
  }

  /**
   An exchange completes.  In any reached world where both sides have talked in one round, whatever happens
   on the channel and in whatever order they wake up, once nothing is on its way both have returned, each
   with the payload of the other.
   */
  lemma ExchangeCompletes(before: seq<Step>, m: Meeting, steps: seq<Step>)
    requires Met(Run(before), m) && AllInternal(steps) && Quiet(RunFrom(Run(before), steps))
    ensures HasReturned(RunFrom(Run(before), steps), m, Greeter)
    ensures HasReturned(RunFrom(Run(before), steps), m, Claimer)
  {
    EveryRunKeepsInvariant(before);
    RunSettles(Run(before), m, steps);
    QuietIsSettled(RunFrom(Run(before), steps), m);
  }

  /** Two sides that wait in the same open round have met. */
  lemma OpenIsMet(w: World)
    requires Open(w, Greeter) && Open(w, Claimer)
    ensures Met(w, Meeting(|w.past|, |w.rounds|, w.conduit.state, w.greeter.ctx.payload, w.claimer.ctx.payload))
  {
    var m := Meeting(|w.past|, |w.rounds|, w.conduit.state, w.greeter.ctx.payload, w.claimer.ctx.payload);
    forall side: Side ensures Open(w, side) && w.TaskOf(side).ctx.payload == m.Payload(side) {
      assert side == Greeter || side == Claimer;
    }
  }

  /** The same from the two tasks' point of view: whatever each talked in the round, the other one gets. */
  lemma WaitingSidesReturn(before: seq<Step>, steps: seq<Step>)
    requires Open(Run(before), Greeter) && Open(Run(before), Claimer)
    requires AllInternal(steps) && Quiet(RunFrom(Run(before), steps))
    ensures var (w, n) := (Run(before), RunFrom(Run(before), steps));
      && n.greeter.Idle? && n.claimer.Idle?
      && ReturnRecord(Greeter, |w.past|, |w.rounds|, w.conduit.state, w.greeter.ctx.payload, w.claimer.ctx.payload)
         in n.returned
      && ReturnRecord(Claimer, |w.past|, |w.rounds|, w.conduit.state, w.claimer.ctx.payload, w.greeter.ctx.payload)
         in n.returned
  {
    var w := Run(before);
    var m := Meeting(|w.past|, |w.rounds|, w.conduit.state, w.greeter.ctx.payload, w.claimer.ctx.payload);
    OpenIsMet(w);
    ExchangeCompletes(before, m, steps);
    assert m.Return(Greeter) in RunFrom(w, steps).returned && m.Return(Claimer) in RunFrom(w, steps).returned;
  }

  /** As long as something is on its way a step brings it nearer, so nothing on its way is the only end. */
  lemma QuietComes(w: World)
    ensures Quiet(w) || exists step: Step :: Internal(step) && Measure(Apply(w, step)) < Measure(w)
  {
    if !Quiet(w) {
      var step :=
        if w.inFlight.Some? then Deliver
        else if w.queue != [] then Dispatch
        else if w.greeter.Waiting? && w.greeter.flag then Wake(Greeter)
        else Wake(Claimer);
      assert Apply(w, step) != w;
      InternalStepsEnd(w, step);
      assert Internal(step) && Measure(Apply(w, step)) < Measure(w);
    }
  }

  // ---------- a whole exchange, from any world ----------

  lemma {:induction false} RunFromAppend(w: World, a: seq<Step>, b: seq<Step>)
    ensures RunFrom(w, a + b) == RunFrom(RunFrom(w, a), b)
    decreases |a|
  {
    if a == [] {
      assert a + b == b;
    } else {
      assert (a + b)[0] == a[0] && (a + b)[1..] == a[1..] + b;
      RunFromAppend(Apply(w, a[0]), a[1..], b);
    }
  }

  lemma {:induction false} RunGoesOn(before: seq<Step>, steps: seq<Step>)
    ensures Run(before + steps) == RunFrom(Run(before), steps)
    decreases |steps|
  {
    if steps == [] {
      assert before + steps == before;
    } else {
      assert (before + [steps[0]])[..|before|] == before;
      assert before + steps == (before + [steps[0]]) + steps[1..];
      RunGoesOn(before + [steps[0]], steps[1..]);
    }
  }

  /** Internal steps add to what was returned and never talk. */
  lemma {:induction false} InternalKeepsTalks(w: World, steps: seq<Step>)
    requires AllInternal(steps)
    ensures RunFrom(w, steps).talks == w.talks && w.returned <= RunFrom(w, steps).returned
    decreases |steps|
  {
    if steps != [] {
      InternalKeepsTalks(Apply(w, steps[0]), steps[1..]);
    }
  }

  /** Some internal steps after which nothing is on its way. */
  lemma {:induction false} BecomesQuiet(w: World) returns (steps: seq<Step>)
    ensures AllInternal(steps) && Quiet(RunFrom(w, steps))
    decreases Measure(w)
  {
    QuietComes(w);
    steps := [];
    if !Quiet(w) {
      var step: Step :| Internal(step) && Measure(Apply(w, step)) < Measure(w);
      var more := BecomesQuiet(Apply(w, step));
      steps := [step] + more;
    }
  }

  /** Both sides are idle, `k` rounds after the last reset, and nobody has talked in the next one. */
  ghost predicate Ready(w: World, k: nat) {
    && Inv(w) && w.greeter.Idle? && w.claimer.Idle? && |w.rounds| == k
    && w.conduit == Conduit(StateAt(k), None, None)
  }

  /** What both sides get when they say these things in round `k`. */
  ghost predicate BothReturned(w: World, epoch: nat, k: nat, said: Bytes, answered: Bytes) {
    && ReturnRecord(Greeter, epoch, k, StateAt(k), said, answered) in w.returned
    && ReturnRecord(Claimer, epoch, k, StateAt(k), answered, said) in w.returned
  }

  ghost predicate AllReturned(w: World, epoch: nat, from: nat, said: seq<Bytes>, answered: seq<Bytes>)
    requires |said| == |answered|
  {
    forall k :: from <= k < |said| ==> BothReturned(w, epoch, k, said[k], answered[k])
  }

  /** Nobody has talked in a round that came about without a talk. */
  lemma NewRoundIsEmpty(w: World, n: World, side: Side)
    requires Inv(w) && Inv(n) && n.talks == w.talks && |n.past| == |w.past| && |n.rounds| > |w.rounds|
    ensures n.conduit.Payload(side).None?
  {
  }

  /** Two sides that wait in one open round have some way to return, after which the next round can begin. */
  lemma ExchangeEnds(w: World) returns (steps: seq<Step>)
    requires Inv(w) && Open(w, Greeter) && Open(w, Claimer)
    ensures var n := RunFrom(w, steps);
      && Ready(n, |w.rounds| + 1) && |n.past| == |w.past| && w.returned <= n.returned
      && BothReturned(n, |w.past|, |w.rounds|, w.greeter.ctx.payload, w.claimer.ctx.payload)
  {
    var m := Meeting(|w.past|, |w.rounds|, w.conduit.state, w.greeter.ctx.payload, w.claimer.ctx.payload);
    OpenIsMet(w);
    steps := BecomesQuiet(w);
    var n := RunFrom(w, steps);
    RunSettles(w, m, steps);
    QuietIsSettled(n, m);
    InternalKeepsTalks(w, steps);
    assert !Open(n, Greeter);
    NewRoundIsEmpty(w, n, Greeter);
    NewRoundIsEmpty(w, n, Claimer);
    assert m.Return(Greeter) in n.returned && m.Return(Claimer) in n.returned;
  }

  lemma RunTwo(w: World, a: Step, b: Step)
    requires Inv(w)
    ensures RunFrom(w, [a, b]) == Apply(Apply(w, a), b) && Inv(Apply(Apply(w, a), b))
  {
    StepKeepsInvariant(w, a);
    StepKeepsInvariant(Apply(w, a), b);
    var n := Apply(w, a);
    assert [a, b][1..] == [b];
    assert RunFrom(w, [a, b]) == RunFrom(n, [b]) == RunFrom(Apply(n, b), []);
  }

  lemma BothTalk(w: World, k: nat, said: Bytes, answered: Bytes)
    requires Ready(w, k)
    ensures var n := Apply(Apply(w, TalkIn(Claimer, StateAt(k), answered)), TalkIn(Greeter, StateAt(k), said));
      && Open(n, Greeter) && Open(n, Claimer) && n.returned == w.returned
      && |n.past| == |w.past| && |n.rounds| == k
      && n.greeter.ctx.payload == said && n.claimer.ctx.payload == answered
  {
  }

  /** From the beginning of a round, some way through it. */
  lemma OneRound(w: World, k: nat, said: Bytes, answered: Bytes) returns (steps: seq<Step>)
    requires Ready(w, k)
    ensures var n := RunFrom(w, steps);
      && Ready(n, k + 1) && |n.past| == |w.past| && w.returned <= n.returned
      && BothReturned(n, |w.past|, k, said, answered)
  {
    var talks := [TalkIn(Claimer, StateAt(k), answered), TalkIn(Greeter, StateAt(k), said)];
    RunTwo(w, talks[0], talks[1]);
    BothTalk(w, k, said, answered);
    var rest := ExchangeEnds(RunFrom(w, talks));
    RunFromAppend(w, talks, rest);
    steps := talks + rest;
  }

  lemma {:induction false} RemainingRounds(w: World, k: nat, said: seq<Bytes>, answered: seq<Bytes>)
    returns (steps: seq<Step>)
    requires Ready(w, k) && k <= |said| == |answered|
    ensures var n := RunFrom(w, steps);
      && Ready(n, |said|) && |n.past| == |w.past| && w.returned <= n.returned
      && AllReturned(n, |w.past|, k, said, answered)
    decreases |said| - k
  {
    steps := [];
    if k < |said| {
      var first := OneRound(w, k, said[k], answered[k]);
      var middle := RunFrom(w, first);
      var rest := RemainingRounds(middle, k + 1, said, answered);
      RunFromAppend(w, first, rest);
      steps := first + rest;
      var n := RunFrom(w, steps);
      assert BothReturned(middle, |w.past|, k, said[k], answered[k]);
      assert BothReturned(n, |w.past|, k, said[k], answered[k]);
    }
  }

  /** A side leaves whatever it was doing and says something in the first state. */
  function Again(side: Side, payload: Bytes): seq<Step> { [Abandon(side), TalkIn(side, WaitPeers, payload)] }

  /** What the side says again replaces all there was; said the first time it joins what the peer has said. */
  lemma AgainIsHeard(w: World, side: Side, payload: Bytes)
    requires Inv(w)
    ensures var n := RunFrom(w, Again(side, payload));
      && Inv(n) && Open(n, side) && n.TaskOf(side).ctx.payload == payload && |n.past| >= |w.past|
      && n.TaskOf(Peer(side)) == w.TaskOf(Peer(side)) && n.conduit.state == WaitPeers
      && (if w.conduit.state == WaitPeers && w.conduit.Payload(side).None?
          then n.conduit == w.conduit.With(side, payload) && n.rounds == w.rounds && n.past == w.past
          else n.conduit == NEW_CONDUIT.With(side, payload) && n.rounds == [] && |n.past| > |w.past|)
  {
    RunTwo(w, Abandon(side), TalkIn(side, WaitPeers, payload));
    assert TaskFits(RunFrom(w, Again(side, payload)), side);
  }

  /** The claimer speaks twice, and the second time nothing is left of before; then the greeter speaks. */
  function Restart(said: Bytes, answered: Bytes): seq<Step> {
    Again(Claimer, answered) + (Again(Claimer, answered) + Again(Greeter, said))
  }

  lemma RestartOpens(w: World, said: Bytes, answered: Bytes)
    requires Inv(w)
    ensures var n := RunFrom(w, Restart(said, answered));
      && Inv(n) && Open(n, Greeter) && Open(n, Claimer) && n.rounds == [] && |n.past| > |w.past|
      && n.greeter.ctx.payload == said && n.claimer.ctx.payload == answered
  {
    var once := RunFrom(w, Again(Claimer, answered));
    var twice := RunFrom(once, Again(Claimer, answered));
    RunFromAppend(w, Again(Claimer, answered), Again(Claimer, answered) + Again(Greeter, said));
    RunFromAppend(once, Again(Claimer, answered), Again(Greeter, said));
    AgainIsHeard(w, Claimer, answered);
    AgainIsHeard(once, Claimer, answered);
    AgainIsHeard(twice, Greeter, said);
  }

  lemma AllRounds(w: World, said: seq<Bytes>, answered: seq<Bytes>) returns (steps: seq<Step>)
    requires Inv(w) && Open(w, Greeter) && Open(w, Claimer) && w.rounds == [] && 0 < |said| == |answered|
    requires w.greeter.ctx.payload == said[0] && w.claimer.ctx.payload == answered[0]
    ensures var n := RunFrom(w, steps);
      Ready(n, |said|) && |n.past| == |w.past| && AllReturned(n, |w.past|, 0, said, answered)
  {
    var first := ExchangeEnds(w);
    var middle := RunFrom(w, first);
    var rest := RemainingRounds(middle, 1, said, answered);
    RunFromAppend(w, first, rest);
    steps := first + rest;
    assert BothReturned(middle, |w.past|, 0, said[0], answered[0]);
    assert BothReturned(RunFrom(middle, rest), |w.past|, 0, said[0], answered[0]);
  }

  /**
   Starting over works from every reached world: whatever the conduit and the tasks were left with, and for
   any seven payloads a side, some run goes on from it in which both sides return from the seven states in
   order, in an epoch of their own, each with what the other said.
   */
  lemma StartingOverCompletes(before: seq<Step>, said: seq<Bytes>, answered: seq<Bytes>) returns (steps: seq<Step>)
    requires |said| == |answered| == 7
    ensures var n := Run(before + steps);
      && |n.past| > |Run(before).past| && Ready(n, 7)
      && forall k :: 0 <= k < 7 ==> BothReturned(n, |n.past|, k, said[k], answered[k])
  {
    EveryRunKeepsInvariant(before);
    var w := Run(before);
    var start := Restart(said[0], answered[0]);
    RestartOpens(w, said[0], answered[0]);
    var rest := AllRounds(RunFrom(w, start), said, answered);
    RunFromAppend(w, start, rest);
    steps := start + rest;
    RunGoesOn(before, steps);
  }
}
