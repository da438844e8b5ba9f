/**
 Concurrent reads and writes over a RAID5 cluster.  Every store answers at any moment, in any order;
 the parity store, which is the last one, is only asked once a first store has timed out.
 */
module Raid5Read {
  import opened Common
  import opened Raid5Xor
  import opened Raid5

  datatype Answer = Got(chunk: Bytes) | NotFound | Timeout

  /** A read in progress: what came back so far, which stores are being asked, and how many timed out. */
  datatype ReadState = ReadState(results: seq<Option<Answer>>, running: set<nat>, timeouts: nat, cancelled: bool)

  datatype ReadOutcome = Block(block: Bytes) | ReadTimeout | SanityCheckFailed | CannotRebuild(error: RebuildError)

  function Stores(n: nat): (r: set<nat>)
    ensures |r| == n && forall i: nat :: i in r <==> i < n
  {
    if n == 0 then {} else Stores(n - 1) + {n - 1}
  }

  /** Ask every data store, but not the parity store. */
  function Begin(n: nat): ReadState {
    ReadState(seq(n + 1, _ => None), Stores(n), 0, false)
  }

  function Complete(s: ReadState, i: nat, answer: Answer): ReadState
    requires i < |s.results|
  {
    var next := s.(results := s.results[i := Some(answer)], running := s.running - {i});
    if answer != Timeout then next
    else if s.timeouts + 1 > 1 then next.(timeouts := s.timeouts + 1, cancelled := true)
    else next.(timeouts := s.timeouts + 1, running := next.running + {|s.results| - 1})
  }

  /** A store answers, or the read of one is cancelled; a store may still answer before it notices. */
  ghost predicate Step(answers: seq<Answer>, s: ReadState, t: ReadState) {
    exists i :: i in s.running && i < |s.results| && i < |answers| &&
      (t == Complete(s, i, answers[i]) || (s.cancelled && t == s.(running := s.running - {i})))
  }

  ghost predicate IsReadRun(answers: seq<Answer>, run: seq<ReadState>) {
    && answers != [] && run != []
    && run[0] == Begin(|answers| - 1)
    && forall k :: 1 <= k < |run| ==> Step(answers, run[k - 1], run[k])
  }

  function Missing(s: ReadState): set<nat> { set i: nat | i < |s.results| && s.results[i].None? }

  function Errors(s: ReadState): set<nat> {
    set i: nat | i < |s.results| && s.results[i].Some? && !s.results[i].value.Got?
  }

  function AsChunk(r: Option<Answer>): Option<Bytes> {
    if r.Some? && r.value.Got? then Some(r.value.chunk) else None
  }

  function AsChunks(results: seq<Option<Answer>>): (r: seq<Option<Bytes>>)
    ensures |r| == |results| && forall i :: 0 <= i < |r| ==> r[i] == AsChunk(results[i])
  {
    seq(|results|, i requires 0 <= i < |results| => AsChunk(results[i]))
  }

  function OfRebuild(r: Result<Bytes, RebuildError>): ReadOutcome {
    match r
    case Ok(block) => Block(block)
    case Err(e) => CannotRebuild(e)
  }

  /** What the read returns once nothing is running. */
  function Outcome(s: ReadState): ReadOutcome
    requires s.results != []
  {
    var n := |s.results| - 1;
    var parity := s.results[n];
    if s.timeouts == 0 then
      if |Missing(s)| == 1 && parity.None? && |Errors(s)| == 0 then OfRebuild(Rebuild(AsChunks(s.results[..n]), None))
      else SanityCheckFailed
    else if s.timeouts == 1 then
      if |Missing(s)| == 0 && parity.Some? && parity.value.Got? && |Errors(s)| == 1 then
        OfRebuild(Rebuild(AsChunks(s.results[..n]), Some(parity.value.chunk)))
      else SanityCheckFailed
    else ReadTimeout
  }

  // ---------- what every run keeps ----------

  function TimedOut(results: seq<Option<Answer>>): set<nat> {
    set i: nat | i < |results| && results[i] == Some(Timeout)
  }

  ghost predicate Inv(answers: seq<Answer>, s: ReadState) {
    && |s.results| == |answers| > 0
    && var n := |answers| - 1;
       && (forall i :: i in s.running ==> i <= n && s.results[i].None?)
       && (forall i :: 0 <= i <= n && s.results[i].Some? ==> s.results[i] == Some(answers[i]))
       && s.timeouts == |TimedOut(s.results)|
       && (s.cancelled <==> s.timeouts > 1)
       && (!s.cancelled ==> forall i :: 0 <= i < n ==> i in s.running || s.results[i].Some?)
       && (s.timeouts == 0 ==> n !in s.running && s.results[n].None?)
       && (s.timeouts == 1 ==> n in s.running || s.results[n].Some?)
       && (s.timeouts > 0 ==> exists i :: 0 <= i < n && s.results[i] == Some(Timeout))
  }

  lemma TimedOutAfter(results: seq<Option<Answer>>, i: nat, answer: Answer)
    requires i < |results| && results[i].None?
    ensures TimedOut(results[i := Some(answer)]) == if answer == Timeout then
      TimedOut(results) + {i} else TimedOut(results)
    ensures |TimedOut(results[i := Some(answer)])| == |TimedOut(results)| + if answer == Timeout then 1 else 0
  {
    assert TimedOut(results[i := Some(answer)]) == if answer == Timeout then
      TimedOut(results) + {i} else TimedOut(results);
    assert i !in TimedOut(results);
  }

  lemma BeginKeepsInv(answers: seq<Answer>)
    requires answers != []
    ensures Inv(answers, Begin(|answers| - 1))
  {
    assert TimedOut(Begin(|answers| - 1).results) == {};
  }

  lemma CompleteKeepsInv(answers: seq<Answer>, s: ReadState, i: nat)
    requires Inv(answers, s) && i in s.running
    ensures Inv(answers, Complete(s, i, answers[i]))
  {
    TimedOutAfter(s.results, i, answers[i]);
    var n := |answers| - 1;
    var t := Complete(s, i, answers[i]);
    if s.timeouts > 0 {
      var j :| 0 <= j < n && s.results[j] == Some(Timeout);
      assert t.results[j] == Some(Timeout);
    } else if answers[i] == Timeout {
      assert t.results[i] == Some(Timeout);
    }
  }

  lemma {:induction false} EveryReadKeepsInv(answers: seq<Answer>, run: seq<ReadState>, k: nat)
    requires IsReadRun(answers, run) && k < |run|
    ensures Inv(answers, run[k])
  {
    if k == 0 {
      BeginKeepsInv(answers);
    } else {
      EveryReadKeepsInv(answers, run, k - 1);
      var s := run[k - 1];
      assert Step(answers, s, run[k]);
      var i :| i in s.running && i < |s.results| && i < |answers| &&
        (run[k] == Complete(s, i, answers[i]) || (s.cancelled && run[k] == s.(running := s.running - {i})));
      CompleteKeepsInv(answers, s, i);
    }
  }

  /** The parity store is asked only once a data store has timed out. */
  lemma ParityOnlyAfterTimeout(answers: seq<Answer>, run: seq<ReadState>, k: nat)
    requires IsReadRun(answers, run) && k < |run|
    ensures var (n, s) := (|answers| - 1, run[k]);
      |s.results| == |answers| &&
      (n in s.running || s.results[n].Some? ==> exists i :: 0 <= i < n && s.results[i] == Some(Timeout))
  {
    EveryReadKeepsInv(answers, run, k);
  }

  /** Bounds the steps left. */
  function StepsLeft(s: ReadState): nat {
    |s.running| + if s.timeouts == 0 then 1 else 0
  }

  lemma StepShrinks(answers: seq<Answer>, s: ReadState, t: ReadState)
    requires Inv(answers, s) && Step(answers, s, t)
    ensures StepsLeft(t) < StepsLeft(s)
  {
    var i :| i in s.running && i < |s.results| && i < |answers| &&
      (t == Complete(s, i, answers[i]) || (s.cancelled && t == s.(running := s.running - {i})));
    assert |s.running - {i}| == |s.running| - 1;
    var n := |answers| - 1;
    assert |s.running - {i} + {n}| <= |s.running|;
  }

  lemma RunningCanStep(answers: seq<Answer>, s: ReadState)
    requires Inv(answers, s) && s.running != {}
    ensures exists t :: Step(answers, s, t)
  {
    var i :| i in s.running;
    assert Step(answers, s, Complete(s, i, answers[i]));
  }

  /**
   Every step brings the end nearer, and before the end there is a step: a read of n data stores ends in at most n
   + 1 steps.
   */
  lemma ReadEnds(answers: seq<Answer>, run: seq<ReadState>, k: nat)
    requires IsReadRun(answers, run) && k < |run|
    ensures run[k].running != {} ==> exists t :: Step(answers, run[k], t)
    ensures k > 0 ==> StepsLeft(run[k]) < StepsLeft(run[k - 1])
    ensures StepsLeft(run[0]) == |answers|
  {
    EveryReadKeepsInv(answers, run, k);
    if run[k].running != {} {
      RunningCanStep(answers, run[k]);
    }
    if k > 0 {
      EveryReadKeepsInv(answers, run, k - 1);
      StepShrinks(answers, run[k - 1], run[k]);
    }
  }

  // ---------- the outcome does not depend on the order ----------

  function DataTimeouts(answers: seq<Answer>): set<nat> {
    set i: nat | i < |answers| - 1 && answers[i] == Timeout
  }

  predicate SomeDataNotFound(answers: seq<Answer>) {
    exists i :: 0 <= i < |answers| - 1 && answers[i] == NotFound
  }

  function Received(answers: seq<Answer>): (r: seq<Option<Bytes>>)
    requires answers != []
    ensures |r| == |answers| - 1
    ensures forall i :: 0 <= i < |r| ==> r[i] == if answers[i].Got? then Some(answers[i].chunk) else None
  {
    seq(|answers| - 1, i requires 0 <= i < |answers| - 1 => if answers[i].Got? then Some(answers[i].chunk) else None)
  }

  /** What a read returns, as a function of what each store would answer. */
  function Expected(answers: seq<Answer>): ReadOutcome
    requires answers != []
  {
    var parity := answers[|answers| - 1];
    var timeouts := |DataTimeouts(answers)|;
    if timeouts > 1 || (timeouts == 1 && parity == Timeout) then ReadTimeout
    else if SomeDataNotFound(answers) || (timeouts == 1 && parity == NotFound) then SanityCheckFailed
    else if timeouts == 0 then OfRebuild(Rebuild(Received(answers), None))
    else OfRebuild(Rebuild(Received(answers), Some(parity.chunk)))
  }

  lemma EndWithoutTimeout(answers: seq<Answer>, s: ReadState)
    requires Inv(answers, s) && s.running == {} && s.timeouts == 0
    ensures Outcome(s) == Expected(answers)
  {
    var n := |answers| - 1;
    assert forall i :: 0 <= i < n ==> s.results[i] == Some(answers[i]);
    assert Missing(s) == {n};
    assert TimedOut(s.results) == {};
    assert DataTimeouts(answers) == {} by {
      assert forall i :: 0 <= i < n ==> i !in TimedOut(s.results);
    }
    assert AsChunks(s.results[..n]) == Received(answers);
    if SomeDataNotFound(answers) {
      var i :| 0 <= i < n && answers[i] == NotFound;
      assert i in Errors(s);
    } else {
      forall i: nat | i < n ensures i !in Errors(s) {
        assert i !in TimedOut(s.results);
      }
      assert Errors(s) == {};
    }
  }

  lemma EndWithOneTimeout(answers: seq<Answer>, s: ReadState)
    requires Inv(answers, s) && s.running == {} && s.timeouts == 1
    ensures Outcome(s) == Expected(answers)
  {
    var n := |answers| - 1;
    assert forall i :: 0 <= i <= n ==> s.results[i] == Some(answers[i]);
    assert Missing(s) == {};
    var x :| 0 <= x < n && s.results[x] == Some(Timeout);
    assert x in TimedOut(s.results);
    assert TimedOut(s.results) == {x} by {
      SingletonIs(TimedOut(s.results), x);
    }
    assert DataTimeouts(answers) == {x} by {
      assert forall i :: i in DataTimeouts(answers) <==> i < n && i in TimedOut(s.results);
    }
    assert n !in TimedOut(s.results);
    assert AsChunks(s.results[..n]) == Received(answers);
    assert {x} <= Errors(s);
    if SomeDataNotFound(answers) {
      var i :| 0 <= i < n && answers[i] == NotFound;
      TwoElements(Errors(s), x, i);
    } else {
      assert forall i :: i in Errors(s) ==> i in TimedOut(s.results) || (i == n && answers[n] == NotFound);
      if answers[n] == NotFound {
        assert s.results[n] == Some(NotFound);
      } else {
        assert Errors(s) == {x};
      }
    }
  }

  lemma SingletonIs(s: set<nat>, x: nat)
    requires x in s && |s| == 1
    ensures s == {x}
  {
    assert |s - {x}| == 0;
  }

  lemma TwoElements(s: set<nat>, x: nat, y: nat)
    requires x in s && y in s && x != y
    ensures |s| >= 2
  {
    assert y in s - {x};
    assert |s - {x}| >= 1;
  }

  lemma EndWithTimeouts(answers: seq<Answer>, s: ReadState)
    requires Inv(answers, s) && s.timeouts > 1
    ensures Outcome(s) == Expected(answers)
  {
    var n := |answers| - 1;
    var all := TimedOut(s.results);
    assert all - {n} <= DataTimeouts(answers);
    if answers[n] != Timeout {
      assert n !in all;
      assert all - {n} == all;
      SubsetSize(all, DataTimeouts(answers));
    } else {
      assert |all - {n}| >= |all| - 1;
      SubsetSize(all - {n}, DataTimeouts(answers));
    }
  }

  lemma {:induction false} SubsetSize(a: set<nat>, b: set<nat>)
    requires a <= b
    ensures |a| <= |b|
    decreases a
  {
    if a != {} {
      var x :| x in a;
      SubsetSize(a - {x}, b - {x});
    }
  }

  /** However the answers are ordered and wherever cancellation strikes, a read ends with the same outcome. */
  lemma OrderDoesNotMatter(answers: seq<Answer>, run: seq<ReadState>)
    requires IsReadRun(answers, run) && run[|run| - 1].running == {}
    ensures run[|run| - 1].results != [] && Outcome(run[|run| - 1]) == Expected(answers)
  {
    var s := run[|run| - 1];
    EveryReadKeepsInv(answers, run, |run| - 1);
    if s.timeouts == 0 {
      EndWithoutTimeout(answers, s);
    } else if s.timeouts == 1 {
      EndWithOneTimeout(answers, s);
    } else {
      EndWithTimeouts(answers, s);
    }
  }

  /** Every store that answers holds the chunk it was given. */
  ghost predicate Hold(answers: seq<Answer>, block: Bytes)
    requires |answers| > 1 && |block| < UINT32
  {
    forall i :: 0 <= i < |answers| && answers[i].Got? ==> answers[i].chunk == Uploads(block, |answers| - 1).value[i]
  }

  lemma ReceivedIsLeft(answers: seq<Answer>, block: Bytes)
    requires |answers| > 1 && |block| < UINT32 && Hold(answers, block)
    ensures LeftOf(Received(answers), Split(block, |answers| - 1).value)
  {
  }

  lemma HeldWithoutTimeout(answers: seq<Answer>, block: Bytes)
    requires |answers| > 1 && |block| < UINT32 && Hold(answers, block)
    requires !SomeDataNotFound(answers) && DataTimeouts(answers) == {}
    ensures Rebuild(Received(answers), None) == Ok(block)
  {
    var n := |answers| - 1;
    ReceivedIsLeft(answers, block);
    forall i | 0 <= i < n ensures Received(answers)[i].Some? {
      assert i !in DataTimeouts(answers);
    }
    RebuildsBlock(block, n, Received(answers), n, None);
  }

  lemma HeldWithOneTimeout(answers: seq<Answer>, block: Bytes, x: nat)
    requires |answers| > 1 && |block| < UINT32 && Hold(answers, block)
    requires !SomeDataNotFound(answers) && DataTimeouts(answers) == {x} && answers[|answers| - 1].Got?
    ensures Rebuild(Received(answers), Some(answers[|answers| - 1].chunk)) == Ok(block)
  {
    var n := |answers| - 1;
    ReceivedIsLeft(answers, block);
    forall i | 0 <= i < n && i != x ensures Received(answers)[i].Some? {
      assert i !in DataTimeouts(answers);
    }
    RebuildsBlock(block, n, Received(answers), x, Some(answers[n].chunk));
  }

  lemma ExpectedOfHeld(answers: seq<Answer>, block: Bytes)
    requires |answers| > 1 && |block| < UINT32 && Hold(answers, block)
    requires !SomeDataNotFound(answers) && |DataTimeouts(answers)| <= 1
    requires |DataTimeouts(answers)| == 1 ==> answers[|answers| - 1].Got?
    ensures Expected(answers) == Block(block)
  {
    if |DataTimeouts(answers)| == 0 {
      HeldWithoutTimeout(answers, block);
    } else {
      var x :| x in DataTimeouts(answers);
      SingletonIs(DataTimeouts(answers), x);
      HeldWithOneTimeout(answers, block, x);
    }
  }

  /**
   A read returns the created block exactly when no data store lost its chunk and either none timed
   out, or one did and the parity store holds its chunk.  It raises the timeout error exactly when
   two stores timed out, counting the parity store once it is asked.  Otherwise, when a chunk is not
   found, a sanity check fails.
   */
  lemma ReadOutcomes(answers: seq<Answer>, run: seq<ReadState>, block: Bytes)
    requires |answers| > 1 && |block| < UINT32 && Hold(answers, block)
    requires IsReadRun(answers, run) && run[|run| - 1].running == {}
    ensures run[|run| - 1].results != []
    ensures var outcome := Outcome(run[|run| - 1]);
      var (timeouts, parity) := (|DataTimeouts(answers)|, answers[|answers| - 1]);
      && (outcome == Block(block) <==> !SomeDataNotFound(answers) && (timeouts == 0 || (timeouts == 1 && parity.Got?)))
      && (outcome == ReadTimeout <==> timeouts > 1 || (timeouts == 1 && parity == Timeout))
      && outcome in {Block(block), ReadTimeout, SanityCheckFailed}
  {
    OrderDoesNotMatter(answers, run);
    if !SomeDataNotFound(answers) && |DataTimeouts(answers)| <= 1 &&
      (|DataTimeouts(answers)| == 1 ==> answers[|answers| - 1].Got?) {
      ExpectedOfHeld(answers, block);
    }
  }

  // ---------- creation ----------

  datatype StoreAnswer = Stored | AlreadyExists | StoreTimeout

  datatype CreateState = CreateState(results: seq<Option<StoreAnswer>>, running: set<nat>, errors: nat, cancelled: bool)

  function BeginCreate(n: nat): CreateState {
    CreateState(seq(n + 1, _ => None), Stores(n + 1), 0, false)
  }

  function CompleteCreate(s: CreateState, i: nat, answer: StoreAnswer): CreateState
    requires i < |s.results|
  {
    var errors := if answer == StoreTimeout then s.errors + 1 else s.errors;
    CreateState(s.results[i := Some(answer)], s.running - {i}, errors, s.cancelled || errors > 1)
  }

  ghost predicate CreateStep(answers: seq<StoreAnswer>, s: CreateState, t: CreateState) {
    exists i :: i in s.running && i < |s.results| && i < |answers| &&
      (t == CompleteCreate(s, i, answers[i]) || (s.cancelled && t == s.(running := s.running - {i})))
  }

  ghost predicate IsCreateRun(answers: seq<StoreAnswer>, run: seq<CreateState>) {
    && answers != [] && run != []
    && run[0] == BeginCreate(|answers| - 1)
    && forall k :: 1 <= k < |run| ==> CreateStep(answers, run[k - 1], run[k])
  }

  predicate Succeeded(s: CreateState) { s.errors <= 1 }

  function Unreachable(answers: seq<StoreAnswer>): set<nat> {
    set i: nat | i < |answers| && answers[i] == StoreTimeout
  }

  function FailedSoFar(s: CreateState): set<nat> {
    set i: nat | i < |s.results| && s.results[i] == Some(StoreTimeout)
  }

  ghost predicate CreateInv(answers: seq<StoreAnswer>, s: CreateState) {
    && |s.results| == |answers|
    && (forall i :: i in s.running ==> i < |answers| && s.results[i].None?)
    && (forall i :: 0 <= i < |answers| && s.results[i].Some? ==> s.results[i] == Some(answers[i]))
    && s.errors == |FailedSoFar(s)|
    && (s.cancelled <==> s.errors > 1)
    && (!s.cancelled ==> forall i :: 0 <= i < |answers| ==> i in s.running || s.results[i].Some?)
  }

  lemma {:induction false} EveryCreateKeepsInv(answers: seq<StoreAnswer>, run: seq<CreateState>, k: nat)
    requires IsCreateRun(answers, run) && k < |run|
    ensures CreateInv(answers, run[k])
  {
    if k == 0 {
      assert FailedSoFar(run[0]) == {};
    } else {
      EveryCreateKeepsInv(answers, run, k - 1);
      var s := run[k - 1];
      assert CreateStep(answers, s, run[k]);
      var i :| i in s.running && i < |s.results| && i < |answers| &&
        (run[k] == CompleteCreate(s, i, answers[i]) || (s.cancelled && run[k] == s.(running := s.running - {i})));
      CompleteCreateKeepsInv(answers, s, i);
    }
  }

  lemma CompleteCreateKeepsInv(answers: seq<StoreAnswer>, s: CreateState, i: nat)
    requires CreateInv(answers, s) && i in s.running
    ensures CreateInv(answers, CompleteCreate(s, i, answers[i]))
    ensures s.cancelled ==> CreateInv(answers, s.(running := s.running - {i}))
  {
    var t := CompleteCreate(s, i, answers[i]);
    assert i !in FailedSoFar(s);
    assert FailedSoFar(t) == if answers[i] == StoreTimeout then FailedSoFar(s) + {i} else FailedSoFar(s);
    var u := s.(running := s.running - {i});
    assert FailedSoFar(u) == FailedSoFar(s);
  }

  /**
   In any order of answers, a creation succeeds exactly when at most one store is out of reach, and then all others
   were reached.
   */
  lemma CreationOutcome(answers: seq<StoreAnswer>, run: seq<CreateState>)
    requires IsCreateRun(answers, run) && run[|run| - 1].running == {}
    ensures var s := run[|run| - 1];
      && (Succeeded(s) <==> |Unreachable(answers)| <= 1)
      && (Succeeded(s) ==> |s.results| == |answers| && forall i :: 0 <= i < |answers| ==>
        s.results[i] == Some(answers[i]))
  {
    var s := run[|run| - 1];
    EveryCreateKeepsInv(answers, run, |run| - 1);
    if Succeeded(s) {
      assert FailedSoFar(s) == Unreachable(answers);
    } else {
      SubsetSize(FailedSoFar(s), Unreachable(answers));
    }
  }

  // ---------- reading after a creation that one store missed ----------

  /** Store `x` is not heard of, or says that it has no chunk; the others hold theirs. */
  ghost predicate OnlyFailing(answers: seq<Answer>, x: nat, block: Bytes, how: Answer)
    requires |answers| > 1 && |block| < UINT32
  {
    && Hold(answers, block)
    && x < |answers| && answers[x] == how
    && forall i :: 0 <= i < |answers| && i != x ==> answers[i].Got?
  }

  /** As long as the store that missed the creation stays out of reach, every read returns the block. */
  lemma ReadWithoutStore(answers: seq<Answer>, run: seq<ReadState>, block: Bytes, x: nat)
    requires |answers| > 1 && |block| < UINT32 && OnlyFailing(answers, x, block, Timeout)
    requires IsReadRun(answers, run) && run[|run| - 1].running == {}
    ensures run[|run| - 1].results != [] && Outcome(run[|run| - 1]) == Block(block)
  {
    ReadOutcomes(answers, run, block);
    assert DataTimeouts(answers) == if x < |answers| - 1 then {x} else {};
  }

  /** Once it is back and answers that it has no such chunk, reads fail unless it is the parity store. */
  lemma ReadWithLostChunk(answers: seq<Answer>, run: seq<ReadState>, block: Bytes, x: nat)
    requires |answers| > 1 && |block| < UINT32 && OnlyFailing(answers, x, block, NotFound)
    requires IsReadRun(answers, run) && run[|run| - 1].running == {}
    ensures run[|run| - 1].results != []
    ensures Outcome(run[|run| - 1]) == if x == |answers| - 1 then Block(block) else SanityCheckFailed
  {
    ReadOutcomes(answers, run, block);
    assert DataTimeouts(answers) == {};
    assert SomeDataNotFound(answers) <==> x < |answers| - 1;
  }

  // ---------- the code ----------

  /** The variables of a running read, updated by each answer. */
  class BlockRead {
    var fetchResults: seq<Option<Answer>>
    var running: set<nat>
    var timeoutCount: nat
    var cancelled: bool

    ghost function Snapshot(): ReadState
      reads this
    {
      ReadState(fetchResults, running, timeoutCount, cancelled)
    }

    constructor (stores: nat)
      requires stores > 0
      ensures Snapshot() == Begin(stores - 1)
    {
      fetchResults := seq(stores, _ => None);
      running := Stores(stores - 1);
      timeoutCount, cancelled := 0, false;
    }

    method OnAnswer(i: nat, answer: Answer)
      requires i < |fetchResults|
      modifies this
      ensures Snapshot() == Complete(old(Snapshot()), i, answer)
    {
      fetchResults := fetchResults[i := Some(answer)];
      running := running - {i};
      if answer == Timeout {
        timeoutCount := timeoutCount + 1;
        if timeoutCount > 1 {
          cancelled := true;
        } else {
          running := running + {|fetchResults| - 1};
        }
      }
    }

    method Finish(order: ByteOrder) returns (outcome: ReadOutcome)
      requires fetchResults != []
      ensures outcome == Outcome(Snapshot())
    {
      var n := |fetchResults| - 1;
      var nones := |set i: nat | i < |fetchResults| && fetchResults[i].None?|;
      var errors := |set i: nat | i < |fetchResults| && fetchResults[i].Some? && !fetchResults[i].value.Got?|;
      var parity := fetchResults[n];
      if timeoutCount == 0 {
        if !(nones == 1 && parity.None? && errors == 0) {
          return SanityCheckFailed;
        }
        var r := RebuildBlockFromChunks(order, AsChunks(fetchResults[..n]), None);
        return OfRebuild(r);
      } else if timeoutCount == 1 {
        if !(nones == 0 && parity.Some? && parity.value.Got? && errors == 1) {
          return SanityCheckFailed;
        }
        var r := RebuildBlockFromChunks(order, AsChunks(fetchResults[..n]), Some(parity.value.chunk));
        return OfRebuild(r);
      }
      return ReadTimeout;
    }
  }
}
