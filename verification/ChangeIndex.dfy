/**
 Polling for changes.  The in-memory component keeps only the last change of each vlob; the
 database keeps every row of the update log and folds those above the checkpoint.
 */
module ChangeIndex {
  import opened Certificates
  import opened ReencryptionModel

  /** Row number `i` of the log has index `i + 1`. */
  datatype Row = Row(vlobId: VlobId, version: int, author: DeviceId)

  datatype Change = Change(author: DeviceId, checkpoint: nat, version: int)

  type Index = map<VlobId, Change>
  type Versions = map<VlobId, int>

  /** Later rows of the same vlob overwrite earlier ones. */
  function FoldRows(rows: seq<Row>): Versions {
    if rows == [] then map[]
    else FoldRows(rows[..|rows| - 1])[rows[|rows| - 1].vlobId := rows[|rows| - 1].version]
  }

  /** The rows with an index above the checkpoint. */
  function RowsAbove(log: seq<Row>, checkpoint: int): seq<Row> {
    if checkpoint <= 0 then log
    else if checkpoint >= |log| then []
    else log[checkpoint..]
  }

  /** The database query: the index of the last row found, or the checkpoint itself. */
  function LogPoll(log: seq<Row>, checkpoint: int): (int, Versions) {
    var rows := RowsAbove(log, checkpoint);
    (if rows == [] then checkpoint else |log|, FoldRows(rows))
  }

  /** The index that results from recording every row as its vlob's last change. */
  function IndexOf(log: seq<Row>): Index {
    if log == [] then map[]
    else var last := log[|log| - 1]; IndexOf(log[..|log| - 1])[last.vlobId := Change(last.author, |log|, last.version)]
  }

  /** The in-memory query. */
  function IndexPoll(index: Index, current: int, checkpoint: int): (int, Versions) {
    (current, map id | id in index && index[id].checkpoint > checkpoint :: index[id].version)
  }

  lemma {:induction false} IndexChecksInRange(log: seq<Row>)
    ensures forall id :: id in IndexOf(log) ==> 1 <= IndexOf(log)[id].checkpoint <= |log|
  {
    if log != [] {
      IndexChecksInRange(log[..|log| - 1]);
    }
  }

  /** The changed vlobs and their versions are the same for every checkpoint. */
  lemma {:induction false} SameChanges(log: seq<Row>, checkpoint: int)
    ensures IndexPoll(IndexOf(log), |log|, checkpoint).1 == LogPoll(log, checkpoint).1
  {
    if log == [] {
    } else {
      var init, last := log[..|log| - 1], log[|log| - 1];
      SameChanges(init, checkpoint);
      IndexChecksInRange(init);
      var rows := RowsAbove(log, checkpoint);
      if checkpoint < |log| {
        assert rows[|rows| - 1] == last;
        assert rows[..|rows| - 1] == RowsAbove(init, checkpoint);
      }
    }
  }

  /**
   The two polls agree altogether exactly for the checkpoints that the log has reached, the negative ones only once
   it has a row.
   */
  lemma PollsAgree(log: seq<Row>, checkpoint: int)
    ensures IndexPoll(IndexOf(log), |log|, checkpoint) == LogPoll(log, checkpoint) <==>
      checkpoint <= |log| && (checkpoint >= 0 || log != [])
  {
    SameChanges(log, checkpoint);
  }

  /** Past the log, memory answers the current checkpoint and the database the one it was given. */
  lemma PollsDifferPastTheLog()
    ensures IndexPoll(IndexOf([]), 0, 1).0 == 0 && LogPoll([], 1).0 == 1
  {
  }

  // ---------- a client that merges successive polls ----------

  lemma {:induction false} FoldAppend(a: seq<Row>, b: seq<Row>)
    ensures FoldRows(a + b) == FoldRows(a) + FoldRows(b)
  {
    if b == [] {
      assert a + b == a;
    } else {
      var init := b[..|b| - 1];
      assert (a + b)[..|a + b| - 1] == a + init;
      FoldAppend(a, init);
    }
  }

  /** Merging a poll brings a client from the versions of its checkpoint to the current ones. */
  lemma MergeCatchesUp(log: seq<Row>, checkpoint: nat)
    requires checkpoint <= |log|
    ensures FoldRows(log[..checkpoint]) + IndexPoll(IndexOf(log), |log|, checkpoint).1 == FoldRows(log)
  {
    SameChanges(log, checkpoint);
    assert log[..checkpoint] + log[checkpoint..] == log;
    FoldAppend(log[..checkpoint], log[checkpoint..]);
    assert RowsAbove(log, checkpoint) == log[checkpoint..];
  }

  datatype Client = Client(checkpoint: int, versions: Versions)

  function PollOnce(client: Client, index: Index, current: nat): Client {
    var (checkpoint, changes) := IndexPoll(index, current, client.checkpoint);
    Client(checkpoint, client.versions + changes)
  }

  /** The successive logs a client polls: `logs[i + 1]` extends `logs[i]`. */
  ghost predicate Growing(logs: seq<seq<Row>>) {
    forall i :: 0 <= i < |logs| - 1 ==> logs[i] <= logs[i + 1]
  }

  function PollAll(logs: seq<seq<Row>>): Client {
    if logs == [] then Client(0, map[])
    else PollOnce(PollAll(logs[..|logs| - 1]), IndexOf(logs[|logs| - 1]), |logs[|logs| - 1]|)
  }

  /** Starting from nothing and polling at any moments, a client holds the current versions at its last poll. */
  lemma {:induction false} PollingClientIsUpToDate(logs: seq<seq<Row>>)
    requires Growing(logs) && logs != []
    ensures var last := logs[|logs| - 1]; PollAll(logs) == Client(|last|, FoldRows(last))
  {
    var init, last := logs[..|logs| - 1], logs[|logs| - 1];
    if init == [] {
      MergeCatchesUp(last, 0);
      assert last[..0] == [];
      assert map[] + IndexPoll(IndexOf(last), |last|, 0).1 == IndexPoll(IndexOf(last), |last|, 0).1;
    } else {
      forall i | 0 <= i < |init| - 1 ensures init[i] <= init[i + 1] {
        assert logs[i] <= logs[i + 1];
      }
      PollingClientIsUpToDate(init);
      var before := init[|init| - 1];
      assert logs[|logs| - 2] <= logs[|logs| - 2 + 1];
      assert last[..|before|] == before;
      MergeCatchesUp(last, |before|);
    }
  }
}
