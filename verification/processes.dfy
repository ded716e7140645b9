/** Counting the process table (main.go:162-173). Each process is given by
    the outcome of reading its stat file: None when the read failed, else
    the scheduling state letter the kernel reports. */
module Processes {
  import opened Common

  /** The state letter of a process that is running or runnable. */
  const RunningState: string := "R"

  datatype Counts = Counts(all: nat, running: nat)

  /** Counts the processes left to right as the source's loop does: a
      process whose stat read failed is skipped entirely; every other
      process adds to `all`, and to `running` when its state is exactly "R". */
  function CountProcesses(procs: seq<Option<string>>): (c: Counts)
    ensures c.all == |procs| - multiset(procs)[None]
    ensures c.running == multiset(procs)[Some(RunningState)]
    ensures c.running <= c.all <= |procs|
  {
    if procs == [] then Counts(0, 0)
    else
      var init := procs[..|procs| - 1];
      var last := procs[|procs| - 1];
      assert procs == init + [last];
      var c := CountProcesses(init);
      match last
      case None => c
      case Some(state) =>
        Counts(c.all + 1, if state == RunningState then c.running + 1 else c.running)
  }

  /** A process whose stat read fails leaves both counts as they were,
      wherever it appears in the table. */
  lemma {:induction false} UnreadableProcessIgnored(before: seq<Option<string>>, after: seq<Option<string>>)
    ensures CountProcesses(before + [None] + after) == CountProcesses(before + after)
  {
    var c1 := CountProcesses(before + [None] + after);
    var c2 := CountProcesses(before + after);
    assert multiset(before + [None] + after) == multiset(before + after) + multiset{None};
    assert c1.all == c2.all;
    assert c1.running == c2.running;
  }
}
