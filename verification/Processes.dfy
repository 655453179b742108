/** The part of a process record that the algorithms read. */
module Processes {
  import opened Seqs

  /** A 32-bit process id. */
  type PID = n: nat | n < 0x1_0000_0000

  datatype ProcessInfo = ProcessInfo(
    pid: PID, parent: PID, name: string, cpu: real, workingSet: nat, privateBytes: nat,
    ioRead: nat, ioWrite: nat, threads: nat, createTime: int)

  ghost predicate Distinct(procs: seq<ProcessInfo>) {
    forall i, j :: 0 <= i < j < |procs| ==> procs[i].pid != procs[j].pid
  }

  /** The ids of the listed processes. */
  function Live(procs: seq<ProcessInfo>): set<PID> {
    if procs == [] then {} else Live(Front(procs)) + {Last(procs).pid}
  }
}
