/**
 What the coordinator asks of the system, one question after another.  Each function extends the questions
 asked so far by those of one operation that went through.
 */
module Transcript {
  import opened Protocol

  datatype Act =
    | Compared                 // the ledger in memory with the one on disk
    | Written                  // the ledger reached the disk
    | Published                // a public file was written
    | OutputMade               // a command's output file
    | Spawned                  // a suspended child in its own job
    | Identified               // that child's number and creation time
    | InBudget                 // there is still time to resume it
    | Woken                    // its thread was suspended once, and now runs
    | Awaited                  // it ended by itself
    | Emptied                  // nothing is left in its job
    | ExitRead                 // its exit code
    | Stopped                  // a child that was not waited for was terminated
    | Closed                   // every handle of the run was released
    | Reported                 // the worker's report was read
    | ReaderFound              // the worker's frozen file
    | Reaped(command: nat)     // no process of an earlier command is left
    | ToolChecked              // the system's tool is the admitted one
    | ParentIdentified         // the parent's process and job
    | ReadonlyChecked          // routes, loader, tool, layout and canaries
    | SidsDerived              // the two profiles' identities
    | ParentSeen               // the parent is alive, in its job and under its account
    | ParentAlone              // it is alone in its job
    | ParentStopped            // its job was terminated
    | SlotSeen(slot: Request)  // a request has arrived
    | SlotRead(slot: Request)
    | RequestBound(slot: Request)
    | AttemptRead              // the durable record of an addition
    | Unanswered               // a question the system did not answer, or not helpfully

  type Log = seq<Act>

  function Noted(log: Log, act: Act, answered: bool): (after: Log)
    ensures |after| == |log| + 1
  {
    log + [if answered then act else Unanswered]
  }

  /** The last question was not answered, or not helpfully. */
  predicate Stuck(log: Log) { log != [] && log[|log| - 1] == Unanswered }

  // ----- one child ----------------------------------------------------------------------

  function Permission(log: Log): (after: Log) { log + [Written, InBudget] }

  function Running(log: Log): (after: Log) { log + [Woken, Awaited, Emptied, ExitRead, Written] }

  /** The end of a run: what was not waited for is stopped, and what did not return is recorded. */
  function Ending(log: Log, stop: bool, finished: bool): (after: Log) {
    log + (if stop then [Stopped] else []) + [Closed] + (if finished then [] else [Written])
  }

  function Child(log: Log): (after: Log) {
    Ending(Running(Permission(log + [OutputMade, Written] + [Spawned, Identified])), false, true)
  }

  // ----- table reads and commands ----------------------------------------------------------

  function Report(log: Log): (after: Log) { Child(log + [Compared]) + [Reported] + [ReaderFound, Written] }

  function Read(log: Log): (after: Log) { Report(log) + [Written] }

  function Reaps(log: Log, n: nat): (after: Log) { if n == 0 then log else Reaps(log, n - 1) + [Reaped(n - 1)] }

  function Command(log: Log, n: nat): (after: Log) { Child(Reaps(log + [Compared] + [ToolChecked] + [Compared], n)) }

  // ----- the parent and its requests -------------------------------------------------------

  function Parent(log: Log): (after: Log) { log + [Compared, ParentSeen] }

  /** The parent and its job reach the disk before anything is prepared for it. */
  function Admitted(log: Log): (after: Log) {
    Child(log + [Written]) + [ReadonlyChecked, Written] + [SidsDerived, Written]
  }

  function Prepared(log: Log): (after: Log) { Admitted(log + [Compared] + [ParentIdentified]) }

  function Attached(log: Log): (after: Log) { Prepared(log) + [Written] + [Published, Written] }

  function Taken(log: Log, r: Request): (after: Log) {
    Parent(Parent(log)) + [SlotRead(r), Written, Compared, RequestBound(r)]
  }

  /** The parent is checked before every look at the slot. */
  function Waited(log: Log, r: Request, looks: nat): (after: Log) {
    if looks == 0 then if r == ProbeFinished then log + [Compared] else log
    else Parent(Waited(log, r, looks - 1)) + [SlotSeen(r)]
  }

  // ----- adding and removing ----------------------------------------------------------------

  function Frozen(log: Log): (after: Log) { Parent(log) + [Written, Compared] + [Published, Written] }

  function Added(log: Log, n: nat): (after: Log) {
    Read(Command(log, n)) + [Written] + [Written] + [Published, Written]
  }

  function Created(log: Log, n: nat): (after: Log) {
    Added(Frozen(Read(Read(Taken(log, ProfileCreated)))) + [Written], n + 2)
  }

  function Withdrawn(log: Log, owned: bool): (after: Log) { log + [Compared] + (if owned then [Written] else []) }

  function Settled(log: Log, abnormal: bool, parent: bool): (after: Log) {
    if !abnormal then Parent(log) + [ParentAlone] else if parent then log + [ParentStopped] else log
  }

  /** An entry is claimed only after the durable attempt to add it was looked up. */
  function Claimed(log: Log, present: bool): (after: Log) { (if present then log + [AttemptRead] else log) + [Written] }

  function Removed(log: Log, n: nat, present: bool): (after: Log) {
    if present then Command(Claimed(log, true), n) else Claimed(log, false)
  }

  /** Observing, removing and observing again, without an error, after `n` commands. */
  function Pass(log: Log, n: nat, present: bool): (after: Log) {
    Read(Removed(Read(log) + [Compared], n + 1, present)) + [Written] + [Published, Written]
  }

  /** A whole pass over an operation that met no error. */
  function Cleaned(log: Log, n: nat, abnormal: bool, parent: bool, present: bool): (after: Log) {
    Pass(Settled(Reaps(Withdrawn(log, true) + [Compared], n), abnormal, parent), n, present)
  }

  /** A pass over nothing owned. */
  function Unowned(log: Log, n: nat, abnormal: bool, parent: bool): (after: Log) {
    Settled(Reaps(Withdrawn(log, false) + [Compared], n), abnormal, parent) + [Compared] + [Published, Written]
  }

  /** A receipt was published last. */
  predicate Receipted(log: Log) { |log| >= 2 && log[|log| - 2..] == [Published, Written] }

  function Finished(log: Log, n: nat, present: bool): (after: Log) {
    Cleaned(Parent(Taken(log, ProbeFinished)) + [ParentAlone], n, false, true, present)
  }

  /** A whole service, after `looks` at the two slots. */
  function Served(log: Log, n: nat, looks: (nat, nat), present: bool): (after: Log) {
    var created := Created(Waited(log, ProfileCreated, looks.0), n);
    Finished(Waited(created + [Compared], ProbeFinished, looks.1), n + 4, present)
  }
}
