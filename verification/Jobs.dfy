/** The job lifecycle: states, the graph of allowed transitions, the job record. */
module Jobs {
  import opened Basics

  datatype JobState =
    | Pending
    | Running
    | Paused
    | Succeeded
    | Failed
    | Retrying
    | DeadLetter
    | Cancelled

  /** The states that each state may move to directly. */
  function Transitions(s: JobState): set<JobState> {
    match s
    case Pending => {Running, Paused, Cancelled}
    case Running => {Succeeded, Failed, Paused, Cancelled}
    case Paused => {Pending, Cancelled}
    case Failed => {Retrying, DeadLetter}
    case Retrying => {Pending, DeadLetter}
    case Succeeded => {}
    case DeadLetter => {}
    case Cancelled => {}
  }

  const TERMINAL: set<JobState> := {Succeeded, DeadLetter, Cancelled}

  predicate CanTransition(src: JobState, dst: JobState) {
    dst in Transitions(src)
  }

  /** Every consecutive pair of the path is an edge of the graph. */
  predicate LegalPath(path: seq<JobState>) {
    forall i :: 0 <= i < |path| - 1 ==> CanTransition(path[i], path[i + 1])
  }

  /** The states that fail() walks through; only the last one is ever stored. */
  function FailPath(src: JobState, exhausted: bool): seq<JobState> {
    if exhausted then [src, Failed, DeadLetter] else [src, Failed, Retrying, Pending]
  }

  /** One stored change of state: an edge of the graph, or all of fail()'s path at once. */
  predicate StoredMove(src: JobState, dst: JobState) {
    || CanTransition(src, dst)
    || (src == Running && (dst == Pending || dst == DeadLetter))
  }

  // Ids are unique tokens; times are in ticks of one clock.
  type JobId = nat
  type Time = int
  type JobResult = string

  datatype Kind = Train | OtherKind(name: string)

  datatype Resource = Gpu | Cpu | OtherResource(name: string)

  datatype PayloadKey = MicrobatchSize | GradAccumSteps | OtherKey(name: string)

  type Payload = map<PayloadKey, int>

  /** The error texts the platform itself writes, and those of an exception it was given. */
  datatype JobError =
    | LeaseExpired
    | NoHandler(kind: Kind)
    | RaisedInvalidTransition
    | RaisedConcurrentModification
    | Repr(text: string)

  datatype Job = Job(
    kind: Kind,
    payload: Payload,
    state: JobState,
    attempts: int,
    maxAttempts: int,
    error: Option<JobError>,
    resource: Resource,
    priority: int,
    createdAt: Time,
    lease: Option<Time>)

  /** A job as create() inserts it. */
  function NewJob(j: Job): Job {
    j.(state := Pending, attempts := 0, error := None, lease := None)
  }

  /** The terminal states are exactly those the graph gives no way out of. */
  lemma TerminalIffNoExit(s: JobState)
    ensures s in TERMINAL <==> forall dst :: !CanTransition(s, dst)
  {
    assert s == Pending ==> CanTransition(s, Running);
    assert s == Running ==> CanTransition(s, Failed);
    assert s == Paused ==> CanTransition(s, Pending);
    assert s == Failed ==> CanTransition(s, Retrying);
    assert s == Retrying ==> CanTransition(s, Pending);
  }

  /** fail()'s edge-by-edge validation accepts a job exactly when it is RUNNING. */
  lemma FailPathLegalIffRunning(src: JobState, exhausted: bool)
    ensures LegalPath(FailPath(src, exhausted)) <==> src == Running
  {
    var path := FailPath(src, exhausted);
    assert CanTransition(path[0], path[1]) <==> src == Running;
  }

  /** A stored move always runs along edges of the graph, so it never leaves a terminal state. */
  lemma StoredMoveFollowsGraph(src: JobState, dst: JobState)
    requires StoredMove(src, dst)
    ensures exists path :: LegalPath(path) && |path| >= 2 && path[0] == src && path[|path| - 1] == dst
    ensures src !in TERMINAL
  {
    var path := if CanTransition(src, dst) then [src, dst] else FailPath(src, dst == DeadLetter);
    assert LegalPath(path) && path[0] == src && path[|path| - 1] == dst;
  }
}
