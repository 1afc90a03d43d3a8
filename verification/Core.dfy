/** Values shared by every module: option and result types, and the immutable records of the
    Task Graph. Each record has the fields of the source's dataclass of the same name that some
    modelled operation reads or carries over. */
module Core {
  datatype Option<+T> = None | Some(value: T)

  datatype Result<+T, +E> = Ok(value: T) | Err(error: E)

  function Max(a: int, b: int): int { if a < b then b else a }

  datatype RefKind = TaskKind | GroupKind

  /** An exact reference. The source's `key` is the triple of these three fields, so a reference
      and its key are the same value here. */
  datatype Ref = Ref(kind: RefKind, id: string, revision: int) {
    function Logical(): LogicalId { LogicalId(kind, id) }
  }

  function Elements(refs: seq<Ref>): set<Ref> {
    set r | r in refs
  }

  /** What a reference denotes once its revision is forgotten. */
  datatype LogicalId = LogicalId(kind: RefKind, id: string)

  /** Task and Group statuses; the source's Group status has no `Waiting`. */
  datatype Status = Pending | Running | Verifying | Waiting | Completed | Failed | Cancelled

  datatype BindingState = Current | Retained | Invalidated

  datatype Shape = Executable | Expandable

  datatype JoinPolicy = AllRequired | AnySuccess

  datatype AttemptMode = ChildAgent | Operation | ParentInline | Human

  datatype ExecutorBinding = ExecutorBinding(mode: AttemptMode, id: string, componentFingerprint: string)

  datatype ExecutorPolicy = ExecutorPolicy(allowed: seq<ExecutorBinding>, preferred: ExecutorBinding)

  datatype Contract = Contract(schema: string, validators: seq<string>, artifacts: seq<string>, evidence: seq<string>)

  datatype Task = Task(
    id: string,
    revision: int,
    graphId: string,
    intentVersion: int,
    intentBindingHash: string,
    bindingState: BindingState,
    goal: string,
    supports: seq<string>,
    dependsOn: seq<Ref>,
    priority: int,
    required: bool,
    shape: Shape,
    contract: Contract,
    policy: ExecutorPolicy,
    resourceKeys: seq<string>,
    status: Status,
    activeAttempt: Option<string>,
    outputs: seq<string>,
    failure: Option<string>)
  {
    function AsRef(): Ref { Ref(TaskKind, id, revision) }
  }

  datatype Child = Child(task: Ref, required: bool)

  datatype Group = Group(
    id: string,
    revision: int,
    graphId: string,
    intentVersion: int,
    intentBindingHash: string,
    bindingState: BindingState,
    supports: seq<string>,
    required: bool,
    dependsOn: seq<Ref>,
    contract: Contract,
    children: seq<Child>,
    join: JoinPolicy,
    status: Status,
    winner: Option<Ref>,
    verification: Option<string>)
  {
    function AsRef(): Ref { Ref(GroupKind, id, revision) }
  }

  datatype Limits = Limits(maxTasks: int, maxDepth: int, maxReplans: int, maxConcurrency: int)

  datatype GraphStatus = Planning | Active | GraphWaiting | GraphVerifying | GraphCompleted | GraphFailed | GraphCancelled

  datatype Graph = Graph(
    id: string,
    intentId: string,
    intentVersion: int,
    revision: int,
    status: GraphStatus,
    limits: Limits,
    requiredCriteria: seq<string>,
    tasks: seq<Task>,
    groups: seq<Group>,
    activeTasks: seq<Ref>,
    activeGroups: seq<Ref>,
    replanCount: int)

  /** Why a graph or a patch is refused (`GraphValidationError`), one constructor per message. */
  datatype GraphError =
    | StalePatch | BlankTriggerOrReason | EmptyPatch | UnsupportedOperation
    | MissingTask | MissingGroup | MissingPriority | MissingExecutorPolicy
    | MissingTargetId | NotUniquelyActive | UnlistedTarget | StaleTarget | WrongStatus | NotExpandable
    | NotSameLogicalId | NotCleanPending
    | ExpansionDependencies | ExpansionCoverage | ExpansionBinding | ExpansionChildren
    | ChildRewrittenToNonTask
    | DuplicateTask | DuplicateGroup | InvalidActiveTask | InvalidActiveGroup | RepeatedActive
    | TooManyTasks | TooManyReplans
    | ForeignTask | ForeignGroup | UnsupportedRequired | BadPriority | BadPreferredExecutor
    | NoChildren | ChildNotTask | UnknownReference
    | MissingCoverage | Cycle | TooDeep | InactiveTarget | NoReadySeed
}
