/** The domain values: pipeline stages, analysis tasks and outbox messages.
    Every transition returns a new value; timestamps are integers. */
module Domain {
  datatype Option<+T> = None | Some(value: T)

  /* ---- stages and tasks ---- */

  datatype Stage = SelectionStage | OddTaggingStage | AutoLabelingStage {
    /** Position in the execution order. */
    function Index(): nat {
      match this
      case SelectionStage => 0
      case OddTaggingStage => 1
      case AutoLabelingStage => 2
    }
  }

  const STAGE_ORDER: seq<Stage> := [SelectionStage, OddTaggingStage, AutoLabelingStage]

  datatype StageProgress = StageProgress(total: nat, processed: nat, rejected: nat)

  datatype StageResult = StageResult(total: nat, loaded: nat, rejected: nat)

  datatype AnalysisResult = AnalysisResult(
    selection: StageResult, oddTagging: StageResult, autoLabeling: StageResult,
    fullyLinked: nat, partially: int)

  datatype TaskStatus = TaskPending | TaskProcessing | TaskCompleted | TaskFailed

  datatype AnalyzeTask = AnalyzeTask(
    taskId: string,
    status: TaskStatus,
    selectionProgress: StageProgress,
    oddTaggingProgress: StageProgress,
    autoLabelingProgress: StageProgress,
    lastCompletedPhase: Option<Stage>,
    result: Option<AnalysisResult>,
    error: Option<string>)
  {
    static function CreateNew(taskId: string, selections: nat, odds: nat, labels: nat): AnalyzeTask {
      AnalyzeTask(taskId, TaskPending, StageProgress(selections, 0, 0), StageProgress(odds, 0, 0),
                  StageProgress(labels, 0, 0), None, None, None)
    }

    predicate IsActive() {
      status == TaskPending || status == TaskProcessing
    }

    predicate ShouldRunPhase(phase: Stage) {
      lastCompletedPhase == None || phase.Index() > lastCompletedPhase.value.Index()
    }

    function ProgressFor(stage: Stage): StageProgress {
      match stage
      case SelectionStage => selectionProgress
      case OddTaggingStage => oddTaggingProgress
      case AutoLabelingStage => autoLabelingProgress
    }

    function StartProcessing(): AnalyzeTask {
      this.(status := TaskProcessing)
    }

    function CompleteWith(r: AnalysisResult): AnalyzeTask {
      this.(status := TaskCompleted, result := Some(r))
    }

    function FailWith(e: string): AnalyzeTask {
      this.(status := TaskFailed, error := Some(e))
    }

    function WithProgress(stage: Stage, progress: StageProgress): AnalyzeTask {
      match stage
      case SelectionStage => this.(selectionProgress := progress)
      case OddTaggingStage => this.(oddTaggingProgress := progress)
      case AutoLabelingStage => this.(autoLabelingProgress := progress)
    }

    function WithCompletedPhase(phase: Stage): AnalyzeTask {
      this.(lastCompletedPhase := Some(phase))
    }
  }

  /* ---- outbox messages ---- */

  datatype OutboxStatus = Pending | Processing | Published | Failed

  /** Only messages of type "ANALYZE" are dispatched. */
  datatype MessageType = Analyze | OtherType(name: string)

  /** The payload is reduced to its "task_id" entry, which may be missing. */
  datatype OutboxMessage = OutboxMessage(
    messageId: string,
    messageType: MessageType,
    taskId: Option<string>,
    status: OutboxStatus,
    retryCount: nat,
    maxRetries: nat,
    createdAt: int,
    updatedAt: int)
  {
    static function CreateAnalyzeEvent(messageId: string, taskId: string, now: int): OutboxMessage {
      OutboxMessage(messageId, Analyze, Some(taskId), Pending, 0, 3, now, now)
    }

    predicate IsRetriable() {
      retryCount < maxRetries
    }

    function MarkProcessing(now: int): OutboxMessage {
      this.(status := Processing, updatedAt := now)
    }

    function MarkPublished(now: int): OutboxMessage {
      this.(status := Published, updatedAt := now)
    }

    function MarkFailed(now: int): OutboxMessage {
      this.(status := Failed, updatedAt := now)
    }

    function BackToPending(now: int): OutboxMessage {
      this.(status := Pending, updatedAt := now)
    }

    function WithRetryIncremented(now: int): OutboxMessage {
      this.(retryCount := retryCount + 1, updatedAt := now)
    }

    predicate IsTerminal() {
      status == Published || status == Failed
    }
  }
}
