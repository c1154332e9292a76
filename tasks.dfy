/**
 * The plan model: a step's status machine, the step record and the plan
 * object the execution engine updates in place (atlas.py:202-228).
 */
module Tasks {
  import opened Options
  import opened Json

  datatype TaskStatus = Pending | InProgress | Completed | Failed | Retrying

  predicate IsTerminal(st: TaskStatus) {
    st == Completed || st == Failed
  }

  /** A `TaskStep` dataclass. The fields the oracle fills in (`step_number`,
      `description`, `tool_name`, `parameters`) hold whatever JSON value the
      plan carried, as the Python dataclass does at run time. */
  datatype TaskStep = TaskStep(
    stepNumber: Json,
    description: Json,
    toolName: Json,
    parameters: Json,
    status: TaskStatus,
    result: Option<string>,
    error: Option<string>,
    retryCount: int,
    maxRetries: int)

  const DefaultMaxRetries: int := 2

  /** `TaskStep(step_number, description, tool_name, parameters)` with the
      dataclass defaults for the other fields. */
  function NewStep(stepNumber: Json, description: Json, toolName: Json, parameters: Json): (s: TaskStep)
    ensures s.status == Pending && s.result == None && s.error == None
    ensures s.retryCount == 0 && s.maxRetries == DefaultMaxRetries
  {
    TaskStep(stepNumber, description, toolName, parameters, Pending, None, None, 0, DefaultMaxRetries)
  }

  /** A `TaskPlan`: created by the response parser, then mutated by the engine
      (its `status` and its steps) and by the agent (`original_request`). */
  class TaskPlan {
    var taskId: string
    var originalRequest: Json
    var steps: seq<TaskStep>
    var status: TaskStatus

    constructor (taskId: string, originalRequest: Json)
      ensures this.taskId == taskId && this.originalRequest == originalRequest
      ensures steps == [] && status == Pending
    {
      this.taskId := taskId;
      this.originalRequest := originalRequest;
      steps := [];
      status := Pending;
    }
  }
}
