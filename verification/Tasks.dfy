/**
 Task descriptors, as task.c and include/task.h define them, and the choice of a body
 that a worker makes when it takes a task (accelerator.c).
 */
module Tasks {

  const NON_SIGNIFICANT: nat := 0
  const SIGNIFICANT: nat := 100

  // The two function pointers of a descriptor matter here only as "NULL or not".
  datatype Task = Task(id: nat, significance: nat, hasExecution: bool, hasNonsig: bool)

  // What a worker calls: `execution`, `execution_nonsig`, or nothing when the pointer is NULL.
  datatype Body = Execution | ExecutionNonsig | Nothing

  // get_job picks the pointer, main_acc calls it unless it is NULL.
  function BodyOf(t: Task): Body {
    if t.significance == NON_SIGNIFICANT then
      if t.hasNonsig then ExecutionNonsig else Nothing
    else
      if t.hasExecution then Execution else Nothing
  }

  // A task pushed on the queue of one worker.
  datatype Job = Job(task: Task, worker: nat)
}
