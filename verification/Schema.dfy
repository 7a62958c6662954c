/** The flattened task definitions that the form is built from. */
module Schema {
  import opened Wrappers
  import opened InstanceIds

  /** `mappings` are the source task ids of the task's instance_mapping dependencies, in order. */
  datatype FlatTask = FlatTask(parentId: Option<string>, childrenIds: seq<string>, repeatable: bool,
                               mappings: seq<string>)

  type FlatTasks = map<string, FlatTask>

  /** Parent and child links of the definitions are mutual and without duplicates, and ids are clean. */
  predicate Linked(tasks: FlatTasks) {
    && (forall t | t in tasks :: CleanTaskId(t) && NoDuplicates(tasks[t].childrenIds))
    && (forall t {:trigger tasks[t].parentId} | t in tasks && tasks[t].parentId.Some? ::
          tasks[t].parentId.value in tasks && t in tasks[tasks[t].parentId.value].childrenIds)
    && (forall p, c {:trigger c in tasks[p].childrenIds} | p in tasks && c in tasks[p].childrenIds ::
          c in tasks && tasks[c].parentId == Some(p))
  }

  /** c is a child of the repeatable task p. */
  predicate RepeatableChild(tasks: FlatTasks, c: string, p: string) {
    p in tasks && tasks[p].repeatable && c in tasks[p].childrenIds
  }

  /** The repeatable parent of a task, if it has one. */
  function RepeatableParent(tasks: FlatTasks, c: string): (r: Option<string>)
    requires Linked(tasks)
    ensures forall p :: RepeatableChild(tasks, c, p) <==> r == Some(p)
  {
    if c in tasks && tasks[c].parentId.Some? && tasks[tasks[c].parentId.value].repeatable then tasks[c].parentId
    else None
  }
}
