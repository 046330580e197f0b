/** `Command::MoveTasks` against the vault, and what a whole drop does
    (crates/sunrise-core/src/engine/task_order.rs). */
module TaskVault {
  import opened Wrappers
  import opened Sequences
  import opened SortOrder
  import opened ManualOrder
  import opened DropPlan

  /** The part of a task a move reads or writes. */
  datatype Task = Task(key: Option<string>, deleted: bool)

  datatype EngineError = Invalid | NotFound

  type Tasks = map<Id, Task>

  // ---- The command ----

  function LiveTask(tasks: Tasks, id: Id): Result<Task, EngineError> {
    if id in tasks && !tasks[id].deleted then Ok(tasks[id]) else Err(NotFound)
  }

  /** An anchor must be placed itself. */
  function AnchorKey(tasks: Tasks, anchor: Option<Id>): Result<Option<string>, EngineError> {
    if anchor.None? then Ok(None)
    else match LiveTask(tasks, anchor.value)
      case Err(e) => Err(e)
      case Ok(task) => if task.key.None? then Err(Invalid) else Ok(task.key)
  }

  predicate NoRepeats(ids: seq<Id>) {
    forall i, j | 0 <= i < j < |ids| :: ids[i] != ids[j]
  }

  predicate Shape(ids: seq<Id>, after: Option<Id>, before: Option<Id>) {
    && ids != []
    && NoRepeats(ids)
    && (after.Some? ==> after.value !in ids)
    && (before.Some? ==> before.value !in ids)
  }

  /** The keys the move writes, or why it is refused. */
  function MoveKeys(tasks: Tasks, ids: seq<Id>, after: Option<Id>, before: Option<Id>)
    : Result<seq<string>, EngineError>
  {
    if !Shape(ids, after, before) then Err(Invalid)
    else match AnchorKey(tasks, after)
      case Err(e) => Err(e)
      case Ok(lo) =>
        match AnchorKey(tasks, before)
        case Err(e) => Err(e)
        case Ok(hi) =>
          match Spread(lo, hi, |ids|)
          case Err(_) => Err(Invalid)
          case Ok(keys) => if forall id | id in ids :: LiveTask(tasks, id).Ok? then Ok(keys) else Err(NotFound)
  }

  /** Every task as it was, except that `ids[i]` now has `keys[i]`. */
  ghost predicate Rekeyed(before: Tasks, after: Tasks, ids: seq<Id>, keys: seq<string>) {
    && |ids| == |keys|
    && after.Keys == before.Keys
    && (forall id | id in before && id !in ids :: after[id] == before[id])
    && (forall i | 0 <= i < |ids| ::
          ids[i] in before && after[ids[i]] == before[ids[i]].(key := Some(keys[i])))
  }

  class Vault {
    var tasks: Tasks

    constructor (tasks: Tasks)
      ensures this.tasks == tasks
    {
      this.tasks := tasks;
    }

    /** All or nothing: a refusal writes no key, a success writes exactly the moved ones. */
    method MoveTasks(ids: seq<Id>, after: Option<Id>, before: Option<Id>)
      returns (r: Result<(), EngineError>)
      modifies this
      ensures r.Ok? <==> MoveKeys(old(tasks), ids, after, before).Ok?
      ensures r.Err? ==> tasks == old(tasks) && Err(r.error) == MoveKeys(old(tasks), ids, after, before)
      ensures r.Ok? ==> Rekeyed(old(tasks), tasks, ids, MoveKeys(old(tasks), ids, after, before).value)
    {
      if ids == [] {
        return Err(Invalid);
      }
      var seen := {};
      for i := 0 to |ids|
        invariant seen == set k | 0 <= k < i :: ids[k]
        invariant forall k, l | 0 <= k < l < i :: ids[k] != ids[l]
      {
        if ids[i] in seen {
          return Err(Invalid);
        }
        seen := seen + {ids[i]};
      }
      if (after.Some? && after.value in seen) || (before.Some? && before.value in seen) {
        return Err(Invalid);
      }
      assert Shape(ids, after, before);
      var lo := AnchorKey(tasks, after);
      if lo.Err? {
        return Err(lo.error);
      }
      var hi := AnchorKey(tasks, before);
      if hi.Err? {
        return Err(hi.error);
      }
      var spread := Spread(lo.value, hi.value, |ids|);
      if spread.Err? {
        return Err(Invalid);
      }
      var keys := spread.value;
      SpreadFillsTheGap(lo.value, hi.value, |ids|);
      var written := tasks;
      for i := 0 to |ids|
        invariant tasks == old(tasks) && written.Keys == tasks.Keys
        invariant forall k | 0 <= k < i :: LiveTask(tasks, ids[k]).Ok?
        invariant forall id | id in tasks && id !in ids[..i] :: written[id] == tasks[id]
        invariant forall k | 0 <= k < i :: written[ids[k]] == tasks[ids[k]].(key := Some(keys[k]))
      {
        var live := LiveTask(tasks, ids[i]);
        if live.Err? {
          assert ids[i] in ids;
          return Err(live.error);
        }
        written := written[ids[i] := live.value.(key := Some(keys[i]))];
      }
      assert ids[..|ids|] == ids;
      tasks := written;
      return Ok(());
    }
  }
}
