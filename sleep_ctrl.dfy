/**
 * The activity flags of deep_sleep_ctrl: one flag per firmware task, set
 * while that task still has work, and the idle test that gates deep sleep.
 * The flags live in a `bool[NUMBER_TASKS]` array owned by the caller; the
 * test reads them and changes none.
 */
module SleepCtrl {
  // ActiveTask_t
  const COMMUNICATION_TASK: nat := 0
  const POSITION_TASK: nat := 1
  const STORAGE_TASK: nat := 2
  const FILE_SYSTEM_TASK: nat := 3
  const TIME_TASK: nat := 4
  const BUTTON_TASK: nat := 5
  const WRITE_COMMAND_TASK: nat := 6
  const NUMBER_TASKS: nat := 7

  /** No task has work left. */
  predicate Idle(flags: seq<bool>)
  {
    forall j :: 0 <= j < |flags| ==> !flags[j]
  }

  /**
   * `IsSystemIdle()`: scans the flags in ascending order and answers false
   * at the first busy one, true when none is.
   */
  method IsSystemIdle(activeTasks: array<bool>) returns (idle: bool)
    requires activeTasks.Length == NUMBER_TASKS
    ensures idle <==> Idle(activeTasks[..])
    ensures !idle ==> exists j :: 0 <= j < NUMBER_TASKS && activeTasks[j]
  {
    for i := 0 to NUMBER_TASKS
      invariant forall j :: 0 <= j < i ==> !activeTasks[j]
    {
      if activeTasks[i] {
        return false;
      }
    }
    return true;
  }

  /** Marking any task busy keeps the system awake; clearing the last busy flag lets it sleep. */
  lemma BusyBlocksSleep(flags: seq<bool>, t: nat, busy: bool)
    requires |flags| == NUMBER_TASKS && t < NUMBER_TASKS
    ensures busy ==> !Idle(flags[t := busy])
    ensures !busy && (forall j :: 0 <= j < NUMBER_TASKS && j != t ==> !flags[j]) ==> Idle(flags[t := busy])
  {
    if busy {
      assert flags[t := busy][t];
    }
  }
}
