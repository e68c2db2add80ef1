/** A task's record, and the critical sections that change it (internal/task/task.go,
    internal/task/manager.go). */
module Task {
  import opened Basics

  datatype Status = Running | Completed | Failed | Canceled

  /** What the task's own mutex protects; a channel is named by a number. */
  datatype Record = Record(status: Status, endTime: Option<nat>, error: string, done: bool, subs: set<nat>)

  function New(): Record {
    Record(Running, None, "", false, {})
  }

  /** The locked section of Cancel. */
  function Cancelled(r: Record): Record {
    if r.status == Running then r.(status := Canceled, done := true) else r
  }

  /** The locked section of CompleteTask; `err` is the error's text. */
  function Finished(r: Record, now: nat, err: Option<string>): Record {
    match err
    case Some(text) => r.(endTime := Some(now), status := Failed, error := text, done := true)
    case None => r.(endTime := Some(now), status := Completed, done := true)
  }

  /** Whether one round of cleanup at time `now` drops the task. */
  predicate Expired(r: Record, now: nat, keep: nat) {
    r.status != Running && r.endTime.Some? && now > r.endTime.value + keep
  }

  /** The context is cancelled exactly when the task no longer runs. */
  predicate Consistent(r: Record) {
    (r.done <==> r.status != Running) && (r.endTime.Some? ==> r.status != Running && r.status != Canceled)
  }

  class Task {
    var status: Status
    var endTime: Option<nat>
    var error: string
    var done: bool
    var subs: set<nat>

    ghost function View(): Record
      reads this
    {
      Record(status, endTime, error, done, subs)
    }

    constructor ()
      ensures View() == New()
    {
      status, endTime, error, done, subs := Running, None, "", false, {};
    }

    method Cancel()
      modifies this
      ensures View() == Cancelled(old(View()))
    {
      if status == Running {
        status := Canceled;
        done := true;
      }
    }

    method Complete(now: nat, err: Option<string>)
      modifies this
      ensures View() == Finished(old(View()), now, err)
    {
      endTime := Some(now);
      if err.Some? {
        status := Failed;
        error := err.value;
      } else {
        status := Completed;
      }
      done := true;
    }

    method IsCanceled() returns (b: bool)
      ensures b <==> View().status == Canceled
    {
      return status == Canceled;
    }
  }
}
