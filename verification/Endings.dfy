/** How a step of a host program can end: it returns, an exception leaves it, or the process is killed in it. */
module Endings {

  datatype Ended<+T> = Returned(value: T) | Raised | Killed {
    predicate IsFailure() {
      !Returned?
    }

    function PropagateFailure<U>(): Ended<U>
      requires IsFailure()
    {
      if Raised? then Raised else Killed
    }

    function Extract(): T
      requires Returned?
    {
      value
    }
  }

  /** What the world does to the next effect: lets it through, makes it raise, or kills the process before or
      after it has happened. */
  datatype Fate = Happens | Fails | KilledBefore | KilledAfter

  /** Any fate at all. */
  method AnyFate() returns (fate: Fate) {
    fate := *;
  }
}
