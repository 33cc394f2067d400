/** A write-once place on a remote, as its readers and writers can tell its states apart. */
module Slots {

  /** `Torn` is a created file whose marker is not complete; nobody but its creator can finish it. */
  datatype Slot<T> = Empty | Torn(owner: nat) | Reserved(value: T) | Complete(value: T)

  /** The only ways a slot changes. */
  predicate SlotStep<T(==)>(a: Slot<T>, b: Slot<T>) {
    match a
    case Empty => b.Torn? || b.Complete?
    case Torn(_) => b.Reserved?
    case Reserved(v) => b == Complete(v)
    case Complete(_) => false
  }

  /** How far one caller's attempt to publish a value is. */
  datatype Stage = Trying | Created | Finishing | Won | Lost

  /** What `owner`, publishing `mine`, may do to the slot in one file operation. A caller that finds its own value
      goes on only if it is kept in the form this caller writes. */
  predicate ClaimMove<T(==)>(owner: nat, mine: T, a: Slot<T>, stage: Stage, b: Slot<T>, next: Stage) {
    match stage
    case Trying =>
      (match a
       case Empty => (b == Complete(mine) && next == Won) || (b == Torn(owner) && next == Created)
       case Torn(_) => b == a && next == Lost
       case Reserved(v) => b == a && (next == Lost || (v == mine && next == Finishing))
       case Complete(v) => b == a && (next == Lost || (v == mine && next == Won)))
    case Created => a == Torn(owner) && b == Reserved(mine) && next == Finishing
    case Finishing => (a == Reserved(mine) || a == Complete(mine)) && b == Complete(mine) && next == Won
    case _ => false
  }
}
