/**
 A Go channel with one buffer slot, as a value. A send on a closed channel or a second close panics,
 a send while the slot is full blocks; `fault` records that one of these happened.
 */
module Channels {

  datatype Channel<T> = Channel(sent: seq<T>, received: nat, closed: bool, fault: bool) {

    predicate SlotFull() {
      |sent| > received
    }

    function Send(value: T): Channel<T> {
      if closed || SlotFull() then this.(fault := true) else this.(sent := sent + [value])
    }

    /** A send in a select with a default branch: dropped when the slot is full. */
    function TrySend(value: T): Channel<T> {
      if closed then this.(fault := true)
      else if SlotFull() then this
      else this.(sent := sent + [value])
    }

    function Close(): Channel<T> {
      if closed then this.(fault := true) else this.(closed := true)
    }

    function Receive(): Channel<T>
      requires SlotFull()
    {
      this.(received := received + 1)
    }

    predicate Untouched() {
      sent == [] && received == 0 && !closed && !fault
    }
  }

  function Make<T>(): Channel<T> {
    Channel([], 0, false, false)
  }
}
