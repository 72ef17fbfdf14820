/** Bounded FIFO channels with close flags: the library queues the bridge is built on. */
module Channels {
  datatype SendResult = Sent | Full | Refused
  datatype RecvResult<+T> = Got(item: T) | Empty | Ended

  /** The content of a channel. A send to a dropped receiver is refused before fullness is looked at,
      and queued items are received before a dropped sender is noticed. */
  datatype Chan<T> = Chan(cap: nat, items: seq<T>, txOpen: bool, rxOpen: bool) {
    predicate Accepts() {
      rxOpen && |items| < cap
    }

    function SendResult(): SendResult {
      if !rxOpen then Refused else if |items| < cap then Sent else Full
    }

    function TrySend(x: T): Chan<T> {
      if Accepts() then this.(items := items + [x]) else this
    }

    function RecvResult(): RecvResult<T> {
      if items != [] then Got(items[0]) else if txOpen then Empty else Ended
    }

    function TryRecv(): Chan<T> {
      if items != [] then this.(items := items[1..]) else this
    }
  }

  function NewChan<T>(cap: nat): Chan<T> {
    Chan(cap, [], true, true)
  }

  /** A channel shared by its two ends. */
  class Channel<T> {
    var st: Chan<T>

    constructor (cap: nat)
      ensures st == NewChan(cap)
    {
      st := NewChan(cap);
    }

    method TrySend(x: T) returns (r: SendResult)
      modifies this
      ensures r == old(st).SendResult() && st == old(st).TrySend(x)
    {
      r := st.SendResult();
      st := st.TrySend(x);
    }

    method TryRecv() returns (r: RecvResult<T>)
      modifies this
      ensures r == old(st).RecvResult() && st == old(st).TryRecv()
    {
      r := st.RecvResult();
      st := st.TryRecv();
    }

    /** The sending end is dropped. */
    method DropTx()
      modifies this
      ensures st == old(st).(txOpen := false)
    {
      st := st.(txOpen := false);
    }

    /** The receiving end is dropped. */
    method DropRx()
      modifies this
      ensures st == old(st).(rxOpen := false)
    {
      st := st.(rxOpen := false);
    }
  }
}
