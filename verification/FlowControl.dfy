/** Flow control windows (tornado_http2/flow_control.py; section 6.9 of RFC 7540). */
module FlowControl {
  import opened Bits
  import opened Protocol

  /**
   * A window as a value. The waiters are the coroutines registered on its condition, each named by
   * the stream it writes to; `notify_all` wakes them by emptying the set.
   */
  datatype Win = Win(size: int, closed: bool, waiters: set<nat>)

  /** The size is raised before it is checked, and nobody is woken when the check fails. */
  function Adjusted(w: Win, amount: int): Win {
    var size := w.size + amount;
    if size > MAX_WINDOW_SIZE then w.(size := size) else w.(size := size, waiters := {})
  }

  predicate AdjustFails(w: Win, amount: int) {
    w.size + amount > MAX_WINDOW_SIZE
  }

  /** The increment of a WINDOW_UPDATE payload, without its reserved bit; None if it has the wrong size. */
  function Increment(data: bytes): Option<nat> {
    var v :- UnpackUint32(data);
    Some(v % 0x8000_0000)
  }

  /** The window after a WINDOW_UPDATE frame. */
  function Updated(w: Win, data: bytes): Win {
    match Increment(data)
    case Some(n) => if n == 0 then w else Adjusted(w, n)
    case None => w
  }

  /** An increment of zero is refused, like one that takes the window beyond its bound. */
  function UpdateOutcome(w: Win, raising: ErrorCode -> Outcome, data: bytes): Outcome {
    match Increment(data)
    case None => ConnectionError(FRAME_SIZE_ERROR)
    case Some(n) =>
      if n == 0 then raising(PROTOCOL_ERROR)
      else if AdjustFails(w, n) then raising(FLOW_CONTROL_ERROR)
      else Ok
  }

  /** The bytes that `_send_window_update` packs are the increment that the peer applies. */
  lemma UpdateCarriesIncrement(w: Win, amount: nat)
    requires 1 <= amount <= MAX_WINDOW_SIZE
    ensures Updated(w, PackUint32(amount)) == Adjusted(w, amount)
  {
    PackUnpack(amount);
  }

  /**
   * Section 6.9 of RFC 7540, from the bytes: 31 bits after the reserved one. Four bytes that neither are zero nor take
   * the window beyond 2^31-1 raise it and wake everybody; the code of any other payload depends on its first fault.
   */
  lemma UpdateExactly(w: Win, raising: ErrorCode -> Outcome, data: bytes)
    ensures |data| != 4 ==>
              UpdateOutcome(w, raising, data) == ConnectionError(FRAME_SIZE_ERROR) && Updated(w, data) == w
    ensures |data| == 4 ==>
              var a: int, b: int, c: int, d: int := data[0], data[1], data[2], data[3];
              var n := 0x100_0000 * (if a < 128 then a else a - 128) + 0x1_0000 * b + 0x100 * c + d;
              && (n == 0 ==> UpdateOutcome(w, raising, data) == raising(PROTOCOL_ERROR) && Updated(w, data) == w)
              && (n > 0 && w.size + n > 0x7fff_ffff ==>
                    && UpdateOutcome(w, raising, data) == raising(FLOW_CONTROL_ERROR)
                    && Updated(w, data) == w.(size := w.size + n))
              && (n > 0 && w.size + n <= 0x7fff_ffff ==>
                    && UpdateOutcome(w, raising, data) == Ok
                    && Updated(w, data) == w.(size := w.size + n, waiters := {}))
  {
  }

  /** One turn of the loop of `consume`, up to where the coroutine suspends or goes on. */
  datatype Turn = Raises | Waits | Wants(amount: nat)

  function TurnOf(w: Win, amount: nat): Turn {
    if w.closed then Raises
    else if w.size <= 0 then Waits
    else Wants(if w.size < amount then w.size else amount)
  }

  function AfterTurn(w: Win, writer: nat, amount: nat): Win {
    if TurnOf(w, amount).Waits? then w.(waiters := w.waiters + {writer}) else w
  }

  /** What becomes of a call of `consume`. */
  datatype Consumed = Suspended | Raised | Consumed(amount: nat)

  function Least(a: int, b: int, c: int): (r: int)
    ensures r <= a && r <= b && r <= c && (r == a || r == b || r == c)
  {
    var d := if a < b then a else b;
    if d < c then d else c
  }

  /** A stream's window and the connection's after a call of `consume`, up to where it suspends. */
  function AfterConsume(w: Win, shared: Win, writer: nat, amount: nat): (Win, Win) {
    match TurnOf(w, amount)
    case Raises => (w, shared)
    case Waits => (AfterTurn(w, writer, amount), shared)
    case Wants(want) =>
      match TurnOf(shared, want)
      case Raises => (w, shared)
      case Waits => (w, AfterTurn(shared, writer, want))
      case Wants(n) => (w.(size := w.size - n), shared.(size := shared.size - n))
  }

  function Closed(w: Win): Win {
    w.(closed := true, waiters := {})
  }

  /** A registered waiter really has to wait. */
  ghost predicate NoLostWakeup(w: Win) {
    w.waiters != {} ==> w.size <= 0 && !w.closed
  }

  /** One legal update of a window with waiters never exceeds the bound, so it wakes them all. */
  lemma UpdateWakesWaiters(w: Win, amount: int)
    requires NoLostWakeup(w) && w.waiters != {} && 1 <= amount <= MAX_WINDOW_SIZE
    ensures !AdjustFails(w, amount) && Adjusted(w, amount).waiters == {}
  {
  }

  class Window {
    const parent: Window?
    const streamId: nat
    var size: int
    var closed: bool
    var waiters: set<nat>

    function View(): Win
      reads this
    {
      Win(size, closed, waiters)
    }

    constructor (parent: Window?, streamId: nat, initialWindowSize: int)
      ensures this.parent == parent && this.streamId == streamId
      ensures View() == Win(initialWindowSize, false, {})
    {
      this.parent, this.streamId := parent, streamId;
      size, closed, waiters := initialWindowSize, false, {};
    }

    method Close()
      modifies this
      ensures View() == Closed(old(View()))
    {
      closed := true;
      waiters := {};
    }

    function RaiseError(code: ErrorCode): Outcome {
      if parent == null then ConnectionError(code) else StreamError(streamId, code)
    }

    method Adjust(amount: int) returns (r: Outcome)
      modifies this
      ensures View() == Adjusted(old(View()), amount)
      ensures r == if AdjustFails(old(View()), amount) then RaiseError(FLOW_CONTROL_ERROR) else Ok
    {
      size := size + amount;
      if size > MAX_WINDOW_SIZE {
        return RaiseError(FLOW_CONTROL_ERROR);
      }
      waiters := {};
      return Ok;
    }

    method ApplyWindowUpdate(data: bytes) returns (r: Outcome)
      modifies this
      ensures View() == Updated(old(View()), data)
      ensures r == UpdateOutcome(old(View()), code => RaiseError(code), data)
    {
      var unpacked := UnpackUint32(data);
      if unpacked.None? {
        return ConnectionError(FRAME_SIZE_ERROR);
      }
      var windowUpdate := unpacked.value % 0x8000_0000;
      if windowUpdate == 0 {
        return RaiseError(PROTOCOL_ERROR);
      }
      r := Adjust(windowUpdate);
    }

    /** From the start or a wakeup of `consume` to its next suspension. */
    method Turn(writer: nat, amount: nat) returns (t: Turn)
      modifies this
      ensures t == TurnOf(old(View()), amount)
      ensures View() == AfterTurn(old(View()), writer, amount)
    {
      if !closed && size <= 0 {
        waiters := waiters + {writer};
        return Waits;
      }
      if closed {
        return Raises;
      }
      var n := amount;
      if size < n {
        n := size;
      }
      return Wants(n);
    }

    /** The end of `consume`: the amount granted is taken from the window. */
    method Debit(amount: int)
      modifies this
      ensures View() == old(View()).(size := old(View()).size - amount)
    {
      size := size - amount;
    }

    /**
     * `consume` of a stream's window up to where it suspends. It is granted something exactly when both
     * windows are open and not empty, and then as much as it asks for and both of them hold; it
     * waits for the first of them that is empty, and nobody waits in vain.
     */
    method Consume(writer: nat, amount: nat) returns (r: Consumed)
      requires parent != null && parent.parent == null && amount > 0
      requires NoLostWakeup(View()) && NoLostWakeup(parent.View())
      modifies this, parent
      ensures NoLostWakeup(View()) && NoLostWakeup(parent.View())
      ensures (View(), parent.View()) == AfterConsume(old(View()), old(parent.View()), writer, amount)
      ensures closed == old(closed) && parent.closed == old(parent.closed)
      ensures r.Consumed? <==> !closed && old(size) > 0 && !parent.closed && old(parent.size) > 0
      ensures r.Consumed? ==> r.amount == Least(amount, old(size), old(parent.size)) && r.amount >= 1
      ensures var taken := if r.Consumed? then r.amount else 0;
              size == old(size) - taken && parent.size == old(parent.size) - taken
      ensures r.Consumed? ==> size >= 0 && parent.size >= 0
      ensures r.Raised? <==> closed || (old(size) > 0 && parent.closed)
      ensures waiters == old(waiters) + if r.Suspended? && old(size) <= 0 then {writer} else {}
      ensures parent.waiters == old(parent.waiters) + if r.Suspended? && old(size) > 0 then {writer} else {}
    {
      var own := Turn(writer, amount);
      match own {
        case Raises => return Raised;
        case Waits => return Suspended;
        case Wants(want) =>
          var shared := parent.Turn(writer, want);
          match shared {
            case Raises => return Raised;
            case Waits => return Suspended;
            case Wants(n) =>
              parent.Debit(n);
              Debit(n);
              return Consumed(n);
          }
      }
    }
  }
}
