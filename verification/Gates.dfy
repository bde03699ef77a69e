/** The asynchronous gate: open, closed with waiters on a promise, or locked for good. */
module Gates {
  import opened Prelude

  /**
   Promises are numbered in the order in which the gate makes them, and it makes one only after the
   one before is settled. A closed gate is waiting for promise number `settled`; a waiter that holds
   promise p goes on once p < settled.
   */
  datatype Gate = Gate(isLocked: bool, isClosed: bool, settled: nat) {

    predicate Valid() {
      isLocked ==> !isClosed
    }

    function ClearPending(): Gate {
      if isClosed then this.(isClosed := false, settled := settled + 1) else this
    }

    function Open(): Gate {
      if isLocked then this else ClearPending()
    }

    function Lock(): Gate {
      if isLocked then this else this.(isLocked := true).ClearPending()
    }

    function Close(): Gate {
      if isLocked then this else this.(isClosed := true)
    }

    function SetOpenState(shouldBeOpen: bool): Gate {
      if shouldBeOpen then Open() else Close()
    }

    predicate IsSettled(promise: nat) {
      promise < settled
    }

    /** The promise a call of `check` waits for; unless the gate is closed it goes on at once. */
    function Check(): Option<nat> {
      if isClosed then Some(settled) else None
    }

    /** What `check` resolves to when it goes on. */
    predicate CheckResult() {
      !isLocked
    }
  }

  const NEW_GATE := Gate(false, false, 0)

  datatype Action = DoOpen | DoLock | DoClose

  function Act(g: Gate, a: Action): Gate {
    match a
    case DoOpen => g.Open()
    case DoLock => g.Lock()
    case DoClose => g.Close()
  }

  function ActAll(g: Gate, actions: seq<Action>): Gate {
    if actions == [] then g else Act(ActAll(g, actions[..|actions| - 1]), actions[|actions| - 1])
  }

  /**
   Over any sequence of actions a locked gate stays locked, a settled promise stays settled, a call of
   `check` that waits is let go exactly when the gate was opened or locked while it waited, and a call
   that goes on resolves to false exactly when the gate was locked.
   */
  lemma {:induction false} GateHistory(g: Gate, actions: seq<Action>)
    requires g.Valid()
    ensures ActAll(g, actions).Valid()
    ensures g.isLocked ==> ActAll(g, actions) == g
    ensures ActAll(g, actions).settled >= g.settled
    ensures ActAll(g, actions).CheckResult() <==> g.CheckResult() && DoLock !in actions
    ensures g.Check().Some? ==>
              (ActAll(g, actions).IsSettled(g.Check().value) <==> DoOpen in actions || DoLock in actions)
  {
    if actions != [] {
      var n := |actions| - 1;
      GateHistory(g, actions[..n]);
      assert actions == actions[..n] + [actions[n]];
      if g.isClosed && DoOpen !in actions[..n] && DoLock !in actions[..n] {
        StaysClosed(g, actions[..n]);
      }
    }
  }

  lemma {:induction false} StaysClosed(g: Gate, actions: seq<Action>)
    requires g.Valid() && g.isClosed && DoOpen !in actions && DoLock !in actions
    ensures ActAll(g, actions) == g
  {
    if actions != [] {
      var n := |actions| - 1;
      assert actions == actions[..n] + [actions[n]];
      StaysClosed(g, actions[..n]);
    }
  }

  /** The gate as the object the program updates in place. */
  class GateObject {
    var isLocked: bool
    var isPending: bool
    var settled: nat

    constructor ()
      ensures Model() == NEW_GATE
    {
      isLocked, isPending, settled := false, false, 0;
    }

    function Model(): Gate
      reads this
    {
      Gate(isLocked, isPending, settled)
    }

    method ClearPending()
      modifies this
      ensures Model() == old(Model()).ClearPending()
    {
      if !isPending {
        return;
      }
      isPending := false;
      settled := settled + 1;
    }

    method Open()
      modifies this
      ensures Model() == old(Model()).Open()
    {
      if isLocked {
        return;
      }
      ClearPending();
    }

    method Lock()
      modifies this
      ensures Model() == old(Model()).Lock()
    {
      if isLocked {
        return;
      }
      isLocked := true;
      ClearPending();
    }

    method Close()
      modifies this
      ensures Model() == old(Model()).Close()
    {
      if isLocked {
        return;
      }
      if !isPending {
        isPending := true;
      }
    }

    method SetOpenState(shouldBeOpen: bool)
      modifies this
      ensures Model() == old(Model()).SetOpenState(shouldBeOpen)
    {
      if shouldBeOpen {
        Open();
      } else {
        Close();
      }
    }

    /** `check` up to its `await`. */
    method Check() returns (promise: Option<nat>)
      ensures promise == Model().Check()
    {
      if isPending {
        return Some(settled);
      }
      return None;
    }

    /** `check` after its `await`. */
    method CheckResumes() returns (ok: bool)
      ensures ok == Model().CheckResult()
    {
      return !isLocked;
    }
  }
}
