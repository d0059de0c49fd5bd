/**
 * The status lifecycle shared by status-bearing entities: four states, four
 * derived predicates and one guard, namely that a deleted entity rejects a
 * status change.
 */
module StatusLifecycle {
  import opened Exceptions

  datatype Status = Active | Inactive | Blocked | Delete

  /** The status calls an entity accepts: `ChangeStatus(t)`, `Activate()`, `Inactivate()`, `Block()`. */
  datatype StatusCall = ChangeStatusTo(target: Status) | Activate | Inactivate | Block

  /** The status each call asks for. */
  function Requested(call: StatusCall): Status {
    match call
    case ChangeStatusTo(t) => t
    case Activate => Active
    case Inactivate => Inactive
    case Block => Blocked
  }

  /**
   * The base guard: from any status but Delete the call sets the requested
   * status; from Delete it throws and the status stays Delete.
   */
  function GuardedOutcome(current: Status): Outcome {
    if current == Delete then Fail(CannotChangeStatusOfADeletedEntity) else Pass
  }

  function GuardedNext(current: Status, call: StatusCall): Status {
    if current == Delete then Delete else Requested(call)
  }

  /** The status after a run of calls under the base guard; a call that throws leaves the status as it was. */
  function GuardedRun(current: Status, calls: seq<StatusCall>): Status
    decreases |calls|
  {
    if calls == [] then current else GuardedRun(GuardedNext(current, calls[0]), calls[1..])
  }

  /** The status after a run of calls on a `Person`, whose override assigns without the guard. */
  function UnguardedRun(current: Status, calls: seq<StatusCall>): Status
    decreases |calls|
  {
    if calls == [] then current else UnguardedRun(Requested(calls[0]), calls[1..])
  }

  /** Delete is absorbing under the base guard: no run of calls leaves it. */
  lemma {:induction false} DeleteIsAbsorbing(calls: seq<StatusCall>)
    ensures GuardedRun(Delete, calls) == Delete
    decreases |calls|
  {
    if calls != [] {
      DeleteIsAbsorbing(calls[1..]);
    }
  }

  /** Off Delete the guard forbids nothing: a run that never asks for Delete ends where its last call asked. */
  lemma {:induction false} GuardedRunWithoutDelete(current: Status, calls: seq<StatusCall>)
    requires current != Delete && calls != []
    requires forall i | 0 <= i < |calls| :: Requested(calls[i]) != Delete
    ensures GuardedRun(current, calls) == Requested(calls[|calls| - 1])
    decreases |calls|
  {
    if |calls| > 1 {
      GuardedRunWithoutDelete(Requested(calls[0]), calls[1..]);
    }
  }

  /** Under the override the status is always that of the last call, whatever came before, Delete included. */
  lemma {:induction false} UnguardedRunEndsAtLastRequest(current: Status, calls: seq<StatusCall>)
    requires calls != []
    ensures UnguardedRun(current, calls) == Requested(calls[|calls| - 1])
    decreases |calls|
  {
    if |calls| > 1 {
      UnguardedRunEndsAtLastRequest(Requested(calls[0]), calls[1..]);
    }
  }

  /** The two behaviours disagree: after Delete, `Activate()` throws under the guard and succeeds on a `Person`. */
  lemma OverrideDivergesFromGuard()
    ensures GuardedOutcome(Delete) == Fail(CannotChangeStatusOfADeletedEntity)
    ensures GuardedRun(Delete, [Activate]) == Delete
    ensures UnguardedRun(Delete, [Activate]) == Active
  {
  }

  /** The base class: a mutable status with the guarded transitions. */
  class Statusable {
    var status: Status

    constructor (initial: Status)
      ensures status == initial
    {
      status := initial;
    }

    predicate IsActive() reads this { status == Active }
    predicate IsInactive() reads this { status == Inactive }
    predicate IsBlocked() reads this { status == Blocked }
    predicate IsDeleted() reads this { status == Delete }

    /** Throws on a deleted entity and leaves it deleted; otherwise sets the status, whatever it was. */
    method ChangeStatus(target: Status) returns (r: Outcome)
      modifies this
      ensures r == GuardedOutcome(old(status))
      ensures r.Fail? <==> old(status) == Delete
      ensures r.Fail? ==> r.error == CannotChangeStatusOfADeletedEntity && status == Delete
      ensures r.Pass? ==> status == target
      ensures status == GuardedNext(old(status), ChangeStatusTo(target))
    {
      if IsDeleted() {
        return Fail(CannotChangeStatusOfADeletedEntity);
      }
      status := target;
      r := Pass;
    }

    method Activate() returns (r: Outcome)
      modifies this
      ensures r == GuardedOutcome(old(status))
      ensures status == GuardedNext(old(status), StatusCall.Activate)
    {
      r := ChangeStatus(Active);
    }

    method Inactivate() returns (r: Outcome)
      modifies this
      ensures r == GuardedOutcome(old(status))
      ensures status == GuardedNext(old(status), StatusCall.Inactivate)
    {
      r := ChangeStatus(Inactive);
    }

    method Block() returns (r: Outcome)
      modifies this
      ensures r == GuardedOutcome(old(status))
      ensures status == GuardedNext(old(status), StatusCall.Block)
    {
      r := ChangeStatus(Blocked);
    }
  }

  /**
   * A client of the base class making two calls in a row: the status it ends
   * at is the run `GuardedRun` describes, so `DeleteIsAbsorbing` and
   * `GuardedRunWithoutDelete` speak about objects of the class.
   */
  method ChangeThenActivate(s: Statusable, target: Status) returns (first: Outcome, second: Outcome)
    modifies s
    ensures s.status == GuardedRun(old(s.status), [ChangeStatusTo(target), StatusCall.Activate])
    ensures old(s.status) == Delete ==> first.Fail? && second.Fail? && s.status == Delete
    ensures old(s.status) != Delete ==> first == Pass && second == GuardedOutcome(target) && s.status == GuardedNext(target, StatusCall.Activate)
  {
    first := s.ChangeStatus(target);
    second := s.Activate();
    DeleteIsAbsorbing([StatusCall.Activate]);
  }

  /** Exactly one of the four derived predicates holds of any entity. */
  lemma ExactlyOnePredicateHolds(e: Statusable)
    ensures e.IsActive() <==> e.status == Active
    ensures e.IsInactive() <==> e.status == Inactive
    ensures e.IsBlocked() <==> e.status == Blocked
    ensures e.IsDeleted() <==> e.status == Delete
    ensures (if e.IsActive() then 1 else 0) + (if e.IsInactive() then 1 else 0)
          + (if e.IsBlocked() then 1 else 0) + (if e.IsDeleted() then 1 else 0) == 1
  {
  }
}
