/**
 * The block id allocator: ids are handed out below a persisted maximum, which is raised by
 * `alloc_step` at a time. The persist call may fail with or without having taken effect, and the
 * process may restart at any time, seeded with the persisted maximum.
 */
module IdAllocator {
  import opened Common

  /** What the awaited persist call did. */
  datatype PersistOutcome = Persisted | FailedWithoutEffect | FailedWithEffect

  datatype AllocResult = Allocated(id: nat) | PersistFailed | Overflowed

  /** The durable maximum, written by the persist callback. */
  class MaxIdStore {
    var maxId: nat

    constructor () ensures maxId == 0 { maxId := 0; }

    method Persist(next: nat, outcome: PersistOutcome) returns (ok: bool)
      modifies this
      ensures ok <==> outcome == Persisted
      ensures maxId == if outcome == FailedWithoutEffect then old(maxId) else next
    {
      if outcome != FailedWithoutEffect {
        maxId := next;
      }
      ok := outcome == Persisted;
    }
  }

  /** The value of an allocator. */
  datatype Ids = Ids(lastId: nat, maxId: nat, step: nat)

  /** One call of `alloc_id`: the allocator, the durable maximum and the result after it. */
  function AllocSpec(a: Ids, durable: nat, outcome: PersistOutcome): (Ids, nat, AllocResult) {
    if a.lastId < a.maxId then
      (a.(lastId := a.lastId + 1), durable, Allocated(a.lastId + 1))
    else if a.lastId + a.step > U64_MAX then
      (a, durable, Overflowed)
    else
      var next := a.lastId + a.step;
      match outcome
      case Persisted => (a.(lastId := a.lastId + 1, maxId := next), next, Allocated(a.lastId + 1))
      case FailedWithoutEffect => (a, durable, PersistFailed)
      case FailedWithEffect => (a, next, PersistFailed)
  }

  class Allocator {
    var lastId: nat
    var maxId: nat
    const allocStep: nat

    function Value(): Ids reads this { Ids(lastId, maxId, allocStep) }

    constructor (lastId: nat, maxId: nat, allocStep: nat)
      requires allocStep > 0
      ensures Value() == Ids(lastId, maxId, allocStep)
    {
      this.lastId, this.maxId, this.allocStep := lastId, maxId, allocStep;
    }

    method AllocId(store: MaxIdStore, outcome: PersistOutcome) returns (r: AllocResult)
      modifies this, store
      ensures (Value(), store.maxId, r) == AllocSpec(old(Value()), old(store.maxId), outcome)
    {
      if lastId < maxId {
        lastId := lastId + 1;
        return Allocated(lastId);
      }
      if lastId + allocStep > U64_MAX {
        return Overflowed;
      }
      var next := lastId + allocStep;
      var ok := store.Persist(next, outcome);
      if !ok {
        return PersistFailed;
      }
      maxId := next;
      lastId := lastId + 1;
      r := Allocated(lastId);
    }
  }

  // ---------------------------------------------------------------------------
  // Histories of calls, failures and restarts
  // ---------------------------------------------------------------------------

  datatype Event = Issued(id: nat) | Restarted

  datatype State = State(ids: Ids, durable: nat, log: seq<Event>)

  datatype Action = Alloc(outcome: PersistOutcome) | Restart

  function Exec(s: State, a: Action): State {
    match a
    case Alloc(outcome) =>
      var (ids, durable, r) := AllocSpec(s.ids, s.durable, outcome);
      State(ids, durable, if r.Allocated? then s.log + [Issued(r.id)] else s.log)
    case Restart => State(Ids(s.durable, s.durable, s.ids.step), s.durable, s.log + [Restarted])
  }

  function After(s: State, run: seq<Action>): State
    decreases |run|
  {
    if run == [] then s else After(Exec(s, run[0]), run[1..])
  }

  function Start(step: nat): State { State(Ids(0, 0, step), 0, []) }

  /** The largest id handed out so far, 0 if none. */
  function LastIssued(log: seq<Event>): nat {
    if log == [] then 0
    else match log[|log| - 1]
      case Issued(id) => id
      case Restarted => LastIssued(log[..|log| - 1])
  }

  /** How far ids may have been skipped: one step for each restart since the last id. */
  function Ceiling(log: seq<Event>, step: nat): nat {
    if log == [] then 0
    else match log[|log| - 1]
      case Issued(id) => id
      case Restarted => Ceiling(log[..|log| - 1], step) + step
  }

  /** Every id is larger than all earlier ones and skips at most one step per restart in between. */
  ghost predicate LogOk(log: seq<Event>, step: nat) {
    forall j :: 0 <= j < |log| && log[j].Issued? ==>
      LastIssued(log[..j]) < log[j].id <= Ceiling(log[..j], step) + 1
  }

  ghost predicate Inv(s: State) {
    && s.ids.step > 0
    && s.ids.lastId <= s.ids.maxId <= s.durable <= s.ids.lastId + s.ids.step
    && LastIssued(s.log) <= s.ids.lastId <= Ceiling(s.log, s.ids.step)
    && LogOk(s.log, s.ids.step)
  }

  lemma LogExtends(log: seq<Event>, e: Event, step: nat)
    requires LogOk(log, step)
    requires e.Issued? ==> LastIssued(log) < e.id <= Ceiling(log, step) + 1
    ensures LogOk(log + [e], step)
    ensures LastIssued(log + [e]) == if e.Issued? then e.id else LastIssued(log)
    ensures Ceiling(log + [e], step) == if e.Issued? then e.id else Ceiling(log, step) + step
  {
    var log' := log + [e];
    assert log'[..|log|] == log;
    forall j | 0 <= j < |log'| && log'[j].Issued?
      ensures LastIssued(log'[..j]) < log'[j].id <= Ceiling(log'[..j], step) + 1
    {
      if j < |log| {
        assert log'[..j] == log[..j] && log[j] == log'[j];
      }
    }
  }

  lemma StepKeepsInv(s: State, a: Action)
    requires Inv(s)
    ensures Inv(Exec(s, a)) && Exec(s, a).ids.step == s.ids.step
  {
    match a
    case Alloc(outcome) =>
      var r := AllocSpec(s.ids, s.durable, outcome).2;
      if r.Allocated? { LogExtends(s.log, Issued(r.id), s.ids.step); }
    case Restart => LogExtends(s.log, Restarted, s.ids.step);
  }

  lemma {:induction false} RunKeepsInv(s: State, run: seq<Action>)
    requires Inv(s)
    ensures Inv(After(s, run)) && After(s, run).ids.step == s.ids.step
    decreases |run|
  {
    if run != [] {
      StepKeepsInv(s, run[0]);
      RunKeepsInv(Exec(s, run[0]), run[1..]);
    }
  }

  lemma {:induction false} LastIssuedBounds(log: seq<Event>, step: nat, i: nat)
    requires LogOk(log, step) && i < |log| && log[i].Issued?
    ensures log[i].id <= LastIssued(log)
  {
    var k := |log| - 1;
    if i < k {
      var init := log[..k];
      assert forall j :: 0 <= j < k ==> init[j] == log[j] && init[..j] == log[..j];
      LastIssuedBounds(init, step, i);
    }
  }

  /**
   * Over every history of calls, failed persists and restarts: ids strictly increase (so none is
   * handed out twice), none exceeds the persisted maximum, and an id skips at most `step` ids for
   * each restart since the id before it.
   */
  lemma IdsAreNeverReused(step: nat, run: seq<Action>)
    requires step > 0
    ensures var s := After(Start(step), run);
            && LogOk(s.log, step)
            && (forall i, j :: 0 <= i < j < |s.log| && s.log[i].Issued? && s.log[j].Issued? ==> s.log[i].id < s.log[j].id)
            && (forall i :: 0 <= i < |s.log| && s.log[i].Issued? ==> s.log[i].id <= s.durable)
  {
    RunKeepsInv(Start(step), run);
    var s := After(Start(step), run);
    forall i, j | 0 <= i < j < |s.log| && s.log[i].Issued? && s.log[j].Issued? ensures s.log[i].id < s.log[j].id {
      var before := s.log[..j];
      assert forall k :: 0 <= k < j ==> before[k] == s.log[k] && before[..k] == s.log[..k];
      LastIssuedBounds(before, step, i);
    }
    forall i | 0 <= i < |s.log| && s.log[i].Issued? ensures s.log[i].id <= s.durable {
      LastIssuedBounds(s.log, step, i);
    }
  }

  // ---------------------------------------------------------------------------
  // Ids are handed out
  // ---------------------------------------------------------------------------

  /** A call hands out the next id exactly if one is left below the maximum, or the maximum is raised and that is acknowledged. */
  lemma AllocatesIff(a: Ids, durable: nat, outcome: PersistOutcome)
    ensures var (_, _, r) := AllocSpec(a, durable, outcome);
      && (r.Allocated? <==> a.lastId < a.maxId || (a.lastId + a.step <= U64_MAX && outcome == Persisted))
      && (r.Allocated? ==> r.id == a.lastId + 1)
      && (r == Overflowed <==> a.lastId >= a.maxId && a.lastId + a.step > U64_MAX)
  {
  }

  /** A number of calls, each persist acknowledged. */
  function Allocs(n: nat): seq<Action> { if n == 0 then [] else [Alloc(Persisted)] + Allocs(n - 1) }

  /** The log of `n` ids handed out from `first` on. */
  function IssuedFrom(first: nat, n: nat): (log: seq<Event>)
    ensures |log| == n && forall i :: 0 <= i < n ==> log[i] == Issued(first + i)
  {
    seq(n, i requires 0 <= i < n => Issued(first + i))
  }

  /** With every persist acknowledged and no overflow, ids are handed out one by one without a gap. */
  lemma {:induction false} AllocsAreConsecutive(s: State, n: nat)
    requires s.ids.step > 0 && s.ids.lastId + n + s.ids.step <= U64_MAX
    ensures After(s, Allocs(n)).log == s.log + IssuedFrom(s.ids.lastId + 1, n)
    ensures After(s, Allocs(n)).ids.lastId == s.ids.lastId + n
    decreases n
  {
    if n > 0 {
      var s' := Exec(s, Alloc(Persisted));
      AllocatesIff(s.ids, s.durable, Persisted);
      AllocsAreConsecutive(s', n - 1);
      assert Allocs(n)[1..] == Allocs(n - 1);
      assert [Issued(s.ids.lastId + 1)] + IssuedFrom(s'.ids.lastId + 1, n - 1) == IssuedFrom(s.ids.lastId + 1, n);
    }
  }

  /** A restart goes on behind the persisted maximum, and a first call after it hands out the id behind it. */
  lemma RestartGoesOn(s: State)
    requires Inv(s) && s.durable + s.ids.step <= U64_MAX
    ensures Exec(Exec(s, Restart), Alloc(Persisted)).log == s.log + [Restarted, Issued(s.durable + 1)]
    ensures Exec(Exec(s, Restart), Alloc(Persisted)).durable == s.durable + s.ids.step
  {
  }
}
