/** Memory-aware admission: a budget shared by guards that release it once, and the
    gates a task passes before its subprocess starts. */
module ResourceBudget {
  import opened Wrappers

  type u64 = x: int | 0 <= x < 0x1_0000_0000_0000_0000
  type u32 = x: int | 0 <= x < 0x1_0000_0000

  function SaturatingSub(a: int, b: int): (r: int)
    requires 0 <= a && 0 <= b
  {
    if a >= b then a - b else 0
  }

  datatype BudgetState = BudgetState(capacity: u64, committed: u64, active: u32)

  predicate CanProceed(s: BudgetState, estimate: u64) {
    SaturatingSub(s.capacity, s.committed) >= estimate || s.active == 0
  }

  // ---- Accounting for live reservations ------------------------------------------------

  // Above capacity only one reservation is non-zero.
  ghost predicate Alone<K>(live: map<K, u64>, k: K) {
    forall j :: j in live && j != k ==> live[j] == 0
  }

  lemma SumAlone<K>(live: map<K, u64>, k: K)
    requires k in live && Alone(live, k)
    ensures Sum(live) == live[k]
  {
    SumWithout(live, k);
    SumBounded(live - {k}, 0);
  }

  // The counters agree with the live reservations, and the bound holds.
  ghost predicate Accounts<K>(s: BudgetState, live: map<K, u64>) {
    && s.committed == Sum(live)
    && s.active == |live|
    && (s.committed <= s.capacity || exists k :: k in live && Alone(live, k))
  }

  function WrappingSucc(x: u32): u32 {
    if x + 1 < 0x1_0000_0000 then x + 1 else 0
  }

  // What an admission does to the counters; the 32-bit one wraps.
  function Admitted(s: BudgetState, estimate: u64): BudgetState
    requires s.committed + estimate < 0x1_0000_0000_0000_0000
  {
    s.(committed := s.committed + estimate, active := WrappingSucc(s.active))
  }

  // Admission: the 64-bit addition cannot overflow, and the accounts stay right exactly
  // when the 32-bit counter does not wrap.
  lemma AdmitKeeps<K>(s: BudgetState, live: map<K, u64>, k: K, estimate: u64)
    requires Accounts(s, live) && CanProceed(s, estimate) && k !in live
    ensures s.committed + estimate < 0x1_0000_0000_0000_0000
    ensures |live[k := estimate]| == |live| + 1
    ensures Accounts(Admitted(s, estimate), live[k := estimate]) <==> s.active + 1 < 0x1_0000_0000
  {
    var live' := live[k := estimate];
    SumWith(live, k, estimate);
    assert live'.Keys == live.Keys + {k};
    if s.active == 0 {
      assert live == map[];
      assert Alone(live', k);
    } else if s.committed > s.capacity {
      var j :| j in live && Alone(live, j);
      assert Alone(live', j);
    }
  }

  // Release: neither saturating subtraction clips.
  lemma ReleaseKeeps<K>(s: BudgetState, live: map<K, u64>, k: K)
    requires Accounts(s, live) && k in live
    ensures s.committed >= live[k] && s.active >= 1
    ensures Accounts(s.(committed := s.committed - live[k], active := s.active - 1), live - {k})
  {
    var live' := live - {k};
    SumWithout(live, k);
    assert live.Keys == live'.Keys + {k};
    if s.committed > s.capacity {
      var j :| j in live && Alone(live, j);
      if j == k {
        SumAlone(live, k);
      } else {
        assert Alone(live', j);
      }
    }
  }

  // Committed memory is at most the larger of the capacity and the largest live estimate.
  lemma CommittedBound<K>(s: BudgetState, live: map<K, u64>)
    requires Accounts(s, live)
    ensures s.committed <= s.capacity || exists k :: k in live && Alone(live, k) && s.committed == live[k]
  {
    if s.committed > s.capacity {
      var k :| k in live && Alone(live, k);
      SumAlone(live, k);
    }
  }

  // What giving back a reservation, or nothing, does to the counters.
  predicate Freed(s: BudgetState, inner: Option<u64>, s': BudgetState) {
    && s'.capacity == s.capacity
    && s'.committed == s.committed - (if inner.Some? then inner.value else 0)
    && s'.active == s.active - (if inner.Some? then 1 else 0)
  }

  // ---- The budget and its guards ---------------------------------------------------------

  class MemoryBudget {
    var state: BudgetState
    var coldFree: nat
    const coldSlots: nat
    ghost var live: map<MemoryGuard, u64>
    ghost var cold: set<MemoryGuard>

    ghost predicate Valid()
      reads this, live.Keys, cold
    {
      && Accounts(state, live)
      && coldFree + |cold| == coldSlots
      && (forall g :: g in live ==> g.budget == this && g.inner == Some(live[g]) && !g.coldPermit && g !in cold)
      && (forall g :: g in cold ==> g.budget == this && g.inner == None && g.coldPermit)
    }

    constructor (capacity: u64, coldSlots: nat)
      ensures Valid() && live == map[] && cold == {}
      ensures state == BudgetState(capacity, 0, 0) && coldFree == this.coldSlots == coldSlots
    {
      state := BudgetState(capacity, 0, 0);
      coldFree := coldSlots;
      this.coldSlots := coldSlots;
      live := map[];
      cold := {};
    }

    // One attempt of `reserve`, made under the lock. A waiter tries again after a release.
    // The budget stays in balance unless 2^32 guards are live at once.
    method TryReserve(estimate: u64) returns (g: MemoryGuard?)
      requires Valid()
      modifies this
      ensures cold == old(cold) && coldFree == old(coldFree)
      ensures g != null <==>
        old(state).committed + estimate <= old(state).capacity || estimate == 0 || old(live) == map[]
      ensures g == null ==> Valid() && state == old(state) && live == old(live)
      ensures g != null ==> fresh(g) && live == old(live)[g := estimate]
      ensures g != null ==> old(state).committed + estimate < 0x1_0000_0000_0000_0000
      ensures g != null ==> state.capacity == old(state).capacity
      ensures g != null ==> state.committed == old(state).committed + estimate
      ensures g != null ==> state.active == (old(state).active + 1) % 0x1_0000_0000
      ensures g != null ==> (Valid() <==> old(|live|) + 1 < 0x1_0000_0000)
    {
      if CanProceed(state, estimate) {
        var guard: MemoryGuard := new MemoryGuard(this, Some(estimate), false);
        AdmitKeeps(state, live, guard, estimate);
        hide Accounts;
        state := state.(committed := state.committed + estimate, active := WrappingSucc(state.active));
        live := live[guard := estimate];
        g := guard;
      } else {
        g := null;
      }
    }

    // A cold-start slot, if one is free.
    method TryReserveCold() returns (g: MemoryGuard?)
      requires Valid()
      modifies this
      ensures Valid() && state == old(state) && live == old(live)
      ensures g != null <==> old(coldFree) > 0
      ensures g == null ==> coldFree == old(coldFree) && cold == old(cold)
      ensures g != null ==> fresh(g) && cold == old(cold) + {g} && coldFree == old(coldFree) - 1
    {
      if coldFree > 0 {
        g := new MemoryGuard(this, None, true);
        coldFree := coldFree - 1;
        cold := cold + {g};
      } else {
        g := null;
      }
    }
  }

  class MemoryGuard {
    const budget: MemoryBudget
    var inner: Option<u64>
    var coldPermit: bool

    constructor (budget: MemoryBudget, inner: Option<u64>, coldPermit: bool)
      ensures this.budget == budget && this.inner == inner && this.coldPermit == coldPermit
    {
      this.budget, this.inner, this.coldPermit := budget, inner, coldPermit;
    }

    // Holds what its budget says it holds; a guard that holds nothing is known to neither list.
    ghost predicate Tracked()
      reads this, budget
    {
      && (inner.Some? <==> this in budget.live)
      && (coldPermit <==> this in budget.cold)
    }

    // Gives the reservation back, the first time only.
    method ReleaseInner()
      requires budget.Valid() && Tracked()
      modifies this`inner, budget`state, budget`live
      ensures budget.Valid() && Tracked() && inner == None
      ensures budget.live == old(budget.live) - {this}
      ensures Freed(old(budget.state), old(inner), budget.state)
    {
      if inner.Some? {
        var bytes := inner.value;
        inner := None;
        ReleaseKeeps(budget.state, budget.live, this);
        budget.state := budget.state.(
          committed := SaturatingSub(budget.state.committed, bytes),
          active := SaturatingSub(budget.state.active, 1));
        budget.live := budget.live - {this};
      }
    }

    // Dropping a guard releases whatever it still holds.
    method Drop()
      requires budget.Valid() && Tracked()
      modifies this, budget
      ensures budget.Valid() && Tracked() && inner == None && !coldPermit
      ensures budget.live == old(budget.live) - {this} && budget.cold == old(budget.cold) - {this}
      ensures budget.coldFree == old(budget.coldFree) + if old(coldPermit) then 1 else 0
      ensures Freed(old(budget.state), old(inner), budget.state)
    {
      hide Accounts;
      ReleaseInner();
      if coldPermit {
        coldPermit := false;
        budget.coldFree := budget.coldFree + 1;
        budget.cold := budget.cold - {this};
      }
    }

    // The measured peak is not used: what was reserved is what is freed.
    method ReleaseWithActual(peak: u64)
      requires budget.Valid() && Tracked()
      modifies this, budget
      ensures budget.Valid() && Tracked() && inner == None && !coldPermit
      ensures budget.live == old(budget.live) - {this} && budget.cold == old(budget.cold) - {this}
      ensures budget.coldFree == old(budget.coldFree) + if old(coldPermit) then 1 else 0
      ensures Freed(old(budget.state), old(inner), budget.state)
    {
      ReleaseInner();
      Drop();
    }
  }

}
