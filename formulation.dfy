/** The linear programme of `get_abstract_pyomo_model`, written as what a
    solution must satisfy: the derived sets of generators, consumers,
    storage units and curtailment-recording generators, and one predicate
    per constraint rule, joined into `Feasible`. Solving it is not part of
    the model; an assignment of values to every variable is given. */
module Formulation {

  /** A technology at a node, an element of U. */
  datatype Unit = Unit(tech: string, node: string)

  /** The data the programme is built from: the four sets in the order the
      data file lists them, and the parameters, each a partial map read with
      its declared default. */
  datatype Data = Data(
    T: seq<int>, N: seq<string>, H: seq<string>, U: seq<Unit>,
    is_consumer: map<string, real>, is_producer: map<string, real>,
    is_storage: map<string, real>, record_curtailment: map<string, real>,
    capacity_cost: map<string, real>, operational_cost: map<string, real>,
    operational_lifetime: map<string, real>,
    energy_capacity: map<Unit, real>, installed_capacity: map<Unit, real>,
    demand_profile: map<(string, int), real>, yearly_demand: map<string, real>,
    availability_profile: map<(string, int), real>)

  /** Values for every variable of the programme. */
  datatype Assignment = Assignment(
    OPEX: real, CAPEX: real, TOTEX: real, PENALTY: real,
    YearFactor: real, EnergySupTot: real, UnmetDemand: real,
    Pg: (Unit, int) -> real, Pd: (Unit, int) -> real,
    nSPd: (Unit, int) -> real, nSPg: (Unit, int) -> real,
    Es: (Unit, int) -> real, Pi: (string, int) -> real,
    Cg: Unit -> real, Ecap: Unit -> real)

  /** The penalty per unit of demand not met. */
  const PFAC: real := 1000000.0

  /** Hours in a year. */
  const HOURS: real := 8760.0

  /** The value of a parameter at `k`, or its declared default. */
  function Param<K>(m: map<K, real>, k: K, default: real): real {
    if k in m then m[k] else default
  }

  /** A flag parameter read as a condition: nonzero means set; the default
      is 0. */
  predicate Flag(m: map<string, real>, h: string) {
    Param(m, h, 0.0) != 0.0
  }

  // ---------------------------------------------------------------- derived sets

  /** The units of `us` whose technology has the flag `m` set, in order. */
  function Filter(us: seq<Unit>, m: map<string, real>): (r: seq<Unit>)
    ensures forall u :: u in r <==> u in us && Flag(m, u.tech)
    ensures |r| <= |us|
    ensures (forall i, j :: 0 <= i < j < |us| ==> us[i] != us[j]) ==>
              forall i, j :: 0 <= i < j < |r| ==> r[i] != r[j]
  {
    if us == [] then []
    else
      var init := Filter(us[..|us| - 1], m);
      var last := us[|us| - 1];
      assert forall u :: u in us <==> u in us[..|us| - 1] || u == last;
      assert (forall i, j :: 0 <= i < j < |us| ==> us[i] != us[j]) ==> last !in us[..|us| - 1];
      if Flag(m, last.tech) then init + [last] else init
  }

  /** Ug, the generators. */
  function Ug(d: Data): (r: seq<Unit>)
    ensures forall u :: u in r <==> u in d.U && Flag(d.is_producer, u.tech)
  {
    Filter(d.U, d.is_producer)
  }

  /** Uc, the consumers. */
  function Uc(d: Data): (r: seq<Unit>)
    ensures forall u :: u in r <==> u in d.U && Flag(d.is_consumer, u.tech)
  {
    Filter(d.U, d.is_consumer)
  }

  /** Us, the storage units. */
  function Us(d: Data): (r: seq<Unit>)
    ensures forall u :: u in r <==> u in d.U && Flag(d.is_storage, u.tech)
  {
    Filter(d.U, d.is_storage)
  }

  /** UgRE, the generators that record curtailment, taken from Ug. */
  function UgRE(d: Data): (r: seq<Unit>)
    ensures forall u :: u in r <==> u in Ug(d) && Flag(d.record_curtailment, u.tech)
    ensures forall u :: u in r ==> u in d.U && Flag(d.is_producer, u.tech)
  {
    Filter(Ug(d), d.record_curtailment)
  }

  /** When no technology carries two role flags, no unit is in two of the
      role sets. */
  lemma RolesDisjoint(d: Data)
    requires forall h :: !(Flag(d.is_producer, h) && Flag(d.is_consumer, h))
    requires forall h :: !(Flag(d.is_producer, h) && Flag(d.is_storage, h))
    requires forall h :: !(Flag(d.is_consumer, h) && Flag(d.is_storage, h))
    ensures forall u :: !(u in Ug(d) && u in Uc(d))
    ensures forall u :: !(u in Ug(d) && u in Us(d))
    ensures forall u :: !(u in Uc(d) && u in Us(d))
  {
  }

  // ---------------------------------------------------------------- timesteps

  /** The timestep before `t` in the storage cycle: the last one before the
      first, `t - 1` otherwise. */
  function Pred(T: seq<int>, t: int): int
    requires |T| > 0
  {
    if t == T[0] then T[|T| - 1] else t - 1
  }

  /** The timesteps 1 to `n`, as the data file lists them. */
  function Range(n: nat): (r: seq<int>)
    ensures |r| == n && forall i :: 0 <= i < n ==> r[i] == i + 1
  {
    seq(n, i requires 0 <= i < n => i + 1)
  }

  /** Over 1..n the predecessor wraps from 1 to n and otherwise steps back
      by one, so it stays within the timesteps and no two timesteps share a
      predecessor. */
  lemma PredOfRange(n: nat)
    requires n > 0
    ensures Pred(Range(n), 1) == n
    ensures forall t :: t in Range(n) && t != 1 ==> Pred(Range(n), t) == t - 1
    ensures forall t :: t in Range(n) ==> Pred(Range(n), t) in Range(n)
    ensures forall s, t :: s in Range(n) && t in Range(n) && Pred(Range(n), s) == Pred(Range(n), t) ==> s == t
  {
    var T := Range(n);
    forall t | t in T ensures Pred(T, t) in T {
      var i :| 0 <= i < n && T[i] == t;
      if i > 0 {
        assert T[i - 1] == t - 1;
      }
    }
  }

  // ---------------------------------------------------------------- sums

  /** The sum of `v(u, t)` over the timesteps `ts`. */
  function SumT(ts: seq<int>, v: (Unit, int) -> real, u: Unit): real {
    if ts == [] then 0.0 else SumT(ts[..|ts| - 1], v, u) + v(u, ts[|ts| - 1])
  }

  /** The sum of `v(u, t)` over the units `us` and the timesteps `ts`. */
  function SumUT(us: seq<Unit>, ts: seq<int>, v: (Unit, int) -> real): real {
    if us == [] then 0.0 else SumUT(us[..|us| - 1], ts, v) + SumT(ts, v, us[|us| - 1])
  }

  /** The sum of `w(h, n)` over the technologies and nodes whose pair is in
      `members`, as the generator expressions over H and N are written. */
  function SumHN(hs: seq<string>, ns: seq<string>, members: seq<Unit>, w: Unit -> real): real {
    if hs == [] then 0.0 else SumHN(hs[..|hs| - 1], ns, members, w) + SumN(hs[|hs| - 1], ns, members, w)
  }

  function SumN(h: string, ns: seq<string>, members: seq<Unit>, w: Unit -> real): real {
    if ns == [] then 0.0
    else
      var u := Unit(h, ns[|ns| - 1]);
      SumN(h, ns[..|ns| - 1], members, w) + (if u in members then w(u) else 0.0)
  }

  /** The sum of `v(h, n, t)` over the technologies at node `n` in
      `members`. */
  function SumAtNode(hs: seq<string>, n: string, t: int, members: seq<Unit>, v: (Unit, int) -> real): real {
    if hs == [] then 0.0
    else
      var u := Unit(hs[|hs| - 1], n);
      SumAtNode(hs[..|hs| - 1], n, t, members, v) + (if u in members then v(u, t) else 0.0)
  }

  /** The sum of `Pi[n, t]` over the nodes. */
  function SumPi(ns: seq<string>, t: int, pi: (string, int) -> real): real {
    if ns == [] then 0.0 else SumPi(ns[..|ns| - 1], t, pi) + pi(ns[|ns| - 1], t)
  }

  /** `v(h, n, t) * c`. */
  function ScaledBy(v: (Unit, int) -> real, c: real): (Unit, int) -> real {
    (u: Unit, t: int) => v(u, t) * c
  }

  /** `Pg[h, n, t] * operational_cost[h]`. */
  function Costed(v: (Unit, int) -> real, cost: map<string, real>): (Unit, int) -> real {
    (u: Unit, t: int) => v(u, t) * Param(cost, u.tech, 0.0)
  }

  /** `Cg[h, n] * capacity_cost[h] / operational_lifetime[h]`, lifetime 100
      by default. */
  function CapexWeight(d: Data, cg: Unit -> real): Unit -> real
    requires LifetimesNonzero(d)
  {
    (u: Unit) => cg(u) * Param(d.capacity_cost, u.tech, 0.0) / Param(d.operational_lifetime, u.tech, 100.0)
  }

  /** The period cost of one generator, `sum(Pg * operational_cost)` over
      the timesteps. */
  function PeriodCostWeight(d: Data, pg: (Unit, int) -> real): Unit -> real {
    (u: Unit) => SumT(d.T, Costed(pg, d.operational_cost), u)
  }

  // ---------------------------------------------------------------- the rules

  /** No zero lifetime to divide a capacity cost by. */
  predicate LifetimesNonzero(d: Data) {
    forall h :: h in d.operational_lifetime ==> d.operational_lifetime[h] != 0.0
  }

  /** What the programme needs of its data before any rule can be stated:
      timesteps to divide the year by, no zero lifetime (Python raises on
      either), and U within H × N, as the declaration of U demands. */
  predicate WellFormed(d: Data) {
    && |d.T| > 0
    && LifetimesNonzero(d)
    && forall u :: u in d.U ==> u.tech in d.H && u.node in d.N
  }

  /** `24 * 365 / len(model.T)`. */
  function YearFactorOf(d: Data): real
    requires |d.T| > 0
  {
    HOURS / (|d.T| as real)
  }

  /** The variables declared `NonNegativeReals`, on their index sets. */
  predicate NonNegative(d: Data, a: Assignment) {
    && (forall u, t :: u in Ug(d) && t in d.T ==> a.Pg(u, t) >= 0.0)
    && (forall u, t :: u in Us(d) && t in d.T ==> a.Pg(u, t) >= 0.0)
    && (forall u, t :: u in Uc(d) && t in d.T ==> a.Pd(u, t) >= 0.0)
    && (forall u, t :: u in Us(d) && t in d.T ==> a.Pd(u, t) >= 0.0)
    && (forall u, t :: u in Uc(d) && t in d.T ==> a.nSPd(u, t) >= 0.0)
    && (forall u, t :: u in UgRE(d) && t in d.T ==> a.nSPg(u, t) >= 0.0)
    && (forall u, t :: u in Us(d) && t in d.T ==> a.Es(u, t) >= 0.0)
    && (forall u :: u in Ug(d) ==> a.Cg(u) >= 0.0)
    && (forall u :: u in Us(d) ==> a.Ecap(u) >= 0.0)
  }

  predicate TotexRule(a: Assignment) {
    a.TOTEX == a.CAPEX + a.OPEX + a.PENALTY
  }

  predicate PenaltyRule(d: Data, a: Assignment) {
    a.PENALTY == SumUT(Uc(d), d.T, ScaledBy(a.nSPd, PFAC))
  }

  predicate CapexRule(d: Data, a: Assignment)
    requires LifetimesNonzero(d)
  {
    a.CAPEX == SumHN(d.H, d.N, Ug(d), CapexWeight(d, a.Cg))
  }

  predicate OpexRule(d: Data, a: Assignment)
    requires |d.T| > 0
  {
    a.OPEX == SumHN(d.H, d.N, Ug(d), PeriodCostWeight(d, a.Pg)) * YearFactorOf(d)
  }

  predicate GlobalBalanceRule(d: Data, a: Assignment) {
    forall t :: t in d.T ==> SumPi(d.N, t, a.Pi) == 0.0
  }

  /** Storage flows take no part: only generators produce and only
      consumers consume at a node. */
  predicate LocalBalanceRule(d: Data, a: Assignment) {
    forall n, t :: n in d.N && t in d.T ==>
      SumAtNode(d.H, n, t, Ug(d), a.Pg) - SumAtNode(d.H, n, t, Uc(d), a.Pd) == a.Pi(n, t)
  }

  predicate EnergySuppliedRule(d: Data, a: Assignment)
    requires |d.T| > 0
  {
    a.EnergySupTot == SumUT(Uc(d), d.T, a.Pd) * YearFactorOf(d)
  }

  predicate UnmetDemandRule(d: Data, a: Assignment) {
    a.UnmetDemand == SumUT(Uc(d), d.T, a.nSPd)
  }

  /** Only with `fix_capacities`: the capacities are the slider values. */
  predicate FixCapacityRule(d: Data, a: Assignment) {
    && (forall u :: u in Ug(d) ==> a.Cg(u) == Param(d.installed_capacity, u, 0.0))
    && (forall u :: u in Us(d) ==> a.Ecap(u) == Param(d.energy_capacity, u, 0.0))
  }

  predicate CapacityRule(d: Data, a: Assignment) {
    forall u, t :: u in Ug(d) && t in d.T ==> a.Pg(u, t) <= a.Cg(u)
  }

  predicate StorageOperationRule(d: Data, a: Assignment)
    requires |d.T| > 0
  {
    forall u, t :: u in Us(d) && t in d.T ==>
      a.Es(u, t) == a.Es(u, Pred(d.T, t)) + a.Pd(u, t) - a.Pg(u, t)
  }

  predicate StorageLevelRule(d: Data, a: Assignment) {
    forall u, t :: u in Us(d) && t in d.T ==> a.Es(u, t) <= a.Ecap(u)
  }

  predicate YearFactorRule(d: Data, a: Assignment)
    requires |d.T| > 0
  {
    a.YearFactor == YearFactorOf(d)
  }

  /** `(yearly_demand[h] / year_factor) * demand_profile[h, t]`. */
  function ProfiledDemand(d: Data, u: Unit, t: int): real
    requires |d.T| > 0 && (u.tech, t) in d.demand_profile
  {
    (Param(d.yearly_demand, u.tech, 0.0) / YearFactorOf(d)) * d.demand_profile[(u.tech, t)]
  }

  /** The demand of a consumer at a timestep where its technology has a
      profile entry; where it has none, `demand_profile[h, t]` raises and
      the rule skips the constraint. */
  predicate DemandProfileRule(d: Data, a: Assignment)
    requires |d.T| > 0
  {
    forall u, t :: u in Uc(d) && t in d.T && (u.tech, t) in d.demand_profile ==>
      a.Pd(u, t) + a.nSPd(u, t) ==
        ProfiledDemand(d, u, t)
  }

  /** The output of a curtailment-recording generator, availability 1 by
      default. */
  predicate AvailabilityRule(d: Data, a: Assignment) {
    forall u, t :: u in UgRE(d) && t in d.T ==>
      a.Pg(u, t) + a.nSPg(u, t) == a.Cg(u) * Param(d.availability_profile, (u.tech, t), 1.0)
  }

  /** An assignment that satisfies every constraint of the programme built
      with or without `fix_capacities`. */
  predicate Feasible(d: Data, a: Assignment, fixCapacities: bool) {
    && WellFormed(d)
    && NonNegative(d, a)
    && TotexRule(a)
    && PenaltyRule(d, a)
    && CapexRule(d, a)
    && OpexRule(d, a)
    && GlobalBalanceRule(d, a)
    && LocalBalanceRule(d, a)
    && EnergySuppliedRule(d, a)
    && UnmetDemandRule(d, a)
    && (fixCapacities ==> FixCapacityRule(d, a))
    && CapacityRule(d, a)
    && StorageOperationRule(d, a)
    && StorageLevelRule(d, a)
    && YearFactorRule(d, a)
    && DemandProfileRule(d, a)
    && AvailabilityRule(d, a)
  }

  // ---------------------------------------------------------------- properties

  lemma {:induction false} SumTScaled(ts: seq<int>, v: (Unit, int) -> real, c: real, u: Unit)
    ensures SumT(ts, ScaledBy(v, c), u) == c * SumT(ts, v, u)
  {
    if ts != [] {
      SumTScaled(ts[..|ts| - 1], v, c, u);
    }
  }

  lemma {:induction false} SumUTScaled(us: seq<Unit>, ts: seq<int>, v: (Unit, int) -> real, c: real)
    ensures SumUT(us, ts, ScaledBy(v, c)) == c * SumUT(us, ts, v)
  {
    if us != [] {
      SumUTScaled(us[..|us| - 1], ts, v, c);
      SumTScaled(ts, v, c, us[|us| - 1]);
    }
  }

  /** The penalty is the unmet demand times 10^6, so the total cost is the
      capital cost, the operating cost and the priced unmet demand. */
  lemma TotalCost(d: Data, a: Assignment, fixCapacities: bool)
    requires Feasible(d, a, fixCapacities)
    ensures a.PENALTY == PFAC * a.UnmetDemand
    ensures a.TOTEX == a.CAPEX + a.OPEX + PFAC * a.UnmetDemand
  {
    SumUTScaled(Uc(d), d.T, a.nSPd, PFAC);
  }

  lemma {:induction false} InjectionSplit(d: Data, a: Assignment, ns: seq<string>, t: int)
    requires forall n :: n in ns ==>
               SumAtNode(d.H, n, t, Ug(d), a.Pg) - SumAtNode(d.H, n, t, Uc(d), a.Pd) == a.Pi(n, t)
    ensures SumPi(ns, t, a.Pi) == TotalAtNodes(d.H, ns, t, Ug(d), a.Pg) - TotalAtNodes(d.H, ns, t, Uc(d), a.Pd)
  {
    if ns != [] {
      InjectionSplit(d, a, ns[..|ns| - 1], t);
    }
  }

  /** The sum over the nodes of `SumAtNode`. */
  function TotalAtNodes(hs: seq<string>, ns: seq<string>, t: int, members: seq<Unit>, v: (Unit, int) -> real): real {
    if ns == [] then 0.0
    else TotalAtNodes(hs, ns[..|ns| - 1], t, members, v) + SumAtNode(hs, ns[|ns| - 1], t, members, v)
  }

  /** At every timestep the generators together produce exactly what the
      consumers together consume; batteries do not enter the balance. */
  lemma SupplyMeetsConsumption(d: Data, a: Assignment, fixCapacities: bool, t: int)
    requires Feasible(d, a, fixCapacities) && t in d.T
    ensures TotalAtNodes(d.H, d.N, t, Ug(d), a.Pg) == TotalAtNodes(d.H, d.N, t, Uc(d), a.Pd)
  {
    assert LocalBalanceRule(d, a);
    forall n | n in d.N
      ensures SumAtNode(d.H, n, t, Ug(d), a.Pg) - SumAtNode(d.H, n, t, Uc(d), a.Pd) == a.Pi(n, t)
    {
    }
    InjectionSplit(d, a, d.N, t);
  }

  /** The sum of `v(u, pred(t))` over the timesteps `ts`. */
  function SumPred(ts: seq<int>, T: seq<int>, v: (Unit, int) -> real, u: Unit): real
    requires |T| > 0
  {
    if ts == [] then 0.0 else SumPred(ts[..|ts| - 1], T, v, u) + v(u, Pred(T, ts[|ts| - 1]))
  }

  lemma {:induction false} StorageSums(ts: seq<int>, T: seq<int>, a: Assignment, u: Unit)
    requires |T| > 0
    requires forall t :: t in ts ==> a.Es(u, t) == a.Es(u, Pred(T, t)) + a.Pd(u, t) - a.Pg(u, t)
    ensures SumT(ts, a.Es, u) == SumPred(ts, T, a.Es, u) + SumT(ts, a.Pd, u) - SumT(ts, a.Pg, u)
  {
    if ts != [] {
      StorageSums(ts[..|ts| - 1], T, a, u);
    }
  }

  /** Stepping every timestep of 1..m back by one, with 1 wrapping to n,
      sums the level at n and at 1..m-1. */
  lemma {:induction false} ShiftedSum(n: nat, m: nat, v: (Unit, int) -> real, u: Unit)
    requires 0 < m <= n
    ensures SumPred(Range(m), Range(n), v, u) == v(u, n) + SumT(Range(m - 1), v, u)
  {
    assert Range(m)[..m - 1] == Range(m - 1);
    if m > 1 {
      ShiftedSum(n, m - 1, v, u);
      assert Range(m - 1)[..m - 2] == Range(m - 2);
      assert Range(n)[0] == 1;
    } else {
      assert Range(n)[0] == 1 && Range(n)[n - 1] == n;
    }
  }

  /** Over a cycle of timesteps 1..n a storage unit gives out exactly what
      it takes in: the level equations telescope around the cycle. */
  lemma StorageCycle(d: Data, a: Assignment, fixCapacities: bool, u: Unit)
    requires Feasible(d, a, fixCapacities) && d.T == Range(|d.T|) && u in Us(d)
    ensures SumT(d.T, a.Pd, u) == SumT(d.T, a.Pg, u)
  {
    var n := |d.T|;
    assert StorageOperationRule(d, a);
    StorageSums(d.T, d.T, a, u);
    ShiftedSum(n, n, a.Es, u);
    assert Range(n)[..n - 1] == Range(n - 1);
  }

  /** Curtailment is what is missing from the available output, so a
      curtailment-recording generator never exceeds it. */
  lemma AvailabilityBound(d: Data, a: Assignment, fixCapacities: bool, u: Unit, t: int)
    requires Feasible(d, a, fixCapacities) && t in d.T && u in UgRE(d)
    ensures a.Pg(u, t) <= a.Cg(u) * Param(d.availability_profile, (u.tech, t), 1.0)
  {
    CurtailmentFacts(d, a, u, t);
  }

  /** Unmet demand is what is missing from the profiled demand, so a
      consumer never takes more than its profile asks for. */
  lemma DemandBound(d: Data, a: Assignment, fixCapacities: bool, u: Unit, t: int)
    requires Feasible(d, a, fixCapacities) && t in d.T && u in Uc(d) && (u.tech, t) in d.demand_profile
    ensures a.Pd(u, t) <= ProfiledDemand(d, u, t)
  {
    UnmetFacts(d, a, u, t);
  }

  lemma CurtailmentFacts(d: Data, a: Assignment, u: Unit, t: int)
    requires NonNegative(d, a) && AvailabilityRule(d, a) && t in d.T && u in UgRE(d)
    ensures a.nSPg(u, t) >= 0.0
    ensures a.Pg(u, t) + a.nSPg(u, t) == a.Cg(u) * Param(d.availability_profile, (u.tech, t), 1.0)
  {
  }

  lemma UnmetFacts(d: Data, a: Assignment, u: Unit, t: int)
    requires |d.T| > 0 && NonNegative(d, a) && DemandProfileRule(d, a)
    requires t in d.T && u in Uc(d) && (u.tech, t) in d.demand_profile
    ensures a.nSPd(u, t) >= 0.0
    ensures a.Pd(u, t) + a.nSPd(u, t) ==
              ProfiledDemand(d, u, t)
  {
  }

  lemma {:induction false} SumNAgree(h: string, ns: seq<string>, members: seq<Unit>, w: Unit -> real, x: Unit -> real)
    requires forall u :: u in members ==> w(u) == x(u)
    ensures SumN(h, ns, members, w) == SumN(h, ns, members, x)
  {
    if ns != [] {
      SumNAgree(h, ns[..|ns| - 1], members, w, x);
    }
  }

  lemma {:induction false} SumHNAgree(hs: seq<string>, ns: seq<string>, members: seq<Unit>, w: Unit -> real, x: Unit -> real)
    requires forall u :: u in members ==> w(u) == x(u)
    ensures SumHN(hs, ns, members, w) == SumHN(hs, ns, members, x)
  {
    if hs != [] {
      SumHNAgree(hs[..|hs| - 1], ns, members, w, x);
      SumNAgree(hs[|hs| - 1], ns, members, w, x);
    }
  }

  /** With `fix_capacities` the capacities are the slider values, so the
      capital cost is determined by the data alone. */
  lemma FixedCapacities(d: Data, a: Assignment)
    requires Feasible(d, a, true)
    ensures forall u :: u in Ug(d) ==> a.Cg(u) == Param(d.installed_capacity, u, 0.0)
    ensures forall u :: u in Us(d) ==> a.Ecap(u) == Param(d.energy_capacity, u, 0.0)
    ensures a.CAPEX == SumHN(d.H, d.N, Ug(d), CapexWeight(d, InstalledOf(d)))
  {
    FixedCapex(d, a);
  }

  lemma FixedCapex(d: Data, a: Assignment)
    requires LifetimesNonzero(d) && FixCapacityRule(d, a) && CapexRule(d, a)
    ensures a.CAPEX == SumHN(d.H, d.N, Ug(d), CapexWeight(d, InstalledOf(d)))
  {
    forall u | u in Ug(d)
      ensures CapexWeight(d, a.Cg)(u) == CapexWeight(d, InstalledOf(d))(u)
    {
      assert a.Cg(u) == InstalledOf(d)(u);
    }
    SumHNAgree(d.H, d.N, Ug(d), CapexWeight(d, a.Cg), CapexWeight(d, InstalledOf(d)));
  }

  function InstalledOf(d: Data): Unit -> real {
    (u: Unit) => Param(d.installed_capacity, u, 0.0)
  }
}
