/** Rental contracts: the overlap guard of apps/api/src/modules/contract/contract.service.ts.

    A calendar date is a day number and a contract's id is its position. Rows are never deleted, and one
    request is one atomic step.
  */
module Contracts {
  import opened Options

  datatype Status = Draft | Active | Ended | Terminated {
    predicate Live() { Draft? || Active? }
  }

  /** From `start` to `end`, both included; without an end, for ever. */
  datatype Window = Window(start: int, end: Option<int>) {
    predicate Covers(day: int) {
      start <= day && (end.Some? ==> day <= end.value)
    }

    /** An end date before the start: a PATCH may leave one behind. */
    predicate Inverted() {
      end.Some? && end.value < start
    }
  }

  datatype Contract = Contract(unitId: string, tenantId: string, window: Window, status: Status)

  datatype Refusal = InvalidUnitId | InvalidTenantId | ContractOverlap | NotFound

  datatype Reply = Done(id: nat) | Refused(reason: Refusal)

  // ----- one request each -----------------------------------------------------------------

  /** The `where` clause of the overlap query, for one row. */
  predicate Clashes(existing: Window, wanted: Window) {
    && (wanted.end.Some? ==> existing.start <= wanted.end.value)
    && (existing.end.Some? ==> existing.end.value >= wanted.start)
  }

  predicate Blocks(c: Contract, unitId: string, wanted: Window) {
    c.unitId == unitId && c.status.Live() && Clashes(c.window, wanted)
  }

  predicate Overlap(contracts: seq<Contract>, unitId: string, wanted: Window, excluded: Option<nat>) {
    exists i :: 0 <= i < |contracts| && excluded != Some(i) && Blocks(contracts[i], unitId, wanted)
  }

  function Insert(contracts: seq<Contract>, units: set<string>, tenants: set<string>,
                  unitId: string, tenantId: string, window: Window): (seq<Contract>, Reply) {
    if unitId !in units then (contracts, Refused(InvalidUnitId))
    else if tenantId !in tenants then (contracts, Refused(InvalidTenantId))
    else if Overlap(contracts, unitId, window, None) then (contracts, Refused(ContractOverlap))
    else (contracts + [Contract(unitId, tenantId, window, Draft)], Done(|contracts|))
  }

  /** `None` leaves the status or the end date as it is. */
  function Patched(c: Contract, status: Option<Status>, end: Option<int>): Contract {
    c.(status := if status.Some? then status.value else c.status,
       window := if end.Some? then c.window.(end := end) else c.window)
  }

  function Patch(contracts: seq<Contract>, id: nat, status: Option<Status>, end: Option<int>)
    : (seq<Contract>, Reply)
  {
    if id >= |contracts| then (contracts, Refused(NotFound))
    else
      var row := Patched(contracts[id], status, end);
      if row.status.Live() && (end.Some? || !contracts[id].status.Live())
         && Overlap(contracts, row.unitId, row.window, Some(id))
      then (contracts, Refused(ContractOverlap))
      else (contracts[id := row], Done(id))
  }

  // ----- the service ------------------------------------------------------------------------

  class ContractService {
    var contracts: seq<Contract>

    constructor ()
      ensures contracts == []
    {
      contracts := [];
    }

    /** `false` stands for the `ContractOverlap` exception. */
    method AssertNoOverlap(unitId: string, window: Window, excludeId: Option<nat>) returns (ok: bool)
      ensures ok <==> !Overlap(contracts, unitId, window, excludeId)
    {
      for i := 0 to |contracts|
        invariant forall k :: 0 <= k < i && excludeId != Some(k) ==> !Blocks(contracts[k], unitId, window)
      {
        var c := contracts[i];
        var startCondition := window.end.None? || c.window.start <= window.end.value;
        var endCondition := c.window.end.None? || c.window.end.value >= window.start;
        if excludeId != Some(i) && c.unitId == unitId && (c.status == Draft || c.status == Active)
           && startCondition && endCondition {
          return false;
        }
      }
      ok := true;
    }

    method Create(units: set<string>, tenants: set<string>, unitId: string, tenantId: string, window: Window)
      returns (reply: Reply)
      modifies this
      ensures (contracts, reply) == Insert(old(contracts), units, tenants, unitId, tenantId, window)
    {
      if unitId !in units {
        return Refused(InvalidUnitId);
      }
      if tenantId !in tenants {
        return Refused(InvalidTenantId);
      }
      var ok := AssertNoOverlap(unitId, window, None);
      if !ok {
        return Refused(ContractOverlap);
      }
      reply := Done(|contracts|);
      contracts := contracts + [Contract(unitId, tenantId, window, Draft)];
    }

    method Update(id: nat, status: Option<Status>, end: Option<int>) returns (reply: Reply)
      modifies this
      ensures (contracts, reply) == Patch(old(contracts), id, status, end)
    {
      if id >= |contracts| {
        return Refused(NotFound);
      }
      var existing := contracts[id];
      var newStatus := if status.Some? then status.value else existing.status;
      var wasActiveLike := existing.status == Draft || existing.status == Active;
      var isActiveLike := newStatus == Draft || newStatus == Active;
      var datesChanged := end.Some?;
      var newWindow := if datesChanged then Window(existing.window.start, end) else existing.window;
      if isActiveLike && (datesChanged || !wasActiveLike) {
        var ok := AssertNoOverlap(existing.unitId, newWindow, Some(id));
        if !ok {
          return Refused(ContractOverlap);
        }
      }
      contracts := contracts[id := existing.(status := newStatus, window := newWindow)];
      reply := Done(id);
    }
  }

  // ----- what the guard means -----------------------------------------------------------------

  /** Two windows clash exactly if they share a day, or one is inverted and the other reaches from its end
      to its start. The guard is symmetric. */
  lemma ClashMeans(a: Window, b: Window)
    ensures Clashes(a, b) <==> Clashes(b, a)
    ensures Clashes(a, b) <==>
      || (exists day :: a.Covers(day) && b.Covers(day))
      || (a.Inverted() && b.Covers(a.start) && b.Covers(a.end.value))
      || (b.Inverted() && a.Covers(b.start) && a.Covers(b.end.value))
  {
    if Clashes(a, b) && !a.Inverted() && !b.Inverted() {
      var day := if a.start < b.start then b.start else a.start;
      assert a.Covers(day) && b.Covers(day);
    }
  }

  // ----- every run ------------------------------------------------------------------------------

  datatype Op =
    | Create(units: set<string>, tenants: set<string>, unitId: string, tenantId: string, window: Window)
    | Update(id: nat, status: Option<Status>, end: Option<int>)

  function Apply(contracts: seq<Contract>, op: Op): (seq<Contract>, Reply) {
    match op
    case Create(units, tenants, unitId, tenantId, window) => Insert(contracts, units, tenants, unitId, tenantId, window)
    case Update(id, status, end) => Patch(contracts, id, status, end)
  }

  function Run(contracts: seq<Contract>, ops: seq<Op>): seq<Contract>
    decreases |ops|
  {
    if ops == [] then contracts else Run(Apply(contracts, ops[0]).0, ops[1..])
  }

  /** No two live contracts on one unit clash. */
  predicate Apart(a: Contract, b: Contract) {
    !(b.status.Live() && Blocks(a, b.unitId, b.window))
  }

  predicate Inv(contracts: seq<Contract>) {
    forall i, j :: 0 <= i < j < |contracts| ==> Apart(contracts[i], contracts[j])
  }

  lemma ApartSymmetric(a: Contract, b: Contract)
    ensures Apart(a, b) <==> Apart(b, a)
  {
    ClashMeans(a.window, b.window);
  }

  lemma UpdateKeepsInv(contracts: seq<Contract>, id: nat, status: Option<Status>, end: Option<int>)
    requires Inv(contracts)
    ensures Inv(Patch(contracts, id, status, end).0)
  {
    var after := Patch(contracts, id, status, end).0;
    if after != contracts {
      forall i | 0 <= i < |contracts| && i != id
        ensures Apart(contracts[i], after[id]) && Apart(after[id], contracts[i])
      {
        ApartSymmetric(contracts[i], contracts[id]);
        ApartSymmetric(contracts[i], after[id]);
        assert if i < id then Apart(contracts[i], contracts[id]) else Apart(contracts[id], contracts[i]);
      }
      forall i, j | 0 <= i < j < |after|
        ensures Apart(after[i], after[j])
      {
        assert i != id && j != id ==> Apart(contracts[i], contracts[j]);
      }
    }
  }

  lemma ApplyKeepsInv(contracts: seq<Contract>, op: Op)
    requires Inv(contracts)
    ensures Inv(Apply(contracts, op).0)
  {
    match op
    case Create(_, _, _, _, _) =>
      var after := Apply(contracts, op).0;
      forall i, j | 0 <= i < j < |after|
        ensures Apart(after[i], after[j])
      {
        assert j < |contracts| ==> Apart(contracts[i], contracts[j]);
      }
    case Update(id, status, end) => UpdateKeepsInv(contracts, id, status, end);
  }

  lemma {:induction false} RunsKeepInv(contracts: seq<Contract>, ops: seq<Op>)
    requires Inv(contracts)
    ensures Inv(Run(contracts, ops))
    decreases |ops|
  {
    if ops != [] {
      ApplyKeepsInv(contracts, ops[0]);
      RunsKeepInv(Apply(contracts, ops[0]).0, ops[1..]);
    }
  }

  predicate Occupied(c: Contract, unitId: string, day: int) {
    c.unitId == unitId && (c.status.Draft? || c.status.Active?) && c.window.Covers(day)
  }

  /** After any creates and updates, no day on a unit is covered by two draft or active contracts: with
      open-ended and reopened contracts, end dates edited while ended, and ends moved before the start. */
  lemma NoDayCoveredTwice(ops: seq<Op>, unitId: string, day: int, i: nat, j: nat)
    requires i < |Run([], ops)| && Occupied(Run([], ops)[i], unitId, day)
    requires j < |Run([], ops)| && Occupied(Run([], ops)[j], unitId, day)
    ensures i == j
  {
    RunsKeepInv([], ops);
    if i < j {
      NotBoth(Run([], ops), unitId, day, i, j);
    } else if j < i {
      NotBoth(Run([], ops), unitId, day, j, i);
    }
  }

  lemma NotBoth(contracts: seq<Contract>, unitId: string, day: int, i: nat, j: nat)
    requires Inv(contracts) && i < j < |contracts|
    ensures !(Occupied(contracts[i], unitId, day) && Occupied(contracts[j], unitId, day))
  {
    var a, b := contracts[i], contracts[j];
    assert Apart(a, b);
    ClashMeans(a.window, b.window);
  }

  // ----- when a request is refused ----------------------------------------------------------------

  /** Another live contract on the unit covers a day of the window. */
  ghost predicate SharesADay(contracts: seq<Contract>, unitId: string, window: Window, excluded: Option<nat>) {
    exists i, day :: 0 <= i < |contracts| && excluded != Some(i)
      && Occupied(contracts[i], unitId, day) && window.Covers(day)
  }

  /** The second window covers both ends of the first, which is inverted. */
  predicate ReachesAcross(inverted: Window, other: Window) {
    inverted.Inverted() && other.Covers(inverted.start) && other.Covers(inverted.end.value)
  }

  /** Another live contract on the unit has an inverted window in the way, or is in the way of an inverted one. */
  predicate MeetsInverted(contracts: seq<Contract>, unitId: string, window: Window, excluded: Option<nat>) {
    exists i :: 0 <= i < |contracts| && excluded != Some(i)
      && contracts[i].unitId == unitId && contracts[i].status.Live()
      && (ReachesAcross(contracts[i].window, window) || ReachesAcross(window, contracts[i].window))
  }

  lemma OverlapMeans(contracts: seq<Contract>, unitId: string, window: Window, excluded: Option<nat>)
    ensures Overlap(contracts, unitId, window, excluded) <==>
      SharesADay(contracts, unitId, window, excluded) || MeetsInverted(contracts, unitId, window, excluded)
  {
    if Overlap(contracts, unitId, window, excluded) {
      var i :| 0 <= i < |contracts| && excluded != Some(i) && Blocks(contracts[i], unitId, window);
      ClashMeans(contracts[i].window, window);
      if day :| contracts[i].window.Covers(day) && window.Covers(day) {
        assert Occupied(contracts[i], unitId, day);
      }
    }
    if i, day :| (0 <= i < |contracts| && excluded != Some(i)
                  && Occupied(contracts[i], unitId, day) && window.Covers(day)) {
      ClashMeans(contracts[i].window, window);
      assert Blocks(contracts[i], unitId, window);
    }
    if i :| (0 <= i < |contracts| && excluded != Some(i)
             && contracts[i].unitId == unitId && contracts[i].status.Live()
             && (ReachesAcross(contracts[i].window, window) || ReachesAcross(window, contracts[i].window))) {
      ClashMeans(contracts[i].window, window);
      assert Blocks(contracts[i], unitId, window);
    }
  }

  /** In every reachable state, a create is refused if and only if the unit or the tenant is unknown, the window
      shares a day with a live contract on the unit, or an inverted window is involved; otherwise the draft is
      added. */
  lemma CreateRefusedIff(ops: seq<Op>, units: set<string>, tenants: set<string>, unitId: string, tenantId: string,
                         window: Window)
    ensures var now := Run([], ops);
      Insert(now, units, tenants, unitId, tenantId, window)
      == if unitId !in units then (now, Refused(InvalidUnitId))
         else if tenantId !in tenants then (now, Refused(InvalidTenantId))
         else if SharesADay(now, unitId, window, None) || MeetsInverted(now, unitId, window, None)
         then (now, Refused(ContractOverlap))
         else (now + [Contract(unitId, tenantId, window, Draft)], Done(|now|))
  {
    OverlapMeans(Run([], ops), unitId, window, None);
  }

  /** A live contract has been through the guard, so leaving its dates and liveness alone needs no new check. */
  lemma LiveIsApart(contracts: seq<Contract>, id: nat)
    requires Inv(contracts) && id < |contracts| && contracts[id].status.Live()
    ensures !Overlap(contracts, contracts[id].unitId, contracts[id].window, Some(id))
  {
    forall i | 0 <= i < |contracts| && i != id
      ensures !Blocks(contracts[i], contracts[id].unitId, contracts[id].window)
    {
      ApartSymmetric(contracts[i], contracts[id]);
      assert if i < id then Apart(contracts[i], contracts[id]) else Apart(contracts[id], contracts[i]);
    }
  }

  /** What a request that names a contract leaves of it, field by field: the status and the end it asks for, if it
      asks for them. */
  predicate IsPatched(before: Contract, after: Contract, status: Option<Status>, end: Option<int>) {
    && after.status == (if status.Some? then status.value else before.status)
    && after.window.end == (if end.Some? then end else before.window.end)
    && after.unitId == before.unitId && after.tenantId == before.tenantId
    && after.window.start == before.window.start
  }

  /** Whether the patched contract would be a draft or active. */
  predicate WouldBeLive(c: Contract, status: Option<Status>) {
    var newStatus := if status.Some? then status.value else c.status;
    newStatus.Draft? || newStatus.Active?
  }

  /** In every reachable state, a patch is refused if and only if the contract would be a draft or active and its
      window, with the new end, shares a day with another live contract on the unit, or an inverted window is
      involved. Otherwise the contract gets what was asked for, keeps the rest, and no other row changes. The code
      does not run the guard for every such patch; the others cannot clash. */
  lemma UpdateRefusedIff(ops: seq<Op>, id: nat, status: Option<Status>, end: Option<int>)
    requires id < |Run([], ops)|
    ensures var now := Run([], ops);
      var c, (after, reply) := now[id], Patch(now, id, status, end);
      var window := Window(c.window.start, if end.Some? then end else c.window.end);
      if WouldBeLive(c, status)
         && (SharesADay(now, c.unitId, window, Some(id)) || MeetsInverted(now, c.unitId, window, Some(id)))
      then after == now && reply == Refused(ContractOverlap)
      else
        && reply == Done(id) && |after| == |now| && IsPatched(c, after[id], status, end)
        && forall k :: 0 <= k < |now| && k != id ==> after[k] == now[k]
  {
    var now := Run([], ops);
    var c := now[id];
    var window := Window(c.window.start, if end.Some? then end else c.window.end);
    RunsKeepInv([], ops);
    OverlapMeans(now, c.unitId, window, Some(id));
    assert Patched(c, status, end).window == window;
    if c.status.Live() {
      LiveIsApart(now, id);
    }
  }

  predicate NoneInverted(contracts: seq<Contract>) {
    forall i :: 0 <= i < |contracts| ==> !contracts[i].window.Inverted()
  }

  /** The request an operation makes of the unit, if it would leave a live contract there. */
  function Wanted(contracts: seq<Contract>, op: Op): Option<(string, Window, Option<nat>)> {
    match op
    case Create(_, _, unitId, _, window) => Some((unitId, window, None))
    case Update(id, status, end) =>
      if id < |contracts| && WouldBeLive(contracts[id], status)
      then
        var window := contracts[id].window;
        Some((contracts[id].unitId, Window(window.start, if end.Some? then end else window.end), Some(id)))
      else None
  }

  predicate Known(contracts: seq<Contract>, op: Op) {
    match op
    case Create(units, tenants, unitId, tenantId, _) => unitId in units && tenantId in tenants
    case Update(id, _, _) => id < |contracts|
  }

  /** So while no window is inverted, a request is refused if and only if it would put two live contracts on one
      day of a unit. */
  lemma RefusedOnlyForASharedDay(ops: seq<Op>, op: Op)
    requires Known(Run([], ops), op) && NoneInverted(Run([], ops))
    requires var wanted := Wanted(Run([], ops), op); wanted.Some? ==> !wanted.value.1.Inverted()
    ensures var now, wanted := Run([], ops), Wanted(Run([], ops), op);
      Apply(now, op).1 == Refused(ContractOverlap) <==>
        wanted.Some? && SharesADay(now, wanted.value.0, wanted.value.1, wanted.value.2)
    ensures Apply(Run([], ops), op).1.Refused? ==> Apply(Run([], ops), op) == (Run([], ops), Refused(ContractOverlap))
  {
    match op
    case Create(units, tenants, unitId, tenantId, window) =>
      CreateRefusedIff(ops, units, tenants, unitId, tenantId, window);
    case Update(id, status, end) =>
      UpdateRefusedIff(ops, id, status, end);
  }

  /** An end moved before the start leaves a contract that covers no day, and an open-ended contract around it is
      refused although the unit is free on every day. */
  lemma InvertedWindowBlocks() returns (ops: seq<Op>)
    ensures var now := Run([], ops);
      && (forall i, day :: 0 <= i < |now| ==> !Occupied(now[i], "u", day))
      && Insert(now, {"u"}, {"t"}, "u", "t", Window(1, None)) == (now, Refused(ContractOverlap))
  {
    var create := Create({"u"}, {"t"}, "u", "t", Window(10, Some(20)));
    var update := Update(0, None, Some(5));
    ops := [create, update];
    var one := [Contract("u", "t", Window(10, Some(20)), Draft)];
    var two := [Contract("u", "t", Window(10, Some(5)), Draft)];
    assert Apply([], create).0 == one && Apply(one, update).0 == two;
    assert ops[1..] == [update] && [update][1..] == [];
    assert Run(one, [update]) == Run(two, []) == two;
    assert Blocks(two[0], "u", Window(1, None));
  }

  /** In every reachable state, repeating an accepted patch is accepted and changes nothing more. */
  lemma PatchAgain(ops: seq<Op>, id: nat, status: Option<Status>, end: Option<int>)
    requires Patch(Run([], ops), id, status, end).1.Done?
    ensures var (after, reply) := Patch(Run([], ops), id, status, end);
      Patch(after, id, status, end) == (after, reply)
  {
    var before := Run([], ops);
    var after := Patch(before, id, status, end).0;
    RunsKeepInv([], ops);
    UpdateKeepsInv(before, id, status, end);
    if after[id].status.Live() {
      LiveIsApart(after, id);
    }
    assert after[id := after[id]] == after;
  }
}
