/** Stock allocation, aggregation and settlement of reservations
    (modules/commerce/inventory_lifecycle.go and the stock loops of order_repository.go). */
module Inventory {
  import opened Base
  import opened Sums
  import opened Records

  // ---- Allocation of one line, and the plan of a whole cart.

  function Available(s: Snapshot): int { s.onHand - s.reserved }

  function TakenFrom(taken: map<Id, int>, id: Id): int {
    if id in taken then taken[id] else 0
  }

  function Fitting(candidates: set<Id>, rows: map<Id, Snapshot>, quantity: int, taken: map<Id, int>): set<Id> {
    set id | id in candidates && id in rows && Available(rows[id]) - TakenFrom(taken, id) >= quantity
  }

  /** The least-id candidate that can carry the whole line. It depends on the set of
      candidates only, not on the order in which they were collected. */
  function Allocation(candidates: set<Id>, rows: map<Id, Snapshot>, quantity: int, taken: map<Id, int>): Result<Id> {
    if quantity <= 0 then Err(InvalidInput)
    else
      var fit := Fitting(candidates, rows, quantity, taken);
      if fit == {} then Err(InsufficientInventory) else Ok(Least(fit))
  }

  /** After what earlier lines took, the snapshot still has the quantity to give. */
  predicate Carries(rows: map<Id, Snapshot>, taken: map<Id, int>, quantity: int, id: Id) {
    id in rows && quantity <= rows[id].onHand - rows[id].reserved - (if id in taken then taken[id] else 0)
  }

  /** A snapshot is found exactly when some candidate can carry a positive quantity, and
      it is the one with the least id. */
  ghost predicate LeastCarrier(candidates: set<Id>, rows: map<Id, Snapshot>, quantity: int, taken: map<Id, int>, r: Result<Id>) {
    && (r.Ok? <==> quantity > 0 && exists id :: id in candidates && Carries(rows, taken, quantity, id))
    && (r.Ok? ==> r.value in candidates && Carries(rows, taken, quantity, r.value))
    && (r.Ok? ==> forall id :: id in candidates && Carries(rows, taken, quantity, id) ==> r.value <= id)
    && (r.Err? ==> r.error == if quantity <= 0 then InvalidInput else InsufficientInventory)
  }

  lemma AllocationExact(candidates: set<Id>, rows: map<Id, Snapshot>, quantity: int, taken: map<Id, int>)
    ensures LeastCarrier(candidates, rows, quantity, taken, Allocation(candidates, rows, quantity, taken))
  {
    var fit := Fitting(candidates, rows, quantity, taken);
    assert forall id :: id in fit <==> id in candidates && Carries(rows, taken, quantity, id);
  }

  method AllocateLineSnapshot(candidates: seq<Id>, rows: map<Id, Snapshot>, quantity: int, taken: map<Id, int>)
    returns (r: Result<Id>)
    requires forall i :: 0 <= i < |candidates| ==> candidates[i] in rows
    ensures r == Allocation(Elements(candidates), rows, quantity, taken)
    ensures LeastCarrier(Elements(candidates), rows, quantity, taken, r)
  {
    hide LeastCarrier;
    AllocationExact(Elements(candidates), rows, quantity, taken);
    if quantity <= 0 {
      return Err(InvalidInput);
    }
    var ids := Elements(candidates);
    var sorted := SortedIds(ids);
    SortedIdsSorted(ids);
    var i := 0;
    while i < |sorted|
      invariant 0 <= i <= |sorted|
      invariant forall k :: 0 <= k < i ==> sorted[k] !in Fitting(ids, rows, quantity, taken)
    {
      var id := sorted[i];
      if Available(rows[id]) - TakenFrom(taken, id) >= quantity {
        assert IsLeast(id, Fitting(ids, rows, quantity, taken));
        return Ok(id);
      }
      i := i + 1;
    }
    r := Err(InsufficientInventory);
  }

  datatype Demand = Demand(candidates: set<Id>, quantity: int)

  /** Quantity the first |choices| lines take from snapshot id. */
  function Taken(lines: seq<Demand>, choices: seq<Id>, id: Id): int
    requires |choices| <= |lines|
  {
    if choices == [] then 0
    else
      var n := |choices| - 1;
      Taken(lines, choices[..n], id) + if choices[n] == id then lines[n].quantity else 0
  }

  /** Line by line, each choice the least snapshot that fits what is left. */
  ghost predicate IsPlan(lines: seq<Demand>, rows: map<Id, Snapshot>, choices: seq<Id>) {
    && |choices| <= |lines|
    && forall i :: 0 <= i < |choices| ==> PlannedAt(lines, rows, choices, i)
  }

  ghost predicate PlannedAt(lines: seq<Demand>, rows: map<Id, Snapshot>, choices: seq<Id>, i: nat)
    requires i < |choices| <= |lines|
  {
    lines[i].quantity > 0 && IsLeast(choices[i], LeftFitting(lines, rows, choices[..i]))
  }

  /** Candidates that can still carry the next line after the choices made so far. */
  function LeftFitting(lines: seq<Demand>, rows: map<Id, Snapshot>, choices: seq<Id>): set<Id>
    requires |choices| < |lines|
  {
    var line := lines[|choices|];
    set id | id in line.candidates && id in rows && Available(rows[id]) - Taken(lines, choices, id) >= line.quantity
  }

  /** A plan never takes more of a snapshot than is available, at any prefix. */
  lemma {:induction false} PlanSufficient(lines: seq<Demand>, rows: map<Id, Snapshot>, choices: seq<Id>, id: Id)
    requires IsPlan(lines, rows, choices)
    ensures Taken(lines, choices, id) >= 0
    ensures id in choices ==> id in rows && Taken(lines, choices, id) <= Available(rows[id])
    ensures id !in choices ==> Taken(lines, choices, id) == 0
  {
    if choices != [] {
      var n := |choices| - 1;
      var prefix := choices[..n];
      forall i | 0 <= i < |prefix| ensures PlannedAt(lines, rows, prefix, i) {
        assert PlannedAt(lines, rows, choices, i);
        assert prefix[..i] == choices[..i];
      }
      PlanSufficient(lines, rows, prefix, id);
      assert PlannedAt(lines, rows, choices, n);
      assert choices == prefix + [choices[n]];
    }
  }

  /** There is only one plan of a given length. */
  lemma {:induction false} PlanUnique(lines: seq<Demand>, rows: map<Id, Snapshot>, a: seq<Id>, b: seq<Id>)
    requires IsPlan(lines, rows, a) && IsPlan(lines, rows, b) && |a| == |b|
    ensures a == b
  {
    if a != [] {
      var n := |a| - 1;
      PlanPrefix(lines, rows, a, n);
      PlanPrefix(lines, rows, b, n);
      PlanUnique(lines, rows, a[..n], b[..n]);
      assert PlannedAt(lines, rows, a, n) && PlannedAt(lines, rows, b, n);
      assert a == a[..n] + [a[n]] && b == b[..n] + [b[n]];
    }
  }

  lemma PlanPrefix(lines: seq<Demand>, rows: map<Id, Snapshot>, choices: seq<Id>, n: nat)
    requires IsPlan(lines, rows, choices) && n <= |choices|
    ensures IsPlan(lines, rows, choices[..n])
  {
    forall i | 0 <= i < n ensures PlannedAt(lines, rows, choices[..n], i) {
      assert PlannedAt(lines, rows, choices, i);
      assert choices[..n][..i] == choices[..i];
    }
  }

  function TakenMap(lines: seq<Demand>, choices: seq<Id>): map<Id, int>
    requires |choices| <= |lines|
  {
    map id | id in Elements(choices) :: Taken(lines, choices, id)
  }

  lemma {:induction false} TakenElsewhere(lines: seq<Demand>, choices: seq<Id>, id: Id)
    requires |choices| <= |lines| && id !in choices
    ensures Taken(lines, choices, id) == 0
  {
    if choices != [] {
      TakenElsewhere(lines, choices[..|choices| - 1], id);
    }
  }

  lemma TakenMapExact(lines: seq<Demand>, choices: seq<Id>, id: Id)
    requires |choices| <= |lines|
    ensures TakenFrom(TakenMap(lines, choices), id) == Taken(lines, choices, id)
  {
    if id in choices {
      var i :| 0 <= i < |choices| && choices[i] == id;
      assert id in Elements(choices);
    } else {
      TakenElsewhere(lines, choices, id);
    }
  }

  lemma {:induction false} TakenPrefix(lines: seq<Demand>, more: seq<Demand>, choices: seq<Id>, id: Id)
    requires |choices| <= |lines| && lines <= more
    ensures Taken(lines, choices, id) == Taken(more, choices, id)
  {
    if choices != [] {
      TakenPrefix(lines, more, choices[..|choices| - 1], id);
    }
  }

  /** The allocation loop over all lines. */
  function Plan(lines: seq<Demand>, rows: map<Id, Snapshot>): (r: Result<seq<Id>>)
    ensures r.Ok? ==> |r.value| == |lines|
  {
    if lines == [] then Ok([])
    else
      var n := |lines| - 1;
      var before := Plan(lines[..n], rows);
      if before.Err? then before
      else
        var next := Allocation(lines[n].candidates, rows, lines[n].quantity, TakenMap(lines[..n], before.value));
        if next.Err? then Err(next.error) else Ok(before.value + [next.value])
  }

  /** A successful loop is a plan in the declarative sense. */
  lemma {:induction false} PlanIsPlan(lines: seq<Demand>, rows: map<Id, Snapshot>)
    requires Plan(lines, rows).Ok?
    ensures IsPlan(lines, rows, Plan(lines, rows).value)
  {
    var choices := Plan(lines, rows).value;
    if lines != [] {
      var n := |lines| - 1;
      var init := lines[..n];
      PlanIsPlan(init, rows);
      var c := Plan(init, rows).value;
      assert choices[..n] == c;
      forall i | 0 <= i < |choices| ensures PlannedAt(lines, rows, choices, i) {
        if i < n {
          assert PlannedAt(init, rows, c, i);
          assert choices[..i] == c[..i];
          LeftPrefix(init, lines, rows, c[..i]);
        } else {
          LastPlanned(lines, rows, choices);
        }
      }
    }
  }

  lemma LeftPrefix(lines: seq<Demand>, more: seq<Demand>, rows: map<Id, Snapshot>, choices: seq<Id>)
    requires |choices| < |lines| && lines <= more
    ensures LeftFitting(lines, rows, choices) == LeftFitting(more, rows, choices)
  {
    forall id: Id ensures Taken(lines, choices, id) == Taken(more, choices, id) {
      TakenPrefix(lines, more, choices, id);
    }
  }

  lemma LastPlanned(lines: seq<Demand>, rows: map<Id, Snapshot>, choices: seq<Id>)
    requires lines != [] && Plan(lines, rows) == Ok(choices)
    ensures PlannedAt(lines, rows, choices, |choices| - 1)
  {
    var n := |lines| - 1;
    var init := lines[..n];
    var c := Plan(init, rows).value;
    assert choices[..n] == c;
    forall id: Id ensures TakenFrom(TakenMap(init, c), id) == Taken(lines, c, id) {
      TakenMapExact(init, c, id);
      TakenPrefix(init, lines, c, id);
    }
    assert LeftFitting(lines, rows, c) == Fitting(lines[n].candidates, rows, lines[n].quantity, TakenMap(init, c));
  }

  // ---- Grouping reservations by snapshot.

  datatype Delta = Delta(snapshot: Id, quantity: int)

  function SnapshotsOf(rows: seq<Reservation>): set<Id> {
    set i | 0 <= i < |rows| :: rows[i].snapshot
  }

  function QuantityIn(rows: seq<Reservation>, s: Id): int {
    if rows == [] then 0
    else
      var n := |rows| - 1;
      QuantityIn(rows[..n], s) + if rows[n].snapshot == s then rows[n].quantity else 0
  }

  method AggregateReservationsBySnapshot(rows: seq<Reservation>) returns (r: seq<Delta>)
    ensures |r| == |SortedIds(SnapshotsOf(rows))|
    ensures forall i :: 0 <= i < |r| ==>
      r[i] == Delta(SortedIds(SnapshotsOf(rows))[i], QuantityIn(rows, SortedIds(SnapshotsOf(rows))[i]))
  {
    var sums: map<Id, int> := map[];
    var i := 0;
    while i < |rows|
      invariant 0 <= i <= |rows|
      invariant sums.Keys == SnapshotsOf(rows[..i])
      invariant forall s :: s in sums ==> sums[s] == QuantityIn(rows[..i], s)
      invariant forall s :: s !in sums ==> QuantityIn(rows[..i], s) == 0
    {
      var row := rows[i];
      assert rows[..i + 1][..i] == rows[..i];
      sums := sums[row.snapshot := (if row.snapshot in sums then sums[row.snapshot] else 0) + row.quantity];
      i := i + 1;
    }
    assert rows[..i] == rows;
    var ids := SortedIds(sums.Keys);
    r := [];
    var j := 0;
    while j < |ids|
      invariant 0 <= j <= |ids| && |r| == j
      invariant forall k :: 0 <= k < j ==> r[k] == Delta(ids[k], QuantityIn(rows, ids[k]))
    {
      r := r + [Delta(ids[j], sums[ids[j]])];
      j := j + 1;
    }
  }

  // ---- The same grouping over the reservation table.

  type Reservations = map<Id, Reservation>

  ghost function Weight(res: Reservations, s: Id): Id -> int {
    k => if k in res && res[k].snapshot == s then res[k].quantity else 0
  }

  /** Units the reservations ids hold on snapshot s. */
  ghost function QuantityOn(res: Reservations, ids: set<Id>, s: Id): int {
    Sum(ids, Weight(res, s))
  }

  function Touched(res: Reservations, ids: set<Id>): set<Id> {
    set k | k in ids && k in res :: res[k].snapshot
  }

  lemma {:induction false} QuantityOnRows(res: Reservations, ids: seq<Id>, rows: seq<Reservation>, s: Id)
    requires Distinct(ids) && |rows| == |ids|
    requires forall i :: 0 <= i < |ids| ==> ids[i] in res && rows[i] == res[ids[i]]
    ensures QuantityIn(rows, s) == QuantityOn(res, Elements(ids), s)
  {
    if ids != [] {
      var n := |ids| - 1;
      QuantityOnRows(res, ids[..n], rows[..n], s);
      DropLast(ids);
      SumPick(Elements(ids), Weight(res, s), ids[n]);
    }
  }

  lemma QuantityOnUntouched(res: Reservations, ids: set<Id>, s: Id)
    requires s !in Touched(res, ids)
    ensures QuantityOn(res, ids, s) == 0
  {
    SumZero(ids, Weight(res, s));
  }

  // ---- What an order step does to the stock of its reservations.

  /** Confirm, cancel while pending, expire, cancel after confirmation. */
  datatype Disposition = Consume | Release | Expire | Restock

  function StatusBefore(d: Disposition): ReservationStatus {
    if d == Restock then Consumed else Held
  }

  function StatusAfter(d: Disposition): ReservationStatus {
    match d
    case Consume => Consumed
    case Release => Released
    case Expire => Expired
    case Restock => Consumed
  }

  function SettledRow(d: Disposition, s: Snapshot, q: int): Snapshot {
    match d
    case Consume => s.(onHand := s.onHand - q, reserved := s.reserved - q, version := s.version + 1)
    case Release => s.(reserved := s.reserved - q, version := s.version + 1)
    case Expire => s.(reserved := s.reserved - q, version := s.version + 1)
    case Restock => s.(onHand := s.onHand + q, version := s.version + 1)
  }

  /** The checks the step makes on the counters it is about to write. */
  predicate Acceptable(d: Disposition, s: Snapshot) {
    match d
    case Consume => s.onHand >= 0 && s.reserved >= 0 && s.reserved <= s.onHand
    case Release => s.reserved >= 0
    case Expire => s.reserved >= 0
    case Restock => true
  }

  function Refusal(d: Disposition): Error {
    if d == Consume then InsufficientInventory else InternalError
  }

  function MovementFor(d: Disposition, q: int, s: Snapshot): Movement {
    match d
    case Consume => Movement(ReservationConsumed, -q, s.onHand, s.reserved)
    case Release => Movement(ReservationReleased, 0, s.onHand, s.reserved)
    case Expire => Movement(ReservationExpired, 0, s.onHand, s.reserved)
    case Restock => Movement(CancellationRestock, q, s.onHand, s.reserved)
  }

  /** First locked reservation, by id, that breaks the order's agreement with its stock. */
  function RowFault(d: Disposition, r: Reservation, deadline: Time, now: Time): Option<Error> {
    if d == Consume then
      if r.status != Held then Some(InvalidTransition)
      else if r.expiresAt.None? || now >= r.expiresAt.value then Some(InvalidTransition)
      else if r.expiresAt.value != deadline then Some(InternalError)
      else None
    else
      if r.status != StatusBefore(d) then Some(InternalError)
      else if r.expiresAt != Some(deadline) then Some(InternalError)
      else None
  }

  function FirstFault(d: Disposition, rows: seq<Reservation>, deadline: Time, now: Time): Option<Error> {
    if rows == [] then None
    else if RowFault(d, rows[0], deadline, now).Some? then RowFault(d, rows[0], deadline, now)
    else FirstFault(d, rows[1..], deadline, now)
  }

  function DeltaFault(d: Disposition, snaps: map<Id, Snapshot>, a: Delta): Option<Error> {
    if a.snapshot !in snaps then Some(InvalidInput)
    else if !Acceptable(d, SettledRow(d, snaps[a.snapshot], a.quantity)) then Some(Refusal(d))
    else None
  }

  function FirstMisfit(d: Disposition, snaps: map<Id, Snapshot>, deltas: seq<Delta>): Option<Error> {
    if deltas == [] then None
    else if DeltaFault(d, snaps, deltas[0]).Some? then DeltaFault(d, snaps, deltas[0])
    else FirstMisfit(d, snaps, deltas[1..])
  }

  lemma {:induction false} NoFault(d: Disposition, rows: seq<Reservation>, deadline: Time, now: Time)
    ensures FirstFault(d, rows, deadline, now).None? <==>
            forall i :: 0 <= i < |rows| ==> RowFault(d, rows[i], deadline, now).None?
  {
    if rows != [] {
      NoFault(d, rows[1..], deadline, now);
      assert forall i :: 0 <= i < |rows| ==> rows[i] == rows[0] || rows[i] == rows[1..][i - 1];
      assert forall i :: 0 <= i < |rows| - 1 ==> rows[1..][i] == rows[i + 1];
    }
  }

  lemma {:induction false} NoMisfit(d: Disposition, snaps: map<Id, Snapshot>, deltas: seq<Delta>)
    ensures FirstMisfit(d, snaps, deltas).None? <==>
            forall i :: 0 <= i < |deltas| ==> DeltaFault(d, snaps, deltas[i]).None?
  {
    if deltas != [] {
      NoMisfit(d, snaps, deltas[1..]);
      assert forall i :: 0 <= i < |deltas| ==> deltas[i] == deltas[0] || deltas[i] == deltas[1..][i - 1];
      assert forall i :: 0 <= i < |deltas| - 1 ==> deltas[1..][i] == deltas[i + 1];
    }
  }
}
