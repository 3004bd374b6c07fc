/** Store domains: verification, activation, moderation and fallback
    (modules/commerce/domain_repository.go, modules/commerce/domain_service.go). */
module Domains {
  import opened Base

  datatype Status = PendingCheck | Verified | Active | Failed | Disabled

  datatype Domain = Domain(
    store: Id, name: string, isPrimary: bool, verifiedAt: Option<Time>, status: Status,
    custom: bool, token: Option<string>, checkedAt: Option<Time>, createdAt: Time)

  type Rows = map<Id, Domain>

  type Outcome = (Rows, Result<Domain>)

  predicate NameTaken(rows: Rows, name: string) {
    exists k :: k in rows && rows[k].name == name
  }

  /** The platform subdomain a new store is created with. */
  function CreateStoreWithDomain(rows: Rows, id: Id, store: Id, name: string, now: Time): Outcome {
    if store == 0 || name == "" then (rows, Err(InvalidInput))
    else if id in rows || NameTaken(rows, name) then (rows, Err(Conflict))
    else
      var d := Domain(store, name, true, Some(now), Active, false, None, None, now);
      (rows[id := d], Ok(d))
  }

  function CreateCustomStoreDomain(rows: Rows, id: Id, store: Id, name: string, token: string, now: Time): Outcome {
    if store == 0 || name == "" then (rows, Err(InvalidInput))
    else if id in rows || NameTaken(rows, name) then (rows, Err(Conflict))
    else
      var d := Domain(store, name, false, None, PendingCheck, true, Some(token), None, now);
      (rows[id := d], Ok(d))
  }

  predicate Verifiable(d: Domain) {
    d.custom && (d.status == PendingCheck || d.status == Failed)
  }

  function MarkVerified(rows: Rows, id: Id, verifiedAt: Option<Time>, checkedAt: Time): Outcome {
    if id == 0 then (rows, Err(InvalidInput))
    else if id !in rows || !Verifiable(rows[id]) then (rows, Err(Conflict))
    else
      var d := rows[id].(status := Verified, verifiedAt := if verifiedAt.Some? then verifiedAt else rows[id].verifiedAt, checkedAt := Some(checkedAt));
      (rows[id := d], Ok(d))
  }

  function MarkFailed(rows: Rows, id: Id, checkedAt: Time): Outcome {
    if id == 0 then (rows, Err(InvalidInput))
    else if id !in rows || !Verifiable(rows[id]) then (rows, Err(Conflict))
    else
      var d := rows[id].(status := Failed, checkedAt := Some(checkedAt));
      (rows[id := d], Ok(d))
  }

  function Demoted(rows: Rows, store: Id): Rows {
    map k | k in rows :: if rows[k].store == store && rows[k].isPrimary then rows[k].(isPrimary := false) else rows[k]
  }

  function Activate(rows: Rows, store: Id, id: Id): Outcome {
    if store == 0 || id == 0 then (rows, Err(InvalidInput))
    else if id !in rows || rows[id].store != store then (rows, Err(NotFound))
    else if !rows[id].custom then (rows, Err(InvalidInput))
    else if rows[id].status != Verified then (rows, Err(Conflict))
    else
      var d := rows[id].(status := Active, isPrimary := true);
      (Demoted(rows, store)[id := d], Ok(d))
  }

  predicate ActivePlatform(rows: Rows, store: Id, k: Id) {
    k in rows && rows[k].store == store && !rows[k].custom && rows[k].status == Active
  }

  function Oldest(rows: Rows, store: Id): set<Id> {
    set k | k in rows && ActivePlatform(rows, store, k) && forall o :: o in rows && ActivePlatform(rows, store, o) ==> rows[k].createdAt <= rows[o].createdAt
  }

  /** ORDER BY created_at LIMIT 1 over the active platform domains; equal times, which
      the query leaves open, are taken by id. */
  function Fallback(rows: Rows, store: Id): Option<Id> {
    if Oldest(rows, store) == {} then None else Some(Least(Oldest(rows, store)))
  }

  function Disable(rows: Rows, id: Id): Outcome {
    if id == 0 then (rows, Err(InvalidInput))
    else if id !in rows then (rows, Err(NotFound))
    else if rows[id].status == Disabled then (rows, Ok(rows[id]))
    else
      var d := rows[id].(status := Disabled, isPrimary := false);
      var after := rows[id := d];
      var next := Fallback(after, d.store);
      (if rows[id].isPrimary && next.Some? then after[next.value := after[next.value].(isPrimary := true)] else after, Ok(d))
  }

  predicate HasPrimary(rows: Rows, store: Id) {
    exists k :: k in rows && rows[k].store == store && rows[k].isPrimary
  }

  function Enabled(rows: Rows, d: Domain): Domain {
    if d.custom then d.(status := if d.verifiedAt.Some? then Verified else PendingCheck, isPrimary := false)
    else d.(status := Active, isPrimary := !HasPrimary(rows, d.store))
  }

  function Enable(rows: Rows, id: Id): Outcome {
    if id == 0 then (rows, Err(InvalidInput))
    else if id !in rows then (rows, Err(NotFound))
    else if rows[id].status != Disabled then (rows, Err(Conflict))
    else
      var d := Enabled(rows, rows[id]);
      (rows[id := d], Ok(d))
  }

  // ---- What each operation leaves, row by row.

  /** Every row of another store, and every row but the given one, stands still. */
  ghost predicate OnlyRow(rows: Rows, after: Rows, id: Id) {
    after.Keys == rows.Keys + {id} && forall k :: k in rows && k != id ==> after[k] == rows[k]
  }

  /** Activation promotes a verified custom domain of the store: afterwards it is active
      and the store's only primary; the store's other domains lose nothing but that flag,
      other stores nothing. */
  lemma ActivateExact(rows: Rows, store: Id, id: Id)
    ensures var (after, r) := Activate(rows, store, id);
            && (r.Ok? <==> store != 0 && id != 0 && id in rows && rows[id].store == store && rows[id].custom && rows[id].status == Verified)
            && (r.Err? ==> after == rows)
            && (r.Ok? ==> after.Keys == rows.Keys && r.value == after[id] && after[id] == rows[id].(status := Active, isPrimary := true))
            && (r.Ok? ==> forall k :: k in rows && k != id ==> after[k] == if rows[k].store == store then rows[k].(isPrimary := false) else rows[k])
            && (r.Ok? ==> forall k :: k in after && after[k].store == store && after[k].isPrimary ==> k == id)
  {
  }

  lemma ActivateRefusals(rows: Rows, store: Id, id: Id)
    requires store != 0 && id != 0
    ensures var r := Activate(rows, store, id).1;
            && ((id !in rows || rows[id].store != store) ==> r == Err(NotFound))
            && (id in rows && rows[id].store == store && !rows[id].custom ==> r == Err(InvalidInput))
            && (id in rows && rows[id].store == store && rows[id].custom && rows[id].status != Verified ==> r == Err(Conflict))
  {
  }

  /** A verification result reaches only a custom domain that waits for one or failed; a
      pass keeps the earlier time when it brings none of its own. */
  lemma MarkExact(rows: Rows, id: Id, verifiedAt: Option<Time>, checkedAt: Time)
    ensures var waits := id != 0 && id in rows && rows[id].custom && rows[id].status in {PendingCheck, Failed};
            var (passed, p) := MarkVerified(rows, id, verifiedAt, checkedAt);
            var (failed, f) := MarkFailed(rows, id, checkedAt);
            && (p.Ok? <==> waits) && (f.Ok? <==> waits) && (!waits ==> passed == rows && failed == rows)
            && (waits ==> OnlyRow(rows, passed, id) && OnlyRow(rows, failed, id) && p.value == passed[id] && f.value == failed[id])
            && (waits ==> passed[id] == rows[id].(status := Verified, checkedAt := Some(checkedAt),
                                                  verifiedAt := if verifiedAt == None then rows[id].verifiedAt else verifiedAt))
            && (waits ==> failed[id] == rows[id].(status := Failed, checkedAt := Some(checkedAt)))
  {
  }

  /** Moderation disables the domain and takes its primary flag; if it had it, the store's
      oldest active platform domain gets it, and nothing else changes. */
  lemma DisableExact(rows: Rows, id: Id)
    ensures var (after, r) := Disable(rows, id);
            && (r.Ok? <==> id != 0 && id in rows)
            && (r.Err? || rows[id].status == Disabled ==> after == rows)
            && (r.Ok? && rows[id].status != Disabled ==> Disables(rows, after, id))
  {
    if id != 0 && id in rows && rows[id].status != Disabled {
      var mid := rows[id := rows[id].(status := Disabled, isPrimary := false)];
      FallbackExact(mid, rows[id].store);
      forall k ensures ActivePlatform(mid, rows[id].store, k) <==> MayTakeOver(rows, id, k) { }
      if rows[id].isPrimary && exists k :: MayTakeOver(rows, id, k) {
        assert TakesOver(rows, Disable(rows, id).0, id, Fallback(mid, rows[id].store).value);
      }
    }
  }

  predicate MayTakeOver(rows: Rows, id: Id, k: Id)
    requires id in rows
  {
    k != id && k in rows && rows[k].store == rows[id].store && !rows[k].custom && rows[k].status == Active
  }

  ghost predicate Disables(rows: Rows, after: Rows, id: Id)
    requires id in rows
  {
    && after.Keys == rows.Keys && after[id] == rows[id].(status := Disabled, isPrimary := false)
    && (!rows[id].isPrimary || (forall k :: !MayTakeOver(rows, id, k)) ==> forall k :: k in rows && k != id ==> after[k] == rows[k])
    && (rows[id].isPrimary && (exists k :: MayTakeOver(rows, id, k)) ==> exists heir :: TakesOver(rows, after, id, heir))
  }

  ghost predicate TakesOver(rows: Rows, after: Rows, id: Id, heir: Id)
    requires id in rows
  {
    && MayTakeOver(rows, id, heir) && heir in after && after[heir] == rows[heir].(isPrimary := true)
    && (forall k :: MayTakeOver(rows, id, k) ==> rows[heir].createdAt <= rows[k].createdAt)
    && (forall k :: k in rows && k != id && k != heir ==> k in after && after[k] == rows[k])
  }

  /** Reinstatement returns a custom domain to verified or pending, never to active or
      primary, and a platform domain to active, primary only if the store has none. */
  lemma EnableExact(rows: Rows, id: Id)
    ensures var (after, r) := Enable(rows, id);
            && (r.Ok? <==> id != 0 && id in rows && rows[id].status == Disabled)
            && (r.Err? ==> after == rows) && (r.Ok? ==> OnlyRow(rows, after, id) && r.value == after[id])
            && (r.Ok? && rows[id].custom ==>
                  after[id] == rows[id].(status := if rows[id].verifiedAt == None then PendingCheck else Verified, isPrimary := false))
            && (r.Ok? && !rows[id].custom ==>
                  after[id] == rows[id].(status := Active,
                                         isPrimary := forall k :: k in rows && rows[k].store == rows[id].store ==> !rows[k].isPrimary))
  {
  }

  /** A platform domain starts active, verified and primary; a custom one pending, with its
      token; a taken name or identifier is a conflict. */
  lemma CreateExact(rows: Rows, id: Id, store: Id, name: string, token: string, now: Time)
    ensures var (a, p) := CreateStoreWithDomain(rows, id, store, name, now);
            var (b, c) := CreateCustomStoreDomain(rows, id, store, name, token, now);
            var free := store != 0 && name != "" && id !in rows && forall k :: k in rows ==> rows[k].name != name;
            && (p.Ok? <==> free) && (c.Ok? <==> free) && (!free ==> a == rows && b == rows)
            && (free ==> OnlyRow(rows, a, id) && OnlyRow(rows, b, id))
            && (free ==> a[id] == Domain(store, name, true, Some(now), Active, false, None, None, now))
            && (free ==> b[id] == Domain(store, name, false, None, PendingCheck, true, Some(token), None, now))
  {
  }

  // ---- What every service-reachable state keeps.

  ghost predicate OnePrimary(rows: Rows) {
    forall a, b :: a in rows && b in rows && a != b && rows[a].isPrimary && rows[b].isPrimary ==> rows[a].store != rows[b].store
  }

  ghost predicate RowOk(d: Domain) {
    && (d.isPrimary ==> d.status == Active)
    && (d.custom && (d.status == Verified || d.status == Active) ==> d.verifiedAt.Some?)
  }

  ghost predicate RowsOk(rows: Rows) {
    forall k :: k in rows ==> RowOk(rows[k])
  }

  /** A store with an active platform domain has a primary domain. */
  ghost predicate Reachable(rows: Rows) {
    forall k :: k in rows && !rows[k].custom && rows[k].status == Active ==> HasPrimary(rows, rows[k].store)
  }

  ghost predicate Inv(rows: Rows) {
    OnePrimary(rows) && RowsOk(rows) && Reachable(rows)
  }

  datatype Step =
    | NewStore(id: Id, store: Id, name: string, now: Time)
    | Request(id: Id, store: Id, name: string, token: string, now: Time)
    | Pass(id: Id, now: Time)
    | Fail(id: Id, now: Time)
    | Promote(id: Id, store: Id)
    | Moderate(id: Id)
    | Reinstate(id: Id)

  /** A new store has a new identifier. */
  predicate Possible(rows: Rows, s: Step) {
    s.NewStore? ==> forall k :: k in rows ==> rows[k].store != s.store
  }

  function Apply(rows: Rows, s: Step): Rows {
    match s
    case NewStore(id, store, name, now) => CreateStoreWithDomain(rows, id, store, name, now).0
    case Request(id, store, name, token, now) => CreateCustomStoreDomain(rows, id, store, name, token, now).0
    case Pass(id, now) => MarkVerified(rows, id, Some(now), now).0
    case Fail(id, now) => MarkFailed(rows, id, now).0
    case Promote(id, store) => Activate(rows, store, id).0
    case Moderate(id) => Disable(rows, id).0
    case Reinstate(id) => Enable(rows, id).0
  }

  // ---- Preservation.

  /** Rows of other stores are untouched. */
  ghost predicate OnlyStore(rows: Rows, after: Rows, store: Id) {
    && (forall k :: k in rows ==> k in after && after[k].store == rows[k].store)
    && (forall k :: k in rows && rows[k].store != store ==> after[k] == rows[k])
    && (forall k :: k in after && k !in rows ==> after[k].store == store)
  }

  /** It is enough to look at the store written. */
  ghost predicate StoreOk(after: Rows, store: Id) {
    && (forall a, b :: a in after && b in after && a != b && after[a].isPrimary && after[b].isPrimary && after[a].store == store ==>
          after[b].store != store)
    && (forall k :: k in after && after[k].store == store ==> RowOk(after[k]))
    && ((exists k :: ActivePlatform(after, store, k)) ==> HasPrimary(after, store))
  }

  lemma StoreSuffices(rows: Rows, after: Rows, store: Id)
    requires Inv(rows) && OnlyStore(rows, after, store) && StoreOk(after, store)
    ensures Inv(after)
  {
    forall k | k in after ensures RowOk(after[k]) {
      if k in rows { assert RowOk(rows[k]); }
    }
    forall k | k in after && !after[k].custom && after[k].status == Active ensures HasPrimary(after, after[k].store) {
      if after[k].store == store {
        assert ActivePlatform(after, store, k);
      } else {
        assert HasPrimary(rows, rows[k].store);
        var p :| p in rows && rows[p].store == rows[k].store && rows[p].isPrimary;
        assert after[p] == rows[p];
      }
    }
  }

  lemma ActivateKeeps(rows: Rows, store: Id, id: Id)
    requires Inv(rows)
    ensures Inv(Activate(rows, store, id).0)
  {
    var (after, r) := Activate(rows, store, id);
    if r.Ok? {
      assert RowOk(rows[id]);
      forall k | k in after && after[k].store == store ensures RowOk(after[k]) { assert RowOk(rows[k]); }
      assert after[id].isPrimary && after[id].store == store;
      StoreSuffices(rows, after, store);
    }
  }

  lemma {:induction false} EarliestExists(rows: Rows, all: set<Id>) returns (k: Id)
    requires all != {} && all <= rows.Keys
    ensures k in all && forall o :: o in all ==> rows[k].createdAt <= rows[o].createdAt
    decreases |all|
  {
    var x :| x in all;
    k := x;
    if all - {x} != {} {
      var y := EarliestExists(rows, all - {x});
      k := if rows[x].createdAt <= rows[y].createdAt then x else y;
    }
    forall o | o in all ensures rows[k].createdAt <= rows[o].createdAt {
      assert o == x || o in all - {x};
    }
  }

  /** The fallback finds an active platform domain whenever there is one, and the oldest. */
  lemma FallbackExact(rows: Rows, store: Id)
    ensures Fallback(rows, store).Some? <==> exists k :: ActivePlatform(rows, store, k)
    ensures var f := Fallback(rows, store);
            && (f.Some? ==> ActivePlatform(rows, store, f.value))
            && (f.Some? ==> forall o :: ActivePlatform(rows, store, o) ==> rows[f.value].createdAt <= rows[o].createdAt)
  {
    if k :| ActivePlatform(rows, store, k) {
      var all := set o | o in rows && ActivePlatform(rows, store, o);
      assert k in all;
      var first := EarliestExists(rows, all);
      assert first in Oldest(rows, store);
    }
  }

  lemma DisableKeeps(rows: Rows, id: Id)
    requires Inv(rows)
    ensures Inv(Disable(rows, id).0)
  {
    var (after, r) := Disable(rows, id);
    if id in rows && rows[id].status != Disabled && id != 0 {
      var store := rows[id].store;
      var mid := rows[id := rows[id].(status := Disabled, isPrimary := false)];
      FallbackExact(mid, store);
      forall k | k in after && after[k].store == store ensures RowOk(after[k]) { assert RowOk(rows[k]); }
      if rows[id].isPrimary {
        DisabledPrimary(rows, mid, after, id);
      } else {
        DisabledOther(rows, after, id);
      }
      StoreSuffices(rows, after, store);
    }
  }

  lemma DisabledPrimary(rows: Rows, mid: Rows, after: Rows, id: Id)
    requires Inv(rows) && id in rows && rows[id].isPrimary
    requires mid == rows[id := rows[id].(status := Disabled, isPrimary := false)]
    requires var next := Fallback(mid, rows[id].store);
             after == if next.Some? then mid[next.value := mid[next.value].(isPrimary := true)] else mid
    requires var next := Fallback(mid, rows[id].store);
             if next.Some? then ActivePlatform(mid, rows[id].store, next.value) else forall k :: !ActivePlatform(mid, rows[id].store, k)
    requires forall k :: k in after && after[k].store == rows[id].store ==> RowOk(after[k])
    ensures StoreOk(after, rows[id].store)
  {
    var store := rows[id].store;
    var next := Fallback(mid, store);
    if next.Some? {
      assert after[next.value].isPrimary && after[next.value].store == store;
    } else {
      assert forall k :: !ActivePlatform(after, store, k);
    }
  }

  lemma DisabledOther(rows: Rows, after: Rows, id: Id)
    requires Inv(rows) && id in rows && !rows[id].isPrimary
    requires after == rows[id := rows[id].(status := Disabled, isPrimary := false)]
    requires forall k :: k in after && after[k].store == rows[id].store ==> RowOk(after[k])
    ensures StoreOk(after, rows[id].store)
  {
    var store := rows[id].store;
    if k :| ActivePlatform(after, store, k) {
      assert k in rows && rows[k] == after[k];
      assert HasPrimary(rows, store);
      var p :| p in rows && rows[p].store == store && rows[p].isPrimary;
      assert after[p] == rows[p];
    }
  }

  lemma EnableKeeps(rows: Rows, id: Id)
    requires Inv(rows)
    ensures Inv(Enable(rows, id).0)
  {
    var (after, r) := Enable(rows, id);
    if r.Ok? {
      var store := rows[id].store;
      assert RowOk(rows[id]);
      forall k | k in after && after[k].store == store ensures RowOk(after[k]) { assert RowOk(rows[k]); }
      if HasPrimary(rows, store) {
        var p :| p in rows && rows[p].store == store && rows[p].isPrimary;
        assert after[p] == rows[p];
      } else if !rows[id].custom {
        assert after[id].isPrimary && after[id].store == store;
      } else {
        NothingActive(rows, after, store, id);
      }
      StoreSuffices(rows, after, store);
    }
  }

  lemma NothingActive(rows: Rows, after: Rows, store: Id, id: Id)
    requires Reachable(rows) && !HasPrimary(rows, store) && id in rows && rows[id].custom && after.Keys == rows.Keys
    requires after[id].custom && forall k :: k in rows && k != id ==> after[k] == rows[k]
    ensures forall k :: !ActivePlatform(after, store, k)
  {
    forall k | k in rows && rows[k].store == store ensures rows[k].custom || rows[k].status != Active { }
  }

  lemma MarkKeeps(rows: Rows, id: Id, d: Domain)
    requires Inv(rows) && id in rows && Verifiable(rows[id]) && RowOk(d)
    requires d.store == rows[id].store && d.custom && d.isPrimary == rows[id].isPrimary
    ensures Inv(rows[id := d])
  {
    var after, store := rows[id := d], rows[id].store;
    assert RowOk(rows[id]);
    forall k | k in after && after[k].store == store ensures RowOk(after[k]) { assert RowOk(rows[k]); }
    if HasPrimary(rows, store) {
      var p :| p in rows && rows[p].store == store && rows[p].isPrimary;
      assert after[p] == rows[p];
    } else {
      NothingActive(rows, after, store, id);
    }
    StoreSuffices(rows, after, store);
  }

  lemma NewStoreKeeps(rows: Rows, id: Id, store: Id, name: string, now: Time)
    requires Inv(rows) && forall k :: k in rows ==> rows[k].store != store
    ensures Inv(CreateStoreWithDomain(rows, id, store, name, now).0)
  {
    var (after, r) := CreateStoreWithDomain(rows, id, store, name, now);
    hide NameTaken;
    if r.Ok? {
      assert after[id].isPrimary && after[id].store == store;
      StoreSuffices(rows, after, store);
    }
  }

  lemma RequestKeeps(rows: Rows, id: Id, store: Id, name: string, token: string, now: Time)
    requires Inv(rows)
    ensures Inv(CreateCustomStoreDomain(rows, id, store, name, token, now).0)
  {
    var (after, r) := CreateCustomStoreDomain(rows, id, store, name, token, now);
    hide NameTaken;
    if r.Ok? {
      forall k | k in after && after[k].store == store ensures RowOk(after[k]) { if k != id { assert RowOk(rows[k]); } }
      if k :| ActivePlatform(after, store, k) {
        assert rows[k] == after[k] && HasPrimary(rows, store);
        var p :| p in rows && rows[p].store == store && rows[p].isPrimary;
        assert after[p] == rows[p];
      }
      StoreSuffices(rows, after, store);
    }
  }

  lemma StepKeepsInv(rows: Rows, s: Step)
    requires Inv(rows) && Possible(rows, s)
    ensures Inv(Apply(rows, s))
  {
    assert forall k :: k in rows ==> RowOk(rows[k]);
    hide Inv, CreateStoreWithDomain, CreateCustomStoreDomain, Activate, Disable, Enable;
    match s {
      case NewStore(id, store, name, now) => NewStoreKeeps(rows, id, store, name, now);
      case Request(id, store, name, token, now) => RequestKeeps(rows, id, store, name, token, now);
      case Pass(id, now) =>
        if MarkVerified(rows, id, Some(now), now).1.Ok? { MarkKeeps(rows, id, MarkVerified(rows, id, Some(now), now).1.value); }
      case Fail(id, now) =>
        if MarkFailed(rows, id, now).1.Ok? { MarkKeeps(rows, id, MarkFailed(rows, id, now).1.value); }
      case Promote(id, store) => ActivateKeeps(rows, store, id);
      case Moderate(id) => DisableKeeps(rows, id);
      case Reinstate(id) => EnableKeeps(rows, id);
    }
  }

  /** A disabled domain leaves that state only through Enable: activation, verification
      results and moderation of other domains all leave it disabled. */
  lemma DisabledStays(rows: Rows, s: Step, id: Id)
    requires Inv(rows) && id in rows && rows[id].status == Disabled && s != Reinstate(id)
    ensures id in Apply(rows, s) && Apply(rows, s)[id].status == Disabled
  {
    hide NameTaken, HasPrimary;
    if s.Moderate? && s.id in rows && rows[s.id].status != Disabled {
      var mid := rows[s.id := rows[s.id].(status := Disabled, isPrimary := false)];
      FallbackExact(mid, rows[s.id].store);
    }
  }

  // ---- Runs.

  ghost predicate Runnable(rows: Rows, steps: seq<Step>)
    decreases |steps|
  {
    steps == [] || (Possible(rows, steps[0]) && Runnable(Apply(rows, steps[0]), steps[1..]))
  }

  ghost function Run(rows: Rows, steps: seq<Step>): Rows
    decreases |steps|
  {
    if steps == [] then rows else Run(Apply(rows, steps[0]), steps[1..])
  }

  /** At most one primary per store; primary means active; a verified or active custom
      domain has a verification time; an active platform domain means the store has a
      primary: over every run. */
  lemma {:induction false} RunKeepsInv(rows: Rows, steps: seq<Step>)
    requires Inv(rows) && Runnable(rows, steps)
    ensures Inv(Run(rows, steps))
    decreases |steps|
  {
    if steps != [] {
      hide Inv, Apply, Possible;
      StepKeepsInv(rows, steps[0]);
      RunKeepsInv(Apply(rows, steps[0]), steps[1..]);
    }
  }

  lemma {:induction false} DisabledUntilEnabled(rows: Rows, steps: seq<Step>, id: Id)
    requires Inv(rows) && Runnable(rows, steps) && id in rows && rows[id].status == Disabled
    requires forall i :: 0 <= i < |steps| ==> steps[i] != Reinstate(id)
    ensures id in Run(rows, steps) && Run(rows, steps)[id].status == Disabled
    decreases |steps|
  {
    if steps != [] {
      hide Inv, Apply, Possible;
      StepKeepsInv(rows, steps[0]);
      DisabledStays(rows, steps[0], id);
      DisabledUntilEnabled(Apply(rows, steps[0]), steps[1..], id);
    }
  }

  lemma NoDomains()
    ensures Inv(map[])
  {
  }

  /** Reinstating the only active platform domain of a store undoes its moderation: it is
      active and primary again and every row is as it was. */
  lemma ReinstatementUndoesModeration(rows: Rows, id: Id)
    requires Inv(rows) && id != 0 && id in rows && rows[id].isPrimary && !rows[id].custom
    requires forall k :: ActivePlatform(rows, rows[id].store, k) ==> k == id
    ensures Enable(Disable(rows, id).0, id) == (rows, Ok(rows[id]))
  {
    var store := rows[id].store;
    assert RowOk(rows[id]);
    var mid := rows[id := rows[id].(status := Disabled, isPrimary := false)];
    FallbackExact(mid, store);
    assert forall k :: ActivePlatform(mid, store, k) ==> ActivePlatform(rows, store, k) && k != id;
    assert !HasPrimary(mid, store);
    assert mid[id := rows[id]] == rows;
  }
}
