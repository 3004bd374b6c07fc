/** The outbox table as its statements change it, and the worker that drains it
    (packages/outbox/outbox.go, packages/outbox/processor.go). */
module Outbox {
  import opened Base
  import opened Leases

  datatype Loaded = Envelope(eventType: string) | ClaimLost | InvalidEnvelope | Refused

  /** ORDER BY next_attempt_at ASC, created_at ASC, event_id ASC. */
  predicate Ahead(rows: map<Id, Row>, a: Id, b: Id)
    requires a in rows && b in rows
  {
    rows[a].nextAttempt < rows[b].nextAttempt ||
    (rows[a].nextAttempt == rows[b].nextAttempt &&
      (rows[a].created < rows[b].created || (rows[a].created == rows[b].created && a < b)))
  }

  function Eligible(rows: map<Id, Row>, lease: nat, locked: set<Id>, now: Time): set<Id> {
    set e | e in rows && e !in locked && Claimable(rows[e], lease, now)
  }

  /** The batch the query selects: the first rows of the eligible ones, up to the limit. */
  ghost predicate Chosen(rows: map<Id, Row>, lease: nat, locked: set<Id>, size: nat, now: Time, ids: seq<Id>) {
    var all := Eligible(rows, lease, locked, now);
    && Distinct(ids)
    && (forall i :: 0 <= i < |ids| ==> ids[i] in all)
    && (|ids| == size || (|ids| < size && all == Elements(ids)))
    && (forall i, j :: 0 <= i < j < |ids| ==> Ahead(rows, ids[i], ids[j]))
    && (forall i, e :: 0 <= i < |ids| && e in all && e !in ids ==> Ahead(rows, ids[i], e))
  }

  /** ids are the first of all, in order; rest are the others. */
  ghost predicate Leading(rows: map<Id, Row>, all: set<Id>, rest: set<Id>, ids: seq<Id>)
    requires all <= rows.Keys && rest <= all
  {
    && all - rest == Elements(ids) && Distinct(ids)
    && (forall i :: 0 <= i < |ids| ==> ids[i] in all && ids[i] !in rest)
    && (forall i, j :: 0 <= i < j < |ids| ==> Ahead(rows, ids[i], ids[j]))
    && (forall i, e :: 0 <= i < |ids| && e in rest ==> Ahead(rows, ids[i], e))
  }

  lemma LeadingGrows(rows: map<Id, Row>, all: set<Id>, rest: set<Id>, ids: seq<Id>, e: Id)
    requires all <= rows.Keys && rest <= all && Leading(rows, all, rest, ids)
    requires e in rest && forall x :: x in rest && x != e ==> Ahead(rows, e, x)
    ensures Leading(rows, all, rest - {e}, ids + [e])
  {
    Appended(ids, e);
  }

  lemma LeadingChosen(rows: map<Id, Row>, all: set<Id>, rest: set<Id>, ids: seq<Id>)
    requires all <= rows.Keys && rest <= all && Leading(rows, all, rest, ids)
    ensures forall e :: e in all && e !in ids ==> e in rest
    ensures rest == {} ==> all == Elements(ids)
  {
    forall e | e in all && e !in ids ensures e in rest {
      assert e in Elements(ids) ==> e in ids;
    }
  }

  /** Only the lease of the row changed: it is the claim's from that time on. */
  ghost predicate LeasedTo(was: map<Id, Row>, rows: map<Id, Row>, e: Id, claim: Id, from: Time, to: Time) {
    && e in was && e in rows && rows[e].lease.Some? && from <= rows[e].lease.value.at <= to
    && rows[e] == was[e].(lease := Some(Lease(claim, rows[e].lease.value.at)))
  }

  /** Unpublished, due, and leased to nobody or no longer. */
  predicate Due(row: Row, lease: nat, now: Time) {
    row.published.None? && row.nextAttempt <= now && (row.lease.None? || row.lease.value.at + lease < now)
  }

  /** Only due rows that nobody has locked are taken. One is left out only when the batch
      is full, and only after rows due no later; of rows due together the older go first,
      then the smaller ids. */
  ghost predicate FirstDue(rows: map<Id, Row>, lease: nat, locked: set<Id>, size: nat, now: Time, ids: seq<Id>) {
    && (forall e :: e in ids ==> e in rows && e !in locked && Due(rows[e], lease, now))
    && (forall o :: o in rows && o !in ids && o !in locked && Due(rows[o], lease, now) ==> |ids| == size)
    && (forall e, o :: e in ids && e in rows && o in rows && o !in ids && o !in locked && Due(rows[o], lease, now) ==>
          && rows[e].nextAttempt <= rows[o].nextAttempt
          && (rows[e].nextAttempt == rows[o].nextAttempt ==> rows[e].created <= rows[o].created)
          && (rows[e].nextAttempt == rows[o].nextAttempt && rows[e].created == rows[o].created ==> e < o))
  }

  lemma ChosenAreFirstDue(rows: map<Id, Row>, lease: nat, locked: set<Id>, size: nat, now: Time, ids: seq<Id>)
    requires Chosen(rows, lease, locked, size, now, ids)
    ensures FirstDue(rows, lease, locked, size, now, ids) && |ids| <= size
  {
    forall o | o in rows && o !in ids && o !in locked && Due(rows[o], lease, now)
      ensures |ids| == size && forall e :: e in ids && e in rows ==> Ahead(rows, e, o)
    {
      assert o in Eligible(rows, lease, locked, now);
      assert o !in Elements(ids);
      forall e | e in ids && e in rows ensures Ahead(rows, e, o) {
        var i :| 0 <= i < |ids| && ids[i] == e;
      }
    }
  }

  predicate TakenBy(row: Row, claim: Id, now: Time) {
    row.published.None? && Holds(row, claim) && row.lease.value.at >= now
  }

  /** The one effect of a statement on a single row, if it ran. */
  ghost predicate Single(acts: seq<Action>, act: Act, e: Id, claim: Id, ran: bool, now: Time) {
    if ran then |acts| == 1 && acts[0] == Action(act, e, claim, acts[0].check, now) else acts == []
  }

  method First(rows: map<Id, Row>, ids: set<Id>) returns (best: Id)
    requires ids != {} && ids <= rows.Keys
    ensures best in ids && forall e :: e in ids && e != best ==> Ahead(rows, best, e)
  {
    var rest := ids;
    best :| best in rest;
    rest := rest - {best};
    while rest != {}
      invariant rest <= ids && best in ids && best !in rest
      invariant forall e :: e in ids - rest && e != best ==> Ahead(rows, best, e)
      decreases |rest|
    {
      var e :| e in rest;
      rest := rest - {e};
      if Ahead(rows, e, best) {
        forall x | x in ids - rest && x != e ensures Ahead(rows, e, x) {
          assert x == best || Ahead(rows, best, x);
        }
        best := e;
      }
    }
  }

  /** An arbitrary choice. */
  method Whim() returns (act: Act, e: Id, claim: Id, row: Row)
  {
    act, e, claim, row := *, *, *, *;
  }

  class Table {
    const lease: nat
    var rows: map<Id, Row>
    /** Every row-level effect so far, in commit order. */
    var log: seq<Action>
    var clock: Time

    ghost predicate Valid()
      reads this
    {
      (forall i :: 0 <= i < |log| ==> log[i].write <= clock) && forall e :: Clocked(log, e)
    }

    constructor (lease: nat)
      ensures Valid() && rows == map[] && log == [] && this.lease == lease
    {
      this.lease := lease;
      rows, log, clock := map[], [], 0;
    }

    /** clock_timestamp(): any later time. */
    method Now() returns (now: Time)
      requires Valid()
      modifies this`clock
      ensures Valid() && old(clock) <= now == clock
    {
      var gap: int :| 0 <= gap;
      clock := clock + gap;
      now := clock;
    }

    /** One row-level effect, or its WHERE clause failing; a publish is only recorded. */
    method Execute(act: Act, e: Id, claim: Id) returns (ok: bool, ghost a: Action)
      requires Valid()
      modifies this`rows, this`log, this`clock
      ensures Valid() && old(clock) <= a.check <= a.write == clock
      ensures a == Action(act, e, claim, a.check, a.write) && log == old(log) + [a]
      ensures ok <==> e in old(rows) && Takes(old(rows)[e], a, lease)
      ensures rows == if ok then old(rows)[e := Written(old(rows)[e], a)] else old(rows)
      ensures Follows(old(rows), [a], rows, lease)
    {
      var check := Now();
      var write := Now();
      var act' := Action(act, e, claim, check, write);
      a := act';
      ok := e in rows && Takes(rows[e], act', lease);
      ClocksGrow(log, a);
      if ok { rows := rows[e := Written(rows[e], act')]; }
      log := log + [act'];
      OneFollows(old(rows), a, rows, lease);
    }

    /** Anything the transactions of other claims, and new events, may do meanwhile. */
    method Others(k: Id) returns (ghost acts: seq<Action>)
      requires Valid()
      modifies this`rows, this`log, this`clock
      ensures Valid() && old(clock) <= clock && log == old(log) + acts && Follows(old(rows), acts, rows, lease)
      ensures forall i :: 0 <= i < |acts| ==> acts[i].claim != k
    {
      acts := [];
      NoneFollows(rows, lease);
      var n: int :| 0 <= n;
      while n > 0
        invariant Valid() && old(clock) <= clock && log == old(log) + acts && Follows(old(rows), acts, rows, lease)
        invariant forall i :: 0 <= i < |acts| ==> acts[i].claim != k
        decreases n
      {
        ghost var mid := rows;
        var act, e, claim, row := Whim();
        if e !in rows {
          rows := rows[e := row];
        } else if claim != k {
          var ok, a := Execute(act, e, claim);
          FollowsTwice(old(rows), acts, mid, [a], rows, lease);
          acts := acts + [a];
        }
        n := n - 1;
      }
    }

    // ---- The statements of the store.

    method ClaimBatch(claim: Id, size: int, locked: set<Id>) returns (r: Result<seq<Id>>, ghost now: Time,
        ghost acts: seq<Action>)
      requires Valid()
      modifies this`rows, this`log, this`clock
      ensures Valid() && old(clock) <= now <= clock
      ensures r.Err? <==> claim == 0 || size <= 0 || lease == 0
      ensures r.Ok? ==> Chosen(old(rows), lease, locked, size, now, r.value)
      ensures rows.Keys == old(rows).Keys && log == old(log) + acts && Follows(old(rows), acts, rows, lease)
      ensures forall i :: 0 <= i < |acts| ==> acts[i].act == Claim && acts[i].claim == claim
      ensures forall e :: e in rows ==>
        if r.Ok? && e in r.value then TakenBy(rows[e], claim, now) else rows[e] == old(rows)[e]
      ensures r.Ok? ==> |r.value| <= size && forall e :: e in r.value ==> LeasedTo(old(rows), rows, e, claim, now, clock)
      ensures r.Ok? ==> FirstDue(old(rows), lease, locked, size, now, r.value)
    {
      now, acts := clock, [];
      if claim == 0 || size <= 0 || lease == 0 {
        NoneFollows(rows, lease);
        return Err(InvalidInput), now, acts;
      }
      var at := Now();
      now := at;
      var ids := Select(size, locked, at);
      ChosenAreFirstDue(rows, lease, locked, size, at, ids);
      acts := TakeAll(ids, claim, locked, at);
      r := Ok(ids);
    }

    /** The UPDATE over the selected rows, which the statement has locked. */
    method TakeAll(ids: seq<Id>, claim: Id, locked: set<Id>, now: Time) returns (ghost acts: seq<Action>)
      requires Valid() && now <= clock
      requires Distinct(ids) && forall i :: 0 <= i < |ids| ==> ids[i] in Eligible(rows, lease, locked, now)
      modifies this`rows, this`log, this`clock
      ensures Valid() && old(clock) <= clock
      ensures rows.Keys == old(rows).Keys && log == old(log) + acts && Follows(old(rows), acts, rows, lease)
      ensures forall i :: 0 <= i < |acts| ==> acts[i].act == Claim && acts[i].claim == claim
      ensures forall e :: e in rows ==> if e in ids then TakenBy(rows[e], claim, now) else rows[e] == old(rows)[e]
      ensures forall e :: e in ids ==> LeasedTo(old(rows), rows, e, claim, now, clock)
    {
      acts := [];
      var i := 0;
      NoneFollows(rows, lease);
      while i < |ids|
        invariant 0 <= i <= |ids| && Valid() && old(clock) <= clock
        invariant rows.Keys == old(rows).Keys && log == old(log) + acts && Follows(old(rows), acts, rows, lease)
        invariant forall k :: 0 <= k < |acts| ==> acts[k].act == Claim && acts[k].claim == claim
        invariant forall e :: e in rows ==> if e in ids[..i] then TakenBy(rows[e], claim, now) else rows[e] == old(rows)[e]
        invariant forall e :: e in ids[..i] ==> LeasedTo(old(rows), rows, e, claim, now, clock)
      {
        ghost var mid := rows;
        var e := ids[i];
        assert e !in ids[..i] && e in rows && Claimable(rows[e], lease, now);
        var ok, a := Execute(Claim, e, claim);
        assert ok && TakenBy(rows[e], claim, now);
        FollowsTwice(old(rows), acts, mid, [a], rows, lease);
        acts := acts + [a];
        assert ids[..i + 1] == ids[..i] + [e];
        i := i + 1;
      }
      assert ids[..i] == ids;
    }

    /** The eligible CTE. */
    method Select(size: nat, locked: set<Id>, now: Time) returns (ids: seq<Id>)
      ensures Chosen(rows, lease, locked, size, now, ids)
    {
      var all := Eligible(rows, lease, locked, now);
      var rest := all;
      ids := [];
      while |ids| < size && rest != {}
        invariant |ids| <= size && rest <= all && Leading(rows, all, rest, ids)
        decreases |rest|
      {
        var e := First(rows, rest);
        LeadingGrows(rows, all, rest, ids, e);
        rest := rest - {e};
        ids := ids + [e];
      }
      LeadingChosen(rows, all, rest, ids);
    }

    /** The envelope is checked after the renewal has been written. */
    method RenewAndLoadEvent(e: Id, claim: Id) returns (r: Loaded, ghost acts: seq<Action>)
      requires Valid()
      modifies this`rows, this`log, this`clock
      ensures Valid() && old(clock) <= clock && log == old(log) + acts && Follows(old(rows), acts, rows, lease)
      ensures |acts| <= 1 && forall i :: 0 <= i < |acts| ==> acts[i].act == Renew && acts[i].event == e && acts[i].claim == claim && acts[i].write == clock
      ensures r.Refused? <==> e == 0 || claim == 0 || lease == 0
      ensures r.Refused? ==> acts == []
      ensures r.ClaimLost? ==> rows == old(rows) && (e in rows ==> rows[e].published.Some? || !Holds(rows[e], claim) || Expired(rows[e], lease, clock))
      ensures r.Envelope? || r.InvalidEnvelope? ==>
        |acts| == 1 && e in old(rows) && Takes(old(rows)[e], acts[0], lease) && rows == old(rows)[e := Written(old(rows)[e], acts[0])] &&
        r == (if rows[e].wellFormed then Envelope(rows[e].eventType) else InvalidEnvelope)
      ensures r.Envelope? || r.InvalidEnvelope? ==> rows == old(rows)[e := old(rows)[e].(lease := Some(Lease(claim, clock)))]
    {
      if e == 0 || claim == 0 || lease == 0 {
        NoneFollows(rows, lease);
        return Refused, [];
      }
      var ok, a := Execute(Renew, e, claim);
      acts := [a];
      r := if !ok then ClaimLost else if rows[e].wellFormed then Envelope(rows[e].eventType) else InvalidEnvelope;
    }

    /** One statement over all the ids: rows about to expire get a new lease. */
    method RenewBatchNearExpiry(ids: seq<Id>, claim: Id, margin: nat) returns (ok: bool, ghost acts: seq<Action>)
      requires Valid()
      modifies this`rows, this`log, this`clock
      ensures Valid() && old(clock) <= clock && log == old(log) + acts && Follows(old(rows), acts, rows, lease)
      ensures rows.Keys == old(rows).Keys
      ensures ok <==> ids == [] || (claim != 0 && lease != 0 && margin != 0)
      ensures |acts| == if ok then |ids| else 0
      ensures forall i :: 0 <= i < |acts| ==> acts[i].act == RenewSoon(margin) && acts[i].event == ids[i] && acts[i].claim == claim
    {
      acts := [];
      NoneFollows(rows, lease);
      ok := ids == [] || (claim != 0 && lease != 0 && margin != 0);
      if !ok { return; }
      var i := 0;
      while i < |ids|
        invariant 0 <= i <= |ids| && Valid() && old(clock) <= clock
        invariant rows.Keys == old(rows).Keys && log == old(log) + acts && Follows(old(rows), acts, rows, lease)
        invariant |acts| == i
        invariant forall k :: 0 <= k < i ==> acts[k].act == RenewSoon(margin) && acts[k].event == ids[k] && acts[k].claim == claim
      {
        ghost var mid := rows;
        var done, a := Execute(RenewSoon(margin), ids[i], claim);
        FollowsTwice(old(rows), acts, mid, [a], rows, lease);
        acts := acts + [a];
        i := i + 1;
      }
    }

    /** MarkPublished and ReleaseWithBackoff: one guarded row update each. */
    method Finish(act: Act, e: Id, claim: Id) returns (r: Result<bool>, ghost acts: seq<Action>)
      requires Valid() && (act.Mark? || act.Release?)
      modifies this`rows, this`log, this`clock
      ensures Valid() && old(clock) <= clock && log == old(log) + acts && Follows(old(rows), acts, rows, lease)
      ensures r.Err? <==> e == 0 || claim == 0
      ensures Single(acts, act, e, claim, r.Ok?, clock)
      ensures r.Ok? ==> (r.value <==> e in old(rows) && old(rows)[e].published.None? && Holds(old(rows)[e], claim))
      ensures rows == if r == Ok(true) then old(rows)[e := Written(old(rows)[e], acts[0])] else old(rows)
      ensures r.Ok? && e in rows ==> rows[e].published.Some? || !Holds(rows[e], claim)
    {
      acts := [];
      if e == 0 || claim == 0 {
        NoneFollows(rows, lease);
        return Err(InvalidInput), acts;
      }
      var ok, a := Execute(act, e, claim);
      acts := [a];
      r := Ok(ok);
    }

    method MarkPublished(e: Id, claim: Id) returns (r: Result<bool>, ghost acts: seq<Action>)
      requires Valid()
      modifies this`rows, this`log, this`clock
      ensures Valid() && old(clock) <= clock && log == old(log) + acts && Follows(old(rows), acts, rows, lease)
      ensures r.Err? <==> e == 0 || claim == 0
      ensures Single(acts, Mark, e, claim, r.Ok?, clock)
      ensures r.Ok? ==> (r.value <==> e in old(rows) && old(rows)[e].published.None? && Holds(old(rows)[e], claim))
      ensures rows == if r == Ok(true) then old(rows)[e := old(rows)[e].(published := Some(clock), lease := None)] else old(rows)
      ensures r.Ok? && e in rows ==> rows[e].published.Some? || !Holds(rows[e], claim)
    {
      r, acts := Finish(Mark, e, claim);
    }

    method ReleaseWithBackoff(e: Id, claim: Id) returns (r: Result<bool>, ghost acts: seq<Action>)
      requires Valid()
      modifies this`rows, this`log, this`clock
      ensures Valid() && old(clock) <= clock && log == old(log) + acts && Follows(old(rows), acts, rows, lease)
      ensures r.Err? <==> e == 0 || claim == 0
      ensures Single(acts, Release, e, claim, r.Ok?, clock)
      ensures r.Ok? ==> (r.value <==> e in old(rows) && old(rows)[e].published.None? && Holds(old(rows)[e], claim))
      ensures r == Ok(true) ==> rows == old(rows)[e := old(rows)[e].(
        attempts := old(rows)[e].attempts + 1, lease := None,
        nextAttempt := clock + 1_000_000 * [1, 2, 4, 8, 16, 32, 64][if old(rows)[e].attempts < 6 then old(rows)[e].attempts else 6])]
      ensures r != Ok(true) ==> rows == old(rows)
      ensures r.Ok? && e in rows ==> rows[e].published.Some? || !Holds(rows[e], claim)
    {
      if e in rows { DelayTable(rows[e].attempts); }
      r, acts := Finish(Release, e, claim);
    }
  }

  lemma ClocksGrow(log: seq<Action>, a: Action)
    requires (forall i :: 0 <= i < |log| ==> log[i].write <= a.check) && a.check <= a.write
    requires forall e :: Clocked(log, e)
    ensures forall e :: Clocked(log + [a], e)
  {
    forall e ensures Clocked(log + [a], e) { assert Clocked(log, e); }
  }

  lemma OneFollows(was: map<Id, Row>, a: Action, now: map<Id, Row>, lease: nat)
    requires if a.event in was && Takes(was[a.event], a, lease) then now == was[a.event := Written(was[a.event], a)] else now == was
    ensures Follows(was, [a], now, lease)
  {
    assert [a][..0] == [];
    forall e | e in was ensures e in now && now[e] == After(was[e], e, [a], lease) { }
  }

  lemma NoneFollows(rows: map<Id, Row>, lease: nat)
    ensures Follows(rows, [], rows, lease)
  {
  }

  lemma Appended(ids: seq<Id>, e: Id)
    ensures Elements(ids + [e]) == Elements(ids) + {e}
  {
    var all := ids + [e];
    forall x ensures x in Elements(all) <==> x in Elements(ids) + {e} {
      if x in Elements(ids) { var i :| 0 <= i < |ids| && ids[i] == x; assert all[i] == x; }
      assert all[|ids|] == e;
    }
  }
}
