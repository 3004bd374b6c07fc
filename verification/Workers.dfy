/** One batch of an outbox worker among any number of others
    (packages/outbox/processor.go:116-248). */
module Workers {
  import opened Base
  import opened Leases
  import opened Outbox

  /** Nothing the claim can still do to the row: it is published, held by nobody or by
      another claim, or its lease ran out. */
  predicate Settled(row: Row, k: Id, lease: nat, now: Time) {
    row.published.Some? || !Holds(row, k) || Expired(row, lease, now)
  }

  lemma {:induction false} SettledStays(row: Row, e: Id, acts: seq<Action>, lease: nat, k: Id, now: Time, later: Time)
    requires Settled(row, k, lease, now) && now <= later
    requires forall i :: 0 <= i < |acts| && acts[i].event == e ==> acts[i].claim != k
    ensures Settled(After(row, e, acts, lease), k, lease, later)
  {
    if acts != [] {
      SettledStays(row, e, acts[..|acts| - 1], lease, k, now, later);
    }
  }

  ghost predicate AllDisciplined(was: map<Id, Row>, log: seq<Action>, lease: nat, k: Id) {
    forall e :: e in was ==> Disciplined(was[e], e, log, lease, k)
  }

  /** e is event n of the batch or one before it. */
  ghost predicate UpTo(ids: seq<Id>, n: nat, e: Id) {
    exists i: nat :: i <= n && i < |ids| && ids[i] == e
  }

  /** State of a batch: was are the rows it started from, log what happened since; the
      first n events are settled, only the first m may have been published, and nothing
      after event n has been published, marked or released. */
  ghost predicate Working(
    was: map<Id, Row>, log: seq<Action>, rows: map<Id, Row>, lease: nat, now: Time, k: Id, ids: seq<Id>, n: nat, m: nat)
  {
    && n <= m <= |ids| && Distinct(ids) && (forall i :: 0 <= i < |ids| ==> ids[i] in was)
    && Follows(was, log, rows, lease)
    && AllDisciplined(was, log, lease, k)
    && (forall e :: Published(log, k, e) ==> e in ids[..m])
    && (forall j :: 0 <= j < |log| && log[j].claim == k && Finishing(log[j]) ==> UpTo(ids, n, log[j].event))
    && (forall i :: 0 <= i < n ==> ids[i] in rows && Settled(rows[ids[i]], k, lease, now))
  }

  /** The events of the batch after event n, and every event that is not in it, are still
      open. */
  lemma AheadIsOpen(was: map<Id, Row>, log: seq<Action>, rows: map<Id, Row>, lease: nat, now: Time, k: Id,
      ids: seq<Id>, n: nat, m: nat, e: Id)
    requires Working(was, log, rows, lease, now, k, ids, n, m) && !UpTo(ids, n, e)
    ensures LeavesOpen(log, k, e)
  {
  }

  lemma NotUpTo(ids: seq<Id>, n: nat, i: nat)
    requires Distinct(ids) && n < i < |ids|
    ensures !UpTo(ids, n, ids[i])
  {
  }

  lemma PublishedSplit(log: seq<Action>, acts: seq<Action>, k: Id, e: Id)
    requires Published(log + acts, k, e)
    ensures Published(log, k, e) || Published(acts, k, e)
  {
    var i: nat :| Publishes(log + acts, k, e, i);
    if i < |log| { assert Publishes(log, k, e, i); } else { assert Publishes(acts, k, e, i - |log|); }
  }

  /** Not finished by the claim here. */
  predicate Plain(a: Action, k: Id) {
    a.claim != k || !Finishing(a)
  }

  /** Whatever others do, and whatever the claim does to events still ahead short of
      finishing them, keeps the state of the batch. */
  lemma KeepsWorking(was: map<Id, Row>, log: seq<Action>, rows: map<Id, Row>, lease: nat, now: Time, k: Id,
      ids: seq<Id>, n: nat, m: nat, acts: seq<Action>, rows': map<Id, Row>, later: Time)
    requires Working(was, log, rows, lease, now, k, ids, n, m)
    requires Follows(rows, acts, rows', lease) && now <= later
    requires forall i :: 0 <= i < |acts| ==> Plain(acts[i], k) && (acts[i].claim == k ==> acts[i].event !in ids[..n])
    ensures Working(was, log + acts, rows', lease, later, k, ids, n, m)
  {
    hide Disciplined, Published;
    FollowsTwice(was, log, rows, acts, rows', lease);
    forall e | e in was { OpenKeepsDiscipline(was[e], e, log, acts, lease, k); }
    forall e | Published(log + acts, k, e) ensures e in ids[..m] { PlainPublished(log, acts, k, e); }
    forall i | 0 <= i < n ensures ids[i] in rows' && Settled(rows'[ids[i]], k, lease, later) {
      assert ids[i] in ids[..n];
      SettledStays(rows[ids[i]], ids[i], acts, lease, k, now, later);
    }
  }

  lemma PlainPublished(log: seq<Action>, acts: seq<Action>, k: Id, e: Id)
    requires Published(log + acts, k, e) && forall i :: 0 <= i < |acts| ==> Plain(acts[i], k)
    ensures Published(log, k, e)
  {
    PublishedSplit(log, acts, k, e);
  }

  lemma OneMoreDone(was: map<Id, Row>, log: seq<Action>, rows: map<Id, Row>, lease: nat, now: Time, k: Id,
      ids: seq<Id>, n: nat, m: nat)
    requires Working(was, log, rows, lease, now, k, ids, n, m) && n < |ids| && m <= n + 1
    requires ids[n] in rows && Settled(rows[ids[n]], k, lease, now)
    ensures Working(was, log, rows, lease, now, k, ids, n + 1, n + 1)
  {
    PrefixIn(ids, m, n + 1);
    forall e | UpTo(ids, n, e) ensures UpTo(ids, n + 1, e) { }
  }

  lemma PrefixIn(ids: seq<Id>, m: nat, n: nat)
    requires m <= n <= |ids|
    ensures forall e :: e in ids[..m] ==> e in ids[..n]
  {
    assert ids[..m] == ids[..n][..m];
  }

  lemma EffectiveLater(row: Row, e: Id, log: seq<Action>, more: seq<Action>, lease: nat, r: nat)
    requires Effective(row, e, log, lease, r)
    ensures Effective(row, e, log + more, lease, r) && (log + more)[r] == log[r]
  {
    assert (log + more)[..r] == log[..r];
  }

  /** The claim finishes event n in its turn: a confirmed publish under a renewal, the
      mark after it, or a release instead. */
  lemma FinishKeepsWorking(was: map<Id, Row>, log: seq<Action>, rows: map<Id, Row>, lease: nat, now: Time, k: Id,
      ids: seq<Id>, n: nat, m: nat, a: Action, rows': map<Id, Row>, later: Time)
    requires Working(was, log, rows, lease, now, k, ids, n, m) && n < |ids| && now <= later
    requires Finishes(a, k, ids[n]) && InTurn(was[ids[n]], log, a, lease)
    requires Follows(rows, [a], rows', lease)
    ensures Working(was, log + [a], rows', lease, later, k, ids, n, if a.act.Publish? && m == n then n + 1 else m)
  {
    hide Disciplined, Published;
    FollowsTwice(was, log, rows, [a], rows', lease);
    forall e | e in was ensures Disciplined(was[e], e, log + [a], lease, k) {
      if e == ids[n] { TurnKeepsDiscipline(was[e], log, a, lease); } else { OpenKeepsDiscipline(was[e], e, log, [a], lease, k); }
    }
    var m' := if a.act.Publish? && m == n then n + 1 else m;
    PrefixIn(ids, m, m');
    forall x | Published(log + [a], k, x) ensures x in ids[..m'] { OnePublished(log, a, k, x); assert m' > n ==> ids[n] == ids[..m'][n]; }
    assert UpTo(ids, n, ids[n]);
    forall i | 0 <= i < n ensures ids[i] in rows' && Settled(rows'[ids[i]], k, lease, later) {
      SettledStays(rows[ids[i]], ids[i], [a], lease, k, now, later);
    }
  }

  lemma OnePublished(log: seq<Action>, a: Action, k: Id, e: Id)
    requires Published(log + [a], k, e)
    ensures Published(log, k, e) || (a.act.Publish? && a.event == e)
  {
    PublishedSplit(log, [a], k, e);
  }

  datatype Failure = NoFailure | Cancelled | Broken | Unreachable

  datatype Delivery = Confirmed | Rejected | NoBroker

  predicate Routable(eventType: string) {
    eventType == "commerce.order.created.v1" || eventType == "commerce.order.status_changed.v1"
  }

  predicate Deliverable(row: Row) {
    row.wellFormed && row.eventType in {"commerce.order.created.v1", "commerce.order.status_changed.v1"}
  }

  method Perhaps() returns (b: bool)
  {
    b := *;
  }

  method Deliver() returns (d: Delivery)
  {
    d := *;
  }

  class Processor {
    const table: Table
    const batchSize: int
    const margin: nat

    ghost predicate Busy(was: map<Id, Row>, before: seq<Action>, k: Id, ids: seq<Id>, n: nat, m: nat)
      reads table
    {
      && table.Valid() && before <= table.log
      && Working(was, table.log[|before|..], table.rows, table.lease, table.clock, k, ids, n, m)
    }

    constructor (table: Table, batchSize: int, margin: nat)
      ensures this.table == table && this.batchSize == batchSize && this.margin == margin
    {
      this.table, this.batchSize, this.margin := table, batchSize, margin;
    }

    /** Other transactions run. */
    method Pause(ghost was: map<Id, Row>, ghost before: seq<Action>, k: Id, ids: seq<Id>, ghost n: nat, ghost m: nat)
      returns (ghost acts: seq<Action>)
      requires Busy(was, before, k, ids, n, m)
      modifies table
      ensures Busy(was, before, k, ids, n, m) && table.log == old(table.log) + acts
    {
      ghost var s, rows, now := table.log[|before|..], table.rows, table.clock;
      acts := table.Others(k);
      KeepsWorking(was, s, rows, table.lease, now, k, ids, n, m, acts, table.rows, table.clock);
      assert table.log[|before|..] == s + acts;
    }

    /** Keep the leases of the events still ahead alive. */
    method RenewRest(ghost was: map<Id, Row>, ghost before: seq<Action>, k: Id, ids: seq<Id>, n: nat) returns (ok: bool)
      requires Busy(was, before, k, ids, n, n)
      modifies table
      ensures Busy(was, before, k, ids, n, n)
    {
      hide AllDisciplined, Published, Settled, Follows, UpTo, Table.Valid;
      ghost var s, rows, now := table.log[|before|..], table.rows, table.clock;
      ghost var acts;
      ok, acts := table.RenewBatchNearExpiry(ids[n..], k, margin);
      forall i | 0 <= i < |acts| ensures acts[i].event !in ids[..n] {
        assert acts[i].event == ids[n + i];
      }
      KeepsWorking(was, s, rows, table.lease, now, k, ids, n, n, acts, table.rows, table.clock);
      assert table.log[|before|..] == s + acts;
    }

    /** Release event n, which this claim has not published. */
    method GiveUp(ghost was: map<Id, Row>, ghost before: seq<Action>, k: Id, ids: seq<Id>, n: nat) returns (f: Failure)
      requires Busy(was, before, k, ids, n, n) && n < |ids|
      modifies table
      ensures f in {NoFailure, Broken}
      ensures if f == NoFailure then Busy(was, before, k, ids, n + 1, n + 1) else Busy(was, before, k, ids, n, n)
    {
      ghost var s, rows, now := table.log[|before|..], table.rows, table.clock;
      var r, acts := table.ReleaseWithBackoff(ids[n], k);
      var broken := Perhaps();
      assert table.log[|before|..] == s + acts;
      if r.Err? {
        KeepsWorking(was, s, rows, table.lease, now, k, ids, n, n, acts, table.rows, table.clock);
        return Broken;
      }
      assert acts == [acts[0]];
      assert !Published(s, k, ids[n]);
      FinishKeepsWorking(was, s, rows, table.lease, now, k, ids, n, n, acts[0], table.rows, table.clock);
      if broken { return Broken; }
      OneMoreDone(was, table.log[|before|..], table.rows, table.lease, table.clock, k, ids, n, n);
      f := NoFailure;
    }

    /** Entry r of the batch's log is a renewal of event e by claim k that took effect. */
    ghost predicate Renewed(was: map<Id, Row>, before: seq<Action>, k: Id, e: Id, r: nat)
      reads table
    {
      && before <= table.log
      && var s := table.log[|before|..];
      && e in was && Effective(was[e], e, s, table.lease, r) && s[r].act.Renew? && s[r].claim == k
    }

    /** Entry p of the batch's log is the publish of event e by claim k. */
    ghost predicate Sent(before: seq<Action>, k: Id, e: Id, p: nat)
      reads table
    {
      before <= table.log && Publishes(table.log[|before|..], k, e, p)
    }

    /** Record the confirmed publish of event n. */
    method Send(ghost was: map<Id, Row>, ghost before: seq<Action>, k: Id, ids: seq<Id>, n: nat,
        ghost r: nat) returns (ghost p: nat)
      requires Busy(was, before, k, ids, n, n) && n < |ids| && Renewed(was, before, k, ids[n], r)
      modifies table
      ensures Busy(was, before, k, ids, n, n + 1) && Sent(before, k, ids[n], p)
    {
      ghost var s, rows, now := table.log[|before|..], table.rows, table.clock;
      var sent, a := table.Execute(Publish, ids[n], k);
      assert !Published(s, k, ids[n]);
      FinishKeepsWorking(was, s, rows, table.lease, now, k, ids, n, n, a, table.rows, table.clock);
      assert table.log[|before|..] == s + [a];
      p := |s|;
    }

    /** Mark event n, published before. */
    method MarkSent(ghost was: map<Id, Row>, ghost before: seq<Action>, k: Id, ids: seq<Id>, n: nat,
        ghost p: nat) returns (f: Failure)
      requires Busy(was, before, k, ids, n, n + 1) && n < |ids| && Sent(before, k, ids[n], p)
      modifies table
      ensures f in {NoFailure, Broken}
      ensures if f == NoFailure then Busy(was, before, k, ids, n + 1, n + 1) else Busy(was, before, k, ids, n, n + 1)
      ensures Sent(before, k, ids[n], p)
    {
      ghost var s, rows, now := table.log[|before|..], table.rows, table.clock;
      var marked, acts := table.MarkPublished(ids[n], k);
      var broken := Perhaps();
      assert table.log[|before|..] == s + acts;
      if marked.Err? {
        KeepsWorking(was, s, rows, table.lease, now, k, ids, n, n + 1, acts, table.rows, table.clock);
        return Broken;
      }
      assert acts == [acts[0]];
      FinishKeepsWorking(was, s, rows, table.lease, now, k, ids, n, n + 1, acts[0], table.rows, table.clock);
      if broken { return Broken; }
      OneMoreDone(was, table.log[|before|..], table.rows, table.lease, table.clock, k, ids, n, n + 1);
      f := NoFailure;
    }

    /** Renew the lease of event n and load it; r is that renewal. */
    method Load(ghost was: map<Id, Row>, ghost before: seq<Action>, k: Id, ids: seq<Id>,
        n: nat) returns (loaded: Loaded, ghost r: nat)
      requires Busy(was, before, k, ids, n, n) && n < |ids|
      modifies table
      ensures Busy(was, before, k, ids, n, n)
      ensures loaded.ClaimLost? ==> Busy(was, before, k, ids, n + 1, n + 1)
      ensures loaded.Envelope? ==> Renewed(was, before, k, ids[n], r)
      ensures loaded.Envelope? ==> was[ids[n]].wellFormed && loaded.eventType == was[ids[n]].eventType
    {
      ghost var s, rows, now := table.log[|before|..], table.rows, table.clock;
      ghost var acts;
      loaded, acts := table.RenewAndLoadEvent(ids[n], k);
      r := |s|;
      assert forall i :: 0 <= i < |acts| ==> acts[i].event == ids[n] && acts[i].event !in ids[..n];
      KeepsWorking(was, s, rows, table.lease, now, k, ids, n, n, acts, table.rows, table.clock);
      assert table.log[|before|..] == s + acts;
      if loaded.ClaimLost? {
        OneMoreDone(was, table.log[|before|..], table.rows, table.lease, table.clock, k, ids, n, n);
      }
      if loaded.Envelope? {
        assert (s + acts)[..|s|] == s;
        SameEvent(was[ids[n]], ids[n], table.log[|before|..], table.lease);
      }
    }

    /** Event n of the batch: renew, load, publish, then mark or release. A delivery was
        attempted exactly when one is returned, and only of a well-formed event of the two
        order types; a confirmed one is on record as entry p. */
    method ProcessEvent(ghost was: map<Id, Row>, ghost before: seq<Action>, k: Id, ids: seq<Id>, n: nat)
      returns (f: Failure, delivery: Option<Delivery>, ghost p: nat)
      requires Busy(was, before, k, ids, n, n) && n < |ids|
      modifies table
      ensures if f in {NoFailure, Unreachable} then Busy(was, before, k, ids, n + 1, n + 1)
              else Busy(was, before, k, ids, n, n) || Busy(was, before, k, ids, n, n + 1)
      ensures delivery == Some(Confirmed) ==> Sent(before, k, ids[n], p)
      ensures delivery.Some? ==> ids[n] in was && Deliverable(was[ids[n]])
      ensures f == Unreachable ==> delivery == Some(NoBroker)
      ensures delivery == Some(NoBroker) ==> f != NoFailure
    {
      hide Working, Table.Valid;
      delivery, p := None, 0;
      var cancelled := Perhaps();
      if cancelled { f := Cancelled; return; }
      var ok := RenewRest(was, before, k, ids, n);
      var broken := Perhaps();
      if !ok || broken { f := Broken; return; }
      ghost var others := Pause(was, before, k, ids, n, n);
      var loaded, r := Load(was, before, k, ids, n);
      broken := Perhaps();
      if loaded.Refused? || broken { f := Broken; return; }
      if loaded.ClaimLost? { f := NoFailure; return; }
      if loaded.InvalidEnvelope? || !Routable(loaded.eventType) {
        f := GiveUp(was, before, k, ids, n);
        return;
      }
      var outcome;
      f, outcome, p := Transport(was, before, k, ids, n, r);
      delivery := Some(outcome);
    }

    /** Publish event n, loaded under renewal r. */
    method Transport(ghost was: map<Id, Row>, ghost before: seq<Action>, k: Id, ids: seq<Id>, n: nat, ghost r: nat)
      returns (f: Failure, delivery: Delivery, ghost p: nat)
      requires Busy(was, before, k, ids, n, n) && n < |ids| && Renewed(was, before, k, ids[n], r)
      modifies table
      ensures f in {NoFailure, Unreachable, Broken}
      ensures if f in {NoFailure, Unreachable} then Busy(was, before, k, ids, n + 1, n + 1)
              else Busy(was, before, k, ids, n, n) || Busy(was, before, k, ids, n, n + 1)
      ensures delivery == Confirmed ==> Sent(before, k, ids[n], p)
      ensures f == Unreachable ==> delivery == NoBroker
      ensures delivery == NoBroker ==> f != NoFailure
    {
      hide Working, Table.Valid;
      p := 0;
      ghost var s := table.log[|before|..];
      ghost var others := Pause(was, before, k, ids, n, n);
      EffectiveLater(was[ids[n]], ids[n], s, others, table.lease, r);
      assert table.log[|before|..] == s + others;
      delivery := Deliver();
      if delivery == Confirmed {
        f, p := Conclude(was, before, k, ids, n, r);
      } else {
        f := GiveUp(was, before, k, ids, n);
        if f == NoFailure && delivery == NoBroker { f := Unreachable; }
      }
    }

    /** A confirmed publish of event n, then its mark. */
    method Conclude(ghost was: map<Id, Row>, ghost before: seq<Action>, k: Id, ids: seq<Id>, n: nat, ghost r: nat)
      returns (f: Failure, ghost p: nat)
      requires Busy(was, before, k, ids, n, n) && n < |ids| && Renewed(was, before, k, ids[n], r)
      modifies table
      ensures f in {NoFailure, Broken}
      ensures if f == NoFailure then Busy(was, before, k, ids, n + 1, n + 1) else Busy(was, before, k, ids, n, n + 1)
      ensures Sent(before, k, ids[n], p)
    {
      hide Working, Table.Valid;
      p := Send(was, before, k, ids, n, r);
      ghost var s := table.log[|before|..];
      ghost var others := Pause(was, before, k, ids, n, n + 1);
      assert table.log[|before|..] == s + others;
      f := MarkSent(was, before, k, ids, n, p);
    }

    ghost predicate StillOpen(before: seq<Action>, k: Id, e: Id)
      reads table
    {
      before <= table.log && LeavesOpen(table.log[|before|..], k, e)
    }

    lemma RestOpen(was: map<Id, Row>, before: seq<Action>, k: Id, ids: seq<Id>, n: nat, m: nat)
      requires Busy(was, before, k, ids, n, m)
      ensures forall i :: n < i < |ids| ==> StillOpen(before, k, ids[i])
    {
      forall i | n < i < |ids| ensures StillOpen(before, k, ids[i]) {
        NotUpTo(ids, n, i);
        AheadIsOpen(was, table.log[|before|..], table.rows, table.lease, table.clock, k, ids, n, m, ids[i]);
      }
    }

    /** ProcessBatch: claims at most batchSize events and takes them in turn. The first
        done events end published, released or lost, those after event done are left as
        they were claimed; a batch that ends without failure leaves none, an unreachable
        broker stops it, any other failure returns a zero count. */
    method ProcessBatch(claim: Option<Id>, locked: set<Id>) returns (count: nat, f: Failure, ids: seq<Id>, done: nat)
      requires table.Valid()
      requires claim.Some? ==> forall i :: 0 <= i < |table.log| ==> table.log[i].claim != claim.value
      modifies table
      ensures table.Valid() && done <= |ids| && (claim.None? ==> f == Broken && ids == [])
      ensures claim.Some? ==> Busy(old(table.rows), old(table.log), claim.value, ids, done, done) ||
                              (done < |ids| && Busy(old(table.rows), old(table.log), claim.value, ids, done, done + 1))
      ensures claim.Some? ==> forall i :: done < i < |ids| ==> StillOpen(old(table.log), claim.value, ids[i])
      ensures f == NoFailure ==> count == done == |ids|
      ensures f == Unreachable ==> count == |ids| && done > 0
      ensures f in {Cancelled, Broken} ==> count == 0
    {
      hide Working, Table.Valid, Claimable, TakenBy, LeavesOpen, Follows, Deliverable, FirstDue, LeasedTo;
      count, ids, done := 0, [], 0;
      if claim.None? { return 0, Broken, ids, done; }
      ghost var was, before := table.rows, table.log;
      var k := claim.value;
      var r, now, acts := table.ClaimBatch(k, batchSize, locked);
      ids := if r.Ok? then r.value else [];
      var broken := Perhaps();
      Claimed(was, before, table.log, acts, table.rows, table.lease, table.clock, k, ids);
      assert table.log[|before|..] == acts;
      if r.Err? || broken {
        RestOpen(was, before, k, ids, 0, 0);
        return 0, Broken, ids, done;
      }
      while done < |ids|
        invariant done <= |ids| && Busy(was, before, k, ids, done, done)
      {
        var delivery;
        ghost var p;
        f, delivery, p := ProcessEvent(was, before, k, ids, done);
        if f in {Cancelled, Broken} {
          RestOpen(was, before, k, ids, done, if Busy(was, before, k, ids, done, done) then done else done + 1);
          return 0, f, ids, done;
        }
        done := done + 1;
        if f == Unreachable {
          RestOpen(was, before, k, ids, done, done);
          return |ids|, f, ids, done;
        }
      }
      count, f := |ids|, NoFailure;
    }
  }

  lemma Claimed(was: map<Id, Row>, before: seq<Action>, log: seq<Action>, acts: seq<Action>, rows: map<Id, Row>,
      lease: nat, now: Time, k: Id, ids: seq<Id>)
    requires log == before + acts && Follows(was, acts, rows, lease)
    requires forall i :: 0 <= i < |acts| ==> acts[i].act == Claim
    requires Distinct(ids) && forall i :: 0 <= i < |ids| ==> ids[i] in was
    ensures Working(was, acts, rows, lease, now, k, ids, 0, 0)
  {
    hide Disciplined;
    forall e | e in was { OpenIsDisciplined(was[e], e, acts, lease, k); }
  }

  // ---- Any number of workers.

  ghost predicate Unused(log: seq<Action>, k: Id) {
    forall i :: 0 <= i < |log| ==> log[i].claim != k
  }

  /** All that claim k did since the given rows is one batch, finished or not, among the
      actions of others: its identifier was drawn afresh and is never used again. */
  ghost predicate IsBatch(rows: map<Id, Row>, log: seq<Action>, lease: nat, k: Id, pre: seq<Action>, mid: seq<Action>,
      post: seq<Action>, was: map<Id, Row>)
  {
    && log == pre + mid + post && Unused(pre, k) && Unused(post, k) && Follows(rows, pre, was, lease)
    && exists now, rows', ids, n, m :: Working(was, mid, rows', lease, now, k, ids, n, m)
  }

  ghost predicate InBatch(rows: map<Id, Row>, log: seq<Action>, lease: nat, k: Id) {
    exists pre, mid, post, was :: IsBatch(rows, log, lease, k, pre, mid, post, was)
  }

  /** Every claim that finishes something on the event is one batch of some worker. */
  ghost predicate Fleet(rows: map<Id, Row>, e: Id, log: seq<Action>, lease: nat) {
    forall k: Id :: LeavesOpen(log, k, e) || InBatch(rows, log, lease, k)
  }

  /** What ProcessBatch leaves behind puts its claim in the fleet, whatever came before
      the batch and comes after it. */
  lemma BatchJoins(rows: map<Id, Row>, pre: seq<Action>, mid: seq<Action>, post: seq<Action>, was: map<Id, Row>,
      lease: nat, now: Time, k: Id, rows': map<Id, Row>, ids: seq<Id>, n: nat, m: nat)
    requires Follows(rows, pre, was, lease) && Unused(pre, k) && Unused(post, k)
    requires Working(was, mid, rows', lease, now, k, ids, n, m)
    ensures InBatch(rows, pre + mid + post, lease, k)
  {
    hide Working;
    assert IsBatch(rows, pre + mid + post, lease, k, pre, mid, post, was);
  }

  /** A batch that was under way when an event appeared never finishes it. */
  lemma NewEventOpen(was: map<Id, Row>, log: seq<Action>, rows: map<Id, Row>, lease: nat, now: Time, k: Id,
      ids: seq<Id>, n: nat, m: nat, e: Id)
    requires Working(was, log, rows, lease, now, k, ids, n, m) && e !in was
    ensures LeavesOpen(log, k, e)
  {
    AheadIsOpen(was, log, rows, lease, now, k, ids, n, m, e);
  }

  lemma FleetIsDisciplined(rows: map<Id, Row>, e: Id, log: seq<Action>, lease: nat, k: Id)
    requires e in rows && Fleet(rows, e, log, lease)
    ensures Disciplined(rows[e], e, log, lease, k)
  {
    hide Disciplined;
    if LeavesOpen(log, k, e) {
      OpenIsDisciplined(rows[e], e, log, lease, k);
    } else {
      var pre, mid, post, was :| IsBatch(rows, log, lease, k, pre, mid, post, was);
      var now, rows', ids, n, m :| Working(was, mid, rows', lease, now, k, ids, n, m);
      DisciplineLifts(rows[e], e, pre, mid, post, lease, k);
    }
  }

  /** Over any history of any number of workers: no event is falsely marked, and whenever
      an event is published twice a release or an expired lease separates the two
      publishers. */
  lemma FleetIsSafe(rows: map<Id, Row>, e: Id, log: seq<Action>, lease: nat)
    requires e in rows && Fleet(rows, e, log, lease)
    ensures rows[e].published.None? && After(rows[e], e, log, lease).published.Some? ==> TrulyMarked(rows[e], e, log, lease)
    ensures forall i: nat, j: nat :: i < j < |log| && Publishes(log, log[i].claim, e, i) && Publishes(log, log[j].claim, e, j) ==>
      log[i].claim != log[j].claim && Separated(rows[e], e, log, lease, i, j)
  {
    hide Disciplined, Separated, TrulyMarked, Fleet;
    forall k: Id { FleetIsDisciplined(rows, e, log, lease, k); }
    if rows[e].published.None? && After(rows[e], e, log, lease).published.Some? { NoFalseMark(rows[e], e, log, lease); }
    forall i: nat, j: nat | i < j < |log| && Publishes(log, log[i].claim, e, i) && Publishes(log, log[j].claim, e, j)
      ensures log[i].claim != log[j].claim && Separated(rows[e], e, log, lease, i, j)
    {
      SecondPublish(rows[e], e, log, lease, i, j);
    }
  }
}
