/** The outbox lease protocol as row-level steps under a moving clock
    (packages/outbox/outbox.go). */
module Leases {
  import opened Base

  const SECOND: nat := 1_000_000
  const MAX_BACKOFF_EXPONENT: nat := 6

  /** publish_claim_id and publish_claimed_at, which every statement sets together. */
  datatype Lease = Lease(claim: Id, at: Time)

  datatype Row = Row(
    lease: Option<Lease>, attempts: nat, nextAttempt: Time, published: Option<Time>,
    created: Time, eventType: string, wellFormed: bool)

  datatype Act = Claim | Renew | RenewSoon(margin: nat) | Publish | Mark | Release

  /** One row-level effect of a statement, or a confirmed publish, which touches no row.
      A statement reads the clock when it tests the row and again when it writes it. */
  datatype Action = Action(act: Act, event: Id, claim: Id, check: Time, write: Time)

  function Power2(n: nat): nat {
    if n == 0 then 1 else 2 * Power2(n - 1)
  }

  function Delay(attempts: nat): nat {
    SECOND * Power2(if attempts < MAX_BACKOFF_EXPONENT then attempts else MAX_BACKOFF_EXPONENT)
  }

  predicate Holds(row: Row, claim: Id) {
    row.lease.Some? && row.lease.value.claim == claim
  }

  predicate Expired(row: Row, lease: nat, now: Time) {
    row.lease.Some? && row.lease.value.at + lease < now
  }

  predicate Claimable(row: Row, lease: nat, now: Time) {
    row.published.None? && row.nextAttempt <= now && (row.lease.None? || Expired(row, lease, now))
  }

  /** The WHERE clause of the statement. */
  predicate Takes(row: Row, a: Action, lease: nat) {
    match a.act
    case Claim => Claimable(row, lease, a.check)
    case Renew => row.published.None? && Holds(row, a.claim) && !Expired(row, lease, a.check)
    case RenewSoon(margin) =>
      row.published.None? && Holds(row, a.claim) && !Expired(row, lease, a.check) && row.lease.value.at + lease <= a.check + margin
    case Publish => false
    case Mark => row.published.None? && Holds(row, a.claim)
    case Release => row.published.None? && Holds(row, a.claim)
  }

  function Written(row: Row, a: Action): Row {
    match a.act
    case Claim => row.(lease := Some(Lease(a.claim, a.write)))
    case Renew => row.(lease := Some(Lease(a.claim, a.write)))
    case RenewSoon(_) => row.(lease := Some(Lease(a.claim, a.write)))
    case Publish => row
    case Mark => row.(published := Some(a.write), lease := None)
    case Release => row.(attempts := row.attempts + 1, lease := None, nextAttempt := a.write + Delay(row.attempts))
  }

  function Next(row: Row, a: Action, lease: nat): Row {
    if Takes(row, a, lease) then Written(row, a) else row
  }

  /** The row of event e after the given actions, of which only those on e matter. */
  function After(row: Row, e: Id, log: seq<Action>, lease: nat): Row {
    if log == [] then row
    else
      var before := After(row, e, log[..|log| - 1], lease);
      var a := log[|log| - 1];
      if a.event == e then Next(before, a, lease) else before
  }

  /** No statement rewrites the event itself. */
  lemma {:induction false} SameEvent(row: Row, e: Id, log: seq<Action>, lease: nat)
    ensures var now := After(row, e, log, lease);
      now.eventType == row.eventType && now.wellFormed == row.wellFormed && now.created == row.created
  {
    if log != [] { SameEvent(row, e, log[..|log| - 1], lease); }
  }

  /** On one row times never run backwards, within a statement or between two of them. */
  ghost predicate Clocked(log: seq<Action>, e: Id) {
    && (forall i :: 0 <= i < |log| && log[i].event == e ==> log[i].check <= log[i].write)
    && (forall i, j :: 0 <= i < j < |log| && log[i].event == log[j].event == e ==> log[i].write <= log[j].check)
  }

  /** Action i took effect on the row of event e. */
  ghost predicate Effective(row: Row, e: Id, log: seq<Action>, lease: nat, i: nat) {
    i < |log| && log[i].event == e && Takes(After(row, e, log[..i], lease), log[i], lease)
  }

  lemma AfterStep(row: Row, e: Id, log: seq<Action>, lease: nat, i: nat)
    requires i < |log|
    ensures After(row, e, log[..i + 1], lease) ==
            if log[i].event == e then Next(After(row, e, log[..i], lease), log[i], lease) else After(row, e, log[..i], lease)
  {
    assert log[..i + 1][..i] == log[..i];
  }

  /** When each statement touches a row. A lease lives through its last microsecond; a
      renewal near expiry leaves alone a lease with more than the margin left. */
  lemma StatementsExact(row: Row, e: Id, claim: Id, margin: nat, lease: nat, check: Time, write: Time)
    ensures var alive := row.lease.Some? && check <= row.lease.value.at + lease;
            var mine := row.published.None? && row.lease.Some? && row.lease.value.claim == claim;
            && (Takes(row, Action(Claim, e, claim, check, write), lease) <==> row.published.None? && row.nextAttempt <= check && !alive)
            && (Takes(row, Action(Renew, e, claim, check, write), lease) <==> mine && alive)
            && (Takes(row, Action(RenewSoon(margin), e, claim, check, write), lease) <==> mine && alive && row.lease.value.at + lease <= check + margin)
            && (Takes(row, Action(Mark, e, claim, check, write), lease) <==> mine)
            && (Takes(row, Action(Release, e, claim, check, write), lease) <==> mine)
            && !Takes(row, Action(Publish, e, claim, check, write), lease)
  {
  }

  // ---- Exclusivity.

  /** At each instant a leased, unpublished, due row can be renewed by its holder or taken
      by another claim, never both and never neither. */
  lemma RenewOrSteal(row: Row, claim: Id, other: Id, lease: nat, now: Time)
    requires Holds(row, claim) && row.published.None? && row.nextAttempt <= now
    ensures Takes(row, Action(Renew, 0, claim, now, now), lease) <==> !Takes(row, Action(Claim, 0, other, now, now), lease)
  {
  }

  /** What claim k itself does to event e between a renewal and its mark. */
  ghost predicate OnlyRenews(log: seq<Action>, e: Id, k: Id, from: nat, to: nat) {
    forall i :: from <= i < to <= |log| && log[i].event == e && log[i].claim == k ==>
      log[i].act.Renew? || log[i].act.RenewSoon? || log[i].act.Publish?
  }

  /** After a successful renewal at time t, no other worker can take the event through
      t + lease: the holder keeps it whatever the others do. */
  lemma {:induction false} LeaseHolds(row: Row, e: Id, log: seq<Action>, lease: nat, k: Id, r: nat, i: nat)
    requires Clocked(log, e) && r < i <= |log|
    requires Effective(row, e, log, lease, r) && log[r].act.Renew? && log[r].claim == k
    requires OnlyRenews(log, e, k, r + 1, i)
    requires forall j :: r < j < i && log[j].event == e ==> log[j].check <= log[r].write + lease
    ensures var now := After(row, e, log[..i], lease);
            now.published.None? && Holds(now, k) && now.lease.value.at >= log[r].write
  {
    AfterStep(row, e, log, lease, i - 1);
    if i - 1 > r {
      LeaseHolds(row, e, log, lease, k, r, i - 1);
    }
  }

  /** A publish confirmed and marked by t + lease, t the time of the renewal before it, is
      always marked. */
  lemma MarkInTimeSucceeds(row: Row, e: Id, log: seq<Action>, lease: nat, k: Id, r: nat, m: nat)
    requires Clocked(log, e) && r < m < |log|
    requires Effective(row, e, log, lease, r) && log[r].act.Renew? && log[r].claim == k
    requires OnlyRenews(log, e, k, r + 1, m)
    requires log[m].act.Mark? && log[m].event == e && log[m].claim == k && log[m].check <= log[r].write + lease
    ensures Effective(row, e, log, lease, m)
    ensures After(row, e, log[..m + 1], lease).published == Some(log[m].write)
  {
    LeaseHolds(row, e, log, lease, k, r, m);
    AfterStep(row, e, log, lease, m);
  }

  // ---- Ownership changes hands only by release or expiry.

  /** Action i ends a lease: its holder released it, or it had expired when taken. */
  ghost predicate Ends(row: Row, e: Id, log: seq<Action>, lease: nat, i: nat) {
    && Effective(row, e, log, lease, i)
    && (log[i].act.Release? || (log[i].act.Claim? && Expired(After(row, e, log[..i], lease), lease, log[i].check)))
  }

  ghost predicate EndsBetween(row: Row, e: Id, log: seq<Action>, lease: nat, from: nat, to: nat) {
    exists i :: from <= i < to && Ends(row, e, log, lease, i)
  }

  /** Frozen once published: no statement touches the row again. */
  lemma {:induction false} PublishedOnce(row: Row, e: Id, log: seq<Action>, lease: nat, i: nat, j: nat)
    requires i <= j <= |log| && After(row, e, log[..i], lease).published.Some?
    ensures After(row, e, log[..j], lease) == After(row, e, log[..i], lease)
    decreases j
  {
    if i < j {
      PublishedOnce(row, e, log, lease, i, j - 1);
      AfterStep(row, e, log, lease, j - 1);
    }
  }

  lemma {:induction false} OwnerChange(row: Row, e: Id, log: seq<Action>, lease: nat, a: Id, i: nat, j: nat)
    requires i <= j <= |log|
    requires Holds(After(row, e, log[..i], lease), a)
    ensures var now := After(row, e, log[..j], lease);
            now.published.Some? || Holds(now, a) || EndsBetween(row, e, log, lease, i, j)
    decreases j
  {
    if i < j {
      OwnerChange(row, e, log, lease, a, i, j - 1);
      AfterStep(row, e, log, lease, j - 1);
      var prev := After(row, e, log[..j - 1], lease);
      if prev.published.Some? {
      } else if EndsBetween(row, e, log, lease, i, j - 1) {
        var x :| i <= x < j - 1 && Ends(row, e, log, lease, x);
      } else if After(row, e, log[..j], lease).published.None? && !Holds(After(row, e, log[..j], lease), a) {
        assert Ends(row, e, log, lease, j - 1);
      }
    }
  }

  /** A publish is covered by a renewal of the same claim that took effect before it. */
  ghost predicate Covered(row: Row, e: Id, log: seq<Action>, lease: nat, i: nat, r: nat) {
    && r < i < |log| && log[i].act.Publish? && log[i].event == e
    && Effective(row, e, log, lease, r) && log[r].act.Renew? && log[r].claim == log[i].claim
  }

  function Lower(a: nat, b: nat): nat { if a < b then a else b }

  function Upper(a: nat, b: nat): nat { if a < b then b else a }

  /** Two claims that publish one event hold it one after the other: between the renewals
      they published under lies a release or the taking of an expired lease. */
  lemma SecondPublishNeedsAnEnd(row: Row, e: Id, log: seq<Action>, lease: nat, i: nat, j: nat, ri: nat, rj: nat)
    requires Covered(row, e, log, lease, i, ri) && Covered(row, e, log, lease, j, rj)
    requires log[i].claim != log[j].claim
    ensures EndsBetween(row, e, log, lease, Lower(ri, rj) + 1, Upper(ri, rj))
  {
    var first, last := Lower(ri, rj), Upper(ri, rj);
    AfterStep(row, e, log, lease, first);
    OwnerChange(row, e, log, lease, log[first].claim, first + 1, last);
  }

  // ---- No event is lost.

  /** A row written before time t: its lease was due when taken, and a release never
      pushes the next attempt more than 64 seconds ahead. */
  ghost predicate Bounded(row: Row, t: Time) {
    && (row.lease.Some? ==> row.lease.value.at <= t && row.nextAttempt <= t)
    && row.nextAttempt <= t + 64 * SECOND
  }

  lemma DelayBounds(attempts: nat)
    ensures SECOND <= Delay(attempts) <= 64 * SECOND
  {
    assert Power2(0) == 1 && Power2(1) == 2 && Power2(2) == 4 && Power2(3) == 8;
    assert Power2(4) == 16 && Power2(5) == 32 && Power2(6) == 64;
  }

  // ---- The backoff doubles.

  /** Seconds of the release after so many attempts: doubling, capped at the seventh. */
  const BACKOFF_SECONDS: seq<nat> := [1, 2, 4, 8, 16, 32, 64]

  function Sixth(n: nat): nat { if n < 6 then n else 6 }

  lemma DelayTable(n: nat)
    ensures Delay(n) == 1_000_000 * BACKOFF_SECONDS[Sixth(n)]
  {
    assert Power2(0) == 1 && Power2(1) == 2 && Power2(2) == 4 && Power2(3) == 8;
    assert Power2(4) == 16 && Power2(5) == 32 && Power2(6) == 64;
  }

  /** One second first, twice as long each time, 64 seconds from the seventh on. */
  lemma DelayDoubles(n: nat)
    ensures Delay(0) == 1_000_000
    ensures n < 6 ==> Delay(n + 1) == 2 * Delay(n)
    ensures n >= 6 ==> Delay(n) == 64_000_000
  {
    DelayTable(0);
    DelayTable(n);
    DelayTable(n + 1);
  }

  /** Releases of e among the first i actions that took effect. */
  ghost function ReleaseCount(row: Row, e: Id, log: seq<Action>, lease: nat, i: nat): nat
    requires i <= |log|
  {
    if i == 0 then 0
    else ReleaseCount(row, e, log, lease, i - 1) + if Effective(row, e, log, lease, i - 1) && log[i - 1].act.Release? then 1 else 0
  }

  lemma {:induction false} AttemptsCount(row: Row, e: Id, log: seq<Action>, lease: nat, i: nat)
    requires i <= |log|
    ensures After(row, e, log[..i], lease).attempts == row.attempts + ReleaseCount(row, e, log, lease, i)
  {
    if i > 0 {
      AttemptsCount(row, e, log, lease, i - 1);
      AfterStep(row, e, log, lease, i - 1);
    } else {
      assert log[..0] == [];
    }
  }

  /** The release that comes after n others of the event gives it back for 1, 2, 4, 8, 16,
      32 or 64 seconds, 64 from the seventh release on, whatever else happened to it. */
  lemma ReleaseBackoff(row: Row, e: Id, log: seq<Action>, lease: nat, i: nat)
    requires row.attempts == 0 && i < |log| && Effective(row, e, log, lease, i) && log[i].act.Release?
    ensures var n := ReleaseCount(row, e, log, lease, i);
            var now := After(row, e, log[..i + 1], lease);
            && now.nextAttempt == log[i].write + 1_000_000 * [1, 2, 4, 8, 16, 32, 64][if n < 6 then n else 6]
            && now.lease.None? && now.published.None? && now.attempts == n + 1
  {
    AttemptsCount(row, e, log, lease, i);
    AfterStep(row, e, log, lease, i);
    DelayTable(ReleaseCount(row, e, log, lease, i));
  }

  /** Every statement on e ran between t and now. */
  ghost predicate Within(log: seq<Action>, e: Id, t: Time, now: Time) {
    t <= now && forall i :: 0 <= i < |log| && log[i].event == e ==> t <= log[i].check <= log[i].write <= now
  }

  lemma {:induction false} StaysBounded(row: Row, e: Id, log: seq<Action>, lease: nat, t: Time, now: Time)
    requires Bounded(row, t) && Within(log, e, t, now)
    ensures Bounded(After(row, e, log, lease), now)
  {
    if log != [] {
      var n := |log| - 1;
      StaysBounded(row, e, log[..n], lease, t, now);
      DelayBounds(After(row, e, log[..n], lease).attempts);
    }
  }

  /** Every unpublished event can be claimed after bounded time, whatever happened to it:
      the longer of one lease and 64 seconds after the last statement on it. */
  lemma ClaimableInBoundedTime(row: Row, e: Id, log: seq<Action>, lease: nat, t: Time, last: Time, now: Time)
    requires Bounded(row, t) && Within(log, e, t, last)
    requires After(row, e, log, lease).published.None?
    requires now > last + lease && now >= last + 64 * SECOND
    ensures Claimable(After(row, e, log, lease), lease, now)
  {
    StaysBounded(row, e, log, lease, t, last);
  }

  /** An event becomes published only by a mark of its current holder. */
  lemma {:induction false} PublishedByMark(row: Row, e: Id, log: seq<Action>, lease: nat) returns (m: nat)
    requires row.published.None? && After(row, e, log, lease).published.Some?
    ensures Effective(row, e, log, lease, m) && log[m].act.Mark?
    ensures Holds(After(row, e, log[..m], lease), log[m].claim)
    ensures After(row, e, log, lease).published == Some(log[m].write)
  {
    var n := |log| - 1;
    if After(row, e, log[..n], lease).published.Some? {
      m := PublishedByMark(row, e, log[..n], lease);
      assert log[..n][..m] == log[..m];
    } else {
      m := n;
    }
  }

  // ---- Whole tables, and logs in pieces.

  lemma {:induction false} AfterTwice(row: Row, e: Id, a: seq<Action>, b: seq<Action>, lease: nat)
    ensures After(row, e, a + b, lease) == After(After(row, e, a, lease), e, b, lease)
  {
    if b == [] {
      assert a + b == a;
    } else {
      AfterTwice(row, e, a, b[..|b| - 1], lease);
      assert (a + b)[..|a + b| - 1] == a + b[..|b| - 1];
    }
  }

  /** Every row of was is now what the actions make of it; rows may have been added. */
  ghost predicate Follows(was: map<Id, Row>, log: seq<Action>, now: map<Id, Row>, lease: nat) {
    forall e :: e in was ==> e in now && now[e] == After(was[e], e, log, lease)
  }

  lemma FollowsTwice(was: map<Id, Row>, a: seq<Action>, mid: map<Id, Row>, b: seq<Action>, now: map<Id, Row>,
      lease: nat)
    requires Follows(was, a, mid, lease) && Follows(mid, b, now, lease)
    ensures Follows(was, a + b, now, lease)
  {
    forall e | e in was { AfterTwice(was[e], e, a, b, lease); }
  }

  // ---- The order a worker keeps: renew, publish, mark.

  ghost predicate Publishes(log: seq<Action>, k: Id, e: Id, i: nat) {
    i < |log| && log[i].act.Publish? && log[i].claim == k && log[i].event == e
  }

  ghost predicate Marks(log: seq<Action>, k: Id, e: Id, i: nat) {
    i < |log| && log[i].act.Mark? && log[i].claim == k && log[i].event == e
  }

  ghost predicate Releases(log: seq<Action>, k: Id, e: Id, i: nat) {
    i < |log| && log[i].act.Release? && log[i].claim == k && log[i].event == e
  }

  ghost predicate Published(log: seq<Action>, k: Id, e: Id) {
    exists i: nat :: Publishes(log, k, e, i)
  }

  ghost predicate IsCovered(row: Row, e: Id, log: seq<Action>, lease: nat, i: nat) {
    exists r: nat :: Covered(row, e, log, lease, i, r)
  }

  /** On event e, whose row was the given one before the log, claim k publishes only under
      a renewal of its own and at most once, marks only what it has published and releases
      only what it has not. */
  ghost predicate Disciplined(row: Row, e: Id, log: seq<Action>, lease: nat, k: Id) {
    && (forall i: nat :: Publishes(log, k, e, i) ==> IsCovered(row, e, log, lease, i))
    && (forall i: nat, j: nat :: Publishes(log, k, e, i) && Publishes(log, k, e, j) ==> i == j)
    && (forall i: nat :: Marks(log, k, e, i) ==> Published(log[..i], k, e))
    && (forall i: nat :: Releases(log, k, e, i) ==> !Published(log[..i], k, e))
  }

  /** The action finishes an event: publishes it, marks it or gives it up. */
  predicate Finishing(a: Action) {
    a.act.Publish? || a.act.Mark? || a.act.Release?
  }

  predicate Finishes(a: Action, k: Id, e: Id) {
    a.claim == k && a.event == e && Finishing(a)
  }

  /** Claim k finishes nothing on event e here. */
  ghost predicate LeavesOpen(log: seq<Action>, k: Id, e: Id) {
    forall i :: 0 <= i < |log| ==> !Finishes(log[i], k, e)
  }

  lemma CoveredWithin(row: Row, e: Id, pre: seq<Action>, mid: seq<Action>, post: seq<Action>, lease: nat, i: nat)
    requires IsCovered(After(row, e, pre, lease), e, mid, lease, i)
    ensures IsCovered(row, e, pre + mid + post, lease, |pre| + i)
  {
    var r: nat :| Covered(After(row, e, pre, lease), e, mid, lease, i, r);
    var all := pre + mid + post;
    assert all[..|pre| + r] == pre + mid[..r];
    AfterTwice(row, e, pre, mid[..r], lease);
    assert Covered(row, e, all, lease, |pre| + i, |pre| + r);
  }

  lemma PublishedWithin(pre: seq<Action>, mid: seq<Action>, post: seq<Action>, k: Id, e: Id, i: nat)
    requires LeavesOpen(pre, k, e) && i <= |mid|
    ensures Published((pre + mid + post)[..|pre| + i], k, e) <==> Published(mid[..i], k, e)
  {
    var part := (pre + mid + post)[..|pre| + i];
    if Published(part, k, e) {
      var x: nat :| Publishes(part, k, e, x);
      assert x < |pre| ==> Finishes(pre[x], k, e);
      assert Publishes(mid[..i], k, e, x - |pre|);
    }
    if Published(mid[..i], k, e) {
      var x: nat :| Publishes(mid[..i], k, e, x);
      assert Publishes(part, k, e, |pre| + x);
    }
  }

  lemma Located(pre: seq<Action>, mid: seq<Action>, post: seq<Action>, i: nat)
    requires i < |pre + mid + post|
    ensures i < |pre| ==> (pre + mid + post)[i] == pre[i]
    ensures |pre| <= i < |pre| + |mid| ==> (pre + mid + post)[i] == mid[i - |pre|]
    ensures i >= |pre| + |mid| ==> (pre + mid + post)[i] == post[i - |pre| - |mid|]
  {
  }

  lemma FinishLocated(pre: seq<Action>, mid: seq<Action>, post: seq<Action>, k: Id, e: Id, i: nat)
    requires LeavesOpen(pre, k, e) && LeavesOpen(post, k, e)
    requires i < |pre + mid + post| && Finishes((pre + mid + post)[i], k, e)
    ensures |pre| <= i < |pre| + |mid| && (pre + mid + post)[i] == mid[i - |pre|]
  {
    Located(pre, mid, post, i);
  }

  /** Discipline over one stretch of the log is discipline over all of it, when the claim
      finishes the event nowhere else. */
  lemma DisciplineLifts(row: Row, e: Id, pre: seq<Action>, mid: seq<Action>, post: seq<Action>, lease: nat, k: Id)
    requires Disciplined(After(row, e, pre, lease), e, mid, lease, k)
    requires LeavesOpen(pre, k, e) && LeavesOpen(post, k, e)
    ensures Disciplined(row, e, pre + mid + post, lease, k)
  {
    var all := pre + mid + post;
    hide IsCovered, Published;
    forall i: nat | i < |all| && Finishes(all[i], k, e) { FinishLocated(pre, mid, post, k, e, i); }
    forall i: nat | Publishes(all, k, e, i) ensures Publishes(mid, k, e, i - |pre|) && IsCovered(row, e, all, lease, i) {
      assert Finishes(all[i], k, e);
      CoveredWithin(row, e, pre, mid, post, lease, i - |pre|);
    }
    forall i: nat | Marks(all, k, e, i) ensures Published(all[..i], k, e) {
      assert Finishes(all[i], k, e);
      assert Marks(mid, k, e, i - |pre|);
      PublishedWithin(pre, mid, post, k, e, i - |pre|);
    }
    forall i: nat | Releases(all, k, e, i) ensures !Published(all[..i], k, e) {
      assert Finishes(all[i], k, e);
      assert Releases(mid, k, e, i - |pre|);
      PublishedWithin(pre, mid, post, k, e, i - |pre|);
    }
  }

  lemma OpenKeepsDiscipline(row: Row, e: Id, log: seq<Action>, more: seq<Action>, lease: nat, k: Id)
    requires Disciplined(row, e, log, lease, k) && LeavesOpen(more, k, e)
    ensures Disciplined(row, e, log + more, lease, k)
  {
    assert [] + log + more == log + more;
    assert After(row, e, [], lease) == row;
    DisciplineLifts(row, e, [], log, more, lease, k);
  }

  lemma OpenIsDisciplined(row: Row, e: Id, log: seq<Action>, lease: nat, k: Id)
    requires LeavesOpen(log, k, e)
    ensures Disciplined(row, e, log, lease, k)
  {
    forall i: nat | Publishes(log, k, e, i) || Marks(log, k, e, i) || Releases(log, k, e, i) ensures false {
      assert Finishes(log[i], k, e);
    }
  }

  /** One more action of claim k that finishes event e, in its turn: a publish under a
      renewal and not repeated, a mark after the publish, a release without one. */
  ghost predicate InTurn(row: Row, log: seq<Action>, a: Action, lease: nat) {
    var e, k := a.event, a.claim;
    match a.act
    case Publish => !Published(log, k, e) && exists r: nat :: Effective(row, e, log, lease, r) && log[r].act.Renew? && log[r].claim == k
    case Mark => Published(log, k, e)
    case Release => !Published(log, k, e)
    case _ => true
  }

  lemma TurnKeepsDiscipline(row: Row, log: seq<Action>, a: Action, lease: nat)
    requires Disciplined(row, a.event, log, lease, a.claim) && InTurn(row, log, a, lease)
    ensures Disciplined(row, a.event, log + [a], lease, a.claim)
  {
    var e, k, all := a.event, a.claim, log + [a];
    forall i: nat | Publishes(all, k, e, i) ensures IsCovered(row, e, all, lease, i) {
      if i < |log| {
        assert Publishes(log, k, e, i);
        assert [] + log + [a] == all && After(row, e, [], lease) == row;
        CoveredWithin(row, e, [], log, [a], lease, i);
      } else {
        var r: nat :| Effective(row, e, log, lease, r) && log[r].act.Renew? && log[r].claim == k;
        assert all[..r] == log[..r];
        assert Covered(row, e, all, lease, i, r);
      }
    }
    forall i: nat, j: nat | Publishes(all, k, e, i) && Publishes(all, k, e, j) ensures i == j {
      assert i < |log| ==> Publishes(log, k, e, i);
      assert j < |log| ==> Publishes(log, k, e, j);
    }
    forall i: nat | Marks(all, k, e, i) ensures Published(all[..i], k, e) {
      assert all[..i] == log[..i];
      assert i < |log| ==> Marks(log, k, e, i);
      assert log[..|log|] == log;
    }
    forall i: nat | Releases(all, k, e, i) ensures !Published(all[..i], k, e) {
      assert all[..i] == log[..i];
      assert i < |log| ==> Releases(log, k, e, i);
      assert log[..|log|] == log;
    }
  }

  // ---- Every claim disciplined.

  /** Both publishes have renewals of their own claims before them, and whichever renewals
      those are, the lease ended between the earlier and the later one. */
  ghost predicate Separated(row: Row, e: Id, log: seq<Action>, lease: nat, i: nat, j: nat) {
    && IsCovered(row, e, log, lease, i) && IsCovered(row, e, log, lease, j)
    && (forall ri: nat, rj: nat :: Covered(row, e, log, lease, i, ri) && Covered(row, e, log, lease, j, rj) ==>
          EndsBetween(row, e, log, lease, Lower(ri, rj) + 1, Upper(ri, rj)))
  }

  /** Among disciplined workers any second publish of an event is by another claim, and a
      release or an expired lease separates the two publishers. */
  lemma SecondPublish(row: Row, e: Id, log: seq<Action>, lease: nat, i: nat, j: nat)
    requires i < j < |log| && Publishes(log, log[i].claim, e, i) && Publishes(log, log[j].claim, e, j)
    requires forall k: Id :: Disciplined(row, e, log, lease, k)
    ensures log[i].claim != log[j].claim && Separated(row, e, log, lease, i, j)
  {
    assert Disciplined(row, e, log, lease, log[i].claim) && Disciplined(row, e, log, lease, log[j].claim);
    assert IsCovered(row, e, log, lease, i) && IsCovered(row, e, log, lease, j);
    forall ri: nat, rj: nat | Covered(row, e, log, lease, i, ri) && Covered(row, e, log, lease, j, rj)
      ensures EndsBetween(row, e, log, lease, Lower(ri, rj) + 1, Upper(ri, rj))
    {
      SecondPublishNeedsAnEnd(row, e, log, lease, i, j, ri, rj);
    }
  }

  /** Some mark of the event took effect after a publish by the same claim. */
  ghost predicate TrulyMarked(row: Row, e: Id, log: seq<Action>, lease: nat) {
    exists m: nat, i: nat :: i < m && Effective(row, e, log, lease, m) && log[m].act.Mark? && Publishes(log, log[m].claim, e, i)
  }

  /** No event is falsely marked: among disciplined workers an event that became published
      was published before by the very claim that marked it. */
  lemma NoFalseMark(row: Row, e: Id, log: seq<Action>, lease: nat)
    requires row.published.None? && After(row, e, log, lease).published.Some?
    requires forall k: Id :: Disciplined(row, e, log, lease, k)
    ensures TrulyMarked(row, e, log, lease)
  {
    var m := PublishedByMark(row, e, log, lease);
    var k := log[m].claim;
    assert Disciplined(row, e, log, lease, k) && Marks(log, k, e, m);
    var i: nat :| Publishes(log[..m], k, e, i);
    assert Publishes(log, k, e, i);
  }
}
