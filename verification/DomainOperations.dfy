/** The domain transactions as they update the table, and verification as a read, a lookup
    and a conditional write with other transactions in between
    (modules/commerce/domain_repository.go, modules/commerce/domain_service.go:41-117). */
module DomainOperations {
  import opened Base
  import opened Domains

  /** FormatTXTRecordValue. */
  function ExpectedRecord(token: string): string {
    "matjero-verification=" + token
  }

  datatype Lookup = Records(records: seq<string>) | NoSuchName | TryAgain

  class Repository {
    var rows: Rows

    ghost predicate Valid()
      reads this
    {
      Inv(rows)
    }

    constructor ()
      ensures Valid() && rows == map[]
    {
      rows := map[];
      NoDomains();
    }

    /** Other transactions commit. */
    method Others()
      requires Valid()
      modifies this
      ensures Valid()
      ensures forall id :: id in old(rows) ==> id in rows && rows[id].store == old(rows)[id].store && rows[id].custom == old(rows)[id].custom
    {
      hide Inv, Apply;
      var n: int :| 0 <= n;
      while n > 0
        invariant Valid()
        invariant forall id :: id in old(rows) ==> id in rows && rows[id].store == old(rows)[id].store && rows[id].custom == old(rows)[id].custom
        decreases n
      {
        var s: Step := *;
        if Possible(rows, s) {
          StepKeepsInv(rows, s);
          StepKeepsIdentity(rows, s);
          rows := Apply(rows, s);
        }
        n := n - 1;
      }
    }

    /** Demote the current primary, promote the target. */
    method ActivateCustomDomainTx(store: Id, id: Id) returns (r: Result<Domain>)
      requires Valid()
      modifies this
      ensures Valid() && (rows, r) == Activate(old(rows), store, id)
    {
      ActivateKeeps(rows, store, id);
      if store == 0 || id == 0 { return Err(InvalidInput); }
      if id !in rows || rows[id].store != store { return Err(NotFound); }
      var target := rows[id];
      if !target.custom { return Err(InvalidInput); }
      if target.status != Verified { return Err(Conflict); }
      var tx := map k | k in rows :: if rows[k].store == store && rows[k].isPrimary then rows[k].(isPrimary := false) else rows[k];
      assert tx == Demoted(rows, store);
      var activated := tx[id].(status := Active, isPrimary := true);
      tx := tx[id := activated];
      rows := tx;
      r := Ok(activated);
    }

    /** Disable the target; if it was primary, promote a platform domain in its place. */
    method DisableDomainTx(id: Id) returns (r: Result<Domain>)
      requires Valid()
      modifies this
      ensures Valid() && (rows, r) == Disable(old(rows), id)
    {
      DisableKeeps(rows, id);
      if id == 0 { return Err(InvalidInput); }
      if id !in rows { return Err(NotFound); }
      var target := rows[id];
      if target.status == Disabled { return Ok(target); }
      var disabled := target.(status := Disabled, isPrimary := false);
      var tx := rows[id := disabled];
      if target.isPrimary {
        var fallback := OldestActivePlatform(tx, target.store);
        if fallback.Some? {
          tx := tx[fallback.value := tx[fallback.value].(isPrimary := true)];
        }
      }
      rows := tx;
      r := Ok(disabled);
    }

    /** Scan for the oldest active platform domain of the store, ids in order. */
    method OldestActivePlatform(tx: Rows, store: Id) returns (best: Option<Id>)
      ensures best == Fallback(tx, store)
    {
      hide Scanned, ActivePlatform, Ascending, Fallback;
      var ids := SortedIds(tx.Keys);
      SortedIdsSorted(tx.Keys);
      NothingScanned(tx, store, ids);
      best := None;
      var i := 0;
      while i < |ids|
        invariant 0 <= i <= |ids|
        invariant Scanned(tx, store, ids[..i], best)
      {
        var k := ids[i];
        ScanStep(tx, store, ids, i, best);
        if ActivePlatform(tx, store, k) && (best.None? || tx[k].createdAt < tx[best.value].createdAt) {
          best := Some(k);
        }
        i := i + 1;
      }
      assert ids[..i] == ids;
      ScanFinds(tx, store, ids, best);
    }

    /** Back to where moderation found it, without its primary seat unless none is taken. */
    method EnableDomainTx(id: Id) returns (r: Result<Domain>)
      requires Valid()
      modifies this
      ensures Valid() && (rows, r) == Enable(old(rows), id)
    {
      EnableKeeps(rows, id);
      if id == 0 { return Err(InvalidInput); }
      if id !in rows { return Err(NotFound); }
      var target := rows[id];
      if target.status != Disabled { return Err(Conflict); }
      var status, primary := Active, false;
      if target.custom {
        status := if target.verifiedAt.Some? then Verified else PendingCheck;
      } else {
        var count := |set k | k in rows && rows[k].store == target.store && rows[k].isPrimary|;
        primary := count == 0;
        CountsPrimaries(rows, target.store);
      }
      var enabled := target.(status := status, isPrimary := primary);
      rows := rows[id := enabled];
      r := Ok(enabled);
    }

    method MarkDomainVerifiedIfVerifiable(id: Id, now: Time) returns (r: Result<Domain>)
      requires Valid()
      modifies this
      ensures Valid() && (rows, r) == MarkVerified(old(rows), id, Some(now), now)
    {
      StepKeepsInv(rows, Pass(id, now));
      if id == 0 { return Err(InvalidInput); }
      if id !in rows || !rows[id].custom || !(rows[id].status == PendingCheck || rows[id].status == Failed) { return Err(Conflict); }
      var d := rows[id].(status := Verified, verifiedAt := Some(now), checkedAt := Some(now));
      rows := rows[id := d];
      r := Ok(d);
    }

    method MarkDomainVerificationFailedIfVerifiable(id: Id, now: Time) returns (r: Result<Domain>)
      requires Valid()
      modifies this
      ensures Valid() && (rows, r) == MarkFailed(old(rows), id, now)
    {
      StepKeepsInv(rows, Fail(id, now));
      if id == 0 { return Err(InvalidInput); }
      if id !in rows || !rows[id].custom || !(rows[id].status == PendingCheck || rows[id].status == Failed) { return Err(Conflict); }
      var d := rows[id].(status := Failed, checkedAt := Some(now));
      rows := rows[id := d];
      r := Ok(d);
    }

    /** A DNS answer, whatever it is. */
    method LookupTXT() returns (answer: Lookup)
    {
      answer := *;
    }

    /** Read the domain, look its record up, then write conditionally; anything may commit
        between the read and the write. */
    method VerifyCustomStoreDomainForSubject(store: Id, id: Id, now: Time)
      returns (r: Result<Domain>, asked: Option<Lookup>, ghost seen: Rows)
      requires Valid()
      modifies this
      ensures Valid()
      ensures asked.None? ==> rows == old(rows) && r == WithoutLookup(rows, store, id)
      ensures asked.Some? ==> id in old(rows) && Verifiable(old(rows)[id]) && old(rows)[id].token.Some?
      ensures asked == Some(TryAgain) ==> rows == seen && r == Err(Unavailable)
      ensures asked.Some? && asked != Some(TryAgain) ==>
        (rows, r) == if Confirms(asked.value, old(rows)[id].token.value) then MarkVerified(seen, id, Some(now), now) else MarkFailed(seen, id, now)
      ensures asked.Some? ==> id in seen && (seen[id].status == Disabled ==> id in rows && rows[id].status == Disabled)
    {
      asked, seen := None, rows;
      if id == 0 { return Err(InvalidInput), asked, seen; }
      if id !in rows || rows[id].store != store { return Err(NotFound), asked, seen; }
      var d := rows[id];
      if !d.custom { return Err(InvalidInput), asked, seen; }
      if d.status == Active || d.status == Verified { return Ok(d), asked, seen; }
      if d.status == Disabled { return Err(Conflict), asked, seen; }
      if d.token.None? || d.token.value == "" { return Err(InvalidInput), asked, seen; }
      var answer := LookupTXT();
      asked := Some(answer);
      Others();
      seen := rows;
      if answer == TryAgain { return Err(Unavailable), asked, seen; }
      var matched := false;
      if answer.Records? {
        var expected := ExpectedRecord(d.token.value);
        var i := 0;
        while i < |answer.records| && !matched
          invariant 0 <= i <= |answer.records| && (matched <==> expected in answer.records[..i])
        {
          matched := answer.records[i] == expected;
          i := i + 1;
        }
        assert matched <==> expected in answer.records by {
          if !matched { assert answer.records[..i] == answer.records; }
        }
      }
      if matched {
        r := MarkDomainVerifiedIfVerifiable(id, now);
      } else {
        r := MarkDomainVerificationFailedIfVerifiable(id, now);
      }
    }
  }

  /** The answers that need no lookup. */
  function WithoutLookup(rows: Rows, store: Id, id: Id): Result<Domain> {
    if id == 0 then Err(InvalidInput)
    else if id !in rows || rows[id].store != store then Err(NotFound)
    else if !rows[id].custom then Err(InvalidInput)
    else if rows[id].status == Active || rows[id].status == Verified then Ok(rows[id])
    else if rows[id].status == Disabled then Err(Conflict)
    else Err(InvalidInput)
  }

  /** The answer carries exactly the record asked for. */
  predicate Confirms(answer: Lookup, token: string) {
    answer.Records? && ExpectedRecord(token) in answer.records
  }

  /** best is the first of ids, in order, among the oldest active platform domains. */
  ghost predicate FirstOldest(rows: Rows, store: Id, ids: seq<Id>, best: Id) {
    && ActivePlatform(rows, store, best) && best in ids
    && (forall k :: k in ids && ActivePlatform(rows, store, k) ==>
          rows[best].createdAt < rows[k].createdAt || (rows[best].createdAt == rows[k].createdAt && best <= k))
  }

  lemma FirstIsFallback(rows: Rows, store: Id, ids: seq<Id>, best: Id)
    requires FirstOldest(rows, store, ids, best) && forall k :: k in rows ==> k in ids
    ensures Fallback(rows, store) == Some(best)
  {
    assert best in Oldest(rows, store);
    assert IsLeast(best, Oldest(rows, store));
  }

  ghost predicate Scanned(rows: Rows, store: Id, ids: seq<Id>, best: Option<Id>) {
    if best.Some? then FirstOldest(rows, store, ids, best.value) else forall k :: k in ids ==> !ActivePlatform(rows, store, k)
  }

  lemma ScanStep(rows: Rows, store: Id, ids: seq<Id>, i: nat, best: Option<Id>)
    requires Ascending(ids) && i < |ids| && Scanned(rows, store, ids[..i], best)
    ensures var k := ids[i];
            && (best.Some? ==> best.value in rows)
            && (ActivePlatform(rows, store, k) ==> k in rows)
            && Scanned(rows, store, ids[..i + 1],
                 if ActivePlatform(rows, store, k) && (best.None? || rows[k].createdAt < rows[best.value].createdAt) then Some(k) else best)
  {
    assert ids[..i + 1] == ids[..i] + [ids[i]];
    assert forall k :: k in ids[..i] ==> k < ids[i];
  }

  lemma NothingScanned(rows: Rows, store: Id, ids: seq<Id>)
    ensures Scanned(rows, store, ids[..0], None)
  {
  }

  lemma ScanFinds(rows: Rows, store: Id, ids: seq<Id>, best: Option<Id>)
    requires Scanned(rows, store, ids, best) && forall k :: k in rows ==> k in ids
    ensures Fallback(rows, store) == best
  {
    FallbackExact(rows, store);
    if best.Some? { FirstIsFallback(rows, store, ids, best.value); }
  }

  lemma CountsPrimaries(rows: Rows, store: Id)
    ensures |set k | k in rows && rows[k].store == store && rows[k].isPrimary| == 0 <==> !HasPrimary(rows, store)
  {
    var s := set k | k in rows && rows[k].store == store && rows[k].isPrimary;
    if k :| k in rows && rows[k].store == store && rows[k].isPrimary { assert k in s; }
  }

  lemma StepKeepsIdentity(rows: Rows, s: Step)
    ensures forall id :: id in rows ==> id in Apply(rows, s) && Apply(rows, s)[id].store == rows[id].store && Apply(rows, s)[id].custom == rows[id].custom
  {
    hide NameTaken, HasPrimary, Fallback;
    if s.Moderate? && s.id in rows {
      FallbackExact(rows[s.id := rows[s.id].(status := Disabled, isPrimary := false)], rows[s.id].store);
    }
  }
}
