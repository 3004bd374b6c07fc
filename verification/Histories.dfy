/** Timeline and outbox history of every order. */
module Histories {
  import opened Base
  import opened Records
  import opened Orders
  import opened Tables

  ghost predicate RowOk(rows: seq<TimelineRow>, deadline: Time, i: nat)
    requires i < |rows|
  {
    && rows[i].from == (if i == 0 then None else Some(rows[i - 1].to))
    && Allowed(rows[i].from, rows[i].actor, rows[i].to, deadline, rows[i].at)
  }

  /** The timeline is a connected path of allowed moves that ends at the current status,
      with one row per version. */
  ghost predicate TimelineOk(rows: seq<TimelineRow>, o: Order) {
    && |rows| == o.version && rows != []
    && rows[|rows| - 1].to == o.status
    && forall i :: 0 <= i < |rows| ==> RowOk(rows, o.deadline, i)
  }

  /** The order's events carry versions 1..n without gaps and announce the timeline. */
  ghost predicate EventsOk(events: seq<OrderEvent>, rows: seq<TimelineRow>) {
    && |events| == |rows|
    && forall i :: 0 <= i < |events| ==>
         events[i] == OrderEvent(if i == 0 then OrderCreated else OrderStatusChanged, i + 1, rows[i].to, rows[i].at)
  }

  ghost predicate HistoryFor(timeline: map<Id, seq<TimelineRow>>, events: map<Id, seq<OrderEvent>>, id: Id, o: Order) {
    TimelineOk(RowsAt(timeline, id), o) && EventsOk(RowsAt(events, id), RowsAt(timeline, id))
  }

  ghost predicate TraceOk(t: Tables) {
    forall id :: id in t.orders ==> HistoryFor(t.timeline, t.events, id, t.orders[id])
  }

  lemma TimelineGrows(rows: seq<TimelineRow>, o: Order, o': Order, row: TimelineRow)
    requires TimelineOk(rows, o)
    requires o'.version == o.version + 1 && o'.deadline == o.deadline && o'.status == row.to
    requires row.from == Some(o.status) && Allowed(Some(o.status), row.actor, row.to, o.deadline, row.at)
    ensures TimelineOk(rows + [row], o')
  {
    var rows' := rows + [row];
    forall i | 0 <= i < |rows'| ensures RowOk(rows', o'.deadline, i) {
      if i < |rows| { assert RowOk(rows, o.deadline, i); }
    }
  }

  lemma TransitionKeepsTrace(t: Tables, id: Id, to: OrderStatus, actor: Authority, reason: Option<string>, now: Time)
    requires TraceOk(t) && id in t.orders
    requires Allowed(Some(t.orders[id].status), actor, to, t.orders[id].deadline, now)
    ensures TraceOk(Transitioned(t, id, to, actor, reason, now))
  {
    var t' := Transitioned(t, id, to, actor, reason, now);
    var o := t.orders[id];
    assert HistoryFor(t.timeline, t.events, id, o);
    TimelineGrows(RowsAt(t.timeline, id), o, t'.orders[id], TimelineRow(Some(o.status), to, actor, now));
    forall k | k in t'.orders ensures HistoryFor(t'.timeline, t'.events, k, t'.orders[k]) {
      if k != id {
        assert HistoryFor(t.timeline, t.events, k, t.orders[k]);
      }
    }
  }

  /** A finished history never visits a status twice. */
  lemma {:induction false} StatusesNeverRepeat(rows: seq<TimelineRow>, o: Order, i: nat, j: nat)
    requires TimelineOk(rows, o) && i < j < |rows|
    ensures Rank(Some(rows[i].to)) < Rank(Some(rows[j].to))
    decreases j - i
  {
    assert RowOk(rows, o.deadline, j);
    AllowedProgresses(rows[j].from, rows[j].actor, rows[j].to, o.deadline, rows[j].at);
    if i < j - 1 {
      StatusesNeverRepeat(rows, o, i, j - 1);
    }
  }

  /** An order therefore makes at most five moves, whatever the callers try. */
  lemma {:induction false} VersionBounded(rows: seq<TimelineRow>, o: Order, i: nat)
    requires TimelineOk(rows, o) && i < |rows|
    ensures i + 1 <= Rank(Some(rows[i].to)) <= 5
  {
    assert RowOk(rows, o.deadline, i);
    AllowedProgresses(rows[i].from, rows[i].actor, rows[i].to, o.deadline, rows[i].at);
    if i > 0 {
      VersionBounded(rows, o, i - 1);
    }
  }
}
