/** WITH RECURSIVE ... UNION over a finite edge relation, cycles allowed. */
module Closure {
  import opened Base

  type Edges = set<(Id, Id)>

  function Next(e: Edges, work: set<Id>): set<Id> {
    set p | p in e && p.0 in work :: p.1
  }

  function Targets(e: Edges): set<Id> {
    set p | p in e :: p.1
  }

  function Reversed(e: Edges): Edges {
    set p | p in e :: (p.1, p.0)
  }

  /** One round joins the working table only; UNION drops rows already seen, so the
      rows not yet seen are the termination measure, whatever the graph. */
  function Rounds(e: Edges, seen: set<Id>, work: set<Id>): set<Id>
    decreases |Targets(e) - seen|
  {
    var added := Next(e, work) - seen;
    if added == {} then seen
    else
      Shrinks(Targets(e) - seen, Targets(e) - (seen + added), added);
      Rounds(e, seen + added, added)
  }

  lemma Shrinks(a: set<Id>, b: set<Id>, added: set<Id>)
    requires added != {} && added <= a && b == a - added
    ensures |b| < |a|
  {
    assert |a - added| == |a| - |added|;
  }

  function Reachable(e: Edges, seeds: set<Id>): set<Id> {
    Rounds(e, seeds, seeds)
  }

  // ---- The closure is reachability by paths.

  ghost predicate Path(e: Edges, p: seq<Id>) {
    p != [] && forall i :: 0 <= i < |p| - 1 ==> (p[i], p[i + 1]) in e
  }

  ghost predicate PathFrom(e: Edges, a: Id, b: Id, p: seq<Id>) {
    Path(e, p) && p[0] == a && p[|p| - 1] == b
  }

  ghost predicate Leads(e: Edges, a: Id, b: Id) {
    exists p :: PathFrom(e, a, b, p)
  }

  lemma LeadsSelf(e: Edges, a: Id)
    ensures Leads(e, a, a)
  {
    assert PathFrom(e, a, a, [a]);
  }

  lemma LeadsStep(e: Edges, a: Id, b: Id, c: Id)
    requires Leads(e, a, b) && (b, c) in e
    ensures Leads(e, a, c)
  {
    var p :| PathFrom(e, a, b, p);
    assert PathFrom(e, a, c, p + [c]);
  }

  ghost predicate LedFrom(e: Edges, seeds: set<Id>, b: Id) {
    exists a :: a in seeds && Leads(e, a, b)
  }

  /** Nothing outside reach is ever added, and the result absorbs every edge. */
  lemma {:induction false} RoundsCorrect(e: Edges, seeds: set<Id>, seen: set<Id>, work: set<Id>)
    requires work <= seen
    requires forall b :: b in seen ==> LedFrom(e, seeds, b)
    requires Next(e, seen - work) <= seen
    ensures seen <= Rounds(e, seen, work)
    ensures forall b :: b in Rounds(e, seen, work) ==> LedFrom(e, seeds, b)
    ensures Next(e, Rounds(e, seen, work)) <= Rounds(e, seen, work)
    decreases |Targets(e) - seen|
  {
    var added := Next(e, work) - seen;
    if added == {} {
      assert forall p :: p in e && p.0 in seen ==> p.0 in work || p.0 in seen - work;
      assert forall p :: p in e && p.0 in work ==> p.1 in Next(e, work);
    } else {
      Shrinks(Targets(e) - seen, Targets(e) - (seen + added), added);
      FreshLed(e, seeds, seen, work, added);
      FrontierClosed(e, seen, work, added);
      RoundsCorrect(e, seeds, seen + added, added);
    }
  }

  lemma FreshLed(e: Edges, seeds: set<Id>, seen: set<Id>, work: set<Id>, added: set<Id>)
    requires work <= seen && added == Next(e, work) - seen
    requires forall b :: b in seen ==> LedFrom(e, seeds, b)
    ensures forall b :: b in added ==> LedFrom(e, seeds, b)
  {
    forall b | b in added ensures LedFrom(e, seeds, b) {
      var p :| p in e && p.0 in work && p.1 == b;
      var a :| a in seeds && Leads(e, a, p.0);
      LeadsStep(e, a, p.0, b);
    }
  }

  lemma FrontierClosed(e: Edges, seen: set<Id>, work: set<Id>, added: set<Id>)
    requires work <= seen && added == Next(e, work) - seen
    requires Next(e, seen - work) <= seen
    ensures Next(e, seen + added - added) <= seen + added
  {
    forall p | p in e && p.0 in seen + added - added ensures p.1 in seen + added {
      if p.0 in work { assert p.1 in Next(e, work); } else { assert p.1 in Next(e, seen - work); }
    }
  }

  lemma {:induction false} ClosedAbsorbs(e: Edges, r: set<Id>, p: seq<Id>)
    requires Next(e, r) <= r && Path(e, p) && p[0] in r
    ensures p[|p| - 1] in r
  {
    if |p| > 1 {
      assert (p[0], p[1]) in e;
      assert p[1] in Next(e, r);
      assert forall i :: 0 <= i < |p[1..]| - 1 ==> (p[1..][i], p[1..][i + 1]) == (p[i + 1], p[i + 2]);
      ClosedAbsorbs(e, r, p[1..]);
    }
  }

  /** The recursive query returns exactly the nodes a path reaches from a seed. */
  lemma ReachableIsLed(e: Edges, seeds: set<Id>)
    ensures forall b :: b in Reachable(e, seeds) <==> LedFrom(e, seeds, b)
  {
    forall b | b in seeds ensures LedFrom(e, seeds, b) { LeadsSelf(e, b); }
    RoundsCorrect(e, seeds, seeds, seeds);
    forall b | LedFrom(e, seeds, b) ensures b in Reachable(e, seeds) {
      var a :| a in seeds && Leads(e, a, b);
      var p :| PathFrom(e, a, b, p);
      ClosedAbsorbs(e, Reachable(e, seeds), p);
    }
  }

  function Flip(p: seq<Id>): seq<Id> {
    seq(|p|, i requires 0 <= i < |p| => p[|p| - 1 - i])
  }

  lemma FlipPath(e: Edges, a: Id, b: Id, p: seq<Id>)
    requires PathFrom(e, a, b, p)
    ensures PathFrom(Reversed(e), b, a, Flip(p))
  {
    var q := Flip(p);
    forall i | 0 <= i < |q| - 1 ensures (q[i], q[i + 1]) in Reversed(e) {
      var j := |p| - 2 - i;
      assert (p[j], p[j + 1]) in e;
    }
  }

  /** Ancestor and descendant closure are dual. */
  lemma ReverseDual(e: Edges, a: Id, b: Id)
    ensures Leads(e, a, b) <==> Leads(Reversed(e), b, a)
  {
    if Leads(e, a, b) {
      var p :| PathFrom(e, a, b, p);
      FlipPath(e, a, b, p);
    }
    if Leads(Reversed(e), b, a) {
      var p :| PathFrom(Reversed(e), b, a, p);
      FlipPath(Reversed(e), b, a, p);
      assert Reversed(Reversed(e)) == e by {
        assert forall x :: x in e ==> (x.1, x.0) in Reversed(e);
        assert forall x :: x in Reversed(Reversed(e)) ==> x in e;
        assert forall x :: x in e ==> x in Reversed(Reversed(e)) by {
          forall x | x in e ensures x in Reversed(Reversed(e)) {
            assert (x.1, x.0) in Reversed(e);
          }
        }
      }
    }
  }

  /** Two relations that agree on every edge leaving a node other than k. */
  ghost predicate AgreeOff(e: Edges, f: Edges, k: Id) {
    forall x: Id, y: Id :: x != k ==> ((x, y) in e <==> (x, y) in f)
  }

  /** Reaching k never needs an edge that leaves k. */
  lemma {:induction false} ReachingUnchanged(e: Edges, f: Edges, k: Id, a: Id, p: seq<Id>)
    requires AgreeOff(e, f, k) && PathFrom(e, a, k, p)
    ensures Leads(f, a, k)
    decreases |p|
  {
    if a == k {
      LeadsSelf(f, k);
    } else {
      assert |p| > 1;
      var rest := p[1..];
      assert (p[0], p[1]) in e;
      assert forall i :: 0 <= i < |rest| - 1 ==> (rest[i], rest[i + 1]) == (p[i + 1], p[i + 2]);
      assert rest[|rest| - 1] == p[|p| - 1];
      ReachingUnchanged(e, f, k, p[1], rest);
      var q :| PathFrom(f, p[1], k, q);
      assert (p[0], p[1]) in f;
      assert PathFrom(f, a, k, [a] + q);
    }
  }

  /** A walk leads to every node on it. */
  lemma PassesThrough(e: Edges, a: Id, b: Id, p: seq<Id>, i: nat)
    requires PathFrom(e, a, b, p) && i < |p|
    ensures Leads(e, a, p[i])
  {
    assert PathFrom(e, a, p[i], p[..i + 1]);
  }

  /** A walk that cannot reach k is a walk of the other relation. */
  lemma {:induction false} AvoidingUnchanged(e: Edges, f: Edges, k: Id, a: Id, b: Id, p: seq<Id>)
    requires AgreeOff(e, f, k) && PathFrom(e, a, b, p) && !Leads(e, a, k)
    ensures Leads(f, a, b)
  {
    forall i | 0 <= i < |p| ensures p[i] != k { PassesThrough(e, a, b, p, i); }
    assert PathFrom(f, a, b, p);
  }
}
