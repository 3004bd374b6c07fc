/** The finalize fingerprint and its in-place line sort
    (modules/commerce/checkout_session.go:83-124). */
module Fingerprints {
  import opened Base
  import opened Money
  import opened Records

  predicate Before(a: Line, b: Line) {
    a.listing < b.listing || (a.listing == b.listing && a.sku < b.sku)
  }

  predicate UniqueKeys(s: seq<Line>) {
    forall i, j :: 0 <= i < j < |s| ==> s[i].listing != s[j].listing || s[i].sku != s[j].sku
  }

  predicate Sorted(s: seq<Line>) {
    forall i, j :: 0 <= i < j < |s| ==> !Before(s[j], s[i])
  }

  /** Walk x down from the end of s while it is strictly smaller. */
  function Insert(s: seq<Line>, x: Line): seq<Line> {
    if s != [] && Before(x, s[|s| - 1])
    then Insert(s[..|s| - 1], x) + [s[|s| - 1]]
    else s + [x]
  }

  function InsertionSort(s: seq<Line>): seq<Line> {
    if s == [] then [] else Insert(InsertionSort(s[..|s| - 1]), s[|s| - 1])
  }

  lemma {:induction false} InsertLength(s: seq<Line>, x: Line)
    ensures |Insert(s, x)| == |s| + 1
  {
    if s != [] && Before(x, s[|s| - 1]) { InsertLength(s[..|s| - 1], x); }
  }

  lemma {:induction false} InsertKeepsRows(s: seq<Line>, x: Line)
    ensures multiset(Insert(s, x)) == multiset(s) + multiset{x}
  {
    if s != [] && Before(x, s[|s| - 1]) {
      InsertKeepsRows(s[..|s| - 1], x);
      assert s == s[..|s| - 1] + [s[|s| - 1]];
    }
  }

  lemma {:induction false} InsertSorted(s: seq<Line>, x: Line)
    requires Sorted(s)
    ensures Sorted(Insert(s, x))
  {
    if s != [] && Before(x, s[|s| - 1]) {
      var init, last := s[..|s| - 1], s[|s| - 1];
      InsertSorted(init, x);
      InsertKeepsRows(init, x);
      InsertLength(init, x);
      var t := Insert(init, x);
      forall i | 0 <= i < |t| ensures !Before(last, t[i]) {
        assert t[i] in multiset(t);
        assert t[i] in multiset(init) || t[i] == x;
      }
    } else {
      forall i | 0 <= i < |s| ensures !Before(x, s[i]) { }
    }
  }

  lemma {:induction false} SortPermutes(s: seq<Line>)
    ensures multiset(InsertionSort(s)) == multiset(s)
    ensures |InsertionSort(s)| == |s|
  {
    if s != [] {
      hide Insert;
      var init, last := s[..|s| - 1], s[|s| - 1];
      SortPermutes(init);
      InsertKeepsRows(InsertionSort(init), last);
      InsertLength(InsertionSort(init), last);
      WithLast(s);
    }
  }

  lemma WithLast(s: seq<Line>)
    requires s != []
    ensures multiset(s) == multiset(s[..|s| - 1]) + multiset{s[|s| - 1]}
  {
    assert s == s[..|s| - 1] + [s[|s| - 1]];
  }

  lemma {:induction false} SortOrders(s: seq<Line>)
    ensures Sorted(InsertionSort(s))
  {
    if s != [] {
      SortOrders(s[..|s| - 1]);
      InsertSorted(InsertionSort(s[..|s| - 1]), s[|s| - 1]);
    }
  }

  /** Every permutation of uniquely keyed lines sorts to one sequence. */
  lemma SortCanonical(a: seq<Line>, b: seq<Line>)
    requires multiset(a) == multiset(b)
    requires UniqueKeys(a)
    ensures InsertionSort(a) == InsertionSort(b)
  {
    SortPermutes(a);
    SortPermutes(b);
    SortOrders(a);
    SortOrders(b);
    SortUnique(a);
    SortedUnique(InsertionSort(a), InsertionSort(b));
  }

  predicate SameKey(a: Line, b: Line) {
    a.listing == b.listing && a.sku == b.sku
  }

  lemma {:induction false} InsertUnique(s: seq<Line>, x: Line)
    requires UniqueKeys(s) && forall i :: 0 <= i < |s| ==> !SameKey(s[i], x)
    ensures UniqueKeys(Insert(s, x))
  {
    if s != [] && Before(x, s[|s| - 1]) {
      var init, last := s[..|s| - 1], s[|s| - 1];
      InsertUnique(init, x);
      InsertKeepsRows(init, x);
      var t := Insert(init, x);
      forall i | 0 <= i < |t| ensures !SameKey(t[i], last) {
        assert t[i] in multiset(t);
        assert t[i] in multiset(init) || t[i] == x;
      }
    }
  }

  lemma {:induction false} SortUnique(s: seq<Line>)
    requires UniqueKeys(s)
    ensures UniqueKeys(InsertionSort(s))
  {
    if s != [] {
      var init, last := s[..|s| - 1], s[|s| - 1];
      SortUnique(init);
      SortPermutes(init);
      var t := InsertionSort(init);
      forall i | 0 <= i < |t| ensures !SameKey(t[i], last) {
        assert t[i] in multiset(t);
        assert t[i] in multiset(init);
        var j :| 0 <= j < |init| && init[j] == t[i];
        assert s[j] == t[i];
      }
      InsertUnique(t, last);
    }
  }

  lemma {:induction false} SortedUnique(a: seq<Line>, b: seq<Line>)
    requires multiset(a) == multiset(b)
    requires Sorted(a) && Sorted(b) && UniqueKeys(a)
    ensures a == b
  {
    if a == [] {
      assert |b| == |multiset(b)|;
    } else {
      assert |a| == |multiset(a)| == |multiset(b)| == |b|;
      FirstsAgree(a, b);
      RestOf(a);
      RestOf(b);
      SortedUnique(a[1..], b[1..]);
    }
  }

  lemma RestOf(a: seq<Line>)
    requires a != []
    ensures multiset(a[1..]) == multiset(a) - multiset{a[0]}
  {
    assert a == [a[0]] + a[1..];
  }

  lemma FirstsAgree(a: seq<Line>, b: seq<Line>)
    requires multiset(a) == multiset(b) && a != [] && b != []
    requires Sorted(a) && Sorted(b) && UniqueKeys(a)
    ensures a[0] == b[0]
  {
    assert b[0] in multiset(a) && a[0] in multiset(b);
    var i :| 0 <= i < |a| && a[i] == b[0];
    var j :| 0 <= j < |b| && b[j] == a[0];
    assert !Before(a[i], a[0]) || i == 0;
    assert !Before(b[j], b[0]) || j == 0;
  }

  /** sortFingerprintLines: insertion sort in place, by adjacent swaps. */
  method SortFingerprintLines(lines: array<Line>)
    modifies lines
    ensures lines[..] == InsertionSort(old(lines[..]))
  {
    hide Insert;
    ghost var was := lines[..];
    var i := 0;
    while i < lines.Length
      invariant 0 <= i <= lines.Length
      invariant lines[..i] == InsertionSort(was[..i])
      invariant lines[i..] == was[i..]
    {
      SiftDown(lines, i);
      SortStep(was, i);
      i := i + 1;
    }
    assert lines[..] == lines[..i] && was == was[..i];
  }

  lemma SortStep(was: seq<Line>, i: nat)
    requires i < |was|
    ensures InsertionSort(was[..i + 1]) == Insert(InsertionSort(was[..i]), was[i])
  {
    hide Insert;
    assert was[..i + 1][..i] == was[..i];
  }

  lemma InsertStep(p: seq<Line>, x: Line, j: nat)
    requires 0 < j <= |p| && Before(x, p[j - 1])
    requires Insert(p, x) == Insert(p[..j], x) + p[j..]
    ensures Insert(p, x) == Insert(p[..j - 1], x) + p[j - 1..]
  {
    assert p[..j][..j - 1] == p[..j - 1];
    assert [p[j - 1]] + p[j..] == p[j - 1..];
  }

  lemma SwapStep(p: seq<Line>, x: Line, j: nat, s: seq<Line>)
    requires 0 < j <= |p| && s == p[..j] + [x] + p[j..]
    ensures s[j] == x && s[j - 1] == p[j - 1]
    ensures s[j := p[j - 1]][j - 1 := x] == p[..j - 1] + [x] + p[j - 1..]
  {
  }

  /** The inner loop: place element i among the i sorted elements before it. */
  method SiftDown(lines: array<Line>, i: nat)
    requires i < lines.Length
    modifies lines
    ensures lines[..i + 1] == Insert(old(lines[..i]), old(lines[i]))
    ensures lines[i + 1..] == old(lines[i + 1..])
  {
    ghost var p, x := lines[..i], lines[i];
    var j := i;
    assert p[..i] == p && p[i..] == [];
    while j > 0 && Before(lines[j], lines[j - 1])
      invariant 0 <= j <= i && lines[j] == x && (j > 0 ==> lines[j - 1] == p[j - 1])
      invariant lines[..i + 1] == p[..j] + [x] + p[j..]
      invariant lines[i + 1..] == old(lines[i + 1..])
      invariant Insert(p, x) == Insert(p[..j], x) + p[j..]
    {
      ghost var s := lines[..i + 1];
      SwapStep(p, x, j, s);
      InsertStep(p, x, j);
      lines[j], lines[j - 1] := lines[j - 1], lines[j];
      assert lines[..i + 1] == s[j := p[j - 1]][j - 1 := x];
      j := j - 1;
      assert j > 0 ==> s[j - 1] == p[j - 1];
    }
    assert Insert(p[..j], x) == p[..j] + [x];
  }

  /** The validation rejects exactly the requests the source rejects. */
  predicate RequestFits(sessionId: Id, cartId: Id, cart: Cart, request: FinalizeRequest) {
    && sessionId != NO_ID && cartId != NO_ID && request.session == sessionId
    && request.address.recipient != "" && request.address.line1 != "" && request.address.city != ""
    && |request.address.country| == 2 && !Blank(request.email)
    && (forall i :: 0 <= i < |cart.items| ==> LineFits(cart.items[i]))
  }

  predicate LineFits(item: CartItem) {
    item.listing != NO_ID && item.sku != NO_ID && item.quantity > 0 && item.price >= 0 && item.currency != ""
  }

  function LineOf(item: CartItem): Line {
    Line(item.listing, item.sku, item.quantity, item.price, item.currency)
  }

  function LinesOf(items: seq<CartItem>): seq<Line> {
    seq(|items|, i requires 0 <= i < |items| => LineOf(items[i]))
  }

  function FinalizeFingerprint(sessionId: Id, session: Session, cartId: Id, cart: Cart, request: FinalizeRequest)
    : Result<Fingerprint>
  {
    if !RequestFits(sessionId, cartId, cart, request) then Err(InvalidInput)
    else Ok(Fingerprint(sessionId, cartId, session.customer, request.address, request.email,
                        InsertionSort(LinesOf(cart.items))))
  }

  method ComputeFinalizeFingerprint(
    sessionId: Id, session: Session, cartId: Id, cart: Cart, request: FinalizeRequest)
    returns (r: Result<Fingerprint>)
    ensures r == FinalizeFingerprint(sessionId, session, cartId, cart, request)
  {
    if sessionId == NO_ID || cartId == NO_ID || request.session != sessionId || request.address.recipient == "" ||
       request.address.line1 == "" || request.address.city == "" || |request.address.country| != 2 || Blank(request.email)
    {
      return Err(InvalidInput);
    }
    var buffer: seq<Line> := [];
    var i := 0;
    while i < |cart.items|
      invariant 0 <= i <= |cart.items|
      invariant buffer == LinesOf(cart.items)[..i]
      invariant forall k :: 0 <= k < i ==> LineFits(cart.items[k])
    {
      var item := cart.items[i];
      if item.listing == NO_ID || item.sku == NO_ID || item.quantity <= 0 || item.price < 0 || item.currency == "" {
        assert !LineFits(item);
        return Err(InvalidInput);
      }
      buffer := buffer + [Line(item.listing, item.sku, item.quantity, item.price, item.currency)];
      i := i + 1;
    }
    var lines := new Line[|buffer|](k requires 0 <= k < |buffer| => buffer[k]);
    assert lines[..] == buffer == LinesOf(cart.items);
    SortFingerprintLines(lines);
    r := Ok(Fingerprint(sessionId, cartId, session.customer, request.address, request.email, lines[..]));
  }
}
