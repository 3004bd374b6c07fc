/** Vocabulary shared by every module of the model. */
module Base {

  /** A UUID. Canonical UUID text is ordered exactly as the 128-bit number it spells. */
  type Id = nat

  /** Microseconds; 0 is Go's zero time. */
  type Time = nat

  datatype Option<+T> = None | Some(value: T)

  /** The sentinel errors of modules/commerce/errors.go and customer_cart.go. */
  datatype Error =
    | NotFound
    | Conflict
    | MarketMismatch
    | InsufficientInventory
    | InvalidInput
    | Unavailable
    | CheckoutExpired
    | IdempotencyConflict
    | CheckoutCartInvariant
    | InvalidTransition
    | PriceChanged
    | ListingUnavailable
    | InternalError
    | CartExpired

  datatype Result<+T> = Ok(value: T) | Err(error: Error)

  /** strings.TrimSpace(s) == "" for the ASCII white space of the model. */
  predicate Blank(s: string) {
    forall i :: 0 <= i < |s| ==> s[i] in {' ', '\t', '\n', '\r'}
  }

  predicate Distinct<T(==)>(s: seq<T>) {
    forall i, j :: 0 <= i < j < |s| ==> s[i] != s[j]
  }

  function Elements<T>(s: seq<T>): set<T> {
    set i | 0 <= i < |s| :: s[i]
  }

  predicate Ascending(s: seq<Id>) {
    forall i, j :: 0 <= i < j < |s| ==> s[i] < s[j]
  }

  ghost predicate IsLeast(m: Id, s: set<Id>) {
    m in s && forall x :: x in s ==> m <= x
  }

  lemma LeastExists(s: set<Id>) returns (m: Id)
    requires s != {}
    ensures IsLeast(m, s)
    decreases |s|
  {
    var y :| y in s;
    var rest := s - {y};
    if rest == {} {
      m := y;
      assert s == {y};
    } else {
      var w := LeastExists(rest);
      m := if y < w then y else w;
      forall x | x in s ensures m <= x {
        if x != y { assert x in rest; }
      }
    }
  }

  function Least(s: set<Id>): (m: Id)
    requires s != {}
    ensures IsLeast(m, s)
  {
    assert exists m :: IsLeast(m, s) by { var w := LeastExists(s); }
    var m :| m in s && forall x :: x in s ==> m <= x;
    m
  }

  /** ORDER BY id ASC over a set of ids; also Go's sort.Strings on distinct ids. */
  function SortedIds(s: set<Id>): (r: seq<Id>)
    ensures |r| == |s|
    ensures forall i :: 0 <= i < |r| ==> r[i] in s
    decreases |s|
  {
    if s == {} then [] else [Least(s)] + SortedIds(s - {Least(s)})
  }

  lemma {:induction false} SortedIdsSorted(s: set<Id>)
    ensures Ascending(SortedIds(s))
    ensures forall x :: x in s ==> x in SortedIds(s)
    decreases |s|
  {
    if s != {} {
      SortedIdsSorted(s - {Least(s)});
    }
  }

  lemma AscendingDistinct(s: seq<Id>)
    requires Ascending(s)
    ensures Distinct(s)
  {
  }

  lemma DropLast<T>(s: seq<T>)
    requires s != [] && Distinct(s)
    ensures Elements(s) - {s[|s| - 1]} == Elements(s[..|s| - 1])
    ensures s[|s| - 1] in Elements(s)
  {
    var n := |s| - 1;
    forall x | x in Elements(s) - {s[n]} ensures x in Elements(s[..n]) {
      var i :| 0 <= i < |s| && s[i] == x;
      assert s[..n][i] == x;
    }
  }
}
