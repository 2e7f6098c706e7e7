/** What every component uses: optional columns and fields, the IP address and user agent pairs, lists of sets. */
module Wrappers {
  datatype Option<+T> = None | Some(value: T)
  {
    function GetOr(default: T): T { if Some? then value else default }
  }

  /** The two addresses that the detection groups conversions by. */
  datatype IpUa = IpUa(ip: string, ua: string)

  /** Some element of a non-empty set. */
  lemma Pick<T>(s: set<T>) returns (x: T)
    requires s != {}
    ensures x in s
  {
    x :| x in s;
  }

  function Min(a: int, b: int): int { if a < b then a else b }

  function Max(a: int, b: int): int { if a < b then b else a }

  function Elems<T>(s: seq<T>): set<T> { set x | x in s }

  predicate NoRepeat<T(==)>(s: seq<T>) { forall i, j | 0 <= i < j < |s| :: s[i] != s[j] }

  /** `order` lists the set without repetition. */
  predicate Lists<T(==)>(order: seq<T>, s: set<T>) {
    (forall x | x in order :: x in s) && (forall x | x in s :: x in order) && NoRepeat(order)
  }

  /** Rows come back from a query in some order, each once. */
  method Fetch<T>(s: set<T>) returns (order: seq<T>)
    ensures Lists(order, s)
  {
    order := [];
    var rest := s;
    while rest != {}
      invariant rest <= s && Lists(order, s - rest)
      decreases rest
    {
      var x :| x in rest;
      order := order + [x];
      rest := rest - {x};
      assert s - rest == s - (rest + {x}) + {x};
    }
    assert s - rest == s;
  }
}
