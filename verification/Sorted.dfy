/**
 * Python's `sorted` on a set of strings.
 *
 * Strings compare code point by code point, and a proper prefix comes first.
 * The order is total, so a finite set has exactly one ascending listing; the
 * listing is what appending sections and reporting orphans iterate over.
 *
 * The method picks elements in any order and inserts each in its place. That
 * its result does not depend on the picking is the uniqueness of ascending
 * listings.
 */
module Sorted {
  predicate Less(a: string, b: string)
    decreases a
  {
    b != "" && (a == "" || a[0] < b[0] || (a[0] == b[0] && Less(a[1..], b[1..])))
  }

  lemma {:induction false} LessIsOrder(a: string, b: string)
    ensures !(Less(a, b) && Less(b, a)) && !Less(a, a)
    ensures a == b || Less(a, b) || Less(b, a)
    decreases a
  {
    if a != "" {
      LessIsOrder(a[1..], if b == "" then "" else b[1..]);
      if b != "" && a[0] == b[0] && a[1..] == b[1..] {
        assert a == [a[0]] + a[1..] && b == [b[0]] + b[1..];
      }
    }
  }

  lemma {:induction false} LessIsTransitive(a: string, b: string, c: string)
    requires Less(a, b) && Less(b, c)
    ensures Less(a, c)
    decreases a
  {
    if a != "" && a[0] == b[0] == c[0] {
      LessIsTransitive(a[1..], b[1..], c[1..]);
    }
  }

  predicate Ascending(r: seq<string>) {
    forall i, j | 0 <= i < j < |r| :: Less(r[i], r[j])
  }

  function Elements(r: seq<string>): set<string> {
    set x | x in r
  }

  function Insert(x: string, r: seq<string>): (s: seq<string>)
    ensures Elements(s) == Elements(r) + {x}
    decreases r
  {
    if r == [] || Less(x, r[0]) then
      assert forall y :: y in [x] + r <==> y == x || y in r;
      [x] + r
    else
      var s := [r[0]] + Insert(x, r[1..]);
      assert forall y :: y in s <==> y == r[0] || y in Insert(x, r[1..]);
      assert forall y :: y in Insert(x, r[1..]) <==> y in Elements(Insert(x, r[1..]));
      s
  }

  lemma {:induction false} InsertAscends(x: string, r: seq<string>)
    requires Ascending(r) && x !in r
    ensures Ascending(Insert(x, r))
    decreases r
  {
    hide Less;
    if r != [] {
      LessIsOrder(x, r[0]);
      if Less(x, r[0]) {
        forall i | 0 < i < |r| ensures Less(x, r[i]) {
          LessIsTransitive(x, r[0], r[i]);
        }
      } else {
        var s := Insert(x, r[1..]);
        InsertAscends(x, r[1..]);
        forall i | 0 <= i < |s| ensures Less(r[0], s[i]) {
          assert s[i] in Elements(s);
        }
      }
    }
  }

  /** The one ascending listing of a set. */
  ghost function Sorted(s: set<string>): (r: seq<string>)
    ensures Ascending(r) && Elements(r) == s
    decreases |s|
  {
    if s == {} then [] else
      var x :| x in s;
      InsertAscends(x, Sorted(s - {x}));
      Insert(x, Sorted(s - {x}))
  }

  lemma {:induction false} AscendingIsUnique(a: seq<string>, b: seq<string>)
    requires Ascending(a) && Ascending(b) && Elements(a) == Elements(b)
    ensures a == b
    decreases a
  {
    hide Less;
    assert forall y :: y in a <==> y in Elements(a);
    assert forall y :: y in b <==> y in Elements(b);
    assert (a != [] ==> a[0] in a) && (b != [] ==> b[0] in b);
    if a != [] && b != [] {
      LessIsOrder(a[0], b[0]);
      assert a[0] == b[0];
      TailElements(a);
      TailElements(b);
      AscendingIsUnique(a[1..], b[1..]);
      assert a == [a[0]] + a[1..] && b == [b[0]] + b[1..];
    }
  }

  lemma TailElements(a: seq<string>)
    requires Ascending(a) && a != []
    ensures Elements(a[1..]) == Elements(a) - {a[0]}
  {
    hide Less;
    forall i | 0 < i < |a| ensures a[i] != a[0] {
      LessIsOrder(a[0], a[i]);
    }
    assert forall y :: y in a <==> y == a[0] || y in a[1..];
  }

  method Sort(s: set<string>) returns (r: seq<string>)
    ensures r == Sorted(s)
  {
    hide Less, Insert, Elements;
    r := [];
    var rest := s;
    assert Elements(r) == {} by {
      ElementsOfNone();
    }
    while rest != {}
      invariant rest <= s && Elements(r) == s - rest && Ascending(r)
      decreases |rest|
    {
      var x :| x in rest;
      assert x !in r by {
        InElements(x, r);
      }
      InsertAscends(x, r);
      r := Insert(x, r);
      rest := rest - {x};
    }
    AscendingIsUnique(r, Sorted(s));
  }

  lemma ElementsOfNone()
    ensures Elements([]) == {}
  {
  }

  lemma InElementsOf(s: set<string>)
    ensures forall x :: x in Sorted(s) <==> x in s
  {
    assert forall x :: x in Sorted(s) <==> x in Elements(Sorted(s));
  }

  lemma InElements(x: string, r: seq<string>)
    ensures x in r <==> x in Elements(r)
  {
  }
}
