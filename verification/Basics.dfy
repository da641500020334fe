/** Small functions and facts about integers, integer sets and dividing real numbers. */
module Basics {

  function Max(a: int, b: int): int {
    if a < b then b else a
  }

  function Min(a: int, b: int): int {
    if a < b then a else b
  }

  function Elements(s: seq<int>): set<int> {
    set x | x in s
  }

  lemma HasElement(s: set<int>)
    requires s != {}
    ensures exists x :: x in s
  {
    if !exists x :: x in s {
      assert false;
    }
  }

  lemma {:induction false} LeastOf(s: set<int>) returns (m: int)
    requires s != {}
    ensures m in s && forall x :: x in s ==> m <= x
  {
    HasElement(s);
    m :| m in s;
    var rest := s - {m};
    if rest == {} {
      assert s == {m};
    } else {
      var k := LeastOf(rest);
      assert s == rest + {m};
      m := if k < m then k else m;
    }
  }

  lemma SmallerSet(a: set<int>, b: set<int>, x: int)
    requires a <= b && x in b && x !in a
    ensures |a| < |b|
  {
    var rest := b - a - {x};
    assert forall y :: y in b <==> y in a + {x} + rest;
    assert b == a + {x} + rest;
  }

  lemma Stretch(x: real, y: real, q: real)
    requires q > 0.0 && y < x
    ensures y * q < x * q
  {
    assert (x - y) * q > 0.0;
  }

  lemma Cancel(x: real, y: real, q: real)
    requires q > 0.0 && x * q <= y * q
    ensures x <= y
  {
    if y < x {
      Stretch(x, y, q);
      assert false;
    }
  }

  lemma QuotientSum(a: real, b: real, w: real)
    requires w > 0.0
    ensures (a + b) / w == a / w + b / w
  {
    var p, q, r := a / w, b / w, (a + b) / w;
    assert p * w == a && q * w == b && r * w == a + b;
    assert (p + q) * w == p * w + q * w;
  }
}
