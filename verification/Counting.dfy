/** How often a block occurs in a queue, and that a pool with fewer blocks in use than it has has a free one. */
module Counting {
  function Count(q: seq<nat>, b: nat): nat {
    if q == [] then 0 else (if q[0] == b then 1 else 0) + Count(q[1..], b)
  }

  function OneIf(p: bool): nat { if p then 1 else 0 }

  lemma {:induction false} CountAppend(p: seq<nat>, q: seq<nat>, b: nat)
    ensures Count(p + q, b) == Count(p, b) + Count(q, b)
  {
    if p == [] {
      assert p + q == q;
    } else {
      assert (p + q)[1..] == p[1..] + q;
      CountAppend(p[1..], q, b);
    }
  }

  lemma CountPut(q: seq<nat>, x: nat, b: nat)
    ensures Count(q + [x], b) == Count(q, b) + OneIf(x == b)
  {
    CountAppend(q, [x], b);
    assert Count([x][1..], b) == 0;
  }

  lemma {:induction false} CountMember(q: seq<nat>, i: nat)
    requires i < |q|
    ensures Count(q, q[i]) >= 1
  {
    if i > 0 {
      CountMember(q[1..], i - 1);
    }
  }

  predicate IsBlock(n: nat, p: nat) { p < n }

  function Blocks(n: nat): (all: set<nat>)
    ensures |all| == n && forall p: nat :: p in all ==> IsBlock(n, p)
  {
    if n == 0 then {} else Blocks(n - 1) + {n - 1}
  }

  lemma FreeBlockExists(n: nat, used: set<nat>)
    requires |used| < n
    ensures exists p: nat :: IsBlock(n, p) && p !in used
  {
    if Blocks(n) <= used {
      SubsetSize(Blocks(n), used);
    } else {
      var p :| p in Blocks(n) && p !in used;
    }
  }

  lemma {:induction false} SubsetSize(a: set<nat>, b: set<nat>)
    requires a <= b
    ensures |a| <= |b|
  {
    if a != {} {
      var x :| x in a;
      SubsetSize(a - {x}, b - {x});
    }
  }
}
