/** Queues of waiters that are numbered in order of arrival. */
module Queues {
  predicate Increasing(q: seq<nat>) {
    forall i, j :: 0 <= i < j < |q| ==> q[i] < q[j]
  }

  function Without(q: seq<nat>, id: nat): seq<nat> {
    if |q| == 0 then [] else if q[0] == id then q[1..] else [q[0]] + Without(q[1..], id)
  }

  function Position(q: seq<nat>, id: nat): (k: nat)
    requires id in q
    ensures k < |q| && q[k] == id
  {
    if q[0] == id then 0 else 1 + Position(q[1..], id)
  }

  lemma {:induction false} WithoutAt(q: seq<nat>, id: nat)
    requires id in q
    ensures var k := Position(q, id); Without(q, id) == q[..k] + q[k + 1..]
  {
    var k := Position(q, id);
    if q[0] != id {
      WithoutAt(q[1..], id);
      assert [q[0]] + q[1..][..k - 1] == q[..k];
      assert q[1..][k..] == q[k + 1..];
    }
  }

  lemma WithoutSkips(q: seq<nat>, i: nat, id: nat)
    requires i < |q| && q[i] != id
    ensures q[..i] + Without(q[i..], id) == q[..i + 1] + Without(q[i + 1..], id)
  {
    assert q[i..][1..] == q[i + 1..];
    assert q[..i + 1] == q[..i] + [q[i]];
  }

  lemma WithoutHits(q: seq<nat>, i: nat, id: nat)
    requires i < |q| && q[i] == id
    ensures Without(q[i..], id) == q[i + 1..]
  {
    assert q[i..][1..] == q[i + 1..];
  }

  lemma WithoutOne(q: seq<nat>, id: nat)
    requires Increasing(q) && id in q
    ensures |Without(q, id)| == |q| - 1 && Increasing(Without(q, id))
    ensures forall x :: x in Without(q, id) <==> x in q && x != id
  {
    hide Without, Position;
    WithoutAt(q, id);
    var k, r := Position(q, id), Without(q, id);
    forall x ensures x in r <==> x in q && x != id {
      if x in q && x != id {
        var i := Position(q, x);
        assert r[if i < k then i else i - 1] == x;
      }
    }
  }

  lemma Append(q: seq<nat>, x: nat)
    requires Increasing(q) && forall y :: y in q ==> y < x
    ensures Increasing(q + [x])
  {
    forall i | 0 <= i < |q| ensures q[i] < x {
      assert q[i] in q;
    }
  }
}
