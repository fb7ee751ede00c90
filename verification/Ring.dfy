/** Lists of nodes: doubly linked circular ones, given by two link maps and the sequence of nodes they
    run through, and plain ones, given by the sequence alone. */
module Ring {

  ghost predicate Distinct(r: seq<int>) {
    forall i, j :: 0 <= i < j < |r| ==> r[i] != r[j]
  }

  function Succ(r: seq<int>, k: nat): int
    requires k < |r|
  {
    if k + 1 < |r| then r[k + 1] else r[0]
  }

  function Pred(r: seq<int>, k: nat): int
    requires k < |r|
  {
    if k > 0 then r[k - 1] else r[|r| - 1]
  }

  ghost predicate LinkedAt(next: map<int, int>, prev: map<int, int>, r: seq<int>, k: nat)
    requires k < |r|
  {
    r[k] in next && r[k] in prev && next[r[k]] == Succ(r, k) && prev[r[k]] == Pred(r, k)
  }

  ghost predicate IsRing(next: map<int, int>, prev: map<int, int>, r: seq<int>) {
    forall k :: 0 <= k < |r| ==> LinkedAt(next, prev, r, k)
  }

  function Without(r: seq<int>, k: nat): seq<int>
    requires k < |r|
  {
    r[..k] + r[k + 1..]
  }

  function With(r: seq<int>, k: nat, x: int): seq<int>
    requires k < |r|
  {
    r[..k + 1] + [x] + r[k + 1..]
  }

  lemma DistinctWithout(r: seq<int>, k: nat)
    requires Distinct(r) && k < |r|
    ensures Distinct(Without(r, k))
    ensures forall x :: x in Without(r, k) <==> x in r && x != r[k]
  {
    assert r == r[..k] + [r[k]] + r[k + 1..];
  }

  lemma DistinctTail(r: seq<int>)
    requires Distinct(r) && r != []
    ensures Distinct(r[1..]) && r[0] !in r[1..] && forall x :: x in r <==> x == r[0] || x in r[1..]
  {
    assert r == [r[0]] + r[1..];
  }

  /** x's neighbours are linked to each other. */
  lemma Unlink(next: map<int, int>, prev: map<int, int>, r: seq<int>, k: nat)
    requires IsRing(next, prev, r) && Distinct(r) && k < |r| && 2 <= |r| && LinkedAt(next, prev, r, k)
    ensures var x := r[k]; IsRing(next[prev[x] := next[x]], prev[next[x] := prev[x]], Without(r, k))
  {
    var x, s := r[k], Without(r, k);
    var next', prev' := next[prev[x] := next[x]], prev[next[x] := prev[x]];
    forall j | 0 <= j < |s| ensures LinkedAt(next', prev', s, j) {
      var i := if j < k then j else j + 1;
      assert LinkedAt(next, prev, r, i) && s[j] == r[i];
    }
  }

  /** x is put behind node k. */
  lemma Link(next: map<int, int>, prev: map<int, int>, r: seq<int>, k: nat, x: int)
    requires IsRing(next, prev, r) && Distinct(r) && k < |r| && x !in r && LinkedAt(next, prev, r, k)
    ensures var p, n := r[k], next[r[k]];
            IsRing(next[x := n][p := x], prev[x := p][n := x], With(r, k, x)) && Distinct(With(r, k, x))
  {
    var p, n, s := r[k], next[r[k]], With(r, k, x);
    var next', prev' := next[x := n][p := x], prev[x := p][n := x];
    forall j | 0 <= j < |s| ensures LinkedAt(next', prev', s, j) {
      if j != k + 1 {
        var i := if j <= k then j else j - 1;
        assert LinkedAt(next, prev, r, i) && s[j] == r[i];
      }
    }
  }

  // ----- removing a node by name

  function PosOf(r: seq<int>, x: int): (k: nat)
    requires x in r
    ensures k < |r| && r[k] == x
  {
    if r[0] == x then 0 else 1 + PosOf(r[1..], x)
  }

  /** The list without the node x. */
  function Drop(r: seq<int>, x: int): seq<int> {
    if x in r then Without(r, PosOf(r, x)) else r
  }

  lemma DropKeeps(r: seq<int>, x: int)
    requires Distinct(r)
    ensures Distinct(Drop(r, x)) && forall a :: a in Drop(r, x) <==> a in r && a != x
  {
    if x in r {
      DistinctWithout(r, PosOf(r, x));
    }
  }

  lemma WithoutBehindHead(h: int, list: seq<int>, k: nat)
    requires k < |list|
    ensures ([h] + list)[k + 1] == list[k] && Without([h] + list, k + 1) == [h] + Without(list, k)
  {
    assert ([h] + list)[..k + 1] == [h] + list[..k];
    assert ([h] + list)[k + 2..] == list[k + 1..];
  }
}
