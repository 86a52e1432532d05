/** Vocabulary shared by every module: optional values and sums over sequences. */
module Common {
  datatype Option<+T> = None | Some(value: T)

  // Python's sum over a tuple of integers.
  function Sum(s: seq<int>): int
  {
    if s == [] then 0 else Sum(s[..|s| - 1]) + s[|s| - 1]
  }

  // A tuple of booleans read as a tuple of zeros and ones.
  function Bits(s: seq<bool>): (r: seq<int>)
    ensures |r| == |s|
    ensures forall i :: 0 <= i < |s| ==> r[i] == (if s[i] then 1 else 0)
  {
    seq(|s|, i requires 0 <= i < |s| => if s[i] then 1 else 0)
  }

  // Python's sum over a tuple of booleans: the number of true entries.
  function Count(s: seq<bool>): int
  {
    Sum(Bits(s))
  }

  lemma {:induction false} SumAdds(a: seq<int>, b: seq<int>, c: seq<int>)
    requires |a| == |b| == |c|
    requires forall i :: 0 <= i < |a| ==> c[i] == a[i] + b[i]
    ensures Sum(c) == Sum(a) + Sum(b)
  {
    if a != [] {
      var k := |a| - 1;
      SumAdds(a[..k], b[..k], c[..k]);
    }
  }

  lemma {:induction false} SumUpdate(s: seq<int>, i: nat, v: int)
    requires i < |s|
    ensures Sum(s[i := v]) == Sum(s) - s[i] + v
  {
    var k := |s| - 1;
    if i == k {
      assert s[i := v][..k] == s[..k];
    } else {
      SumUpdate(s[..k], i, v);
      assert s[i := v][..k] == s[..k][i := v];
    }
  }

  lemma {:induction false} SumConstant(s: seq<int>, v: int)
    requires forall i :: 0 <= i < |s| ==> s[i] == v
    ensures Sum(s) == |s| * v
  {
    if s != [] {
      SumConstant(s[..|s| - 1], v);
    }
  }

  lemma SumPush(s: seq<int>, v: int)
    ensures Sum(s + [v]) == Sum(s) + v
  {
    assert (s + [v])[..|s|] == s;
  }

  lemma CountPush(s: seq<bool>, v: bool)
    ensures Count(s + [v]) == Count(s) + (if v then 1 else 0)
  {
    assert Bits(s + [v]) == Bits(s) + [if v then 1 else 0];
    SumPush(Bits(s), if v then 1 else 0);
  }

  lemma CountUpdate(s: seq<bool>, i: nat, v: bool)
    requires i < |s|
    ensures Count(s[i := v]) == Count(s) - (if s[i] then 1 else 0) + (if v then 1 else 0)
  {
    assert Bits(s[i := v]) == Bits(s)[i := if v then 1 else 0];
    SumUpdate(Bits(s), i, if v then 1 else 0);
  }

  lemma CountNone(s: seq<bool>)
    requires forall i :: 0 <= i < |s| ==> !s[i]
    ensures Count(s) == 0
  {
    SumConstant(Bits(s), 0);
  }

  lemma {:induction false} CountBounds(s: seq<bool>)
    ensures 0 <= Count(s) <= |s|
    ensures Count(s) == 0 <==> forall i :: 0 <= i < |s| ==> !s[i]
  {
    if s != [] {
      var k := |s| - 1;
      CountBounds(s[..k]);
      CountPush(s[..k], s[k]);
      assert s[..k] + [s[k]] == s;
      assert forall i :: 0 <= i < k ==> s[..k][i] == s[i];
    }
  }
}
