/** Small shared vocabulary. */
module Options {
  datatype Option<+T> = None | Some(value: T)

  /** The first position from i on whose element satisfies p; |s| when there is none. */
  function Find<T>(s: seq<T>, p: T -> bool, i: nat): (r: nat)
    requires i <= |s|
    ensures i <= r <= |s|
    ensures r < |s| ==> p(s[r])
    ensures forall j :: i <= j < r ==> !p(s[j])
    decreases |s| - i
  {
    if i == |s| || p(s[i]) then i else Find(s, p, i + 1)
  }

  /** How many elements satisfy p. */
  function Number<T>(s: seq<T>, p: T -> bool): nat {
    if s == [] then 0 else Number(s[..|s| - 1], p) + (if p(s[|s| - 1]) then 1 else 0)
  }

  lemma {:induction false} NumberNone<T>(s: seq<T>, p: T -> bool)
    requires Number(s, p) == 0
    ensures forall i :: 0 <= i < |s| ==> !p(s[i])
  {
    if s != [] { NumberNone(s[..|s| - 1], p); }
  }

  lemma {:induction false} NumberUpdate<T>(s: seq<T>, p: T -> bool, i: nat, x: T)
    requires i < |s|
    ensures Number(s[i := x], p) == Number(s, p) - (if p(s[i]) then 1 else 0) + (if p(x) then 1 else 0)
  {
    var l := |s| - 1;
    if i == l { assert s[i := x][..l] == s[..l]; }
    else {
      assert s[i := x][..l] == s[..l][i := x];
      NumberUpdate(s[..l], p, i, x);
    }
  }
}
