/**
  The element-wise clamps the controller relies on: `torch.clamp` with a
  scalar lower and upper bound, and the symmetric `clamp_tensor` helper of the
  simulator's utilities, assumed here to be `torch.clamp(x, -c, c)`.
*/
module Clamping {

  /**
    `torch.clamp(x, lo, hi)` on one element: first raise to `lo`, then cap at
    `hi`. When `lo > hi` every element becomes `hi`, as torch documents.
  */
  function Clamp(x: real, lo: real, hi: real): real {
    var raised := if x < lo then lo else x;
    if hi < raised then hi else raised
  }

  /**
    The clamp never exceeds `hi`; with `lo <= hi` it lands in `[lo, hi]`,
    keeps a value already inside and otherwise gives the nearer bound; with
    `lo > hi` it gives `hi`.
  */
  lemma ClampSpec(x: real, lo: real, hi: real)
    ensures Clamp(x, lo, hi) <= hi
    ensures lo <= hi ==> lo <= Clamp(x, lo, hi)
    ensures lo <= x <= hi ==> Clamp(x, lo, hi) == x
    ensures lo <= hi && x < lo ==> Clamp(x, lo, hi) == lo
    ensures hi < x ==> Clamp(x, lo, hi) == hi
    ensures hi < lo ==> Clamp(x, lo, hi) == hi
  {
  }

  /** Symmetric clamp to `[-c, c]`. */
  function SymClamp(x: real, c: real): real {
    Clamp(x, -c, c)
  }

  /**
    With `c >= 0` the symmetric clamp lands in `[-c, c]`, keeps a value
    already inside and otherwise gives the nearer bound; with `c < 0` it gives `c`.
  */
  lemma SymClampSpec(x: real, c: real)
    ensures 0.0 <= c ==> -c <= SymClamp(x, c) <= c
    ensures -c <= x <= c ==> SymClamp(x, c) == x
    ensures 0.0 <= c && c < x ==> SymClamp(x, c) == c
    ensures 0.0 <= c && x < -c ==> SymClamp(x, c) == -c
    ensures c < 0.0 ==> SymClamp(x, c) == c
  {
  }

  /** Every component of `v` lies in `[-c, c]`. */
  predicate Within(v: seq<real>, c: real) {
    forall i :: 0 <= i < |v| ==> -c <= v[i] <= c
  }

  /** Symmetric clamp applied to each component independently. */
  function ClampAll(v: seq<real>, c: real): (r: seq<real>)
    ensures |r| == |v|
    ensures forall i :: 0 <= i < |v| ==> r[i] == SymClamp(v[i], c)
  {
    seq(|v|, i requires 0 <= i < |v| => SymClamp(v[i], c))
  }

  /**
    Every component of a clamped tensor is at most `c`, and at least `-c`
    when `c` is non-negative.
  */
  lemma ClampAllUpper(v: seq<real>, c: real)
    ensures forall i :: 0 <= i < |v| ==>
              ClampAll(v, c)[i] <= c && (0.0 <= c ==> -c <= ClampAll(v, c)[i])
  {
    forall i | 0 <= i < |v|
      ensures ClampAll(v, c)[i] <= c && (0.0 <= c ==> -c <= ClampAll(v, c)[i])
    {
      SymClampSpec(v[i], c);
    }
  }

  /** Clamping is idempotent. */
  lemma ClampIdempotent(x: real, lo: real, hi: real)
    ensures Clamp(Clamp(x, lo, hi), lo, hi) == Clamp(x, lo, hi)
  {
    ClampSpec(x, lo, hi);
    ClampSpec(Clamp(x, lo, hi), lo, hi);
  }

  /**
    The component clamp with a non-negative bound lands inside the bound,
    keeps every component already inside it, and clamping twice changes nothing.
  */
  lemma ClampAllBounds(v: seq<real>, c: real)
    requires 0.0 <= c
    ensures Within(ClampAll(v, c), c)
    ensures Within(v, c) <==> ClampAll(v, c) == v
    ensures ClampAll(ClampAll(v, c), c) == ClampAll(v, c)
  {
    ClampAllUpper(v, c);
    ClampAllUpper(ClampAll(v, c), c);
    forall i | 0 <= i < |v|
      ensures ClampAll(ClampAll(v, c), c)[i] == ClampAll(v, c)[i]
    {
      SymClampSpec(v[i], c);
      SymClampSpec(ClampAll(v, c)[i], c);
    }
    forall i | 0 <= i < |v|
      ensures -c <= v[i] <= c ==> ClampAll(v, c)[i] == v[i]
    {
      SymClampSpec(v[i], c);
    }
    if ClampAll(v, c) == v {
      forall i | 0 <= i < |v| ensures -c <= v[i] <= c {
        assert v[i] == ClampAll(v, c)[i];
      }
    }
  }
}
