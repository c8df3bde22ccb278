/** Helpers shared by the other modules. */
module Common {

  datatype Option<+T> = None | Some(value: T)

  /** The elements of `xs` whose flag in `mask` is set, in order. */
  function Select<T>(xs: seq<T>, mask: seq<bool>): seq<T>
    requires |xs| == |mask|
  {
    if xs == [] then []
    else Select(xs[..|xs| - 1], mask[..|xs| - 1]) + (if mask[|xs| - 1] then [xs[|xs| - 1]] else [])
  }

  /** The elements of `xs` that satisfy `keep`, in order. */
  function Filter<T>(xs: seq<T>, keep: T -> bool): seq<T>
  {
    if xs == [] then []
    else
      var last := xs[|xs| - 1];
      Filter(xs[..|xs| - 1], keep) + (if keep(last) then [last] else [])
  }

  /** `Filter` distributes over concatenation. */
  lemma {:induction false} FilterConcat<T>(xs: seq<T>, ys: seq<T>, keep: T -> bool)
    ensures Filter(xs + ys, keep) == Filter(xs, keep) + Filter(ys, keep)
  {
    if ys == [] {
      assert xs + ys == xs;
    } else {
      var n := |ys| - 1;
      assert (xs + ys)[..|xs| + n] == xs + ys[..n];
      FilterConcat(xs, ys[..n], keep);
    }
  }

  lemma {:induction false} FilterMember<T>(xs: seq<T>, keep: T -> bool, y: T)
    ensures y in Filter(xs, keep) <==> y in xs && keep(y)
  {
    if xs != [] {
      var n := |xs| - 1;
      FilterMember(xs[..n], keep, y);
      assert xs == xs[..n] + [xs[n]];
    }
  }

  /** `str.replace`: every occurrence, left to right, without overlap. */
  function ReplaceAll(s: string, from: string, to: string): string
    requires from != ""
  {
    if s == "" then ""
    else if from <= s then to + ReplaceAll(s[|from|..], from, to)
    else [s[0]] + ReplaceAll(s[1..], from, to)
  }

  function Min(a: int, b: int): int {
    if a <= b then a else b
  }

  function Max(a: int, b: int): int {
    if a <= b then b else a
  }
}
