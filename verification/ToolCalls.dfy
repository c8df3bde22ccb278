/** `merge_tool_call_deltas` of llm.py: streamed tool calls arrive as fragments keyed
    by index and are folded into a list that is updated in place. */
module ToolCalls {
  import opened Common

  /** A fragment; `None` is a key that is absent or null. */
  datatype Fragment = Fragment(index: Option<int>, id: Option<string>, kind: Option<string>,
                               name: Option<string>, arguments: Option<string>)

  /** A call being assembled. */
  datatype Call = Call(id: string, kind: string, name: string, arguments: string)

  const EmptyCall: Call := Call("", "function", "", "")

  function IndexOf(f: Fragment): int {
    if f.index.Some? then f.index.value else 0
  }

  function Overwritten(old': string, new': Option<string>): string {
    if new'.Some? && new'.value != "" then new'.value else old'
  }

  function Extended(old': string, new': Option<string>): string {
    if new'.Some? then old' + new'.value else old'
  }

  function Updated(call: Call, f: Fragment): Call {
    Call(Overwritten(call.id, f.id), Overwritten(call.kind, f.kind),
         Extended(call.name, f.name), Extended(call.arguments, f.arguments))
  }

  // ---------------------------------------------------------------------------
  // One fragment after the other
  // ---------------------------------------------------------------------------

  function Padding(n: nat): (calls: seq<Call>)
    ensures |calls| == n && forall i :: 0 <= i < n ==> calls[i] == EmptyCall
  {
    seq(n, _ => EmptyCall)
  }

  /** The list after the while loop has made room for `index`. */
  function Padded(accum: seq<Call>, index: int): seq<Call> {
    if index < |accum| then accum else accum + Padding(index + 1 - |accum|)
  }

  /** Where `accum[index]` is, if anywhere; a negative index counts from the end. */
  function Place(length: nat, index: int): Option<nat> {
    if 0 <= index < length then Some(index)
    else if index < 0 <= length + index then Some(length + index)
    else None
  }

  /** The list so far, and whether no fragment has raised IndexError. */
  datatype Merged = Merged(ok: bool, accum: seq<Call>)

  function MergeOne(accum: seq<Call>, f: Fragment): Merged {
    var room := Padded(accum, IndexOf(f));
    var at := Place(|room|, IndexOf(f));
    if at.None? then Merged(false, room) else Merged(true, room[at.value := Updated(room[at.value], f)])
  }

  function Merge(accum: seq<Call>, fragments: seq<Fragment>): Merged {
    if fragments == [] then Merged(true, accum)
    else
      var n := |fragments| - 1;
      var before := Merge(accum, fragments[..n]);
      if before.ok then MergeOne(before.accum, fragments[n]) else before
  }

  class Accumulator {
    var accum: seq<Call>

    constructor ()
      ensures accum == []
    {
      accum := [];
    }

    /** The body of the loop: room for the index, then the fragment's keys. */
    method MergeFragment(f: Fragment) returns (ok: bool)
      modifies this
      ensures Merged(ok, accum) == MergeOne(old(accum), f)
    {
      var idx := if f.index.Some? then f.index.value else 0;
      while |accum| <= idx
        invariant |old(accum)| <= |accum| <= Max(|old(accum)|, idx + 1)
        invariant accum == old(accum) + Padding(|accum| - |old(accum)|)
      {
        accum := accum + [EmptyCall];
        assert accum == old(accum) + Padding(|accum| - |old(accum)|);
      }
      if idx < -|accum| {
        return false;
      }
      var i := if idx < 0 then |accum| + idx else idx;
      var slot := accum[i];
      if f.id.Some? && f.id.value != "" {
        slot := slot.(id := f.id.value);
      }
      if f.kind.Some? && f.kind.value != "" {
        slot := slot.(kind := f.kind.value);
      }
      if f.name.Some? {
        slot := slot.(name := slot.name + f.name.value);
      }
      if f.arguments.Some? {
        slot := slot.(arguments := slot.arguments + f.arguments.value);
      }
      accum := accum[i := slot];
      ok := true;
    }

    /** `merge_tool_call_deltas`; `ok` is false when it raises IndexError. */
    method MergeDeltas(fragments: seq<Fragment>) returns (ok: bool)
      modifies this
      ensures Merged(ok, accum) == Merge(old(accum), fragments)
    {
      for k := 0 to |fragments|
        invariant Merged(true, accum) == Merge(old(accum), fragments[..k])
      {
        MergeOneMore(old(accum), fragments, k);
        ok := MergeFragment(fragments[k]);
        if !ok {
          FailureLasts(old(accum), fragments, k + 1);
          return;
        }
      }
      assert fragments[..|fragments|] == fragments;
      ok := true;
    }
  }

  lemma MergeOneMore(accum: seq<Call>, fragments: seq<Fragment>, k: nat)
    requires k < |fragments| && Merge(accum, fragments[..k]).ok
    ensures Merge(accum, fragments[..k + 1]) == MergeOne(Merge(accum, fragments[..k]).accum, fragments[k])
  {
    assert fragments[..k + 1][..k] == fragments[..k];
  }

  lemma {:induction false} FailureLasts(accum: seq<Call>, fragments: seq<Fragment>, k: nat)
    requires k <= |fragments| && !Merge(accum, fragments[..k]).ok
    ensures Merge(accum, fragments) == Merge(accum, fragments[..k])
  {
    if k == |fragments| {
      assert fragments[..k] == fragments;
    } else {
      var n := |fragments| - 1;
      assert fragments[..n][..k] == fragments[..k];
      FailureLasts(accum, fragments[..n], k);
    }
  }

  /** Chunking does not matter: merging a stream in pieces is merging it whole, and
      if a fragment raises, it raises in both and leaves the same list behind. */
  lemma {:induction false} ChunkingDoesNotMatter(accum: seq<Call>, first: seq<Fragment>, more: seq<Fragment>)
    ensures Merge(accum, first + more)
         == if Merge(accum, first).ok then Merge(Merge(accum, first).accum, more) else Merge(accum, first)
  {
    if more == [] {
      assert first + more == first;
    } else {
      var n := |more| - 1;
      assert (first + more)[..|first| + n] == first + more[..n];
      ChunkingDoesNotMatter(accum, first, more[..n]);
    }
  }

  // ---------------------------------------------------------------------------
  // What each slot holds
  // ---------------------------------------------------------------------------

  function OfIndex(fragments: seq<Fragment>, i: int): seq<Fragment> {
    if fragments == [] then []
    else
      var n := |fragments| - 1;
      OfIndex(fragments[..n], i) + (if IndexOf(fragments[n]) == i then [fragments[n]] else [])
  }

  function Assembled(call: Call, fragments: seq<Fragment>): Call {
    if fragments == [] then call
    else Updated(Assembled(call, fragments[..|fragments| - 1]), fragments[|fragments| - 1])
  }

  /** The list's length after the fragments. */
  function LengthAfter(length: nat, fragments: seq<Fragment>): nat {
    if fragments == [] then length
    else Max(LengthAfter(length, fragments[..|fragments| - 1]), IndexOf(fragments[|fragments| - 1]) + 1)
  }

  function SlotOf(accum: seq<Call>, i: nat): Call {
    if i < |accum| then accum[i] else EmptyCall
  }

  predicate NonNegative(fragments: seq<Fragment>) {
    forall k :: 0 <= k < |fragments| ==> IndexOf(fragments[k]) >= 0
  }

  lemma {:induction false} LengthIsMax(accum: seq<Call>, fragments: seq<Fragment>)
    ensures Merge(accum, fragments).ok ==> |Merge(accum, fragments).accum| == LengthAfter(|accum|, fragments)
  {
    if fragments != [] {
      LengthIsMax(accum, fragments[..|fragments| - 1]);
    }
  }

  lemma {:induction false} AssembledOneMore(call: Call, fragments: seq<Fragment>, f: Fragment)
    ensures Assembled(call, fragments + [f]) == Updated(Assembled(call, fragments), f)
  {
    assert (fragments + [f])[..|fragments|] == fragments;
  }

  lemma MergeOneSlot(accum: seq<Call>, f: Fragment, i: nat)
    requires IndexOf(f) >= 0
    ensures MergeOne(accum, f).ok
    ensures SlotOf(MergeOne(accum, f).accum, i) == if IndexOf(f) == i then Updated(SlotOf(accum, i), f) else SlotOf(accum, i)
  {
    assert SlotOf(Padded(accum, IndexOf(f)), i) == SlotOf(accum, i);
  }

  /** With non-negative indices nothing raises, and slot i is what its own fragments
      make of it, in order. */
  lemma {:induction false} SlotIsItsFragments(accum: seq<Call>, fragments: seq<Fragment>, i: nat)
    requires NonNegative(fragments)
    ensures Merge(accum, fragments).ok
    ensures SlotOf(Merge(accum, fragments).accum, i) == Assembled(SlotOf(accum, i), OfIndex(fragments, i))
  {
    if fragments != [] {
      var n := |fragments| - 1;
      SlotIsItsFragments(accum, fragments[..n], i);
      MergeOneSlot(Merge(accum, fragments[..n]).accum, fragments[n], i);
      if IndexOf(fragments[n]) == i {
        AssembledOneMore(SlotOf(accum, i), OfIndex(fragments[..n], i), fragments[n]);
      } else {
        assert OfIndex(fragments, i) == OfIndex(fragments[..n], i);
      }
    }
  }

  function NamesIn(fragments: seq<Fragment>): string {
    if fragments == [] then "" else Extended(NamesIn(fragments[..|fragments| - 1]), fragments[|fragments| - 1].name)
  }

  function ArgumentsIn(fragments: seq<Fragment>): string {
    if fragments == [] then "" else Extended(ArgumentsIn(fragments[..|fragments| - 1]), fragments[|fragments| - 1].arguments)
  }

  lemma {:induction false} AssembledConcatenates(call: Call, fragments: seq<Fragment>)
    ensures Assembled(call, fragments).name == call.name + NamesIn(fragments)
    ensures Assembled(call, fragments).arguments == call.arguments + ArgumentsIn(fragments)
  {
    if fragments != [] {
      AssembledConcatenates(call, fragments[..|fragments| - 1]);
    }
  }

  lemma {:induction false} LengthCoversIndices(length: nat, fragments: seq<Fragment>, k: nat)
    requires k < |fragments|
    ensures IndexOf(fragments[k]) < LengthAfter(length, fragments)
  {
    if k < |fragments| - 1 {
      LengthCoversIndices(length, fragments[..|fragments| - 1], k);
    }
  }

  lemma {:induction false} LengthIsSomeIndex(length: nat, fragments: seq<Fragment>)
    ensures LengthAfter(length, fragments) == length
         || exists k :: 0 <= k < |fragments| && LengthAfter(length, fragments) == IndexOf(fragments[k]) + 1
    ensures LengthAfter(length, fragments) >= length
  {
    if fragments != [] {
      var n := |fragments| - 1;
      LengthIsSomeIndex(length, fragments[..n]);
      if LengthAfter(length, fragments) == IndexOf(fragments[n]) + 1 {
      } else if LengthAfter(length, fragments) != length {
        var k :| 0 <= k < n && LengthAfter(length, fragments[..n]) == IndexOf(fragments[..n][k]) + 1;
        assert fragments[k] == fragments[..n][k];
      }
    }
  }

  /** From an empty list, every call's name and arguments are the concatenation of
      what its fragments carry, in order, and there is one call more than the
      largest index. */
  lemma CallsAreConcatenations(fragments: seq<Fragment>, i: nat)
    requires NonNegative(fragments)
    ensures var calls := Merge([], fragments).accum;
      && (forall k :: 0 <= k < |fragments| ==> IndexOf(fragments[k]) < |calls|)
      && (fragments != [] ==> exists k :: 0 <= k < |fragments| && |calls| == IndexOf(fragments[k]) + 1)
      && (i < |calls| ==>
            && calls[i].name == NamesIn(OfIndex(fragments, i))
            && calls[i].arguments == ArgumentsIn(OfIndex(fragments, i)))
  {
    LengthIsMax([], fragments);
    LengthIsSomeIndex(0, fragments);
    forall k | 0 <= k < |fragments| ensures IndexOf(fragments[k]) < LengthAfter(0, fragments) {
      LengthCoversIndices(0, fragments, k);
    }
    SlotIsItsFragments([], fragments, i);
    AssembledConcatenates(EmptyCall, OfIndex(fragments, i));
  }

  predicate Given(value: Option<string>) {
    value.Some? && value.value != ""
  }

  /** `result` is the last value given, or the default if none is. */
  ghost predicate IsLastGiven(values: seq<Option<string>>, default: string, result: string) {
    || (result == default && forall k :: 0 <= k < |values| ==> !Given(values[k]))
    || exists k :: 0 <= k < |values| && Given(values[k]) && values[k] == Some(result)
                   && forall j :: k < j < |values| ==> !Given(values[j])
  }

  function Ids(fragments: seq<Fragment>): (ids: seq<Option<string>>)
    ensures |ids| == |fragments| && forall k :: 0 <= k < |fragments| ==> ids[k] == fragments[k].id
  {
    seq(|fragments|, k requires 0 <= k < |fragments| => fragments[k].id)
  }

  function Kinds(fragments: seq<Fragment>): (kinds: seq<Option<string>>)
    ensures |kinds| == |fragments| && forall k :: 0 <= k < |fragments| ==> kinds[k] == fragments[k].kind
  {
    seq(|fragments|, k requires 0 <= k < |fragments| => fragments[k].kind)
  }

  lemma LastGivenOneMore(values: seq<Option<string>>, default: string, result: string, value: Option<string>)
    requires IsLastGiven(values, default, result)
    ensures IsLastGiven(values + [value], default, Overwritten(result, value))
  {
    var more := values + [value];
    if Given(value) {
      assert Given(more[|values|]) && more[|values|] == Some(value.value);
    } else if k :| 0 <= k < |values| && Given(values[k]) && values[k] == Some(result)
                   && forall j :: k < j < |values| ==> !Given(values[j]) {
      assert Given(more[k]) && more[k] == Some(result);
    }
  }

  /** From an empty list, a call's id and type are the last non-empty ones among the
      fragments of its index, which is 0 if they carry none; where there is none, the id
      is empty and the type is "function". */
  lemma {:induction false} CallsStartAsFunctions(fragments: seq<Fragment>, i: nat)
    requires NonNegative(fragments) && i < |Merge([], fragments).accum|
    ensures var call, own := Merge([], fragments).accum[i], OfIndex(fragments, i);
      && IsLastGiven(Ids(own), "", call.id) && IsLastGiven(Kinds(own), "function", call.kind)
      && forall f :: f in own <==> f in fragments && (f.index == Some(i) || (f.index == None && i == 0))
  {
    SlotIsItsFragments([], fragments, i);
    IdAndKindAreLastGiven(EmptyCall, OfIndex(fragments, i));
    forall f ensures f in OfIndex(fragments, i) <==> f in fragments && (f.index == Some(i) || (f.index == None && i == 0)) {
      OfIndexMember(fragments, i, f);
    }
  }

  /** A call's id and type are the last non-empty ones among its fragments. */
  lemma {:induction false} IdAndKindAreLastGiven(call: Call, fragments: seq<Fragment>)
    ensures IsLastGiven(Ids(fragments), call.id, Assembled(call, fragments).id)
    ensures IsLastGiven(Kinds(fragments), call.kind, Assembled(call, fragments).kind)
  {
    if fragments != [] {
      var n := |fragments| - 1;
      IdAndKindAreLastGiven(call, fragments[..n]);
      var before := Assembled(call, fragments[..n]);
      LastGivenOneMore(Ids(fragments[..n]), call.id, before.id, fragments[n].id);
      LastGivenOneMore(Kinds(fragments[..n]), call.kind, before.kind, fragments[n].kind);
      assert Ids(fragments) == Ids(fragments[..n]) + [fragments[n].id];
      assert Kinds(fragments) == Kinds(fragments[..n]) + [fragments[n].kind];
    }
  }

  /** A fragment without an index belongs to the first call. */
  lemma {:induction false} OfIndexMember(fragments: seq<Fragment>, i: int, f: Fragment)
    ensures f in OfIndex(fragments, i) <==> f in fragments && IndexOf(f) == i
    ensures f in OfIndex(fragments, i) <==> f in fragments && (f.index == Some(i) || (f.index == None && i == 0))
  {
    if fragments != [] {
      var n := |fragments| - 1;
      OfIndexMember(fragments[..n], i, f);
      assert fragments == fragments[..n] + [fragments[n]];
    }
  }

  /** Two streams that agree index by index. */
  ghost predicate SamePerIndex(xs: seq<Fragment>, ys: seq<Fragment>) {
    forall i: int :: OfIndex(xs, i) == OfIndex(ys, i)
  }

  lemma {:induction false} SamePerIndexLength(length: nat, xs: seq<Fragment>, ys: seq<Fragment>)
    requires SamePerIndex(xs, ys)
    ensures LengthAfter(length, xs) <= LengthAfter(length, ys)
  {
    LengthIsSomeIndex(length, xs);
    LengthIsSomeIndex(length, ys);
    if LengthAfter(length, xs) != length {
      var k :| 0 <= k < |xs| && LengthAfter(length, xs) == IndexOf(xs[k]) + 1;
      OfIndexMember(xs, IndexOf(xs[k]), xs[k]);
      OfIndexMember(ys, IndexOf(xs[k]), xs[k]);
      var j :| 0 <= j < |ys| && ys[j] == xs[k];
      LengthCoversIndices(length, ys, j);
    }
  }

  /** Only the order within each index matters: fragments of different calls may be
      interleaved in any way. */
  lemma {:induction false} InterleavingDoesNotMatter(accum: seq<Call>, xs: seq<Fragment>, ys: seq<Fragment>)
    requires NonNegative(xs) && NonNegative(ys) && SamePerIndex(xs, ys)
    ensures Merge(accum, xs) == Merge(accum, ys)
  {
    var a, b := Merge(accum, xs), Merge(accum, ys);
    SlotIsItsFragments(accum, xs, 0);
    SlotIsItsFragments(accum, ys, 0);
    LengthIsMax(accum, xs);
    LengthIsMax(accum, ys);
    SamePerIndexLength(|accum|, xs, ys);
    SamePerIndexLength(|accum|, ys, xs);
    forall i: nat | i < |a.accum| ensures a.accum[i] == b.accum[i] {
      SlotIsItsFragments(accum, xs, i);
      SlotIsItsFragments(accum, ys, i);
    }
    assert a.accum == b.accum;
  }

  /** Two neighbours of different indices may swap places. */
  lemma NeighboursCommute(accum: seq<Call>, f: Fragment, g: Fragment)
    requires IndexOf(f) >= 0 && IndexOf(g) >= 0 && IndexOf(f) != IndexOf(g)
    ensures Merge(accum, [f, g]) == Merge(accum, [g, f])
  {
    forall i: int ensures OfIndex([f, g], i) == OfIndex([g, f], i) {
      OfIndexOfTwo(f, g, i);
      OfIndexOfTwo(g, f, i);
    }
    InterleavingDoesNotMatter(accum, [f, g], [g, f]);
  }

  lemma OfIndexOfTwo(f: Fragment, g: Fragment, i: int)
    ensures OfIndex([f, g], i) == (if IndexOf(f) == i then [f] else []) + (if IndexOf(g) == i then [g] else [])
  {
    assert [f, g][..1] == [f] && [f][..0] == [];
    assert OfIndex([f], i) == if IndexOf(f) == i then [f] else [];
  }

  // ---------------------------------------------------------------------------
  // Negative indices
  // ---------------------------------------------------------------------------

  /** A fragment that reaches back before the first slot there is by then. */
  predicate ReachesTooFar(length: nat, fragments: seq<Fragment>, k: nat)
    requires k < |fragments|
  {
    IndexOf(fragments[k]) + LengthAfter(length, fragments[..k]) < 0
  }

  /** Merging raises exactly when some fragment reaches back too far. */
  lemma {:induction false} RaisesIffTooFar(accum: seq<Call>, fragments: seq<Fragment>)
    ensures !Merge(accum, fragments).ok <==> exists k: nat :: k < |fragments| && ReachesTooFar(|accum|, fragments, k)
  {
    if fragments != [] {
      var n := |fragments| - 1;
      RaisesIffTooFar(accum, fragments[..n]);
      LengthIsMax(accum, fragments[..n]);
      forall k: nat | k < n
        ensures ReachesTooFar(|accum|, fragments[..n], k) <==> ReachesTooFar(|accum|, fragments, k)
      {
        assert fragments[..n][..k] == fragments[..k];
      }
      if exists k: nat :: k < n && ReachesTooFar(|accum|, fragments[..n], k) {
        var k: nat :| k < n && ReachesTooFar(|accum|, fragments[..n], k);
        assert ReachesTooFar(|accum|, fragments, k);
      } else {
        assert !Merge(accum, fragments).ok <==> ReachesTooFar(|accum|, fragments, n);
      }
    }
  }
}
