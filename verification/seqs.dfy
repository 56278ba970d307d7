/** Linear searches that return the first hit, as PHP `array_search`, the
    `foreach ... break` loops of api.php and JavaScript `Array.prototype.find`
    do. */
module Seqs {
  import opened Wrappers

  /** The first index `k >= from` with `p(s[k])`. */
  function FindFrom<T>(s: seq<T>, p: T -> bool, from: nat): (r: Option<nat>)
    ensures r.Some? ==> from <= r.value < |s| && p(s[r.value])
    ensures r.Some? ==> forall k :: from <= k < r.value ==> !p(s[k])
    ensures r.None? ==> forall k :: from <= k < |s| ==> !p(s[k])
    decreases |s| - from
  {
    if from >= |s| then None
    else if p(s[from]) then Some(from)
    else FindFrom(s, p, from + 1)
  }

  /** The first index `k` with `p(s[k])`, or None when there is none. */
  function FindFirst<T>(s: seq<T>, p: T -> bool): (r: Option<nat>)
    ensures r.Some? <==> exists k :: 0 <= k < |s| && p(s[k])
    ensures r.Some? ==> r.value < |s| && p(s[r.value])
    ensures r.Some? ==> forall k :: 0 <= k < r.value ==> !p(s[k])
  {
    FindFrom(s, p, 0)
  }

  /** The first position `k` in `[from, hi)` with `p(k)`: a scan over
      positions rather than elements, used for leftmost regex matches. */
  function FirstPosition(from: nat, hi: nat, p: nat -> bool): (r: Option<nat>)
    ensures r.Some? ==> from <= r.value < hi && p(r.value)
    ensures r.Some? ==> forall k :: from <= k < r.value ==> !p(k)
    ensures r.None? ==> forall k :: from <= k < hi ==> !p(k)
    decreases hi - from
  {
    if from >= hi then None
    else if p(from) then Some(from)
    else FirstPosition(from + 1, hi, p)
  }

  /** PHP `array_search($x, $s)` on strings: the first index holding `x`. */
  function IndexOf<T(==)>(s: seq<T>, x: T): (r: Option<nat>)
    ensures r.Some? <==> x in s
    ensures r.Some? ==> r.value < |s| && s[r.value] == x
    ensures r.Some? ==> forall k :: 0 <= k < r.value ==> s[k] != x
  {
    FindFirst(s, y => y == x)
  }

  /** The values of the present entries of `s[from..]`, in order: a loop
      that appends each row's optional result. */
  function Collect<T>(s: seq<Option<T>>, from: nat): (out: seq<T>)
    ensures from <= |s| ==> |out| <= |s| - from
    ensures from >= |s| ==> out == []
    decreases |s| - from
  {
    if from >= |s| then []
    else
      match s[from]
      case None => Collect(s, from + 1)
      case Some(x) => [x] + Collect(s, from + 1)
  }

  /** The indices `k >= from` of the present entries of `s`, increasing. */
  function PresentIndices<T>(s: seq<Option<T>>, from: nat): (ks: seq<nat>)
    ensures forall m :: 0 <= m < |ks| ==> from <= ks[m] < |s| && s[ks[m]].Some?
    ensures forall m, n :: 0 <= m < n < |ks| ==> ks[m] < ks[n]
    ensures forall k :: from <= k < |s| && s[k].Some? ==> k in ks
    decreases |s| - from
  {
    if from >= |s| then []
    else if s[from].Some? then [from] + PresentIndices(s, from + 1)
    else PresentIndices(s, from + 1)
  }

  /** `Collect` keeps exactly the present entries, in index order. */
  lemma {:induction false} CollectFollowsIndices<T>(s: seq<Option<T>>, from: nat)
    ensures |Collect(s, from)| == |PresentIndices(s, from)|
    ensures forall m :: 0 <= m < |Collect(s, from)| ==>
              Collect(s, from)[m] == s[PresentIndices(s, from)[m]].value
    decreases |s| - from
  {
    if from < |s| {
      CollectFollowsIndices(s, from + 1);
    }
  }

  /** A loop that finds no result collects nothing. */
  lemma {:induction false} CollectOfAbsent<T>(s: seq<Option<T>>, from: nat)
    requires forall k :: from <= k < |s| ==> s[k].None?
    ensures Collect(s, from) == []
    decreases |s| - from
  {
    if from < |s| {
      CollectOfAbsent(s, from + 1);
    }
  }
}
