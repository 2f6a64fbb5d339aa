// The few JavaScript array behaviours the shop's state updates rely on:
// `find` returning a value or `undefined`, an in-place update of the element
// found, and `splice(index, 1)`.
module Js {

  /** A found value, or `undefined`. */
  datatype Option<T> = None | Some(value: T)

  /** `s.find(x => key(x) === k)`, as the position of the element found: the
      first element whose key is `k`, or none when no element has it. */
  function Find<T>(s: seq<T>, key: T -> string, k: string): (r: Option<nat>)
    ensures r.Some? ==> r.value < |s| && key(s[r.value]) == k
    ensures r.Some? ==> forall j :: 0 <= j < r.value ==> key(s[j]) != k
    ensures r.None? <==> forall j :: 0 <= j < |s| ==> key(s[j]) != k
  {
    if s == [] then None
    else if key(s[0]) == k then Some(0)
    else match Find(s[1..], key, k)
      case Some(i) => Some(i + 1)
      case None => None
  }

  /** `const x = s.find(...); if (x) { mutate x }`: the element found is
      replaced by `f` of itself; an absent key changes nothing. */
  function UpdateFound<T>(s: seq<T>, key: T -> string, k: string, f: T -> T): seq<T>
  {
    match Find(s, key, k)
    case Some(i) => s[i := f(s[i])]
    case None => s
  }

  /** Only the element found changes, into `f` of itself; every other element
      keeps its value and place. When `f` keeps the key, the same element is
      found afterwards. */
  lemma UpdateFoundEffect<T>(s: seq<T>, key: T -> string, k: string, f: T -> T)
    ensures |UpdateFound(s, key, k, f)| == |s|
    ensures Find(s, key, k).Some? ==>
      UpdateFound(s, key, k, f)[Find(s, key, k).value] == f(s[Find(s, key, k).value])
    ensures forall j :: 0 <= j < |s| && Find(s, key, k) != Some(j) ==> UpdateFound(s, key, k, f)[j] == s[j]
    ensures Find(s, key, k).None? ==> UpdateFound(s, key, k, f) == s
    ensures (forall x :: key(f(x)) == key(x)) ==> Find(UpdateFound(s, key, k, f), key, k) == Find(s, key, k)
  {
    match Find(s, key, k)
    case None =>
    case Some(i) =>
      if forall x :: key(f(x)) == key(x) {
        var r := s[i := f(s[i])];
        var g := Find(r, key, k);
        assert key(r[i]) == k;
        assert g.Some? && g.value <= i;
        assert key(r[g.value]) == key(s[g.value]);
      }
  }

  /** The position at which `splice(index, 1)` starts on an array of length
      `len`: a negative index counts back from the end (and stops at 0), an
      index past the end is clamped to the length. */
  function SpliceStart(len: nat, index: int): nat
  {
    if index < 0 then (if len + index < 0 then 0 else len + index)
    else if index > len then len
    else index
  }

  /** `s.splice(index, 1)`: removes at most one element, in place. */
  function SpliceOne<T>(s: seq<T>, index: int): (r: seq<T>)
    ensures |r| == if s != [] && index < |s| then |s| - 1 else |s|
    ensures multiset(r) <= multiset(s)
  {
    var k := SpliceStart(|s|, index);
    if k < |s| then
      assert s == s[..k] + [s[k]] + s[k + 1..];
      s[..k] + s[k + 1..]
    else s
  }

  /** On an index inside the array, exactly the element there goes; the
      elements before it stay where they were and those after it move down
      by one. */
  lemma SpliceOneAt<T>(s: seq<T>, k: int)
    requires 0 <= k < |s|
    ensures |SpliceOne(s, k)| == |s| - 1
    ensures forall j :: 0 <= j < k ==> SpliceOne(s, k)[j] == s[j]
    ensures forall j :: k <= j < |s| - 1 ==> SpliceOne(s, k)[j] == s[j + 1]
    ensures multiset(SpliceOne(s, k)) + multiset{s[k]} == multiset(s)
  {
    assert s == s[..k] + [s[k]] + s[k + 1..];
  }

  /** What the removed element held does not matter: updating it just
      before removing it leaves the same array. */
  lemma SpliceOneOverwritten<T>(s: seq<T>, k: int, x: T)
    requires 0 <= k < |s|
    ensures SpliceOne(s[k := x], k) == SpliceOne(s, k)
  {
    assert s[k := x][..k] == s[..k];
    assert s[k := x][k + 1..] == s[k + 1..];
  }

  /** A negative index `-m` removes the m-th element from the end. */
  lemma SpliceOneFromEnd<T>(s: seq<T>, index: int)
    requires -|s| <= index < 0
    ensures SpliceOne(s, index) == SpliceOne(s, |s| + index)
  {
  }

  /** An index at or past the end removes nothing. */
  lemma SpliceOnePastEnd<T>(s: seq<T>, index: int)
    requires index >= |s|
    ensures SpliceOne(s, index) == s
  {
  }
}
