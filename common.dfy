/** Shared vocabulary: optional values, the web layer's error surface, and the
    few list operations the Python code relies on (`next(...)` over a
    generator, `list.pop(i)`). */
module Common {

  datatype Option<+T> = None | Some(value: T)

  /** What a request handler can end in besides a value: an `HTTPException`
      with its status and detail, or an uncaught Python exception (which the
      framework reports as a 500, or which aborts start-up). */
  datatype Error = HttpError(status: int, detail: string) | Crash(exception: string)

  datatype Result<+T> = Ok(value: T) | Err(error: Error)

  function Min(a: int, b: int): int
  {
    if a <= b then a else b
  }

  /** `next((i for i, x in enumerate(s) if p(x)), None)`: the index of the
      first element satisfying `p`, or None when there is none. */
  function FirstIndex<T>(s: seq<T>, p: T -> bool): (r: Option<nat>)
    ensures r.Some? ==> r.value < |s| && p(s[r.value])
    ensures r.Some? ==> forall j :: 0 <= j < r.value ==> !p(s[j])
    ensures r.None? ==> forall j :: 0 <= j < |s| ==> !p(s[j])
    decreases |s|
  {
    if |s| == 0 then None
    else if p(s[0]) then Some(0)
    else match FirstIndex(s[1..], p)
      case None => None
      case Some(i) => Some(i + 1)
  }

  /** Two sequences on which `p` agrees position by position have the same
      first match. */
  lemma FirstIndexAgrees<T>(s: seq<T>, t: seq<T>, p: T -> bool, q: T -> bool)
    requires |s| == |t|
    requires forall j :: 0 <= j < |s| ==> p(s[j]) == q(t[j])
    ensures FirstIndex(s, p) == FirstIndex(t, q)
  {
  }

  /** Appending an element leaves an existing first match where it was, and
      otherwise the appended element is the first match when it satisfies `p`. */
  lemma FirstIndexAppend<T>(s: seq<T>, x: T, p: T -> bool)
    ensures FirstIndex(s + [x], p) ==
      match FirstIndex(s, p)
      case Some(i) => Some(i)
      case None => if p(x) then Some(|s|) else None
  {
    var a, b := FirstIndex(s, p), FirstIndex(s + [x], p);
    assert forall j :: 0 <= j < |s| ==> (s + [x])[j] == s[j];
    if a.Some? {
      assert (s + [x])[a.value] == s[a.value];
    } else if b.Some? {
      assert b.value == |s|;
    } else {
      assert (s + [x])[|s|] == x;
    }
  }

  /** The longest prefix of `s` none of whose elements satisfies `stop`: what a
      loop that reads `s` and breaks at the first `stop` element consumes. */
  function BeforeFirst<T>(s: seq<T>, stop: T -> bool): (r: seq<T>)
    ensures |r| <= |s| && r == s[..|r|]
    ensures forall j :: 0 <= j < |r| ==> !stop(r[j])
    ensures |r| < |s| ==> stop(s[|r|])
  {
    match FirstIndex(s, stop)
    case None => s
    case Some(i) => s[..i]
  }

  /** A loop that stopped at index `i`, having seen no stop element before
      it, consumed exactly `BeforeFirst`. */
  lemma BeforeFirstIs<T>(s: seq<T>, stop: T -> bool, i: nat)
    requires i <= |s|
    requires forall j :: 0 <= j < i ==> !stop(s[j])
    requires i == |s| || stop(s[i])
    ensures BeforeFirst(s, stop) == s[..i]
  {
  }

  /** `list.pop(i)` as a value: the list without its element at index `i`. */
  function RemoveAt<T>(s: seq<T>, i: nat): (r: seq<T>)
    requires i < |s|
    ensures |r| == |s| - 1
    ensures forall j :: 0 <= j < i ==> r[j] == s[j]
    ensures forall j :: i <= j < |r| ==> r[j] == s[j + 1]
  {
    s[..i] + s[i + 1..]
  }

  /** Putting the popped element back where it was restores the list, so
      `RemoveAt` drops exactly one element and keeps the order of the rest. */
  lemma RemoveAtInsertBack<T>(s: seq<T>, i: nat)
    requires i < |s|
    ensures RemoveAt(s, i)[..i] + [s[i]] + RemoveAt(s, i)[i..] == s
    ensures multiset(RemoveAt(s, i)) + multiset{s[i]} == multiset(s)
  {
    var r := RemoveAt(s, i);
    assert r[..i] == s[..i];
    assert r[i..] == s[i + 1..];
    assert s == s[..i] + [s[i]] + s[i + 1..];
  }
}
