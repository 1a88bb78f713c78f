/** The lock records of chastikey.go and `talk_to_chastikey`: what the API call and the
    JSON decoding hand back, the error strings passed through, and the in-place sort
    that puts the locks in LockID order. */
module Locks {

  /** One decoded entry of the API's "locks" array (the Go struct Lock). The Go fields
      are int64; here they are unbounded integers. */
  datatype Lock = Lock(
    lockId: int,
    lockName: string,
    lockedBy: string,
    lockFrozen: int,
    startTime: int,
    lastPicked: int,
    status: string,
    combination: string)

  /** What json.Unmarshal made of the response body. */
  datatype Decoding = Decoded(locks: seq<Lock>) | Undecodable(reason: string)

  /** What the HTTP exchange returned: its error string (empty when the call succeeded)
      and the decoding of its body. */
  datatype ApiResponse = ApiResponse(httpError: string, body: Decoding)

  /** Non-decreasing by LockID. */
  ghost predicate SortedById(s: seq<Lock>) {
    forall i, j :: 0 <= i < j < |s| ==> s[i].lockId <= s[j].lockId
  }

  /** `order` holds the same locks as `s`, sorted by LockID. */
  ghost predicate IsSortedPermutation(order: seq<Lock>, s: seq<Lock>) {
    SortedById(order) && multiset(order) == multiset(s)
  }

  /** No two different locks share a LockID. */
  ghost predicate UniqueIds(m: multiset<Lock>) {
    forall a, b :: a in m && b in m && a.lockId == b.lockId ==> a == b
  }

  /** The sort.Slice call: orders the locks in place by ascending LockID. Any sorting
      algorithm meets this contract; sort.Slice is not stable, so nothing is said about
      the relative order of locks that share a LockID. */
  method SortById(a: array<Lock>)
    modifies a
    ensures SortedById(a[..])
    ensures multiset(a[..]) == multiset(old(a[..]))
  {
    var i := 0;
    while i < a.Length
      invariant 0 <= i <= a.Length
      invariant forall p, q :: 0 <= p < q < i ==> a[p].lockId <= a[q].lockId
      invariant multiset(a[..]) == multiset(old(a[..]))
    {
      ghost var before := a[..];
      SinkInto(a, i);
      SameWhole(a[..], before, i + 1);
      i := i + 1;
    }
  }

  /** One step of the insertion sort: moves a[i] down past every larger LockID before
      it, so that the first i + 1 locks are in order. */
  method SinkInto(a: array<Lock>, i: int)
    requires 0 <= i < a.Length
    requires forall p, q :: 0 <= p < q < i ==> a[p].lockId <= a[q].lockId
    modifies a
    ensures forall p, q :: 0 <= p < q <= i ==> a[p].lockId <= a[q].lockId
    ensures multiset(a[..i + 1]) == multiset(old(a[..i + 1]))
    ensures a[i + 1..] == old(a[i + 1..])
  {
    var j := i;
    while j > 0 && a[j - 1].lockId > a[j].lockId
      invariant 0 <= j <= i
      invariant forall p, q :: 0 <= p < q <= i && q != j ==> a[p].lockId <= a[q].lockId
      invariant forall q :: j < q <= i ==> a[j].lockId < a[q].lockId
      invariant multiset(a[..i + 1]) == multiset(old(a[..i + 1]))
      invariant a[i + 1..] == old(a[i + 1..])
    {
      SinkStep(a, i, j);
      j := j - 1;
    }
  }

  /** One exchange of the insertion step: the lock at j, smaller than the one before
      it, moves down one place, and everything after i stays where it was. */
  method SinkStep(a: array<Lock>, i: int, j: int)
    requires 0 < j <= i < a.Length && a[j - 1].lockId > a[j].lockId
    requires forall p, q :: 0 <= p < q <= i && q != j ==> a[p].lockId <= a[q].lockId
    requires forall q :: j < q <= i ==> a[j].lockId < a[q].lockId
    modifies a
    ensures forall p, q :: 0 <= p < q <= i && q != j - 1 ==> a[p].lockId <= a[q].lockId
    ensures forall q :: j - 1 < q <= i ==> a[j - 1].lockId < a[q].lockId
    ensures multiset(a[..i + 1]) == multiset(old(a[..i + 1]))
    ensures a[..] == old(a[..])[j - 1 := old(a[j])][j := old(a[j - 1])]
    ensures a[i + 1..] == old(a[i + 1..])
  {
    ghost var before := a[..];
    Swap(a, j - 1, j);
    SwapKeepsPrefix(before, j - 1, j, i + 1);
    assert a[i + 1..] == before[i + 1..];
  }

  /** Exchanges two locks of the array and leaves every other one where it was. */
  method Swap(a: array<Lock>, i: int, j: int)
    requires 0 <= i < j < a.Length
    modifies a
    ensures a[..] == old(a[..])[i := old(a[j])][j := old(a[i])]
  {
    a[i], a[j] := a[j], a[i];
  }

  /** Exchanging two locks inside the first n keeps the multiset of the first n. */
  lemma SwapKeepsPrefix(s: seq<Lock>, i: int, j: int, n: int)
    requires 0 <= i < j < n <= |s|
    ensures multiset(s[i := s[j]][j := s[i]][..n]) == multiset(s[..n])
  {
    assert s[i := s[j]][j := s[i]][..n] == s[..n][i := s[j]][j := s[i]];
  }

  /** Two sequences whose first n elements agree as multisets and whose remaining
      elements are equal hold the same multiset. */
  lemma SameWhole(s: seq<Lock>, t: seq<Lock>, n: int)
    requires 0 <= n <= |s| && n <= |t|
    requires multiset(s[..n]) == multiset(t[..n]) && s[n..] == t[n..]
    ensures multiset(s) == multiset(t)
  {
    assert s == s[..n] + s[n..];
    assert t == t[..n] + t[n..];
  }

  /** talk_to_chastikey: passes a transport error through unchanged, reports a body that
      would not decode with a fixed prefix, and otherwise returns the decoded locks
      sorted by LockID. On an error no locks are returned. */
  method TalkToChastikey(resp: ApiResponse) returns (locks: seq<Lock>, err: string)
    ensures resp.httpError != "" ==> locks == [] && err == resp.httpError
    ensures resp.httpError == "" && resp.body.Undecodable? ==>
      locks == [] && err == "Could not understand API results: " + resp.body.reason
    ensures resp.httpError == "" && resp.body.Decoded? ==>
      err == "" && IsSortedPermutation(locks, resp.body.locks)
    ensures err == "" <==> resp.httpError == "" && resp.body.Decoded?
  {
    if resp.httpError != "" {
      return [], resp.httpError;
    }
    match resp.body
    case Undecodable(reason) =>
      return [], "Could not understand API results: " + reason;
    case Decoded(decoded) =>
      var a := new Lock[|decoded|](k requires 0 <= k < |decoded| => decoded[k]);
      assert a[..] == decoded;
      SortById(a);
      return a[..], "";
  }

  /** Two sorted arrangements of the same locks are identical when no two different
      locks share a LockID: sorting an already sorted list changes nothing, and the
      order of the narration does not depend on the order the API returned. */
  lemma {:induction false} SortedPermutationsAgree(s: seq<Lock>, t: seq<Lock>)
    requires SortedById(s) && SortedById(t)
    requires multiset(s) == multiset(t)
    requires UniqueIds(multiset(s))
    ensures s == t
  {
    SameLength(s, t);
    if s != [] {
      SameFirst(s, t);
      SortedTail(s);
      SortedTail(t);
      TailsSameMultiset(s, t);
      TailUnique(s);
      SortedPermutationsAgree(s[1..], t[1..]);
      SameHeadSameTail(s, t);
    }
  }

  lemma SameLength(s: seq<Lock>, t: seq<Lock>)
    requires multiset(s) == multiset(t)
    ensures |s| == |t|
  {
    assert |multiset(t)| == |multiset(s)|;
  }

  lemma SameHeadSameTail(s: seq<Lock>, t: seq<Lock>)
    requires s != [] && t != [] && s[0] == t[0] && s[1..] == t[1..]
    ensures s == t
  {
    assert s == [s[0]] + s[1..] && t == [t[0]] + t[1..];
  }

  lemma TailsSameMultiset(s: seq<Lock>, t: seq<Lock>)
    requires s != [] && t != [] && s[0] == t[0] && multiset(s) == multiset(t)
    ensures multiset(s[1..]) == multiset(t[1..])
  {
    TailMultiset(s);
    TailMultiset(t);
    assert multiset(s[1..]) == multiset(s) - multiset{s[0]};
    assert multiset(t[1..]) == multiset(t) - multiset{t[0]};
  }

  lemma TailUnique(s: seq<Lock>)
    requires s != [] && UniqueIds(multiset(s))
    ensures UniqueIds(multiset(s[1..]))
  {
    TailMultiset(s);
    UniqueIdsShrink(multiset(s), s[0], multiset(s[1..]));
  }

  lemma SortedTail(s: seq<Lock>)
    requires s != [] && SortedById(s)
    ensures SortedById(s[1..])
  {
    forall i, j | 0 <= i < j < |s| - 1 ensures s[1..][i].lockId <= s[1..][j].lockId {
      assert s[1..][i] == s[i + 1] && s[1..][j] == s[j + 1];
    }
  }

  lemma TailMultiset(s: seq<Lock>)
    requires s != []
    ensures multiset(s) == multiset{s[0]} + multiset(s[1..])
  {
    assert s == [s[0]] + s[1..];
  }

  lemma SameFirst(s: seq<Lock>, t: seq<Lock>)
    requires s != [] && |t| == |s|
    requires SortedById(s) && SortedById(t)
    requires multiset(s) == multiset(t)
    requires UniqueIds(multiset(s))
    ensures s[0] == t[0]
  {
    assert s[0] in multiset(t) && t[0] in multiset(s);
    var j :| 0 <= j < |t| && t[j] == s[0];
    var i :| 0 <= i < |s| && s[i] == t[0];
    assert t[0].lockId <= s[0].lockId <= t[0].lockId;
  }

  lemma UniqueIdsShrink(m: multiset<Lock>, x: Lock, m': multiset<Lock>)
    requires UniqueIds(m) && m == multiset{x} + m'
    ensures UniqueIds(m')
  {
  }
}
