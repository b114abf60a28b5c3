/** Sequence operations the storefront's list logic is built from: JavaScript's
    `Array.prototype.filter`, a stable `sort` by a numeric key, and `slice`. */
module Seqs {

  // ---------------------------------------------------------------------------
  // filter
  // ---------------------------------------------------------------------------

  /** `s.filter(f)`: the elements of `s` satisfying `f`, in their original order. */
  function Filter<T>(s: seq<T>, f: T -> bool): (r: seq<T>)
    ensures |r| <= |s|
    ensures forall i :: 0 <= i < |r| ==> f(r[i])
  {
    if |s| == 0 then []
    else if f(s[0]) then [s[0]] + Filter(s[1..], f)
    else Filter(s[1..], f)
  }

  /** `idx` lists, in increasing order, exactly the positions of `s` whose element
      satisfies `f`, and `r` holds those elements in that order. */
  ghost predicate Enumerates<T>(idx: seq<int>, s: seq<T>, r: seq<T>, f: T -> bool)
  {
    && |idx| == |r|
    && (forall k :: 0 <= k < |idx| ==> 0 <= idx[k] < |s| && r[k] == s[idx[k]])
    && (forall k, l :: 0 <= k < l < |idx| ==> idx[k] < idx[l])
    && (forall i :: 0 <= i < |s| ==> (f(s[i]) <==> i in idx))
  }

  /** The filter keeps every matching element, drops every other one, and keeps order:
      its result is the subsequence of `s` at exactly the matching positions. */
  lemma {:induction false} FilterEnumerates<T>(s: seq<T>, f: T -> bool) returns (idx: seq<int>)
    ensures Enumerates(idx, s, Filter(s, f), f)
  {
    if |s| == 0 {
      idx := [];
    } else {
      var rest := FilterEnumerates(s[1..], f);
      ShiftOrdered(rest);
      ShiftPositions(rest, s[1..], Filter(s[1..], f));
      ShiftMembership(rest, s[1..], f);
      if f(s[0]) {
        idx := EnumerateKeptHead(s, f, rest);
      } else {
        idx := EnumerateDroppedHead(s, f, rest);
      }
    }
  }

  /** The positions kept from the whole sequence when its head does not match. */
  lemma EnumerateDroppedHead<T>(s: seq<T>, f: T -> bool, rest: seq<int>) returns (idx: seq<int>)
    requires |s| > 0 && !f(s[0])
    requires |rest| == |Filter(s[1..], f)|
    requires forall k :: 0 <= k < |rest| ==> 1 <= Shift(rest)[k] <= |s[1..]| && Filter(s[1..], f)[k] == s[1..][Shift(rest)[k] - 1]
    requires forall k, l :: 0 <= k < l < |Shift(rest)| ==> Shift(rest)[k] < Shift(rest)[l]
    requires forall i :: 0 <= i < |s[1..]| ==> (f(s[1..][i]) <==> i + 1 in Shift(rest))
    ensures Enumerates(idx, s, Filter(s, f), f)
  {
    idx := Shift(rest);
    forall i | 0 <= i < |s|
      ensures f(s[i]) <==> i in idx
    {
      if i > 0 {
        assert s[i] == s[1..][i - 1];
      }
    }
  }

  /** The positions kept from the whole sequence when its head matches. */
  lemma EnumerateKeptHead<T>(s: seq<T>, f: T -> bool, rest: seq<int>) returns (idx: seq<int>)
    requires |s| > 0 && f(s[0])
    requires |rest| == |Filter(s[1..], f)|
    requires forall k :: 0 <= k < |rest| ==> 1 <= Shift(rest)[k] <= |s[1..]| && Filter(s[1..], f)[k] == s[1..][Shift(rest)[k] - 1]
    requires forall k, l :: 0 <= k < l < |Shift(rest)| ==> Shift(rest)[k] < Shift(rest)[l]
    requires forall i :: 0 <= i < |s[1..]| ==> (f(s[1..][i]) <==> i + 1 in Shift(rest))
    ensures Enumerates(idx, s, Filter(s, f), f)
  {
    var shifted := Shift(rest);
    idx := [0] + shifted;
    assert Filter(s, f) == [s[0]] + Filter(s[1..], f);
    ConsPositions(s, Filter(s[1..], f), shifted);
    ConsOrdered(shifted);
    ConsMembership(s, f, shifted);
  }

  lemma ConsPositions<T>(s: seq<T>, tail: seq<T>, shifted: seq<int>)
    requires |s| > 0 && |shifted| == |tail|
    requires forall k :: 0 <= k < |shifted| ==> 1 <= shifted[k] <= |s[1..]| && tail[k] == s[1..][shifted[k] - 1]
    ensures forall k :: 0 <= k < |[0] + shifted| ==>
      0 <= ([0] + shifted)[k] < |s| && ([s[0]] + tail)[k] == s[([0] + shifted)[k]]
  {
    forall k | 0 <= k < |[0] + shifted|
      ensures 0 <= ([0] + shifted)[k] < |s| && ([s[0]] + tail)[k] == s[([0] + shifted)[k]]
    {
      if k > 0 {
        assert ([0] + shifted)[k] == shifted[k - 1];
        assert ([s[0]] + tail)[k] == tail[k - 1];
      }
    }
  }

  lemma ConsOrdered(shifted: seq<int>)
    requires forall k, l :: 0 <= k < l < |shifted| ==> shifted[k] < shifted[l]
    requires forall k :: 0 <= k < |shifted| ==> 1 <= shifted[k]
    ensures forall k, l :: 0 <= k < l < |[0] + shifted| ==> ([0] + shifted)[k] < ([0] + shifted)[l]
  {
    forall k, l | 0 <= k < l < |[0] + shifted|
      ensures ([0] + shifted)[k] < ([0] + shifted)[l]
    {
      assert ([0] + shifted)[l] == shifted[l - 1];
      if k > 0 {
        assert ([0] + shifted)[k] == shifted[k - 1];
      }
    }
  }

  lemma ConsMembership<T>(s: seq<T>, f: T -> bool, shifted: seq<int>)
    requires |s| > 0 && f(s[0])
    requires forall i :: 0 <= i < |s[1..]| ==> (f(s[1..][i]) <==> i + 1 in shifted)
    ensures forall i :: 0 <= i < |s| ==> (f(s[i]) <==> i in [0] + shifted)
  {
    forall i | 0 <= i < |s|
      ensures f(s[i]) <==> i in [0] + shifted
    {
      if i > 0 {
        assert s[i] == s[1..][i - 1];
        assert i in [0] + shifted <==> i in shifted;
      }
    }
  }

  /** Every position of `rest` moved one place to the right. */
  function Shift(rest: seq<int>): (r: seq<int>)
    ensures |r| == |rest|
    ensures forall k :: 0 <= k < |r| ==> r[k] == rest[k] + 1
  {
    if |rest| == 0 then [] else [rest[0] + 1] + Shift(rest[1..])
  }

  lemma ShiftOrdered(rest: seq<int>)
    requires forall k, l :: 0 <= k < l < |rest| ==> rest[k] < rest[l]
    ensures forall k, l :: 0 <= k < l < |Shift(rest)| ==> Shift(rest)[k] < Shift(rest)[l]
  {
  }

  lemma ShiftPositions<T>(rest: seq<int>, tail: seq<T>, r: seq<T>)
    requires |rest| == |r|
    requires forall k :: 0 <= k < |rest| ==> 0 <= rest[k] < |tail| && r[k] == tail[rest[k]]
    ensures forall k :: 0 <= k < |rest| ==> 1 <= Shift(rest)[k] <= |tail| && r[k] == tail[Shift(rest)[k] - 1]
  {
    var shifted := Shift(rest);
    forall k | 0 <= k < |rest|
      ensures 1 <= shifted[k] <= |tail| && r[k] == tail[shifted[k] - 1]
    {
      assert shifted[k] - 1 == rest[k];
    }
  }

  lemma ShiftMembership<T>(rest: seq<int>, tail: seq<T>, f: T -> bool)
    requires forall i :: 0 <= i < |tail| ==> (f(tail[i]) <==> i in rest)
    ensures forall i :: 0 <= i < |tail| ==> (f(tail[i]) <==> i + 1 in Shift(rest))
  {
    var shifted := Shift(rest);
    forall i | 0 <= i < |tail|
      ensures f(tail[i]) <==> i + 1 in shifted
    {
      if i in rest {
        var k :| 0 <= k < |rest| && rest[k] == i;
        assert shifted[k] == i + 1;
      }
      if i + 1 in shifted {
        var k :| 0 <= k < |shifted| && shifted[k] == i + 1;
        assert rest[k] == i;
      }
    }
  }

  /** Every element the filter keeps comes from `s`, and every matching element of `s` is kept. */
  lemma {:induction false} FilterMembers<T>(s: seq<T>, f: T -> bool)
    ensures forall x :: x in Filter(s, f) ==> x in s
    ensures forall x :: x in s && f(x) ==> x in Filter(s, f)
  {
    if |s| > 0 {
      FilterMembers(s[1..], f);
    }
  }

  /** Filtering a sequence all of whose elements match changes nothing. */
  lemma {:induction false} FilterAllMatch<T>(s: seq<T>, f: T -> bool)
    requires forall i :: 0 <= i < |s| ==> f(s[i])
    ensures Filter(s, f) == s
  {
    if |s| > 0 {
      FilterAllMatch(s[1..], f);
    }
  }

  /** Filtering a sequence none of whose elements match yields nothing. */
  lemma {:induction false} FilterNoneMatch<T>(s: seq<T>, f: T -> bool)
    requires forall i :: 0 <= i < |s| ==> !f(s[i])
    ensures Filter(s, f) == []
  {
    if |s| > 0 {
      FilterNoneMatch(s[1..], f);
    }
  }

  /** Filtering distributes over concatenation. */
  lemma {:induction false} FilterConcat<T>(a: seq<T>, b: seq<T>, f: T -> bool)
    ensures Filter(a + b, f) == Filter(a, f) + Filter(b, f)
  {
    if |a| == 0 {
      assert a + b == b;
    } else {
      assert (a + b)[1..] == a[1..] + b;
      FilterConcat(a[1..], b, f);
    }
  }

  // ---------------------------------------------------------------------------
  // stable sort by a numeric key
  // ---------------------------------------------------------------------------

  ghost predicate SortedBy<T>(s: seq<T>, key: T -> real)
  {
    forall i, j :: 0 <= i < j < |s| ==> key(s[i]) <= key(s[j])
  }

  /** Inserts `x` into the sorted `s` in front of the first element whose key is not
      smaller, so `x` precedes every element of equal key. */
  function InsertBy<T>(x: T, s: seq<T>, key: T -> real): (r: seq<T>)
    requires SortedBy(s, key)
    ensures |r| == |s| + 1
    ensures r[0] == x || (|s| > 0 && r[0] == s[0])
    ensures SortedBy(r, key)
    ensures multiset(r) == multiset(s) + multiset{x}
  {
    if |s| == 0 then [x]
    else if key(x) <= key(s[0]) then [x] + s
    else
      var tail := InsertBy(x, s[1..], key);
      assert key(s[0]) <= key(tail[0]);
      assert s == [s[0]] + s[1..];
      [s[0]] + tail
  }

  /** `[...s].sort((a, b) => key(a) - key(b))`: a stable ascending sort on `key`.
      A comparator that subtracts keys the other way round is this sort on the negated key. */
  function SortBy<T>(s: seq<T>, key: T -> real): (r: seq<T>)
    ensures SortedBy(r, key)
    ensures multiset(r) == multiset(s)
    ensures |r| == |s|
  {
    if |s| == 0 then []
    else
      assert s == [s[0]] + s[1..];
      InsertBy(s[0], SortBy(s[1..], key), key)
  }

  /** Sorting keeps exactly the elements it was given. */
  lemma SortByMembers<T>(s: seq<T>, key: T -> real)
    ensures forall x :: x in SortBy(s, key) <==> x in s
  {
    var r := SortBy(s, key);
    assert forall x :: x in r <==> x in multiset(r);
    assert forall x :: x in s <==> x in multiset(s);
  }

  /** Sorting input that is already in order returns it unchanged. */
  lemma {:induction false} SortBySortedIsIdentity<T>(s: seq<T>, key: T -> real)
    requires SortedBy(s, key)
    ensures SortBy(s, key) == s
  {
    if |s| > 0 {
      SortBySortedIsIdentity(s[1..], key);
      assert s == [s[0]] + s[1..];
    }
  }

  /** The predicate "has key `k`" that stability is stated with. */
  function HasKey<T>(key: T -> real, k: real): T -> bool
  {
    y => key(y) == k
  }

  /** Inserting `x` into a sorted sequence keeps, among the elements of any one key,
      the order they have in `[x] + s`. */
  lemma {:induction false} InsertByStable<T>(x: T, s: seq<T>, key: T -> real, k: real)
    requires SortedBy(s, key)
    ensures Filter(InsertBy(x, s, key), HasKey(key, k)) == Filter([x] + s, HasKey(key, k))
  {
    var p := HasKey(key, k);
    if |s| > 0 && key(x) > key(s[0]) {
      var tail := InsertBy(x, s[1..], key);
      InsertByStable(x, s[1..], key, k);
      assert InsertBy(x, s, key) == [s[0]] + tail;
      assert ([s[0]] + tail)[1..] == tail;
      assert ([x] + s[1..])[1..] == s[1..];
      assert ([x] + s)[1..] == s;
      assert Filter(tail, p) == Filter([x] + s[1..], p);
      assert !(p(x) && p(s[0]));
    }
  }

  /** The sort is stable: the elements of any one key appear in their input order. */
  lemma {:induction false} SortByStable<T>(s: seq<T>, key: T -> real, k: real)
    ensures Filter(SortBy(s, key), HasKey(key, k)) == Filter(s, HasKey(key, k))
  {
    var p := HasKey(key, k);
    if |s| > 0 {
      var sorted := SortBy(s[1..], key);
      SortByStable(s[1..], key, k);
      InsertByStable(s[0], sorted, key, k);
      assert ([s[0]] + sorted)[1..] == sorted;
      assert s == [s[0]] + s[1..];
    }
  }

  // ---------------------------------------------------------------------------
  // slice
  // ---------------------------------------------------------------------------

  /** How `Array.prototype.slice` resolves one index against length `n`:
      a negative index counts back from the end, and the result is clamped to `[0, n]`. */
  function RelativeIndex(i: int, n: nat): (r: nat)
    ensures r <= n
    ensures 0 <= i <= n ==> r == i
    ensures i > n ==> r == n
    ensures i < 0 ==> r == if n + i < 0 then 0 else n + i
  {
    if i < 0 then (if n + i < 0 then 0 else n + i)
    else if i > n then n
    else i
  }

  /** `s.slice(start, end)`. */
  function JsSlice<T>(s: seq<T>, start: int, end: int): (r: seq<T>)
    ensures 0 <= start <= end <= |s| ==> r == s[start..end]
    ensures 0 <= start <= |s| <= end ==> r == s[start..]
    ensures start <= end ==> |r| <= end - start
    ensures 0 <= end <= start || end <= start < 0 ==> r == []
    ensures start >= |s| ==> r == []
  {
    var a, b := RelativeIndex(start, |s|), RelativeIndex(end, |s|);
    if a < b then s[a..b] else []
  }

  /** The concatenation of a sequence of sequences. */
  function Flatten<T>(ss: seq<seq<T>>): (r: seq<T>)
  {
    if |ss| == 0 then [] else ss[0] + Flatten(ss[1..])
  }

  lemma {:induction false} FlattenSnoc<T>(ss: seq<seq<T>>, last: seq<T>)
    ensures Flatten(ss + [last]) == Flatten(ss) + last
  {
    if |ss| == 0 {
      assert ss + [last] == [last];
    } else {
      assert (ss + [last])[1..] == ss[1..] + [last];
      FlattenSnoc(ss[1..], last);
    }
  }
}
