/** Byte order on strings, and the sorted listing of a set of strings that Go code obtains by
    ranging over a map in an arbitrary order and then calling `sort.Strings`. */
module Ordering {
  import opened Strings

  predicate Less(a: string, b: string) {
    b != "" && (a == "" || a[0] < b[0] || (a[0] == b[0] && Less(a[1..], b[1..])))
  }

  predicate FirstDifference(a: string, b: string, k: int) {
    0 <= k < |a| && k < |b| && a[..k] == b[..k] && a[k] != b[k]
  }

  lemma ShiftDifference(a: string, b: string, k: int)
    requires a != "" && b != "" && a[0] == b[0]
    ensures FirstDifference(a[1..], b[1..], k) ==>
              FirstDifference(a, b, k + 1) && a[k + 1] == a[1..][k] && b[k + 1] == b[1..][k]
    ensures FirstDifference(a, b, k) ==>
              FirstDifference(a[1..], b[1..], k - 1) && a[k] == a[1..][k - 1] && b[k] == b[1..][k - 1]
  {
    if FirstDifference(a[1..], b[1..], k) {
      assert a[..k + 1] == [a[0]] + a[1..][..k] && b[..k + 1] == [b[0]] + b[1..][..k];
    }
    if FirstDifference(a, b, k) {
      assert a[1..][..k - 1] == a[..k][1..] && b[1..][..k - 1] == b[..k][1..];
    }
  }

  // Byte order: at the first difference the smaller character decides, and a proper prefix comes first.
  lemma {:induction false} LessMeaning(a: string, b: string)
    ensures Less(a, b) <==> a < b || exists k :: FirstDifference(a, b, k) && a[k] < b[k]
  {
    if a != "" && b != "" && a[0] == b[0] {
      LessMeaning(a[1..], b[1..]);
      assert a < b <==> a[1..] < b[1..] by { assert a == [a[0]] + a[1..] && b == [b[0]] + b[1..]; }
      forall k ensures FirstDifference(a[1..], b[1..], k) && a[1..][k] < b[1..][k] ==>
                         FirstDifference(a, b, k + 1) && a[k + 1] < b[k + 1] {
        ShiftDifference(a, b, k);
      }
      if k :| FirstDifference(a, b, k) && a[k] < b[k] {
        ShiftDifference(a, b, k);
      }
    } else if a != "" && b != "" {
      assert FirstDifference(a, b, 0);
      forall k ensures FirstDifference(a, b, k) ==> k == 0 {
        if 0 < k <= |a| && k <= |b| { assert a[..k][0] != b[..k][0]; }
      }
    }
  }

  predicate AtMost(a: string, b: string) {
    a == b || Less(a, b)
  }

  lemma {:induction false} LessIrreflexive(a: string)
    ensures !Less(a, a)
  {
    if a != "" { LessIrreflexive(a[1..]); }
  }

  lemma {:induction false} LessTransitive(a: string, b: string, c: string)
    requires Less(a, b) && Less(b, c)
    ensures Less(a, c)
  {
    if a != "" && a[0] == b[0] == c[0] { LessTransitive(a[1..], b[1..], c[1..]); }
  }

  lemma {:induction false} LessTotal(a: string, b: string)
    ensures Less(a, b) || a == b || Less(b, a)
  {
    if a != "" && b != "" && a[0] == b[0] {
      LessTotal(a[1..], b[1..]);
      assert a == [a[0]] + a[1..] && b == [b[0]] + b[1..];
    }
  }

  lemma LessAsymmetric(a: string, b: string)
    requires Less(a, b)
    ensures !Less(b, a) && a != b
  {
    LessIrreflexive(a);
    if Less(b, a) { LessTransitive(a, b, a); }
  }

  // ----- Sorted sequences -----

  ghost predicate Sorted(s: seq<string>) {
    forall i, j :: 0 <= i < j < |s| ==> AtMost(s[i], s[j])
  }

  ghost predicate StrictlySorted(s: seq<string>) {
    forall i, j :: 0 <= i < j < |s| ==> Less(s[i], s[j])
  }

  ghost predicate NoDuplicates<T(!new)>(s: seq<T>) {
    forall i, j :: 0 <= i < j < |s| ==> s[i] != s[j]
  }

  ghost function Elements<T>(s: seq<T>): set<T> {
    set x | x in s
  }

  lemma AppendNew<T(!new)>(s: seq<T>, x: T)
    ensures Elements(s + [x]) == Elements(s) + {x}
    ensures NoDuplicates(s) && x !in s ==> NoDuplicates(s + [x])
  {
  }

  lemma ElementsOfPrefix<T>(s: seq<T>, i: nat)
    requires i < |s|
    ensures Elements(s[..i + 1]) == Elements(s[..i]) + {s[i]}
  {
    assert s[..i + 1] == s[..i] + [s[i]];
  }

  // Go's sort.Strings, as an insertion sort.
  function SortStrings(s: seq<string>): (t: seq<string>)
    ensures Sorted(t)
    ensures multiset(t) == multiset(s)
    ensures |t| == |s|
  {
    if s == [] then []
    else
      assert s == [s[0]] + s[1..];
      InsertString(s[0], SortStrings(s[1..]))
  }

  function InsertString(x: string, s: seq<string>): (t: seq<string>)
    requires Sorted(s)
    ensures Sorted(t)
    ensures multiset(t) == multiset(s) + multiset{x}
    ensures |t| == |s| + 1
  {
    if s == [] then [x]
    else if !Less(s[0], x) then
      InsertAtFront(x, s);
      [x] + s
    else
      assert s == [s[0]] + s[1..];
      var rest := InsertString(x, s[1..]);
      InsertBehind(s[0], x, s[1..], rest);
      [s[0]] + rest
  }

  lemma InsertAtFront(x: string, s: seq<string>)
    requires Sorted(s) && s != [] && !Less(s[0], x)
    ensures Sorted([x] + s)
  {
    LessTotal(s[0], x);
    forall j | 0 <= j < |s| ensures AtMost(x, s[j]) {
      if s[0] != s[j] && x != s[0] {
        assert AtMost(s[0], s[j]);
        LessTransitive(x, s[0], s[j]);
      }
    }
  }

  lemma InsertBehind(head: string, x: string, tail: seq<string>, rest: seq<string>)
    requires Sorted([head] + tail) && Sorted(rest) && Less(head, x)
    requires multiset(rest) == multiset(tail) + multiset{x}
    ensures Sorted([head] + rest)
  {
    forall j | 0 <= j < |rest| ensures AtMost(head, rest[j]) {
      assert rest[j] in multiset(rest);
      if rest[j] != x {
        assert rest[j] in multiset(tail);
        var k :| 0 <= k < |tail| && tail[k] == rest[j];
        assert ([head] + tail)[0] == head && ([head] + tail)[k + 1] == rest[j];
      }
    }
  }

  // ----- Listing a set in order -----

  // The elements of s in increasing order: what keys() returns, whatever the map order was.
  ghost function Listing(s: set<string>): (t: seq<string>)
    ensures StrictlySorted(t)
    ensures Elements(t) == s
  {
    if s == {} then [] else
      var x :| x in s;
      InsertNew(x, Listing(s - {x}))
  }

  ghost function InsertNew(x: string, s: seq<string>): (t: seq<string>)
    requires StrictlySorted(s) && x !in s
    ensures StrictlySorted(t)
    ensures Elements(t) == Elements(s) + {x}
  {
    if s == [] then [x]
    else if Less(x, s[0]) then
      assert forall j :: 0 <= j < |s| ==> Less(x, s[j]) by {
        forall j | 0 < j < |s| ensures Less(x, s[j]) { LessTransitive(x, s[0], s[j]); }
      }
      var t := [x] + s;
      assert Elements(t) == Elements(s) + {x};
      t
    else
      LessTotal(x, s[0]);
      assert s == [s[0]] + s[1..];
      var rest := InsertNew(x, s[1..]);
      InsertNewBehind(s[0], x, s[1..], rest);
      [s[0]] + rest
  }

  lemma InsertNewBehind(head: string, x: string, tail: seq<string>, rest: seq<string>)
    requires StrictlySorted([head] + tail) && StrictlySorted(rest) && Less(head, x)
    requires Elements(rest) == Elements(tail) + {x}
    ensures StrictlySorted([head] + rest)
    ensures Elements([head] + rest) == Elements([head] + tail) + {x}
  {
    var s := [head] + tail;
    assert Elements(s) == {head} + Elements(tail) && Elements([head] + rest) == {head} + Elements(rest);
    forall j | 0 <= j < |rest| ensures Less(head, rest[j]) {
      assert rest[j] in Elements(rest);
      if rest[j] != x {
        var k :| 0 <= k < |tail| && tail[k] == rest[j];
        assert s[0] == head && s[k + 1] == rest[j];
      }
    }
  }

  lemma NoElements<T>(s: seq<T>)
    ensures Elements(s) == {} ==> s == []
  {
    if s != [] {
      assert s[0] in Elements(s);
    }
  }

  lemma {:induction false} StrictlySortedUnique(a: seq<string>, b: seq<string>)
    requires StrictlySorted(a) && StrictlySorted(b)
    requires Elements(a) == Elements(b)
    ensures a == b
  {
    if a == [] {
      NoElements(b);
    } else if b == [] {
      NoElements(a);
    } else {
      HeadIsLeast(a, b);
      HeadIsLeast(b, a);
      if a[0] != b[0] { LessAsymmetric(a[0], b[0]); }
      TailElements(a);
      TailElements(b);
      StrictlySortedUnique(a[1..], b[1..]);
    }
  }

  lemma HeadIsLeast(a: seq<string>, b: seq<string>)
    requires StrictlySorted(a) && a != [] && b != [] && Elements(a) == Elements(b)
    ensures AtMost(a[0], b[0])
  {
    assert b[0] in Elements(b);
    var k :| 0 <= k < |a| && a[k] == b[0];
  }

  lemma TailElements(a: seq<string>)
    requires StrictlySorted(a) && a != []
    ensures Elements(a[1..]) == Elements(a) - {a[0]}
  {
    LessIrreflexive(a[0]);
    assert a == [a[0]] + a[1..];
  }

  // Sorting a duplicate-free slice lists its set of elements.
  lemma SortLists(s: seq<string>)
    requires NoDuplicates(s)
    ensures SortStrings(s) == Listing(Elements(s))
  {
    var t := SortStrings(s);
    assert forall x :: x in t <==> x in multiset(t);
    assert forall x :: x in s <==> x in multiset(s);
    assert Elements(t) == Elements(s);
    forall i, j | 0 <= i < j < |t| ensures Less(t[i], t[j]) {
      if t[i] == t[j] {
        CountTwice(t, i, j);
        CountAtMostOne(s, t[i]);
      }
    }
    StrictlySortedUnique(t, Listing(Elements(s)));
  }

  lemma {:induction false} CountAtMostOne<T(!new)>(s: seq<T>, x: T)
    requires NoDuplicates(s)
    ensures multiset(s)[x] <= 1
  {
    if s != [] {
      assert s == [s[0]] + s[1..];
      CountAtMostOne(s[1..], x);
      if x == s[0] {
        assert x !in s[1..];
        assert x !in multiset(s[1..]);
      }
    }
  }

  lemma CountTwice<T>(s: seq<T>, i: nat, j: nat)
    requires i < j < |s| && s[i] == s[j]
    ensures multiset(s)[s[i]] >= 2
  {
    assert s == s[..j] + s[j..];
    assert s[i] in s[..j] && s[j] in s[j..];
    assert multiset(s)[s[i]] == multiset(s[..j])[s[i]] + multiset(s[j..])[s[i]];
    assert s[i] in multiset(s[..j]) && s[i] in multiset(s[j..]);
  }

  // The first element of a non-empty listing is its least element.
  lemma ListingHead(s: set<string>, x: string)
    requires x in s
    ensures Listing(s) != []
    ensures Listing(s)[0] == x <==> (forall y :: y in s ==> AtMost(x, y))
  {
    var t := Listing(s);
    assert x in Elements(t);
    assert t[0] in Elements(t);
    forall y | y in s ensures AtMost(t[0], y) {
      assert y in Elements(t);
      var k :| 0 <= k < |t| && t[k] == y;
    }
    if forall y :: y in s ==> AtMost(x, y) {
      assert AtMost(x, t[0]) && AtMost(t[0], x);
      if x != t[0] { LessAsymmetric(x, t[0]); }
    }
  }
}
