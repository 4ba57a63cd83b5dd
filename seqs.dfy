/** The list operations the app takes from JavaScript's Array and String
    prototypes (filter, Set de-duplication, a stable sort by a numeric key,
    join, split), with the facts the rest of the model uses. */
module Seqs {

  /** Array.prototype.filter. */
  function Filter<T(!new)>(s: seq<T>, p: T -> bool): (r: seq<T>)
    ensures |r| <= |s|
    ensures forall i :: 0 <= i < |r| ==> p(r[i])
    ensures forall x :: x in r <==> x in s && p(x)
  {
    if s == [] then []
    else if p(s[0]) then [s[0]] + Filter(s[1..], p)
    else Filter(s[1..], p)
  }

  lemma {:induction false} FilterAppend<T(!new)>(a: seq<T>, b: seq<T>, p: T -> bool)
    ensures Filter(a + b, p) == Filter(a, p) + Filter(b, p)
  {
    if a == [] {
      assert a + b == b;
    } else {
      assert (a + b)[1..] == a[1..] + b;
      FilterAppend(a[1..], b, p);
    }
  }

  /** Filtering twice by the same predicate is filtering once. */
  lemma {:induction false} FilterIdempotent<T(!new)>(s: seq<T>, p: T -> bool)
    ensures Filter(Filter(s, p), p) == Filter(s, p)
  {
    if s != [] {
      FilterIdempotent(s[1..], p);
      if p(s[0]) {
        assert ([s[0]] + Filter(s[1..], p))[1..] == Filter(s[1..], p);
      }
    }
  }

  /** Nothing passes both a predicate and its complement. */
  lemma {:induction false} FilterDisjoint<T(!new)>(s: seq<T>, p: T -> bool, q: T -> bool)
    requires forall x :: q(x) <==> !p(x)
    ensures Filter(Filter(s, q), p) == []
  {
    if s != [] {
      FilterDisjoint(s[1..], p, q);
    }
  }

  /** Filtering keeps an element exactly as often as it occurs when it passes. */
  lemma {:induction false} FilterMultiset<T(!new)>(s: seq<T>, p: T -> bool, x: T)
    ensures multiset(Filter(s, p))[x] == if p(x) then multiset(s)[x] else 0
  {
    if s != [] {
      FilterMultiset(s[1..], p, x);
      assert s == [s[0]] + s[1..];
    }
  }

  /** A filter and the filter by the complement split the list: together they
      hold every element exactly as often as the list does. */
  lemma FilterPartition<T(!new)>(s: seq<T>, p: T -> bool, q: T -> bool)
    requires forall x :: q(x) <==> !p(x)
    ensures multiset(Filter(s, p)) + multiset(Filter(s, q)) == multiset(s)
  {
    forall x ensures (multiset(Filter(s, p)) + multiset(Filter(s, q)))[x] == multiset(s)[x] {
      FilterMultiset(s, p, x);
      FilterMultiset(s, q, x);
    }
  }

  /** A list all of whose elements pass is its own filter. */
  lemma {:induction false} FilterAllPass<T(!new)>(s: seq<T>, p: T -> bool)
    requires forall i :: 0 <= i < |s| ==> p(s[i])
    ensures Filter(s, p) == s
  {
    if s != [] {
      FilterAllPass(s[1..], p);
    }
  }

  /** The first-occurrence order of JavaScript's Set: `Array.from(new Set(s))`. */
  function Distinct<T(==,!new)>(s: seq<T>): (r: seq<T>)
    ensures |r| <= |s|
    ensures NoDuplicates(r)
    ensures forall x :: x in r <==> x in s
  {
    if s == [] then []
    else
      var d := Distinct(s[..|s| - 1]);
      assert forall x :: x in s <==> x in s[..|s| - 1] || x == s[|s| - 1] by {
        assert s == s[..|s| - 1] + [s[|s| - 1]];
      }
      if s[|s| - 1] in d then d else d + [s[|s| - 1]]
  }

  ghost predicate NoDuplicates<T>(s: seq<T>)
  {
    forall i, j :: 0 <= i < j < |s| ==> s[i] != s[j]
  }

  /** The test `y => y !== x` of a removal filter. */
  function Unequal<T(==)>(x: T): T -> bool
  {
    y => y != x
  }

  /** A test that holds for no element keeps nothing. */
  lemma {:induction false} FilterNone<T(!new)>(s: seq<T>, p: T -> bool)
    requires forall i :: 0 <= i < |s| ==> !p(s[i])
    ensures Filter(s, p) == []
  {
    if s != [] {
      FilterNone(s[1..], p);
    }
  }

  /** Filtering keeps a list free of duplicates. */
  lemma {:induction false} FilterNoDuplicates<T(!new)>(s: seq<T>, p: T -> bool)
    requires NoDuplicates(s)
    ensures NoDuplicates(Filter(s, p))
  {
    if s != [] {
      FilterNoDuplicates(s[1..], p);
      assert s[0] !in s[1..] by {
        forall i | 0 <= i < |s[1..]| ensures s[1..][i] != s[0] {
          assert s[1..][i] == s[i + 1];
        }
      }
    }
  }

  /** Non-increasing order of a numeric key (a comparator `(a, b) => key(b) - key(a)`). */
  ghost predicate SortedDesc<T>(s: seq<T>, key: T -> int)
  {
    forall i, j :: 0 <= i < j < |s| ==> key(s[i]) >= key(s[j])
  }

  /** Place x before the first element whose key is not larger, so that among
      equal keys the earlier element stays first (Array.prototype.sort is stable). */
  function Insert<T>(x: T, l: seq<T>, key: T -> int): seq<T>
  {
    if l == [] || key(l[0]) <= key(x) then [x] + l
    else [l[0]] + Insert(x, l[1..], key)
  }

  /** `[...s].sort((a, b) => key(b) - key(a))`: a stable sort, largest key first. */
  function SortDesc<T>(s: seq<T>, key: T -> int): seq<T>
  {
    if s == [] then [] else Insert(s[0], SortDesc(s[1..], key), key)
  }

  /** Every key of a list is at most b. */
  ghost predicate KeysAtMost<T>(s: seq<T>, key: T -> int, b: int)
  {
    forall i :: 0 <= i < |s| ==> key(s[i]) <= b
  }

  lemma {:induction false} InsertKeysAtMost<T>(x: T, l: seq<T>, key: T -> int, b: int)
    requires KeysAtMost(l, key, b) && key(x) <= b
    ensures KeysAtMost(Insert(x, l, key), key, b)
  {
    if l != [] && key(l[0]) > key(x) {
      InsertKeysAtMost(x, l[1..], key, b);
    }
  }

  /** Inserting into a sorted list keeps it sorted and adds exactly x. */
  lemma {:induction false} InsertSpec<T>(x: T, l: seq<T>, key: T -> int)
    requires SortedDesc(l, key)
    ensures SortedDesc(Insert(x, l, key), key)
    ensures multiset(Insert(x, l, key)) == multiset(l) + multiset{x}
  {
    if l != [] && key(l[0]) > key(x) {
      InsertSpec(x, l[1..], key);
      InsertKeysAtMost(x, l[1..], key, key(l[0]));
      assert l == [l[0]] + l[1..];
    }
  }

  /** The sort yields the same elements, in non-increasing key order. */
  lemma {:induction false} SortDescSpec<T>(s: seq<T>, key: T -> int)
    ensures SortedDesc(SortDesc(s, key), key)
    ensures multiset(SortDesc(s, key)) == multiset(s)
  {
    if s != [] {
      SortDescSpec(s[1..], key);
      InsertSpec(s[0], SortDesc(s[1..], key), key);
      assert s == [s[0]] + s[1..];
    }
  }

  /** Appending an element with a strictly larger key than all others makes it
      the head of the sorted list, and the rest is the sort of the others. */
  lemma {:induction false} SortDescAppendLargest<T>(s: seq<T>, x: T, key: T -> int)
    requires forall i :: 0 <= i < |s| ==> key(s[i]) < key(x)
    ensures SortDesc(s + [x], key) == [x] + SortDesc(s, key)
  {
    if s == [] {
      assert s + [x] == [x];
    } else {
      assert (s + [x])[1..] == s[1..] + [x];
      SortDescAppendLargest(s[1..], x, key);
      var tail := SortDesc(s[1..], key);
      assert SortDesc(s + [x], key) == Insert(s[0], [x] + tail, key);
      assert ([x] + tail)[1..] == tail;
    }
  }

  /** Array.prototype.join. */
  function Join(parts: seq<string>, sep: string): (r: string)
    ensures parts == [] ==> r == ""
    ensures |parts| == 1 ==> r == parts[0]
  {
    if parts == [] then ""
    else if |parts| == 1 then parts[0]
    else parts[0] + sep + Join(parts[1..], sep)
  }

  /** sep occurs in s at position j. */
  predicate OccursAt(s: string, sep: string, j: nat)
  {
    j + |sep| <= |s| && s[j..j + |sep|] == sep
  }

  /** Index of the first occurrence of `sep` in s at or after position i, or |s|. */
  function IndexFrom(s: string, sep: string, i: nat): (k: nat)
    requires |sep| > 0 && i <= |s|
    ensures i <= k <= |s|
    ensures k < |s| ==> OccursAt(s, sep, k)
    ensures forall j :: i <= j < k ==> !OccursAt(s, sep, j)
    decreases |s| - i
  {
    if i + |sep| > |s| then |s|
    else if s[i..i + |sep|] == sep then i
    else IndexFrom(s, sep, i + 1)
  }

  /** String.prototype.split with a non-empty separator. */
  function Split(s: string, sep: string): (parts: seq<string>)
    requires |sep| > 0
    ensures |parts| >= 1
    decreases |s|
  {
    var k := IndexFrom(s, sep, 0);
    if k == |s| then [s]
    else [s[..k]] + Split(s[k + |sep|..], sep)
  }

  /** The first occurrence is found when no earlier position holds the
      separator's first character. */
  lemma {:induction false} IndexFromFirst(t: string, sep: string, k: nat, i: nat)
    requires |sep| > 0 && i <= k && OccursAt(t, sep, k)
    requires forall j :: i <= j < k ==> t[j] != sep[0]
    ensures IndexFrom(t, sep, i) == k
    decreases k - i
  {
    if i < k {
      assert t[i..i + |sep|][0] == t[i];
      IndexFromFirst(t, sep, k, i + 1);
    }
  }

  /** No occurrence is found when the separator's first character is absent. */
  lemma {:induction false} IndexFromNone(t: string, sep: string, i: nat)
    requires |sep| > 0 && i <= |t|
    requires forall j :: i <= j < |t| ==> t[j] != sep[0]
    ensures IndexFrom(t, sep, i) == |t|
    decreases |t| - i
  {
    if i + |sep| <= |t| {
      assert t[i..i + |sep|][0] == t[i];
      IndexFromNone(t, sep, i + 1);
    }
  }

  lemma JoinCons(a: string, tail: seq<string>, sep: string)
    requires |tail| >= 1
    ensures Join([a] + tail, sep) == a + sep + Join(tail, sep)
  {
    assert ([a] + tail)[1..] == tail;
  }

  /** Splitting and joining back with the same separator restores the text. */
  lemma {:induction false} JoinSplit(s: string, sep: string)
    requires |sep| > 0
    ensures Join(Split(s, sep), sep) == s
    decreases |s|
  {
    var k := IndexFrom(s, sep, 0);
    if k == |s| {
      assert Split(s, sep) == [s];
    } else {
      var head := s[..k];
      var rest := s[k + |sep|..];
      var tail := Split(rest, sep);
      assert Split(s, sep) == [head] + tail;
      JoinSplit(rest, sep);
      JoinCons(head, tail, sep);
      assert s == head + sep + rest by {
        assert s[k..k + |sep|] == sep;
        assert s == s[..k] + s[k..k + |sep|] + s[k + |sep|..];
      }
    }
  }

  /** Joining parts that do not contain the one-character separator and
      splitting the result gives the parts back. */
  lemma {:induction false} SplitJoin(parts: seq<string>, c: char)
    requires |parts| >= 1
    requires forall i :: 0 <= i < |parts| ==> c !in parts[i]
    ensures Split(Join(parts, [c]), [c]) == parts
  {
    var t := Join(parts, [c]);
    if |parts| == 1 {
      IndexFromNone(t, [c], 0);
    } else {
      var head, tail := parts[0], parts[1..];
      JoinCons(head, tail, [c]);
      var rest := Join(tail, [c]);
      assert t == head + [c] + rest;
      assert t[|head|..|head| + 1] == [c];
      forall j | 0 <= j < |head| ensures t[j] != c {
        assert t[j] == head[j];
      }
      IndexFromFirst(t, [c], |head|, 0);
      assert t[..|head|] == head;
      assert t[|head| + 1..] == rest;
      SplitJoin(tail, c);
      assert parts == [head] + tail;
    }
  }
}
