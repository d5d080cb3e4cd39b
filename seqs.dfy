/** Searching and erasing in ordered lists (std::list, std::vector, std::deque
    used through std::find and erase). */
module Seqs {

  /** The position std::find stops at: the index of the first element equal
      to x, or |s| when there is none. */
  function FirstIndex<T(==)>(s: seq<T>, x: T): (i: nat)
    ensures i <= |s|
    ensures i < |s| ==> s[i] == x
    ensures forall j :: 0 <= j < i ==> s[j] != x
    ensures i == |s| <==> x !in s
  {
    if s == [] then 0
    else if s[0] == x then 0
    else 1 + FirstIndex(s[1..], x)
  }

  /** Erase the first element equal to x; leave s as it is when x is absent. */
  function RemoveFirst<T(==)>(s: seq<T>, x: T): (r: seq<T>)
    ensures x !in s ==> r == s
    ensures x in s ==> |r| == |s| - 1
  {
    var i := FirstIndex(s, x);
    if i == |s| then s
    else
      assert s == s[..i] + [s[i]] + s[i + 1..];
      s[..i] + s[i + 1..]
  }

  /** Erasing takes exactly one x away, when there is one. */
  lemma RemoveFirstMultiset<T>(s: seq<T>, x: T)
    ensures multiset(RemoveFirst(s, x)) == multiset(s) - multiset{x}
  {
    var i := FirstIndex(s, x);
    if i < |s| {
      var a, b := s[..i], s[i + 1..];
      assert s == a + [x] + b;
      assert RemoveFirst(s, x) == a + b;
      assert multiset(s) == multiset(a) + multiset{x} + multiset(b);
    } else {
      assert multiset(s)[x] == 0;
    }
  }

  /** Erasing the first x keeps every element before it in place and shifts
      every element after it one position towards the front. */
  lemma RemoveFirstShape<T>(s: seq<T>, x: T)
    requires x in s
    ensures var i := FirstIndex(s, x);
      && RemoveFirst(s, x)[..i] == s[..i]
      && RemoveFirst(s, x)[i..] == s[i + 1..]
  {
  }

  /** The erase loop of removeObserver and removeChannel: walk the list,
      erase the first element equal to x and stop. */
  method EraseFirst<T(==)>(s: seq<T>, x: T) returns (r: seq<T>, found: bool)
    ensures r == RemoveFirst(s, x)
    ensures found <==> x in s
  {
    var i := 0;
    while i < |s|
      invariant 0 <= i <= |s|
      invariant forall j :: 0 <= j < i ==> s[j] != x
    {
      if s[i] == x {
        assert FirstIndex(s, x) == i;
        return s[..i] + s[i + 1..], true;
      }
      i := i + 1;
    }
    return s, false;
  }

  lemma ConcatAssoc<T>(a: seq<T>, b: seq<T>, c: seq<T>)
    ensures (a + b) + c == a + (b + c)
  {
  }

  lemma PrefixStep<T>(s: seq<T>, i: nat)
    requires i < |s|
    ensures s[..i + 1] == s[..i] + [s[i]]
  {
  }
}
