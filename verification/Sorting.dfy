/** Sorting by a string key. The library sort is not stable: any ordered rearrangement may come out. */
module Sorting {
  import opened Text

  ghost predicate Ordered<T(!new)>(s: seq<T>, key: T -> string) {
    forall i, j :: 0 <= i < j < |s| ==> LexCompare(key(s[i]), key(s[j])) <= 0
  }

  ghost predicate IsSorting<T(!new)>(from: seq<T>, to: seq<T>, key: T -> string) {
    multiset(to) == multiset(from) && Ordered(to, key)
  }

  ghost predicate KeyTellsApart<T(!new)>(s: seq<T>, key: T -> string) {
    forall i, j :: 0 <= i < |s| && 0 <= j < |s| && key(s[i]) == key(s[j]) ==> s[i] == s[j]
  }

  /** Where x belongs. */
  method Position<T(!new)>(s: seq<T>, x: T, key: T -> string) returns (p: nat)
    requires Ordered(s, key)
    ensures p <= |s|
    ensures forall i :: 0 <= i < p ==> LexCompare(key(s[i]), key(x)) <= 0
    ensures forall i :: p <= i < |s| ==> LexCompare(key(x), key(s[i])) <= 0
  {
    p := 0;
    while p < |s| && LexCompare(key(s[p]), key(x)) < 0
      invariant p <= |s|
      invariant forall i :: 0 <= i < p ==> LexCompare(key(s[i]), key(x)) <= 0
    {
      p := p + 1;
    }
    forall i | p <= i < |s| ensures LexCompare(key(x), key(s[i])) <= 0 {
      LexOrder(key(s[p]), key(x));
      if p < i {
        LexTransitive(key(x), key(s[p]), key(s[i]));
      }
    }
  }

  method Sort<T(!new)>(s: seq<T>, key: T -> string) returns (t: seq<T>)
    ensures IsSorting(s, t, key)
  {
    t := [];
    for n := 0 to |s|
      invariant IsSorting(s[..n], t, key)
    {
      assert s[..n + 1] == s[..n] + [s[n]];
      var p := Position(t, s[n], key);
      InsertKeeps(t, s[n], p, key);
      t := t[..p] + [s[n]] + t[p..];
    }
    assert s[..|s|] == s;
  }

  lemma InsertKeeps<T(!new)>(t: seq<T>, x: T, p: nat, key: T -> string)
    requires Ordered(t, key) && p <= |t|
    requires forall i :: 0 <= i < p ==> LexCompare(key(t[i]), key(x)) <= 0
    requires forall i :: p <= i < |t| ==> LexCompare(key(x), key(t[i])) <= 0
    ensures Ordered(t[..p] + [x] + t[p..], key)
    ensures multiset(t[..p] + [x] + t[p..]) == multiset(t + [x])
  {
    InsertContents(t, x, p);
    forall i, j | 0 <= i < j < |t| + 1 ensures LexCompare(key(Inserted(t, x, p)[i]), key(Inserted(t, x, p)[j])) <= 0 {
      InsertedAt(t, x, p, i);
      InsertedAt(t, x, p, j);
    }
  }

  function Inserted<T>(t: seq<T>, x: T, p: nat): (u: seq<T>)
    requires p <= |t|
    ensures |u| == |t| + 1
  {
    t[..p] + [x] + t[p..]
  }

  lemma InsertedAt<T>(t: seq<T>, x: T, p: nat, i: nat)
    requires p <= |t| && i <= |t|
    ensures Inserted(t, x, p)[i] == if i < p then t[i] else if i == p then x else t[i - 1]
  {
  }

  lemma InsertContents<T>(t: seq<T>, x: T, p: nat)
    requires p <= |t|
    ensures multiset(t[..p] + [x] + t[p..]) == multiset(t + [x])
  {
    assert t == t[..p] + t[p..];
  }

  /** With keys that tell elements apart, there is one ordered rearrangement. */
  lemma {:induction false} OneOrder<T(!new)>(a: seq<T>, b: seq<T>, key: T -> string)
    requires multiset(a) == multiset(b) && Ordered(a, key) && Ordered(b, key) && KeyTellsApart(a, key)
    ensures a == b
    decreases |a|
  {
    SameLength(a, b);
    if |a| > 0 {
      SameHead(a, b, key);
      SameTail(a, b);
      TailOrdered(a, key);
      TailOrdered(b, key);
      TailApart(a, key);
      OneOrder(a[1..], b[1..], key);
      assert a == [a[0]] + a[1..] && b == [b[0]] + b[1..];
    }
  }

  lemma SameLength<T>(a: seq<T>, b: seq<T>)
    requires multiset(a) == multiset(b)
    ensures |a| == |b|
  {
    assert |a| == |multiset(a)| && |b| == |multiset(b)|;
  }

  lemma SameTail<T>(a: seq<T>, b: seq<T>)
    requires multiset(a) == multiset(b) && |a| > 0 && |b| > 0 && a[0] == b[0]
    ensures multiset(a[1..]) == multiset(b[1..])
  {
    assert a == [a[0]] + a[1..] && b == [b[0]] + b[1..];
    assert multiset(a[1..]) == multiset(a) - multiset{a[0]};
    assert multiset(b[1..]) == multiset(b) - multiset{b[0]};
  }

  lemma TailOrdered<T(!new)>(s: seq<T>, key: T -> string)
    requires Ordered(s, key) && |s| > 0
    ensures Ordered(s[1..], key)
  {
    var t := s[1..];
    forall i, j | 0 <= i < j < |t| ensures LexCompare(key(t[i]), key(t[j])) <= 0 {
      assert t[i] == s[i + 1] && t[j] == s[j + 1];
    }
  }

  lemma TailApart<T(!new)>(s: seq<T>, key: T -> string)
    requires KeyTellsApart(s, key) && |s| > 0
    ensures KeyTellsApart(s[1..], key)
  {
    var t := s[1..];
    forall i, j | 0 <= i < |t| && 0 <= j < |t| && key(t[i]) == key(t[j]) ensures t[i] == t[j] {
      assert t[i] == s[i + 1] && t[j] == s[j + 1];
    }
  }

  lemma SameHead<T(!new)>(a: seq<T>, b: seq<T>, key: T -> string)
    requires multiset(a) == multiset(b) && Ordered(a, key) && Ordered(b, key) && KeyTellsApart(a, key) && |a| > 0 && |b| > 0
    ensures a[0] == b[0]
  {
    assert a[0] in multiset(b) && b[0] in multiset(a);
    var i :| 0 <= i < |b| && b[i] == a[0];
    var j :| 0 <= j < |a| && a[j] == b[0];
    LexOrder(key(a[0]), key(a[0]));
    LexOrder(key(b[0]), key(b[0]));
    LexOrder(key(a[0]), key(b[0]));
    assert LexCompare(key(b[0]), key(b[i])) <= 0;
    assert LexCompare(key(a[0]), key(a[j])) <= 0;
  }
}
