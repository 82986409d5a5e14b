/** Text as lines. */
module Lines {
  import opened Text

  const NL := '\n'

  function LinesOf(content: string): (lines: seq<string>)
    ensures |lines| >= 1
  {
    Split(content, NL)
  }

  ghost predicate AreLines(lines: seq<string>) {
    forall i :: 0 <= i < |lines| ==> NL !in lines[i]
  }

  /** Every line with its newline. */
  function Unlines(lines: seq<string>): string {
    if lines == [] then "" else lines[0] + [NL] + Unlines(lines[1..])
  }

  /** Where line n starts. */
  function Start(lines: seq<string>, n: nat): nat
    requires n <= |lines|
  {
    if n == 0 then 0 else Start(lines, n - 1) + |lines[n - 1]| + 1
  }

  lemma {:induction false} UnlinesAppend(a: seq<string>, b: seq<string>)
    ensures Unlines(a + b) == Unlines(a) + Unlines(b)
  {
    if a == [] {
      assert a + b == b;
    } else {
      UnlinesAppend(a[1..], b);
      assert (a + b)[1..] == a[1..] + b;
    }
  }

  lemma {:induction false} JoinAppend(a: seq<string>, b: seq<string>)
    requires b != []
    ensures Join(a + b, NL) == Unlines(a) + Join(b, NL)
  {
    if a == [] {
      assert a + b == b;
    } else {
      JoinAppend(a[1..], b);
      assert (a + b)[1..] == a[1..] + b;
      assert a[0] + [NL] + (Unlines(a[1..]) + Join(b, NL)) == Unlines(a) + Join(b, NL);
    }
  }

  lemma JoinOne(l: string)
    ensures Join([l], NL) == l
  {
  }

  lemma {:induction false} UnlinesSize(lines: seq<string>, n: nat)
    requires n <= |lines|
    ensures |Unlines(lines[..n])| == Start(lines, n)
    decreases n
  {
    if n > 0 {
      UnlinesSize(lines, n - 1);
      assert lines[..n] == lines[..n - 1] + [lines[n - 1]];
      UnlinesAppend(lines[..n - 1], [lines[n - 1]]);
      assert Unlines([lines[n - 1]]) == lines[n - 1] + [NL] + Unlines([lines[n - 1]][1..]);
    }
  }

  /** The text before and from a line. */
  lemma SliceAt(lines: seq<string>, n: nat)
    requires n < |lines|
    ensures Start(lines, n) <= |Join(lines, NL)|
    ensures Join(lines, NL)[..Start(lines, n)] == Unlines(lines[..n])
    ensures Join(lines, NL)[Start(lines, n)..] == Join(lines[n..], NL)
  {
    assert lines == lines[..n] + lines[n..];
    JoinAppend(lines[..n], lines[n..]);
    UnlinesSize(lines, n);
  }

  lemma {:induction false} StartMonotone(lines: seq<string>, m: nat, n: nat)
    requires m <= n <= |lines|
    ensures Start(lines, m) <= Start(lines, n)
    ensures m < n ==> Start(lines, m) < Start(lines, n)
    decreases n
  {
    if m < n {
      StartMonotone(lines, m, n - 1);
    }
  }

  lemma JoinSize(lines: seq<string>)
    requires lines != []
    ensures |Join(lines, NL)| + 1 == Start(lines, |lines|)
  {
    var n := |lines| - 1;
    SliceAt(lines, n);
    assert lines[n..] == [lines[n]];
  }

  /** Lines are told apart by their text. */
  lemma LinesOfJoin(lines: seq<string>)
    requires AreLines(lines) && lines != []
    ensures LinesOf(Join(lines, NL)) == lines
  {
    SplitJoin(lines, NL);
  }

  lemma JoinOfLines(content: string)
    ensures Join(LinesOf(content), NL) == content && AreLines(LinesOf(content))
  {
    JoinSplit(content, NL);
  }

  lemma {:induction false} EndsWithNewline(lines: seq<string>)
    requires lines != []
    ensures Unlines(lines) == Join(lines, NL) + [NL]
  {
    if |lines| == 1 {
      assert Unlines(lines[1..]) == "";
    } else {
      EndsWithNewline(lines[1..]);
    }
  }
}
