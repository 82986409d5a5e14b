/**
 * Shell quoting and the audit's tokenizer, which accepts quotes and escapes and refuses
 * substitutions, redirections, pipelines and globs. Text is one byte per character.
 */
module ShellWords {
  import opened Common
  import opened Text

  // ---------------------------------------------------------------- characters

  /** Unicode white space among single bytes. */
  predicate IsBlank(c: char) {
    IsSpace(c) || c == '\U{85}' || c == '\U{A0}'
  }

  predicate IsOperator(c: char) {
    c in "$`|&;<>()*?[]"
  }

  predicate IsControl(c: char) {
    c == '\0' || c == '\r' || c == '\n'
  }

  predicate IsQuoting(c: char) {
    c == '\'' || c == '"' || c == '\\'
  }

  /** A character that stands for itself. */
  predicate IsPlain(c: char) {
    !IsBlank(c) && !IsOperator(c) && !IsControl(c) && !IsQuoting(c)
  }

  predicate AllPlain(s: string) {
    forall i :: 0 <= i < |s| ==> IsPlain(s[i])
  }

  predicate Substitutes(s: string) {
    '$' in s || '`' in s
  }

  // ---------------------------------------------------------------- the tokenizer

  /** The first `c` from index i on, |s| when there is none. */
  function IndexFrom(s: string, i: nat, c: char): (k: nat)
    requires i <= |s|
    ensures i <= k <= |s|
    ensures forall j :: i <= j < k ==> s[j] != c
    ensures k < |s| ==> s[k] == c
    decreases |s| - i
  {
    if i == |s| || s[i] == c then i else IndexFrom(s, i + 1, c)
  }

  /** What comes next in a word: its end, an error, or more of it. */
  datatype Move = End | Bad | Go(at: nat, word: string)

  function Next(s: string, i: nat, word: string): (m: Move)
    requires i <= |s|
    ensures m.Go? ==> i < m.at <= |s|
  {
    if i == |s| || IsBlank(s[i]) then End
    else if s[i] == '\'' || s[i] == '"' then
      var k := IndexFrom(s, i + 1, s[i]);
      if k == |s| || (s[i] == '"' && Substitutes(s[i + 1..k])) then Bad else Go(k + 1, word + s[i + 1..k])
    else if s[i] == '\\' then
      if i + 1 == |s| then Bad else Go(i + 2, word + [s[i + 1]])
    else if IsOperator(s[i]) || IsControl(s[i]) then Bad
    else Go(i + 1, word + [s[i]])
  }

  /** One word in progress: `word` so far, read on from index i up to white space. */
  function ReadWord(s: string, i: nat, word: string): (r: Option<(string, nat)>)
    requires i <= |s|
    ensures r.Some? ==> i <= r.value.1 <= |s|
    ensures r.Some? && i < |s| && !IsBlank(s[i]) ==> i < r.value.1
    decreases |s| - i
  {
    match Next(s, i, word)
    case End => Some((word, i))
    case Bad => None
    case Go(at, longer) => ReadWord(s, at, longer)
  }

  function SkipBlanks(s: string, i: nat): (k: nat)
    requires i <= |s|
    ensures i <= k <= |s| && (k < |s| ==> !IsBlank(s[k]))
    decreases |s| - i
  {
    if i == |s| || !IsBlank(s[i]) then i else SkipBlanks(s, i + 1)
  }

  function Tokenize(s: string, i: nat): Option<seq<string>>
    requires i <= |s|
    decreases |s| - i
  {
    var k := SkipBlanks(s, i);
    if k == |s| then Some([])
    else
      var word := ReadWord(s, k, "");
      if word.None? then None
      else
        var rest := Tokenize(s, word.value.1);
        if rest.None? then None else Some([word.value.0] + rest.value)
  }

  // ---------------------------------------------------------------- quoting

  /** Every `c` replaced by `sub`. */
  function Replace(s: string, c: char, sub: string): string {
    if s == "" then "" else (if s[0] == c then sub else [s[0]]) + Replace(s[1..], c, sub)
  }

  function ShellQuote(v: string): string {
    "'" + Replace(v, '\'', "'\\''") + "'"
  }

  /** shellCommand: the executable quoted for the platform, the arguments as they are. */
  function ShellCommand(executable: string, args: seq<string>, windows: bool): string {
    (if windows then "\"" + executable + "\"" else ShellQuote(executable)) + " " + Join(args, ' ')
  }

  lemma {:induction false} ReplaceAppend(a: string, b: string, c: char, sub: string)
    ensures Replace(a + b, c, sub) == Replace(a, c, sub) + Replace(b, c, sub)
  {
    if a == "" {
      assert a + b == b;
    } else {
      ReplaceAppend(a[1..], b, c, sub);
      assert (a + b)[1..] == a[1..] + b;
    }
  }

  lemma {:induction false} ReplaceNone(a: string, c: char, sub: string)
    requires c !in a
    ensures Replace(a, c, sub) == a
  {
    if a != "" {
      assert c !in a[1..];
      ReplaceNone(a[1..], c, sub);
      assert a == [a[0]] + a[1..];
    }
  }

  /** The text q stands at index i of s. */
  ghost predicate At(s: string, i: nat, q: string) {
    i + |q| <= |s| && s[i..i + |q|] == q
  }

  lemma AtSplit(s: string, i: nat, a: string, b: string)
    requires At(s, i, a + b)
    ensures At(s, i, a) && At(s, i + |a|, b)
  {
    var q := s[i..i + |a + b|];
    assert s[i..i + |a|] == q[..|a|] && s[i + |a|..i + |a| + |b|] == q[|a|..];
  }

  lemma IndexAt(s: string, i: nat, k: nat, c: char)
    requires i <= k < |s| && s[k] == c && c !in s[i..k]
    ensures IndexFrom(s, i, c) == k
  {
    forall j | i <= j < k ensures s[j] != c {
      assert s[j] == s[i..k][j - i];
    }
  }

  /** A stretch between quotes is taken literally. */
  lemma NextQuoted(s: string, i: nat, a: string, word: string, quote: char)
    requires (quote == '\'' || quote == '"') && quote !in a && At(s, i, [quote] + a + [quote])
    ensures Next(s, i, word) == if quote == '"' && Substitutes(a) then Bad else Go(i + |a| + 2, word + a)
  {
    assert [quote] + a + [quote] == [quote] + (a + [quote]);
    AtSplit(s, i, [quote], a + [quote]);
    AtSplit(s, i + 1, a, [quote]);
    assert s[i] == s[i..i + 1][0];
    assert s[i + 1 + |a|] == s[i + 1 + |a|..i + 2 + |a|][0];
    IndexAt(s, i + 1, i + 1 + |a|, quote);
  }

  lemma NextEscaped(s: string, i: nat, c: char, word: string)
    requires At(s, i, ['\\', c])
    ensures Next(s, i, word) == Go(i + 2, word + [c])
  {
    assert s[i] == s[i..i + 2][0] && s[i + 1] == s[i..i + 2][1];
  }

  /** Up to its first single quote, quoted text is one stretch. */
  lemma QuoteSplit(a: string, b: string)
    requires '\'' !in a
    ensures ShellQuote(a) == ['\''] + a + ['\'']
    ensures ShellQuote(a + "'" + b) == (['\''] + a + ['\'']) + (['\\', '\''] + ShellQuote(b))
  {
    var sub := "'\\''";
    ReplaceNone(a, '\'', sub);
    ReplaceAppend(a, "'" + b, '\'', sub);
    ReplaceAppend("'", b, '\'', sub);
    assert a + "'" + b == a + ("'" + b);
    assert "'"[1..] == "";
    assert Replace("'", '\'', sub) == sub;
  }

  lemma ReadQuoteFree(s: string, i: nat, v: string, word: string)
    requires '\'' !in v && At(s, i, ShellQuote(v))
    ensures ReadWord(s, i, word) == ReadWord(s, i + |ShellQuote(v)|, word + v)
  {
    QuoteSplit(v, "");
    NextQuoted(s, i, v, word, '\'');
  }

  lemma ReadOneQuote(s: string, i: nat, a: string, b: string, word: string, next: nat, longer: string)
    requires '\'' !in a && At(s, i, ShellQuote(a + "'" + b)) && next == i + |a| + 4 && longer == word + a + ['\'']
    ensures i + |ShellQuote(a + "'" + b)| == next + |ShellQuote(b)|
    ensures At(s, next, ShellQuote(b))
    ensures ReadWord(s, i, word) == ReadWord(s, next, longer)
  {
    QuoteSplit(a, b);
    var j := i + |a| + 2;
    AtSplit(s, i, ['\''] + a + ['\''], ['\\', '\''] + ShellQuote(b));
    AtSplit(s, j, ['\\', '\''], ShellQuote(b));
    NextQuoted(s, i, a, word, '\'');
    NextEscaped(s, j, '\'', word + a);
  }

  /** Quoting is undone by reading. */
  lemma {:induction false} ReadShellQuote(s: string, i: nat, v: string, word: string, end: nat, whole: string)
    requires At(s, i, ShellQuote(v)) && end == i + |ShellQuote(v)| && whole == word + v
    ensures ReadWord(s, i, word) == ReadWord(s, end, whole)
    decreases |v|
  {
    var k := Find(v, '\'');
    if k == |v| {
      ReadQuoteFree(s, i, v, word);
    } else {
      var a, b := v[..k], v[k + 1..];
      var next, longer := i + |a| + 4, word + a + ['\''];
      assert v == a + "'" + b;
      assert whole == longer + b;
      ReadOneQuote(s, i, a, b, word, next, longer);
      ReadShellQuote(s, next, b, longer, end, whole);
    }
  }

  lemma {:induction false} ReadPlain(s: string, i: nat, a: string, word: string)
    requires AllPlain(a) && At(s, i, a)
    ensures ReadWord(s, i, word) == ReadWord(s, i + |a|, word + a)
    decreases |a|
  {
    if a == "" {
      assert word + a == word;
    } else {
      assert a == [a[0]] + a[1..];
      AtSplit(s, i, [a[0]], a[1..]);
      assert s[i] == s[i..i + 1][0];
      ReadPlain(s, i + 1, a[1..], word + [a[0]]);
      assert word + [a[0]] + a[1..] == word + a;
    }
  }

  predicate PlainWords(args: seq<string>) {
    forall i :: 0 <= i < |args| ==> args[i] != "" && AllPlain(args[i])
  }

  function Tail(args: seq<string>): string {
    if args == [] then "" else " " + args[0] + Tail(args[1..])
  }

  lemma {:induction false} TailIsJoin(args: seq<string>)
    requires args != []
    ensures " " + Join(args, ' ') == Tail(args)
  {
    if |args| == 1 {
      assert Tail(args[1..]) == "";
    } else {
      TailIsJoin(args[1..]);
      assert args[0] + [' '] + Join(args[1..], ' ') == args[0] + (" " + Join(args[1..], ' '));
    }
  }

  /** Plain words separated by blanks are read back as they are. */
  lemma {:induction false} TokenizeTail(s: string, i: nat, args: seq<string>)
    requires PlainWords(args) && At(s, i, Tail(args)) && i + |Tail(args)| == |s|
    ensures Tokenize(s, i) == Some(args)
    decreases |args|
  {
    if args != [] {
      var at := i + 1 + |args[0]|;
      TailWord(s, i, args);
      TokenizeTail(s, at, args[1..]);
      TokenizeStep(s, i, args[0], at, args[1..]);
      assert args == [args[0]] + args[1..];
    }
  }

  lemma TailWord(s: string, i: nat, args: seq<string>)
    requires PlainWords(args) && args != [] && At(s, i, Tail(args)) && i + |Tail(args)| == |s|
    ensures var at := i + 1 + |args[0]|;
      && At(s, at, Tail(args[1..])) && at + |Tail(args[1..])| == |s|
      && SkipBlanks(s, i) == i + 1 && i + 1 < |s| && ReadWord(s, i + 1, "") == Some((args[0], at))
  {
    var a, tail := args[0], Tail(args[1..]);
    assert Tail(args) == " " + (a + tail);
    AtSplit(s, i, " ", a + tail);
    AtSplit(s, i + 1, a, tail);
    if tail != "" {
      assert s[i + 1 + |a|] == tail[0];
    }
    OneWord(s, i, a);
  }

  lemma TokenizeStep(s: string, i: nat, word: string, at: nat, rest: seq<string>)
    requires i <= |s| && SkipBlanks(s, i) < |s| && ReadWord(s, SkipBlanks(s, i), "") == Some((word, at)) && Tokenize(s, at) == Some(rest)
    ensures Tokenize(s, i) == Some([word] + rest)
  {
  }

  /** A blank, a plain word, and then a blank or the end. */
  lemma OneWord(s: string, i: nat, a: string)
    requires a != "" && AllPlain(a) && At(s, i, " ") && At(s, i + 1, a)
    requires i + 1 + |a| == |s| || s[i + 1 + |a|] == ' '
    ensures SkipBlanks(s, i) == i + 1 && ReadWord(s, i + 1, "") == Some((a, i + 1 + |a|))
  {
    assert s[i] == s[i..i + 1][0];
    assert s[i + 1] == s[i + 1..i + 1 + |a|][0];
    ReadPlain(s, i + 1, a, "");
    assert "" + a == a;
  }

  lemma TokenizeArgs(s: string, i: nat, args: seq<string>)
    requires PlainWords(args) && At(s, i, " " + Join(args, ' ')) && i + 1 + |Join(args, ' ')| == |s|
    ensures Tokenize(s, i) == Some(args)
    ensures i < |s| && s[i] == ' '
  {
    assert s[i] == s[i..i + 1 + |Join(args, ' ')|][0];
    if args == [] {
      assert SkipBlanks(s, i) == |s|;
    } else {
      TailIsJoin(args);
      TokenizeTail(s, i, args);
    }
  }

  /** A quoted executable followed by arguments: its word ends where they start. */
  lemma FirstWord(s: string, q: string, executable: string, args: seq<string>)
    requires PlainWords(args) && s == q + (" " + Join(args, ' ')) && q != "" && !IsBlank(q[0])
    requires ReadWord(s, 0, "") == ReadWord(s, |q|, executable)
    ensures Tokenize(s, 0) == Some([executable] + args)
  {
    assert At(s, |q|, " " + Join(args, ' '));
    TokenizeArgs(s, |q|, args);
    assert s[0] == q[0];
    assert ReadWord(s, |q|, executable) == Some((executable, |q|));
    TokenizeStep(s, 0, executable, |q|, args);
  }

  /** Any executable, quoted, and any plain arguments are read back exactly. */
  lemma CommandReadsBack(executable: string, args: seq<string>)
    requires PlainWords(args)
    ensures Tokenize(ShellCommand(executable, args, false), 0) == Some([executable] + args)
  {
    var q, s := ShellQuote(executable), ShellCommand(executable, args, false);
    assert s == q + (" " + Join(args, ' '));
    assert At(s, 0, q);
    assert "" + executable == executable;
    ReadShellQuote(s, 0, executable, "", |q|, executable);
    assert q[0] == '\'';
    FirstWord(s, q, executable, args);
  }

  /** The Windows form is read back exactly when the executable holds nothing that looks like a substitution. */
  lemma WindowsCommandReadsBack(executable: string, args: seq<string>)
    requires PlainWords(args) && '"' !in executable
    ensures Tokenize(ShellCommand(executable, args, true), 0) == if Substitutes(executable) then None else Some([executable] + args)
  {
    var q, s := ['"'] + executable + ['"'], ShellCommand(executable, args, true);
    assert s == q + (" " + Join(args, ' '));
    assert At(s, 0, q);
    NextQuoted(s, 0, executable, "", '"');
    assert "" + executable == executable;
    assert q[0] == '"' && s[0] == '"';
    if !Substitutes(executable) {
      FirstWord(s, q, executable, args);
    }
  }

  // ---------------------------------------------------------------- the tokenizer's loops

  /** The end of a quoted stretch that starts at `from`, |s| when it is not closed. */
  method ScanQuoted(s: string, from: nat, quote: char) returns (at: nat)
    requires from <= |s|
    ensures at == IndexFrom(s, from, quote)
  {
    at := from;
    while at < |s| && s[at] != quote
      invariant from <= at <= |s| && IndexFrom(s, from, quote) == IndexFrom(s, at, quote)
    {
      at := at + 1;
    }
  }

  /** What comes next at index i. */
  method ScanNext(s: string, i: nat, token: string) returns (m: Move)
    requires i < |s| && !IsBlank(s[i])
    ensures m == Next(s, i, token)
  {
    var c := s[i];
    if c == '\'' || c == '"' {
      var close := ScanQuoted(s, i + 1, c);
      if close == |s| || (c == '"' && Substitutes(s[i + 1..close])) {
        return Bad;
      }
      return Go(close + 1, token + s[i + 1..close]);
    }
    if c == '\\' {
      if i + 1 >= |s| {
        return Bad;
      }
      return Go(i + 2, token + [s[i + 1]]);
    }
    if IsOperator(c) || IsControl(c) {
      return Bad;
    }
    return Go(i + 1, token + [c]);
  }

  method ScanWord(s: string, from: nat) returns (r: Option<(string, nat)>)
    requires from < |s| && !IsBlank(s[from])
    ensures r == ReadWord(s, from, "")
  {
    var token := "";
    var at := from;
    while at < |s| && !IsBlank(s[at])
      invariant from <= at <= |s| && ReadWord(s, from, "") == ReadWord(s, at, token)
      decreases |s| - at
    {
      var m := ScanNext(s, at, token);
      if m.Bad? {
        return None;
      }
      at, token := m.at, m.word;
    }
    return Some((token, at));
  }

  method SkipTo(s: string, from: nat) returns (at: nat)
    requires from <= |s|
    ensures at == SkipBlanks(s, from)
  {
    at := from;
    while at < |s| && IsBlank(s[at])
      invariant from <= at <= |s| && SkipBlanks(s, at) == SkipBlanks(s, from)
    {
      at := at + 1;
    }
  }

  /** The words read so far and what the rest will give. */
  ghost predicate SoFar(s: string, words: seq<string>, i: nat)
    requires i <= |s|
  {
    Tokenize(s, 0) == (if Tokenize(s, i).None? then None else Some(words + Tokenize(s, i).value))
  }

  lemma NextWord(s: string, words: seq<string>, i: nat, word: string, at: nat)
    requires i <= |s| && SoFar(s, words, i) && SkipBlanks(s, i) < |s| && ReadWord(s, SkipBlanks(s, i), "") == Some((word, at))
    ensures SoFar(s, words + [word], at)
  {
    if Tokenize(s, at).Some? {
      assert words + ([word] + Tokenize(s, at).value) == words + [word] + Tokenize(s, at).value;
    }
  }

  /** tokenizeAuditShell. */
  method TokenizeShell(s: string) returns (r: Option<seq<string>>)
    ensures r == Tokenize(s, 0)
  {
    var words: seq<string> := [];
    var i := 0;
    assert Tokenize(s, 0).Some? ==> words + Tokenize(s, 0).value == Tokenize(s, 0).value;
    while true
      invariant i <= |s| && SoFar(s, words, i)
      decreases |s| - i
    {
      var at := SkipTo(s, i);
      if at == |s| {
        assert words + [] == words;
        return Some(words);
      }
      var word := ScanWord(s, at);
      if word.None? {
        return None;
      }
      NextWord(s, words, i, word.value.0, word.value.1);
      words, i := words + [word.value.0], word.value.1;
    }
  }
}
