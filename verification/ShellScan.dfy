/**
 * The shell words of a command, read one character at a time: an automaton that knows only
 * how it is quoted right now. The tokenizer, which jumps from quote to quote, gives the same
 * words and refuses the same texts.
 */
module ShellScan {
  import opened Common
  import opened Text
  import W = ShellWords

  datatype Quoting = Bare | InSingle | InDouble | AfterBackslash

  /** The quoting after one more character. */
  function Quote(q: Quoting, c: char): Quoting {
    match q
    case Bare => if c == '\'' then InSingle else if c == '"' then InDouble else if c == '\\' then AfterBackslash else Bare
    case InSingle => if c == '\'' then Bare else InSingle
    case InDouble => if c == '"' then Bare else InDouble
    case AfterBackslash => Bare
  }

  /** The quoting after the first n characters. */
  function QuotingAt(s: string, n: nat): Quoting
    requires n <= |s|
  {
    if n == 0 then Bare else Quote(QuotingAt(s, n - 1), s[n - 1])
  }

  /** Outside quotes no substitution, pipeline, list, redirection, grouping, glob or NUL; in double quotes no substitution. */
  predicate Allowed(q: Quoting, c: char) {
    match q
    case Bare => c !in ['$', '`', '|', '&', ';', '<', '>', '(', ')', '*', '?', '[', ']', '\0']
    case InDouble => c != '$' && c != '`'
    case _ => true
  }

  /** White space among single bytes. */
  predicate Blank(c: char) {
    c in [' ', '\t', '\n', '\U{B}', '\U{C}', '\r', '\U{85}', '\U{A0}']
  }

  /** A delimiter: it changes the quoting and is no part of the word. */
  predicate Delimits(q: Quoting, c: char) {
    match q
    case Bare => c == '\'' || c == '"' || c == '\\'
    case InSingle => c == '\''
    case InDouble => c == '"'
    case AfterBackslash => false
  }

  /** What the scan gives from index i on: `word` is the word being read, if any. */
  function Scan(s: string, i: nat, q: Quoting, words: seq<string>, word: Option<string>): Option<seq<string>>
    requires i <= |s|
    decreases |s| - i
  {
    if i == |s| then
      if q != Bare then None else Some(if word.None? then words else words + [word.value])
    else
      var c := s[i];
      if !Allowed(q, c) then None
      else if q.Bare? && Blank(c) then Scan(s, i + 1, Bare, if word.None? then words else words + [word.value], None)
      else
        var text := if word.None? then "" else word.value;
        Scan(s, i + 1, Quote(q, c), words, Some(if Delimits(q, c) then text else text + [c]))
  }

  // ---------------------------------------------------------------- what the scan refuses

  ghost predicate AllowedFrom(s: string, i: nat)
    requires i <= |s|
  {
    (forall k :: i <= k < |s| ==> Allowed(QuotingAt(s, k), s[k])) && QuotingAt(s, |s|).Bare?
  }

  lemma {:induction false} ScanSomeIff(s: string, i: nat, words: seq<string>, word: Option<string>)
    requires i <= |s|
    ensures Scan(s, i, QuotingAt(s, i), words, word).Some? <==> AllowedFrom(s, i)
    decreases |s| - i
  {
    if i < |s| {
      var q, c := QuotingAt(s, i), s[i];
      var text := if word.None? then "" else word.value;
      assert AllowedFrom(s, i) <==> Allowed(q, c) && AllowedFrom(s, i + 1);
      assert q.Bare? && Blank(c) ==> Quote(q, c) == Bare;
      if Allowed(q, c) {
        if q.Bare? && Blank(c) {
          ScanSomeIff(s, i + 1, if word.None? then words else words + [word.value], None);
        } else {
          ScanSomeIff(s, i + 1, words, Some(if Delimits(q, c) then text else text + [c]));
        }
      }
    }
  }

  // ---------------------------------------------------------------- the tokenizer scans

  lemma BlankIff(c: char)
    ensures Blank(c) <==> W.IsBlank(c)
  {
  }

  lemma AllowedBareIff(c: char)
    requires !Blank(c)
    ensures Allowed(Bare, c) <==> !W.IsOperator(c) && !W.IsControl(c)
  {
    assert "$`|&;<>()*?[]" == ['$', '`', '|', '&', ';', '<', '>', '(', ')', '*', '?', '[', ']'];
  }

  /** Inside single quotes the scan takes everything up to the closing quote. */
  lemma {:induction false} ScanSingle(s: string, i: nat, words: seq<string>, text: string)
    requires i <= |s|
    ensures var k := W.IndexFrom(s, i, '\'');
      Scan(s, i, InSingle, words, Some(text)) == if k == |s| then None else Scan(s, k + 1, Bare, words, Some(text + s[i..k]))
    decreases |s| - i
  {
    var k := W.IndexFrom(s, i, '\'');
    if i < |s| && s[i] != '\'' {
      ScanSingle(s, i + 1, words, text + [s[i]]);
      assert s[i..k] == [s[i]] + s[i + 1..k];
      assert text + [s[i]] + s[i + 1..k] == text + s[i..k];
    } else {
      assert s[i..k] == [] && text + s[i..k] == text;
    }
  }

  /** Inside double quotes likewise, unless something there looks like a substitution. */
  lemma {:induction false} ScanDouble(s: string, i: nat, words: seq<string>, text: string)
    requires i <= |s|
    ensures var k := W.IndexFrom(s, i, '"');
      Scan(s, i, InDouble, words, Some(text)) ==
        if k == |s| || W.Substitutes(s[i..k]) then None else Scan(s, k + 1, Bare, words, Some(text + s[i..k]))
    decreases |s| - i
  {
    var k := W.IndexFrom(s, i, '"');
    if i < |s| && s[i] != '"' {
      ScanDouble(s, i + 1, words, text + [s[i]]);
      assert s[i..k] == [s[i]] + s[i + 1..k];
      assert W.Substitutes(s[i..k]) <==> s[i] == '$' || s[i] == '`' || W.Substitutes(s[i + 1..k]);
      assert text + [s[i]] + s[i + 1..k] == text + s[i..k];
    } else {
      assert s[i..k] == [] && text + s[i..k] == text;
    }
  }

  /** One move of the tokenizer inside a word is a stretch of the scan. */
  lemma ScanNext(s: string, i: nat, words: seq<string>, text: string)
    requires i < |s| && !W.IsBlank(s[i])
    ensures var m := W.Next(s, i, text);
      && !m.End?
      && Scan(s, i, Bare, words, Some(text)) == if m.Bad? then None else Scan(s, m.at, Bare, words, Some(m.word))
  {
    var c := s[i];
    BlankIff(c);
    if c == '\'' {
      ScanSingle(s, i + 1, words, text);
    } else if c == '"' {
      ScanDouble(s, i + 1, words, text);
    } else if c != '\\' {
      AllowedBareIff(c);
    }
  }

  /** A word may as well be started where its first character is read. */
  lemma ScanStart(s: string, i: nat, words: seq<string>)
    requires i < |s| && !W.IsBlank(s[i])
    ensures Scan(s, i, Bare, words, None) == Scan(s, i, Bare, words, Some(""))
  {
    BlankIff(s[i]);
  }

  /** Reading a word is scanning up to the blank or the end after it. */
  lemma {:induction false} ScanWord(s: string, i: nat, words: seq<string>, text: string)
    requires i <= |s|
    ensures var r := W.ReadWord(s, i, text);
      Scan(s, i, Bare, words, Some(text)) == if r.None? then None else Scan(s, r.value.1, Bare, words + [r.value.0], None)
    decreases |s| - i
  {
    if i < |s| {
      BlankIff(s[i]);
      if !W.IsBlank(s[i]) {
        ScanNext(s, i, words, text);
        var m := W.Next(s, i, text);
        if m.Go? {
          ScanWord(s, m.at, words, m.word);
        }
      }
    }
  }

  lemma {:induction false} ScanBlanks(s: string, i: nat, words: seq<string>)
    requires i <= |s|
    ensures Scan(s, i, Bare, words, None) == Scan(s, W.SkipBlanks(s, i), Bare, words, None)
    decreases |s| - i
  {
    if i < |s| {
      BlankIff(s[i]);
      if W.IsBlank(s[i]) {
        ScanBlanks(s, i + 1, words);
      }
    }
  }

  lemma {:induction false} ScanTokens(s: string, i: nat, words: seq<string>)
    requires i <= |s|
    ensures var t := W.Tokenize(s, i); Scan(s, i, Bare, words, None) == if t.None? then None else Some(words + t.value)
    decreases |s| - i
  {
    var k := W.SkipBlanks(s, i);
    ScanBlanks(s, i, words);
    if k < |s| {
      ScanStart(s, k, words);
      ScanWord(s, k, words, "");
      var word := W.ReadWord(s, k, "");
      if word.Some? {
        ScanTokens(s, word.value.1, words + [word.value.0]);
        var rest := W.Tokenize(s, word.value.1);
        if rest.Some? {
          assert words + [word.value.0] + rest.value == words + ([word.value.0] + rest.value);
        }
      }
    } else {
      assert words + [] == words;
    }
  }

  /**
   * The tokenizer and the scan agree on every text; and a text is refused exactly when it has an operator
   * or a NUL outside quotes, a substitution in double quotes, or ends inside quotes or after a backslash.
   */
  lemma TokenizerScans(s: string)
    ensures W.Tokenize(s, 0) == Scan(s, 0, Bare, [], None)
    ensures W.Tokenize(s, 0).Some? <==>
      (forall k :: 0 <= k < |s| ==> Allowed(QuotingAt(s, k), s[k])) && QuotingAt(s, |s|).Bare?
  {
    ScanTokens(s, 0, []);
    ScanSomeIff(s, 0, [], None);
    if W.Tokenize(s, 0).Some? {
      assert [] + W.Tokenize(s, 0).value == W.Tokenize(s, 0).value;
    }
  }
}
