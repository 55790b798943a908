/**
  Quoting for a POSIX shell, read back by the quoting rules of IEEE Std 1003.1, Shell Command
  Language, sections 2.2 and 2.3.  Strings are byte strings.
*/
module Shell {
  import opened Wrappers

  // ---------------------------------------------------------------- Quote

  /** strings.ReplaceAll: a quote closes the quoted text, is quoted by itself, and opens it again. */
  function Escaped(v: string): string {
    if v == "" then "" else (if v[0] == '\'' then "'\"'\"'" else [v[0]]) + Escaped(v[1..])
  }

  function Quote(v: string): string {
    "'" + Escaped(v) + "'"
  }

  // ---------------------------------------------------------------- reading one word

  datatype Mode = Unquoted | Single | Double

  /** A character that ends a word when it is not quoted. */
  predicate Delimiter(c: char) {
    c in "|&;<>() \t\n"
  }

  function Cons(c: char, r: Option<(string, string)>): Option<(string, string)> {
    if r.Some? then Some(([c] + r.value.0, r.value.1)) else None
  }

  /**
    The rest of a word whose value is literal, and the text after it.  None if a quote is not
    closed, if the word would be expanded, or at a NUL, which no shell argument can hold.
  */
  function ReadOn(mode: Mode, s: string): Option<(string, string)>
    decreases |s|
  {
    if s == "" then (if mode.Unquoted? then Some(("", "")) else None)
    else if s[0] == '\0' then None
    else match mode
      case Single => if s[0] == '\'' then ReadOn(Unquoted, s[1..]) else Cons(s[0], ReadOn(Single, s[1..]))
      case Double =>
        if s[0] == '"' then ReadOn(Unquoted, s[1..])
        else if s[0] in "$`" then None
        else if s[0] != '\\' then Cons(s[0], ReadOn(Double, s[1..]))
        else if |s| < 2 then None
        else if s[1] == '\n' then ReadOn(Double, s[2..])
        else if s[1] in "$`\"\\" then Cons(s[1], ReadOn(Double, s[2..]))
        else Cons('\\', ReadOn(Double, s[1..]))
      case Unquoted =>
        if Delimiter(s[0]) then Some(("", s))
        else if s[0] == '\'' then ReadOn(Single, s[1..])
        else if s[0] == '"' then ReadOn(Double, s[1..])
        else if s[0] in "$`*?[#~" then None
        else if s[0] != '\\' then Cons(s[0], ReadOn(Unquoted, s[1..]))
        else if |s| < 2 || s[1] == '\0' then None
        else if s[1] == '\n' then ReadOn(Unquoted, s[2..])
        else Cons(s[1], ReadOn(Unquoted, s[2..]))
  }

  function ReadWord(s: string): Option<(string, string)> {
    if s == "" || Delimiter(s[0]) then None else ReadOn(Unquoted, s)
  }

  lemma QuotedQuote(t: string)
    ensures ReadOn(Single, "'\"'\"'" + t) == Cons('\'', ReadOn(Single, t))
  {
    var s := "'\"'\"'" + t;
    assert s[1..] == "\"'\"'" + t && s[2..] == "'\"'" + t && s[3..] == "\"'" + t && s[4..] == "'" + t && s[5..] == t;
    assert ReadOn(Unquoted, s[4..]) == ReadOn(Single, t) by { assert s[4..][1..] == t; }
    assert ReadOn(Double, s[3..]) == ReadOn(Unquoted, s[4..]) by { assert s[3..][1..] == s[4..]; }
    assert ReadOn(Double, s[2..]) == Cons('\'', ReadOn(Double, s[3..])) by { assert s[2..][1..] == s[3..]; }
    assert ReadOn(Unquoted, s[1..]) == ReadOn(Double, s[2..]) by { assert s[1..][1..] == s[2..]; }
  }

  function Prepend(v: string, r: Option<(string, string)>): Option<(string, string)> {
    if r.Some? then Some((v + r.value.0, r.value.1)) else None
  }

  lemma {:induction false} EscapedReadsBack(v: string, rest: string)
    ensures ReadOn(Single, Escaped(v) + ("'" + rest)) == if '\0' in v then None else Prepend(v, ReadOn(Unquoted, rest))
  {
    if v == "" {
      assert Escaped(v) + ("'" + rest) == "'" + rest;
      assert ("'" + rest)[1..] == rest;
      assert ReadOn(Unquoted, rest).Some? ==> "" + ReadOn(Unquoted, rest).value.0 == ReadOn(Unquoted, rest).value.0;
    } else {
      EscapedReadsBack(v[1..], rest);
      var tail := Escaped(v[1..]) + ("'" + rest);
      assert '\0' in v <==> v[0] == '\0' || '\0' in v[1..];
      if v[0] == '\'' {
        assert Escaped(v) + ("'" + rest) == "'\"'\"'" + tail;
        QuotedQuote(tail);
      } else {
        assert Escaped(v) + ("'" + rest) == [v[0]] + tail;
        assert ([v[0]] + tail)[1..] == tail;
      }
      ConsIsPrepend(v, ReadOn(Unquoted, rest));
    }
  }

  lemma ConsIsPrepend(v: string, r: Option<(string, string)>)
    requires v != ""
    ensures Cons(v[0], Prepend(v[1..], r)) == Prepend(v, r)
  {
    if r.Some? { assert [v[0]] + (v[1..] + r.value.0) == v + r.value.0; }
  }

  /** A shell takes Quote(v) as one word, and that word is v, exactly when v has no NUL. */
  lemma QuotedIsOneWord(v: string, rest: string)
    requires rest == "" || Delimiter(rest[0])
    ensures ReadWord(Quote(v) + rest) == if '\0' in v then None else Some((v, rest))
  {
    var s := Quote(v) + rest;
    assert s[1..] == Escaped(v) + ("'" + rest);
    EscapedReadsBack(v, rest);
    assert v + "" == v;
  }

  // ---------------------------------------------------------------- scripts with quoted words

  /** A script is fixed text with quoted arguments: `head`, then each argument and the text after it. */
  datatype Script = Script(head: string, after: seq<string>)

  /** Every argument is followed by a delimiter or ends the script. */
  predicate Separated(after: seq<string>) {
    forall i :: 0 <= i < |after| ==> if after[i] == "" then i == |after| - 1 else Delimiter(after[i][0])
  }

  function RenderTail(after: seq<string>, words: seq<string>): string
    requires |words| == |after|
  {
    if after == [] then "" else Quote(words[0]) + (after[0] + RenderTail(after[1..], words[1..]))
  }

  function Render(script: Script, words: seq<string>): string
    requires |words| == |script.after|
  {
    script.head + RenderTail(script.after, words)
  }

  predicate StartsWith(s: string, p: string) {
    |p| <= |s| && s[..|p|] == p
  }

  /** The arguments a shell reads, with this text after each of them. */
  function TailArguments(after: seq<string>, s: string): (r: Option<seq<string>>)
    ensures r.Some? ==> |r.value| == |after|
  {
    if after == [] then (if s == "" then Some([]) else None)
    else match ReadWord(s)
      case None => None
      case Some(pair) =>
        if !StartsWith(pair.1, after[0]) then None
        else match TailArguments(after[1..], pair.1[|after[0]|..])
          case None => None
          case Some(words) => Some([pair.0] + words)
  }

  /** The arguments a shell finds in a text, if it is this script. */
  function Arguments(script: Script, s: string): (r: Option<seq<string>>)
    ensures r.Some? ==> |r.value| == |script.after|
  {
    if StartsWith(s, script.head) then TailArguments(script.after, s[|script.head|..]) else None
  }

  predicate NulFree(words: seq<string>) {
    forall i :: 0 <= i < |words| ==> '\0' !in words[i]
  }

  lemma TakesPrefix(p: string, rest: string)
    ensures StartsWith(p + rest, p) && (p + rest)[|p|..] == rest
  {
  }

  lemma {:induction false} TailReadsBack(after: seq<string>, words: seq<string>)
    requires |words| == |after| && Separated(after)
    ensures TailArguments(after, RenderTail(after, words)) == if NulFree(words) then Some(words) else None
    decreases |after|
  {
    if after == [] {
      assert words == [];
    } else {
      assert Separated(after[1..]) by {
        forall i | 0 <= i < |after[1..]| ensures after[1..][i] == after[i + 1] {}
      }
      TailReadsBack(after[1..], words[1..]);
      var rest := after[0] + RenderTail(after[1..], words[1..]);
      assert rest == "" || Delimiter(rest[0]) by { if after[0] == "" { assert after[1..] == []; } }
      QuotedIsOneWord(words[0], rest);
      TakesPrefix(after[0], RenderTail(after[1..], words[1..]));
      assert words == [words[0]] + words[1..];
      assert NulFree(words) <==> '\0' !in words[0] && NulFree(words[1..]);
    }
  }

  /** A shell reads back exactly the quoted arguments, whatever they contain, unless it is a NUL. */
  lemma ScriptsReadBack(script: Script, words: seq<string>)
    requires |words| == |script.after| && Separated(script.after)
    ensures Arguments(script, Render(script, words)) == if NulFree(words) then Some(words) else None
  {
    TailReadsBack(script.after, words);
    TakesPrefix(script.head, RenderTail(script.after, words));
  }

  lemma NulIn(a: string, b: string)
    ensures '\0' in a + b <==> '\0' in a || '\0' in b
  {
    forall i | 0 <= i < |a| ensures (a + b)[i] == a[i] {}
    forall i | 0 <= i < |b| ensures (a + b)[|a| + i] == b[i] {}
  }

  lemma {:induction false} EscapedKeepsNul(v: string)
    ensures '\0' in Escaped(v) <==> '\0' in v
  {
    if v != "" {
      EscapedKeepsNul(v[1..]);
      NulIn(if v[0] == '\'' then "'\"'\"'" else [v[0]], Escaped(v[1..]));
      NulIn([v[0]], v[1..]);
      assert [v[0]] + v[1..] == v;
    }
  }

  lemma QuoteKeepsNul(v: string)
    ensures '\0' in Quote(v) <==> '\0' in v
  {
    EscapedKeepsNul(v);
    NulIn("'", Escaped(v));
    NulIn("'" + Escaped(v), "'");
  }

  lemma {:induction false} TailKeepsNul(after: seq<string>, words: seq<string>)
    requires |words| == |after| && NulFree(after)
    ensures '\0' in RenderTail(after, words) <==> !NulFree(words)
    decreases |after|
  {
    if after != [] {
      TailKeepsNul(after[1..], words[1..]);
      QuoteKeepsNul(words[0]);
      NulIn(after[0], RenderTail(after[1..], words[1..]));
      NulIn(Quote(words[0]), after[0] + RenderTail(after[1..], words[1..]));
      assert words == [words[0]] + words[1..];
    }
  }

  lemma ScriptKeepsNul(script: Script, words: seq<string>)
    requires |words| == |script.after| && '\0' !in script.head && NulFree(script.after)
    ensures '\0' in Render(script, words) <==> !NulFree(words)
  {
    TailKeepsNul(script.after, words);
    NulIn(script.head, RenderTail(script.after, words));
  }
}
