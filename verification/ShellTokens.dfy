/**
 How a POSIX shell splits a command line into words and removes their quoting:
 sections 2.2.1, 2.2.2, 2.2.3 and 2.3 of the Shell Command Language (POSIX.1-2017,
 XCU chapter 2). Text whose meaning goes beyond that (expansions, operators,
 comments, patterns, newlines, an unfinished quote, a NUL) is rejected.
 */
module ShellTokens {
  import opened Options

  type Word = string

  function SoFar(word: Option<Word>): Word {
    if word.Some? then word.value else ""
  }

  predicate Blank(c: char) {
    c == ' ' || c == '\t'
  }

  /** Characters an unquoted occurrence of which is more than itself: operators
      and newline (2.3), expansions (2.2, 2.6), and the NUL no argument can hold. */
  predicate Special(c: char) {
    c in "|&;<>()\n$`*?[~" || c == '\0'
  }

  function Finish(word: Option<Word>, rest: Option<seq<Word>>): Option<seq<Word>> {
    if rest.None? then None else if word.Some? then Some([word.value] + rest.value) else rest
  }

  /** The words of the rest of a line, `word` being the one under way. */
  function Unquoted(s: string, word: Option<Word>): Option<seq<Word>>
    decreases |s|
  {
    if s == "" then Finish(word, Some([]))
    else if Blank(s[0]) then Finish(word, Unquoted(s[1..], None))
    else if s[0] == '\'' then InSingle(s[1..], SoFar(word))
    else if s[0] == '"' then InDouble(s[1..], SoFar(word))
    else if s[0] == '\\' then
      if |s| == 1 || s[1] == '\0' then None
      else if s[1] == '\n' then Unquoted(s[2..], word)
      else Unquoted(s[2..], Some(SoFar(word) + [s[1]]))
    else if Special(s[0]) || (s[0] == '#' && word.None?) then None
    else Unquoted(s[1..], Some(SoFar(word) + [s[0]]))
  }

  /** Inside single quotes everything up to the next one is literal (2.2.2). */
  function InSingle(s: string, word: Word): Option<seq<Word>>
    decreases |s|
  {
    if s == "" || s[0] == '\0' then None
    else if s[0] == '\'' then Unquoted(s[1..], Some(word))
    else InSingle(s[1..], word + [s[0]])
  }

  function InDouble(s: string, word: Word): Option<seq<Word>>
    decreases |s|
  {
    if s == "" || s[0] in "$`" || s[0] == '\0' then None
    else if s[0] == '"' then Unquoted(s[1..], Some(word))
    else if s[0] == '\\' && |s| > 1 && s[1] == '\n' then InDouble(s[2..], word)
    else if s[0] == '\\' && |s| > 1 && s[1] in "$`\"\\" then InDouble(s[2..], word + [s[1]])
    else InDouble(s[1..], word + [s[0]])
  }

  function Tokenize(s: string): Option<seq<Word>> {
    Unquoted(s, None)
  }

  /** A NUL anywhere is never part of a word. */
  lemma {:induction false} NulIsRejected(s: string)
    requires '\0' in s
    ensures forall word :: Unquoted(s, word) == None
    ensures forall word :: InSingle(s, word) == None
    ensures forall word :: InDouble(s, word) == None
    decreases |s|
  {
    if s[0] != '\0' {
      assert s == [s[0]] + s[1..];
      NulIsRejected(s[1..]);
      if |s| > 1 && s[1] != '\0' {
        assert s == [s[0], s[1]] + s[2..];
        NulIsRejected(s[2..]);
      }
    }
  }
}
