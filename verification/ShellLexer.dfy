// Token recognition and quoting of the POSIX Shell Command Language for one simple command:
// sections 2.2.1 (backslash), 2.2.2 (single quotes), 2.2.3 (double quotes) and 2.3 (token
// recognition) of POSIX.1-2017. Anything that would be more than plain words, such as an
// operator, an expansion, a pattern or a second line, is rejected.
module ShellLexer {
  import opened Options

  // Characters that quoting, blanks, operators, expansions, patterns or comments use.
  predicate Special(c: char) {
    c == '|' || c == '&' || c == ';' || c == '<' || c == '>' || c == '(' || c == ')' || c == '$' || c == '`' ||
    c == '\\' || c == '"' || c == '\'' || c == ' ' || c == '\t' || c == '\n' || c == '*' || c == '?' || c == '[' ||
    c == '#' || c == '~' || c == '%' || c == '{' || c == '}' || c == '!'
  }

  // Every character stands for itself outside quotes.
  predicate PlainText(s: string) {
    forall i :: 0 <= i < |s| ==> !Special(s[i])
  }

  function Text(cur: Option<string>): string {
    if cur.Some? then cur.value else ""
  }

  // The position of the closing single quote.
  function CloseQuote(s: string, i: nat): (p: Option<nat>)
    ensures p.Some? ==> i <= p.value < |s| && s[p.value] == '\'' && forall j :: i <= j < p.value ==> s[j] != '\''
    decreases |s| - i
  {
    if i >= |s| then None else if s[i] == '\'' then Some(i) else CloseQuote(s, i + 1)
  }

  // The text inside double quotes from position i on, and the position after the closing one.
  function DoubleQuoted(s: string, i: nat): (r: Option<(string, nat)>)
    ensures r.Some? ==> i < r.value.1 <= |s|
    decreases |s| - i
  {
    if i >= |s| || s[i] == '$' || s[i] == '`' then None
    else if s[i] == '"' then Some(("", i + 1))
    else if s[i] == '\\' && i + 1 < |s| && s[i + 1] == '\n' then DoubleQuoted(s, i + 2)
    else if s[i] == '\\' && i + 1 < |s| && s[i + 1] in "$`\"\\" then
      (match DoubleQuoted(s, i + 2) case Some(r) => Some(([s[i + 1]] + r.0, r.1)) case None => None)
    else
      match DoubleQuoted(s, i + 1) case Some(r) => Some(([s[i]] + r.0, r.1)) case None => None
  }

  // The words of the command line s, given the part of a word already read.
  function Lex(s: string, cur: Option<string>): Option<seq<string>>
    decreases |s|
  {
    if s == "" then Some(if cur.Some? then [cur.value] else [])
    else if s[0] == '\\' then
      if |s| == 1 then None
      else if s[1] == '\n' then Lex(s[2..], cur)
      else Lex(s[2..], Some(Text(cur) + [s[1]]))
    else if s[0] == '\'' then
      var p := CloseQuote(s, 1);
      if p.None? then None else Lex(s[p.value + 1..], Some(Text(cur) + s[1..p.value]))
    else if s[0] == '"' then
      var d := DoubleQuoted(s, 1);
      if d.None? then None else Lex(s[d.value.1..], Some(Text(cur) + d.value.0))
    else if s[0] == ' ' || s[0] == '\t' then
      var rest := Lex(s[1..], None);
      if rest.None? then None else Some((if cur.Some? then [cur.value] else []) + rest.value)
    else if !Special(s[0]) then Lex(s[1..], Some(Text(cur) + [s[0]]))
    else None
  }

  lemma {:induction false} LexPlain(s: string, t: string, cur: Option<string>)
    requires PlainText(s) && (s != "" || cur.Some?)
    ensures Lex(s + t, cur) == Lex(t, Some(Text(cur) + s))
  {
    if s == "" {
      assert s + t == t && Text(cur) + s == cur.value;
    } else {
      assert (s + t)[1..] == s[1..] + t;
      LexPlain(s[1..], t, Some(Text(cur) + [s[0]]));
      assert Text(cur) + [s[0]] + s[1..] == Text(cur) + s;
    }
  }

  // A blank, an escaped line break and two more blanks only end the word.
  lemma LexContinuation(t: string, w: string)
    ensures Lex(" \\\n  " + t, Some(w)) ==
            if Lex(t, None).None? then None else Some([w] + Lex(t, None).value)
  {
    var s := " \\\n  " + t;
    assert s[1..] == "\\\n  " + t;
    assert s[1..][2..] == "  " + t;
    assert ("  " + t)[1..] == " " + t && (" " + t)[1..] == t;
    LexBlankFirst(t);
    LexBlankFirst(" " + t);
    assert " " + (" " + t) == "  " + t;
    assert Lex(s[1..], None) == Lex("  " + t, None);
  }

  lemma LexBlankFirst(t: string)
    ensures Lex(" " + t, None) == Lex(t, None)
  {
    assert (" " + t)[1..] == t;
    var rest := Lex(t, None);
    assert rest.Some? ==> [] + rest.value == rest.value;
  }

  lemma LexBlank(t: string, w: string)
    ensures Lex(" " + t, Some(w)) == if Lex(t, None).None? then None else Some([w] + Lex(t, None).value)
  {
    assert (" " + t)[1..] == t;
  }
}
