// Quoting the managed binary's path for the command the bootstrap prints.
module Quoting {
  import opened Basics

  // [A-Za-z0-9_./:-]
  predicate IsPlainChar(c: char) {
    'A' <= c <= 'Z' || 'a' <= c <= 'z' || '0' <= c <= '9' || c in "_./:-"
  }

  // s.replace(/'/g, replacement)
  function ReplaceQuotes(s: string, replacement: string): string {
    if s == [] then [] else (if s[0] == '\'' then replacement else [s[0]]) + ReplaceQuotes(s[1..], replacement)
  }

  function ShellQuote(value: string): string {
    if value == "" then "''"
    else if forall c | c in value :: IsPlainChar(c) then value
    else "'" + ReplaceQuotes(value, "'\\''") + "'"
  }

  function PowershellQuote(value: string): string {
    if value == "" then "''" else "'" + ReplaceQuotes(value, "''") + "'"
  }

  // --- A POSIX shell reading one word ------------------------------------------

  // Characters that mean something to the shell unless quoted (section 2.2 of
  // POSIX.1-2017 XCU).
  predicate IsSpecial(c: char) {
    c in "|&;<>()$`\" \t\n*?[#~=%"
  }

  // The word after quote removal, or None when the text is not one word or
  // relies on an expansion.
  function ReadWord(s: string, quoted: bool): Option<string> {
    if quoted then
      if s == [] then None
      else if s[0] == '\'' then ReadWord(s[1..], false)
      else Prepend(s[0], ReadWord(s[1..], true))
    else
      if s == [] then Some("")
      else if s[0] == '\'' then ReadWord(s[1..], true)
      else if s[0] == '\\' then
        if |s| == 1 then None
        else if s[1] == '\n' then ReadWord(s[2..], false)
        else Prepend(s[1], ReadWord(s[2..], false))
      else if IsSpecial(s[0]) then None
      else Prepend(s[0], ReadWord(s[1..], false))
  }

  function Prepend(c: char, w: Option<string>): Option<string> {
    if w.Some? then Some([c] + w.value) else None
  }

  function ShellWord(s: string): Option<string> {
    if s == "" then None else ReadWord(s, false)
  }

  // '\'' closes the quotes, gives an apostrophe, and opens them again.
  lemma ReadEscapedQuote(rest: string)
    ensures ReadWord("'\\''" + rest, true) == Prepend('\'', ReadWord(rest, true))
  {
    var s := "'\\''" + rest;
    var t := "\\''" + rest;
    var u := "'" + rest;
    assert s[1..] == t && t[2..] == u && u[1..] == rest;
    assert s[0] == '\'' && t[0] == '\\' && t[1] == '\'' && u[0] == '\'';
    calc {
      ReadWord(s, true);
      ReadWord(t, false);
      Prepend('\'', ReadWord(u, false));
      Prepend('\'', ReadWord(rest, true));
    }
  }

  lemma {:induction false} ReadQuoted(v: string)
    ensures ReadWord(ReplaceQuotes(v, "'\\''") + "'", true) == Some(v)
  {
    if v == [] {
      assert "'"[1..] == "";
    } else {
      ReadQuoted(v[1..]);
      var rest := ReplaceQuotes(v[1..], "'\\''") + "'";
      var s := ReplaceQuotes(v, "'\\''") + "'";
      if v[0] == '\'' {
        assert s == "'\\''" + rest;
        ReadEscapedQuote(rest);
      } else {
        assert s == [v[0]] + rest;
        assert s[0] == v[0] && s[1..] == rest;
      }
      assert v == [v[0]] + v[1..];
    }
  }

  lemma ReadPlainChar(c: char, rest: string)
    requires IsPlainChar(c)
    ensures ReadWord([c] + rest, false) == Prepend(c, ReadWord(rest, false))
  {
    var s := [c] + rest;
    assert s[0] == c && s[1..] == rest;
  }

  lemma {:induction false} ReadPlain(v: string)
    requires forall c | c in v :: IsPlainChar(c)
    ensures ReadWord(v, false) == Some(v)
  {
    if v != [] {
      assert v[0] in v && forall c | c in v[1..] :: c in v;
      ReadPlain(v[1..]);
      ReadPlainChar(v[0], v[1..]);
      assert v == [v[0]] + v[1..];
    }
  }

  // Reading the quoted path gives back the path, whatever characters it has.
  lemma ShellQuoteUndone(v: string)
    ensures ShellWord(ShellQuote(v)) == Some(v)
  {
    if v == "" {
      assert "''"[1..] == "'" && "'"[1..] == "";
    } else if forall c | c in v :: IsPlainChar(c) {
      ReadPlain(v);
    } else {
      ReadQuoted(v);
      var s := ShellQuote(v);
      assert s[1..] == ReplaceQuotes(v, "'\\''") + "'";
    }
  }

  // Only a text of plain characters is left as it is.
  lemma PlainIsLeft(v: string)
    ensures ShellQuote(v) == v <==>
            v != "" && forall c | c in v :: 'A' <= c <= 'Z' || 'a' <= c <= 'z' || '0' <= c <= '9' || c in "_./:-"
  {
    if v != "" && exists c :: c in v && !IsPlainChar(c) {
      QuotesGrow(v);
      assert |ShellQuote(v)| > |v|;
    }
  }

  lemma {:induction false} QuotesGrow(v: string)
    ensures |ReplaceQuotes(v, "'\\''")| >= |v|
  {
    if v != [] { QuotesGrow(v[1..]); }
  }

  // --- PowerShell reading a verbatim string --------------------------------------

  // The characters that delimit a verbatim string: the apostrophe alone, or with
  // the four typographic quotes that section 2.3.5.2 of the Windows PowerShell
  // Language Specification 3.0 adds.
  predicate IsTypographicQuote(c: char) {
    '\U{2018}' <= c <= '\U{201B}'
  }

  predicate Delimits(c: char, typographic: bool) {
    c == '\'' || (typographic && IsTypographicQuote(c))
  }

  // What follows the opening quote, read to its end: a doubled quote stands for
  // one, a single one closes the string.
  function ReadVerbatim(s: string, typographic: bool): Option<string> {
    if s == [] then None
    else if Delimits(s[0], typographic) then
      if |s| > 1 && Delimits(s[1], typographic) then Prepend(s[1], ReadVerbatim(s[2..], typographic))
      else if |s| == 1 then Some("")
      else None
    else Prepend(s[0], ReadVerbatim(s[1..], typographic))
  }

  function PowershellString(s: string, typographic: bool): Option<string> {
    if s == "" || !Delimits(s[0], typographic) then None else ReadVerbatim(s[1..], typographic)
  }

  lemma ReadPair(rest: string, typographic: bool)
    ensures ReadVerbatim("''" + rest, typographic) == Prepend('\'', ReadVerbatim(rest, typographic))
  {
    var s := "''" + rest;
    assert s[2..] == rest && s[0] == '\'' && s[1] == '\'';
  }

  lemma ReadOther(c: char, rest: string, typographic: bool)
    requires !Delimits(c, typographic)
    ensures ReadVerbatim([c] + rest, typographic) == Prepend(c, ReadVerbatim(rest, typographic))
  {
    var s := [c] + rest;
    assert s[1..] == rest && s[0] == c;
  }

  lemma {:induction false} ReadDoubled(v: string, typographic: bool)
    requires typographic ==> forall c | c in v :: !IsTypographicQuote(c)
    ensures ReadVerbatim(ReplaceQuotes(v, "''") + "'", typographic) == Some(v)
  {
    if v != [] {
      assert v[0] in v && forall c | c in v[1..] :: c in v;
      ReadDoubled(v[1..], typographic);
      var rest := ReplaceQuotes(v[1..], "''") + "'";
      if v[0] == '\'' {
        assert ReplaceQuotes(v, "''") + "'" == "''" + rest;
        ReadPair(rest, typographic);
      } else {
        assert ReplaceQuotes(v, "''") + "'" == [v[0]] + rest;
        ReadOther(v[0], rest, typographic);
      }
      assert v == [v[0]] + v[1..];
    }
  }

  function CountDelimiters(s: string, typographic: bool): nat {
    if s == [] then 0 else (if Delimits(s[0], typographic) then 1 else 0) + CountDelimiters(s[1..], typographic)
  }

  // Each character read back took one character, or two quotes.
  lemma {:induction false} PairsAreCounted(s: string, typographic: bool)
    requires ReadVerbatim(s, typographic).Some?
    ensures CountDelimiters(s, typographic) == 2 * (|s| - |ReadVerbatim(s, typographic).value|) - 1
  {
    if Delimits(s[0], typographic) {
      if |s| > 1 {
        PairsAreCounted(s[2..], typographic);
        assert s[1..][1..] == s[2..];
      }
    } else {
      PairsAreCounted(s[1..], typographic);
    }
  }

  lemma {:induction false} QuotedDelimiters(v: string)
    ensures CountDelimiters(ReplaceQuotes(v, "''") + "'", true) ==
            2 * (|ReplaceQuotes(v, "''")| - |v|) + 1 + CountDelimiters(v, true) - CountDelimiters(v, false)
  {
    var s := ReplaceQuotes(v, "''") + "'";
    if v == [] {
      assert s[1..] == [];
    } else {
      QuotedDelimiters(v[1..]);
      var rest := ReplaceQuotes(v[1..], "''") + "'";
      if v[0] == '\'' {
        assert s == "''" + rest;
        assert s[1..] == "'" + rest && s[1..][1..] == rest;
      } else {
        assert s == [v[0]] + rest;
        assert s[1..] == rest;
      }
    }
  }

  lemma {:induction false} TypographicCounted(v: string)
    ensures CountDelimiters(v, true) >= CountDelimiters(v, false)
    ensures (exists c :: c in v && IsTypographicQuote(c)) ==> CountDelimiters(v, true) > CountDelimiters(v, false)
  {
    if v != [] {
      TypographicCounted(v[1..]);
      assert v == [v[0]] + v[1..];
    }
  }

  // With the apostrophe as the only quote the path comes back whatever it is;
  // with the typographic quotes it comes back exactly when it has none of them.
  lemma PowershellQuoteUndone(v: string, typographic: bool)
    ensures PowershellString(PowershellQuote(v), typographic) == Some(v) <==>
            (typographic ==> forall c | c in v :: !IsTypographicQuote(c))
  {
    var s := PowershellQuote(v);
    var inner := ReplaceQuotes(v, "''") + "'";
    assert s[1..] == inner;
    if typographic && exists c :: c in v && IsTypographicQuote(c) {
      TypographicCounted(v);
      QuotedDelimiters(v);
      if ReadVerbatim(inner, true) == Some(v) {
        PairsAreCounted(inner, true);
        assert false;
      }
    } else {
      ReadDoubled(v, typographic);
    }
  }

  // A typographic apostrophe in a directory name ends the string early.
  lemma TypographicApostropheIsLost()
    ensures PowershellString(PowershellQuote("Ann\U{2019}s"), true) != Some("Ann\U{2019}s")
  {
    var v := "Ann\U{2019}s";
    assert v[3] in v && IsTypographicQuote(v[3]);
    PowershellQuoteUndone(v, true);
  }
}
