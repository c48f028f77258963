/** `shlex.split(line, comments=True)`: Python's POSIX tokeniser, on one line of text, and the
  quoting printer of vpn_agent/agent.py that it has to undo. */
module Shlex {
  import opened Text

  datatype Mode =
    | Blank                       // between words
    | Word                        // inside a word
    | InQuote(quote: char)        // after an opening quote
    | EscapedInWord               // after a backslash outside quotes
    | EscapedInQuote              // after a backslash inside double quotes

  predicate IsBlank(c: char) { c == ' ' || c == '\t' || c == '\r' || c == '\n' }

  predicate IsQuote(c: char) { c == '"' || c == '\'' }

  /** The words of `s`, when the reader is in `mode` with `token` read so far; `quoted` says the
    word held a quote, so that it counts even when empty. None is the reader's ValueError. */
  function Scan(s: string, mode: Mode, token: string, quoted: bool): Option<seq<string>>
    decreases |s|
  {
    if s == "" then
      match mode
      case Blank => Some([])
      case Word => Some(Emitted(token, quoted))
      case _ => None
    else
      var c, rest := s[0], s[1..];
      match mode
      case Blank =>
        if IsBlank(c) then Scan(rest, Blank, "", false)
        else if c == '#' then Some([])
        else if c == '\\' then Scan(rest, EscapedInWord, "", false)
        else if IsQuote(c) then Scan(rest, InQuote(c), "", false)
        else Scan(rest, Word, [c], false)
      case Word =>
        if IsBlank(c) then Prepend(Emitted(token, quoted), Scan(rest, Blank, "", false))
        else if c == '#' then Some(Emitted(token, quoted))
        else if IsQuote(c) then Scan(rest, InQuote(c), token, quoted)
        else if c == '\\' then Scan(rest, EscapedInWord, token, quoted)
        else Scan(rest, Word, token + [c], quoted)
      case InQuote(q) =>
        if c == q then Scan(rest, Word, token, true)
        else if c == '\\' && q == '"' then Scan(rest, EscapedInQuote, token, true)
        else Scan(rest, InQuote(q), token + [c], true)
      case EscapedInWord => Scan(rest, Word, token + [c], quoted)
      case EscapedInQuote =>
        Scan(rest, InQuote('"'), if c == '\\' || c == '"' then token + [c] else token + ['\\', c], quoted)
  }

  function Emitted(token: string, quoted: bool): seq<string> {
    if token != "" || quoted then [token] else []
  }

  function Prepend(first: seq<string>, more: Option<seq<string>>): Option<seq<string>> {
    if more.Some? then Some(first + more.value) else None
  }

  function Split(line: string): Option<seq<string>> { Scan(line, Blank, "", false) }

  /** `_tokens`: a line that does not parse has no tokens. */
  function Tokens(line: string): seq<string> {
    match Split(line) case Some(tokens) => tokens case None => []
  }

  // ------------------------------------------------------------------ the printer

  /** The two replacements of `_quote`, in their order. */
  function Escape(value: string): string {
    ReplaceChar(ReplaceChar(value, '\\', "\\\\"), '"', "\\\"")
  }

  function Quote(value: string): string { "\"" + Escape(value) + "\"" }

  /** What one character becomes. */
  function EscapeChar(c: char): string {
    if c == '\\' then "\\\\" else if c == '"' then "\\\"" else [c]
  }

  lemma EscapeHead(value: string)
    requires value != ""
    ensures Escape(value) == EscapeChar(value[0]) + Escape(value[1..])
  {
    var c := value[0];
    var once := ReplaceChar([c], '\\', "\\\\");
    ReplaceOne(c, '\\', "\\\\");
    assert ReplaceChar(value, '\\', "\\\\") == once + ReplaceChar(value[1..], '\\', "\\\\");
    ReplaceConcat(once, ReplaceChar(value[1..], '\\', "\\\\"), '"', "\\\"");
    if c == '\\' {
      assert once == ['\\'] + ['\\'];
      ReplaceConcat(['\\'], ['\\'], '"', "\\\"");
      ReplaceOne('\\', '"', "\\\"");
    } else {
      ReplaceOne(c, '"', "\\\"");
    }
  }

  /** Inside double quotes the reader gives back exactly what was escaped. */
  lemma {:induction false} ReadEscaped(value: string, token: string, quoted: bool, rest: string)
    ensures Scan(Escape(value) + "\"" + rest, InQuote('"'), token, quoted) == Scan(rest, Word, token + value, true)
    decreases |value|
  {
    var s := Escape(value) + "\"" + rest;
    if value == "" {
      assert s == ['"'] + rest && s[1..] == rest && token + value == token;
    } else {
      var c, tail := value[0], Escape(value[1..]) + "\"" + rest;
      EscapeHead(value);
      assert s == EscapeChar(c) + tail;
      assert token + value == token + [c] + value[1..];
      ReadEscaped(value[1..], token + [c], true, rest);
      if c == '\\' || c == '"' {
        assert s[0] == '\\' && s[1..] == [c] + tail && s[1..][1..] == tail;
        assert Scan(s, InQuote('"'), token, quoted) == Scan(s[1..], EscapedInQuote, token, true);
      } else {
        assert s[1..] == tail;
      }
    }
  }

  /** A quoted value at the start of a line is read as one word, whatever it holds. */
  lemma ReadQuoted(value: string, rest: string)
    ensures Scan(Quote(value) + rest, Blank, "", false) == Scan(rest, Word, value, true)
  {
    var s := Quote(value) + rest;
    assert s[0] == '"' && s[1..] == Escape(value) + "\"" + rest;
    ReadEscaped(value, "", false, rest);
    assert "" + value == value;
  }

  lemma ReadQuotedThenBlank(value: string, rest: string)
    ensures Split(Quote(value) + " " + rest) == Prepend([value], Split(rest))
  {
    assert Quote(value) + " " + rest == Quote(value) + (" " + rest);
    ReadQuoted(value, " " + rest);
    assert (" " + rest)[1..] == rest;
  }

  // ------------------------------------------------------------------ bare words

  predicate IsPlain(c: char) { !IsBlank(c) && !IsQuote(c) && c != '\\' && c != '#' }

  predicate Plain(s: string) { forall c | c in s :: IsPlain(c) }

  predicate BareWord(s: string) { s != "" && Plain(s) }

  lemma {:induction false} ReadPlain(s: string, token: string)
    requires Plain(s) && token != ""
    ensures Scan(s, Word, token, false) == Some([token + s])
    decreases |s|
  {
    if s == "" {
      assert token + s == token;
    } else {
      assert Plain(s[1..]) && IsPlain(s[0]);
      ReadPlain(s[1..], token + [s[0]]);
      assert token + [s[0]] + s[1..] == token + s;
    }
  }

  /** The longest word the reader can still make. A quote, a backslash or a blank costs a character. */
  lemma {:induction false} FirstWordShort(s: string, mode: Mode, token: string, quoted: bool)
    requires mode.Word? ==> token != "" || quoted
    requires Scan(s, mode, token, quoted).Some? && Scan(s, mode, token, quoted).value != []
    ensures
      var first := Scan(s, mode, token, quoted).value[0];
      && (mode.Blank? ==> |first| <= |s| && (|first| == |s| ==> Plain(s)))
      && (mode.Word? ==> |first| <= |token| + |s| && (|first| == |token| + |s| ==> Plain(s)))
      && (mode.InQuote? ==> |first| < |token| + |s|)
      && (mode.EscapedInWord? || mode.EscapedInQuote? ==> |first| <= |token| + |s|)
    decreases |s|
  {
    if s != "" {
      var c, rest := s[0], s[1..];
      match mode
      case Blank =>
        if IsBlank(c) {
          FirstWordShort(rest, Blank, "", false);
        } else if c == '\\' {
          FirstWordShort(rest, EscapedInWord, "", false);
        } else if IsQuote(c) {
          FirstWordShort(rest, InQuote(c), "", false);
        } else if c != '#' {
          FirstWordShort(rest, Word, [c], false);
        }
      case Word =>
        if IsBlank(c) || c == '#' {
        } else if IsQuote(c) {
          FirstWordShort(rest, InQuote(c), token, quoted);
        } else if c == '\\' {
          FirstWordShort(rest, EscapedInWord, token, quoted);
        } else {
          FirstWordShort(rest, Word, token + [c], quoted);
        }
      case InQuote(q) =>
        if c == q {
          FirstWordShort(rest, Word, token, true);
        } else if c == '\\' && q == '"' {
          FirstWordShort(rest, EscapedInQuote, token, true);
        } else {
          FirstWordShort(rest, InQuote(q), token + [c], true);
        }
      case EscapedInWord => FirstWordShort(rest, Word, token + [c], quoted);
      case EscapedInQuote =>
        FirstWordShort(rest, InQuote('"'), if c == '\\' || c == '"' then token + [c] else token + ['\\', c], quoted);
    }
  }

  /** Text written without quotes reads back as itself exactly when it is a bare word. */
  lemma BareWordExactly(s: string)
    ensures (Tokens(s) != [] && Tokens(s)[0] == s) <==> BareWord(s)
    ensures BareWord(s) ==> Tokens(s) == [s]
  {
    if BareWord(s) {
      assert IsPlain(s[0]) && Plain(s[1..]);
      ReadPlain(s[1..], [s[0]]);
      assert [s[0]] + s[1..] == s;
    }
    if Tokens(s) != [] && Tokens(s)[0] == s {
      FirstWordShort(s, Blank, "", false);
    }
  }
}
