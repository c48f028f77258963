/** Quoting for RouterOS (services/onboarding_service.py): values are escaped by three ordered
  replacements, and commands holding quoted values are quoted again for `:parse`.

  The reader is the part of RouterOS's string syntax the quoting relies on: a backslash before a
  backslash, a double quote or a dollar sign stands for that character, an unescaped double quote
  ends the string, and an unescaped dollar sign is a substitution, which is not a literal. */
module RosQuoting {
  import opened Text
  import OnboardingModel

  // ------------------------------------------------------------------ the printer

  /** `_ros_quote`. */
  function RosQuote(value: string): string {
    ReplaceChar(ReplaceChar(ReplaceChar(value, '\\', "\\\\"), '"', "\\\""), '$', "\\$")
  }

  predicate Special(c: char) { c == '\\' || c == '"' || c == '$' }

  /** Every special character behind a backslash, in one pass. */
  function Escaped(value: string): string {
    if value == "" then "" else (if Special(value[0]) then ['\\', value[0]] else [value[0]]) + Escaped(value[1..])
  }

  lemma ReplaceTwo(c: char, d: char, r: string, target: char)
    ensures ReplaceChar([c, d], target, r) == ReplaceChar([c], target, r) + ReplaceChar([d], target, r)
  {
    assert [c, d] == [c] + [d];
    ReplaceConcat([c], [d], target, r);
  }

  /** The three replacements on one character. */
  lemma QuoteOne(c: char)
    ensures RosQuote([c]) == if Special(c) then ['\\', c] else [c]
  {
    ReplaceOne(c, '\\', "\\\\");
    var first := ReplaceChar([c], '\\', "\\\\");
    if c == '\\' {
      assert first == ['\\', '\\'];
      ReplaceTwo('\\', '\\', "\\\"", '"');
      ReplaceOne('\\', '"', "\\\"");
      assert ReplaceChar(first, '"', "\\\"") == first;
      ReplaceTwo('\\', '\\', "\\$", '$');
      ReplaceOne('\\', '$', "\\$");
    } else {
      ReplaceOne(c, '"', "\\\"");
      if c == '"' {
        assert ReplaceChar(first, '"', "\\\"") == ['\\', '"'];
        ReplaceTwo('\\', '"', "\\$", '$');
        ReplaceOne('\\', '$', "\\$");
        ReplaceOne('"', '$', "\\$");
      } else {
        ReplaceOne(c, '$', "\\$");
      }
    }
  }

  lemma QuoteConcat(a: string, b: string)
    ensures RosQuote(a + b) == RosQuote(a) + RosQuote(b)
  {
    ReplaceConcat(a, b, '\\', "\\\\");
    var a1, b1 := ReplaceChar(a, '\\', "\\\\"), ReplaceChar(b, '\\', "\\\\");
    ReplaceConcat(a1, b1, '"', "\\\"");
    ReplaceConcat(ReplaceChar(a1, '"', "\\\""), ReplaceChar(b1, '"', "\\\""), '$', "\\$");
  }

  /** No replacement sees a character an earlier one has put in. */
  lemma {:induction false} QuoteIsOnePass(value: string)
    ensures RosQuote(value) == Escaped(value)
  {
    if value != "" {
      assert value == [value[0]] + value[1..];
      QuoteConcat([value[0]], value[1..]);
      QuoteOne(value[0]);
      QuoteIsOnePass(value[1..]);
    }
  }

  // ------------------------------------------------------------------ the reader

  datatype Literal = Literal(value: string, rest: string)

  /** Reads up to the closing quote; None when the text is not a literal of this form. */
  function ReadString(s: string): Option<Literal> {
    if s == "" then None
    else if s[0] == '"' then Some(Literal("", s[1..]))
    else if s[0] == '$' then None
    else if s[0] == '\\' then
      if |s| == 1 || !Special(s[1]) then None
      else match ReadString(s[2..]) case Some(l) => Some(Literal([s[1]] + l.value, l.rest)) case None => None
    else match ReadString(s[1..]) case Some(l) => Some(Literal([s[0]] + l.value, l.rest)) case None => None
  }

  /** A string literal at the start of the text. */
  function ReadLiteral(s: string): Option<Literal> {
    if s != "" && s[0] == '"' then ReadString(s[1..]) else None
  }

  function Quoted(value: string): string { "\"" + RosQuote(value) + "\"" }

  /** The literal of `tail` with one more character in front. */
  function Ahead(c: char, tail: Option<Literal>): Option<Literal> {
    match tail case Some(l) => Some(Literal([c] + l.value, l.rest)) case None => None
  }

  lemma ReadSpecial(c: char, tail: string)
    requires Special(c)
    ensures ReadString(['\\', c] + tail) == Ahead(c, ReadString(tail))
  {
    assert (['\\', c] + tail)[2..] == tail;
  }

  lemma ReadOrdinary(c: char, tail: string)
    requires !Special(c)
    ensures ReadString([c] + tail) == Ahead(c, ReadString(tail))
  {
    assert ([c] + tail)[1..] == tail;
  }

  lemma {:induction false} ReadsEscaped(value: string, rest: string)
    ensures ReadString(Escaped(value) + "\"" + rest) == Some(Literal(value, rest))
  {
    if value == "" {
      assert Escaped(value) + "\"" + rest == "\"" + rest && ("\"" + rest)[1..] == rest;
    } else {
      var c, tail := value[0], Escaped(value[1..]) + "\"" + rest;
      ReadsEscaped(value[1..], rest);
      assert value == [c] + value[1..];
      assert Escaped(value) == (if Special(c) then ['\\', c] else [c]) + Escaped(value[1..]);
      hide ReadString, Escaped, Special;
      assert Escaped(value) + "\"" + rest == (if Special(c) then ['\\', c] else [c]) + tail;
      if Special(c) {
        ReadSpecial(c, tail);
      } else {
        ReadOrdinary(c, tail);
      }
    }
  }

  /** The reader consumes exactly the quoted literal, whatever follows it, and returns the value. */
  lemma QuotedReadsBack(value: string, rest: string)
    ensures ReadLiteral(Quoted(value) + rest) == Some(Literal(value, rest))
  {
    QuoteIsOnePass(value);
    ReadsEscaped(value, rest);
    assert (Quoted(value) + rest)[1..] == Escaped(value) + "\"" + rest;
  }

  /** Two values never print the same. */
  lemma QuoteIsInjective(a: string, b: string)
    requires RosQuote(a) == RosQuote(b)
    ensures a == b
  {
    QuotedReadsBack(a, "");
    QuotedReadsBack(b, "");
  }

  /** Unquoted text inside a literal reads back as itself exactly when it has no special character. */
  predicate Plain(s: string) { forall c | c in s :: !Special(c) }

  lemma {:induction false} PlainReadsBack(s: string, rest: string)
    ensures ReadString(s + "\"" + rest) == Some(Literal(s, rest)) <==> Plain(s)
  {
    var all := s + "\"" + rest;
    if s == "" {
      assert all[0] == '"' && all[1..] == rest;
    } else {
      var c := s[0];
      assert all[0] == c && all[1..] == s[1..] + "\"" + rest;
      assert Plain(s) <==> !Special(c) && Plain(s[1..]);
      PlainReadsBack(s[1..], rest);
      assert s == [c] + s[1..];
      if c == '\\' {
        ReadShortens(all[1..]);
        assert |all| >= 2;
        ReadShortens(all[2..]);
      } else if c == '"' {
        assert |rest| < |all[1..]|;
      }
    }
  }

  /** What was read and what is left are shorter than the text by the closing quote at least. */
  lemma {:induction false} ReadShortens(s: string)
    ensures ReadString(s).Some? ==> |ReadString(s).value.value| + |ReadString(s).value.rest| < |s|
  {
    if s != "" && s[0] != '"' && s[0] != '$' {
      if s[0] != '\\' {
        ReadShortens(s[1..]);
      } else if |s| > 1 {
        ReadShortens(s[2..]);
      }
    }
  }

  // ------------------------------------------------------------------ quoting again

  function Nested(value: string, levels: nat): string {
    if levels == 0 then value else Quoted(Nested(value, levels - 1))
  }

  /** Reads a literal, then reads what it held, and so on; None when a level is not one literal. */
  function Peel(s: string, levels: nat): Option<string>
    decreases levels
  {
    if levels == 0 then Some(s)
    else match ReadLiteral(s)
         case Some(l) => if l.rest == "" then Peel(l.value, levels - 1) else None
         case None => None
  }

  lemma {:induction false} NestedPeels(value: string, levels: nat)
    ensures Peel(Nested(value, levels), levels) == Some(value)
  {
    if levels > 0 {
      QuotedReadsBack(Nested(value, levels - 1), "");
      assert Quoted(Nested(value, levels - 1)) + "" == Quoted(Nested(value, levels - 1));
      NestedPeels(value, levels - 1);
    }
  }

  /** A quoted value in the middle of a text. */
  lemma LiteralAt(prefix: string, value: string, rest: string)
    ensures ReadLiteral((prefix + Quoted(value) + rest)[|prefix|..]) == Some(Literal(value, rest))
  {
    hide Quoted;
    assert (prefix + Quoted(value) + rest)[|prefix|..] == Quoted(value) + rest;
    QuotedReadsBack(value, rest);
  }

  /** Bare text between quotes in the middle of a text. */
  lemma BareLiteralAt(prefix: string, s: string, rest: string)
    ensures ReadLiteral((prefix + "\"" + s + "\"" + rest)[|prefix|..]) == Some(Literal(s, rest)) <==> Plain(s)
  {
    hide ReadString;
    var at := (prefix + "\"" + s + "\"" + rest)[|prefix|..];
    assert at[0] == '"' && at[1..] == s + "\"" + rest;
    PlainReadsBack(s, rest);
  }

  lemma PlainConcat(a: string, b: string)
    ensures Plain(a + b) <==> Plain(a) && Plain(b)
  {
    if Plain(a + b) {
      assert forall c | c in a :: c in a + b;
      assert forall c | c in b :: c in a + b;
    }
  }

  // ------------------------------------------------------------------ commands

  /** `_fetch_compatible`. */
  function FetchCompatible(command: string, arguments: string, variable: string): string {
    FetchHead(variable) + Quoted(command) + FetchTail(arguments, variable)
  }

  function FetchHead(variable: string): string { ":local " + variable + " [:parse " }

  function FetchTail(arguments: string, variable: string): string { "]; $" + variable + arguments }

  /** `:parse` is given exactly the command, and the text goes on after its closing quote. */
  lemma FetchParsesTheCommand(command: string, arguments: string, variable: string)
    ensures |FetchHead(variable)| <= |FetchCompatible(command, arguments, variable)|
    ensures ReadLiteral(FetchCompatible(command, arguments, variable)[|FetchHead(variable)|..])
            == Some(Literal(command, FetchTail(arguments, variable)))
  {
    hide FetchHead, FetchTail;
    LiteralAt(FetchHead(variable), command, FetchTail(arguments, variable));
  }

  function UrlHead(): string { "/tool fetch url=" }

  function HeaderHead(): string { " http-header-field=" }

  function HeaderName(): string { "X-Onboarding-Token: " }

  function HeaderTail(): string { " check-certificate=yes dst-path=$path" }

  function HeaderPart(token: string): string { HeaderHead() + "\"" + (HeaderName() + token) + "\"" + HeaderTail() }

  /** The command the installer parses: the URL quoted inside it, the token bare. */
  function DownloadCommand(url: string, token: string): string { UrlHead() + Quoted(url) + HeaderPart(token) }

  function NameHead(): string { "{:local p " }

  function CommandHead(): string { ";:do {/file remove [/file find where name=$p]} on-error={};:local c " }

  function CommandTail(): string {
    ";:local f [:parse $c];:local e false;"
    + ":do {$f path=$p} on-error={:set e true};"
    + ":if ($e) do={:error \"Download failed; check connection, clock and CA trust\"};"
    + ":do {/import file-name=$p} on-error={:set e true};"
    + ":if ($e) do={:error \"Setup failed; downloaded RSC was kept for retry\"};"
    + ":do {/file remove [/file find where name=$p]} on-error={}}"
  }

  function CommandPart(url: string, token: string): string {
    CommandHead() + Quoted(DownloadCommand(url, token)) + CommandTail()
  }

  function FileName(uid: string): string { "uzanet-" + uid + ".rsc" }

  /** `_install_command`. */
  function InstallCommand(uid: string, url: string, token: string): string {
    NameHead() + Quoted(FileName(uid)) + CommandPart(url, token)
  }

  /** The two literals of the line say the file name and the download command, whatever the URL
    holds. */
  lemma InstallCommandReadsBack(uid: string, url: string, token: string)
    ensures |NameHead()| <= |InstallCommand(uid, url, token)| && |CommandHead()| <= |CommandPart(url, token)|
    ensures ReadLiteral(InstallCommand(uid, url, token)[|NameHead()|..])
            == Some(Literal(FileName(uid), CommandPart(url, token)))
    ensures ReadLiteral(CommandPart(url, token)[|CommandHead()|..])
            == Some(Literal(DownloadCommand(url, token), CommandTail()))
  {
    hide NameHead, CommandHead, CommandTail, FileName, DownloadCommand, Quoted, ReadLiteral;
    assert ReadLiteral(CommandPart(url, token)[|CommandHead()|..])
           == Some(Literal(DownloadCommand(url, token), CommandTail())) by {
      LiteralAt(CommandHead(), DownloadCommand(url, token), CommandTail());
    }
    hide CommandPart;
    LiteralAt(NameHead(), FileName(uid), CommandPart(url, token));
  }

  /** One level deeper, inside the parsed command, the URL reads back whatever it holds; the token,
    which is bare, reads back exactly when it has no special character. */
  lemma DownloadCommandReadsBack(url: string, token: string)
    ensures |UrlHead()| <= |DownloadCommand(url, token)| && |HeaderHead()| <= |HeaderPart(token)|
    ensures ReadLiteral(DownloadCommand(url, token)[|UrlHead()|..]) == Some(Literal(url, HeaderPart(token)))
    ensures Plain(token) <==>
              ReadLiteral(HeaderPart(token)[|HeaderHead()|..]) == Some(Literal(HeaderName() + token, HeaderTail()))
  {
    assert Plain(HeaderName());
    hide UrlHead, HeaderHead, HeaderName, HeaderTail, Quoted, ReadLiteral, Plain;
    PlainConcat(HeaderName(), token);
    BareLiteralAt(HeaderHead(), HeaderName() + token, HeaderTail());
    hide HeaderPart;
    LiteralAt(UrlHead(), url, HeaderPart(token));
  }

  /** So the token of every script that can be downloaded reads back: the download's own pattern
    has no special character. */
  lemma AcceptedTokenReadsBack(url: string, token: string)
    requires OnboardingModel.TokenFormat(token)
    ensures |HeaderHead()| <= |HeaderPart(token)|
    ensures ReadLiteral(HeaderPart(token)[|HeaderHead()|..])
            == Some(Literal("X-Onboarding-Token: " + token, HeaderTail()))
  {
    assert Plain(token);
    hide HeaderPart, HeaderHead, HeaderName, HeaderTail, ReadLiteral, Plain;
    DownloadCommandReadsBack(url, token);
  }
}
