/** Every way a POSIX shell writes a word is read as that word: bare, in quotes of either kind, behind
  a backslash, and joined from such pieces; and a hash ends the line. */
module ShlexWords {
  import opened Text
  import opened Shlex

  datatype Piece =
    | Bare(text: string)
    | Single(text: string)
    | Double(text: string)
    | Backslashed(c: char)

  /** A piece that can be written: bare text is not empty and has no special character, and a single
    quote cannot stand in single quotes. */
  predicate Writable(p: Piece) {
    match p
    case Bare(text) => BareWord(text)
    case Single(text) => '\'' !in text
    case Double(_) => true
    case Backslashed(_) => true
  }

  function Written(p: Piece): string {
    match p
    case Bare(text) => text
    case Single(text) => "'" + text + "'"
    case Double(text) => Quote(text)
    case Backslashed(c) => ['\\', c]
  }

  function Meant(p: Piece): string {
    match p
    case Bare(text) => text
    case Single(text) => text
    case Double(text) => text
    case Backslashed(c) => [c]
  }

  function AllWritten(pieces: seq<Piece>): string {
    if pieces == [] then "" else Written(pieces[0]) + AllWritten(pieces[1..])
  }

  function AllMeant(pieces: seq<Piece>): string {
    if pieces == [] then "" else Meant(pieces[0]) + AllMeant(pieces[1..])
  }

  predicate Quotes(pieces: seq<Piece>) { exists p | p in pieces :: p.Single? || p.Double? }

  lemma {:induction false} BareRead(text: string, token: string, quoted: bool, rest: string)
    requires Plain(text)
    ensures Scan(text + rest, Word, token, quoted) == Scan(rest, Word, token + text, quoted)
    decreases |text|
  {
    if text == "" {
      assert text + rest == rest && token + text == token;
    } else {
      assert (text + rest)[1..] == text[1..] + rest && IsPlain(text[0]) && Plain(text[1..]);
      BareRead(text[1..], token + [text[0]], quoted, rest);
      assert token + [text[0]] + text[1..] == token + text;
    }
  }

  lemma {:induction false} SingleRead(text: string, token: string, quoted: bool, rest: string)
    requires '\'' !in text
    ensures Scan(text + "'" + rest, InQuote('\''), token, quoted) == Scan(rest, Word, token + text, true)
    decreases |text|
  {
    var s := text + "'" + rest;
    if text == "" {
      assert s[0] == '\'' && s[1..] == rest && token + text == token;
    } else {
      assert s[0] == text[0] && text[0] in text && s[1..] == text[1..] + "'" + rest;
      assert forall c | c in text[1..] :: c in text;
      SingleRead(text[1..], token + [text[0]], true, rest);
      assert token + [text[0]] + text[1..] == token + text;
    }
  }

  /** One more piece of a word. */
  lemma PieceRead(p: Piece, token: string, quoted: bool, rest: string)
    requires Writable(p)
    ensures Scan(Written(p) + rest, Word, token, quoted)
            == Scan(rest, Word, token + Meant(p), quoted || p.Single? || p.Double?)
  {
    hide Scan, BareWord, Quote;
    match p
    case Bare(text) => NextBare(text, token, quoted, rest);
    case Single(text) => NextSingle(text, token, quoted, rest);
    case Double(text) => NextDouble(text, token, quoted, rest);
    case Backslashed(c) => NextBackslashed(c, token, quoted, rest);
  }

  lemma NextBare(text: string, token: string, quoted: bool, rest: string)
    requires BareWord(text)
    ensures Scan(text + rest, Word, token, quoted) == Scan(rest, Word, token + text, quoted)
  {
    hide Scan;
    BareRead(text, token, quoted, rest);
  }

  lemma NextSingle(text: string, token: string, quoted: bool, rest: string)
    requires '\'' !in text
    ensures Scan("'" + text + "'" + rest, Word, token, quoted) == Scan(rest, Word, token + text, true)
  {
    var s := "'" + text + "'" + rest;
    assert s[0] == '\'' && s[1..] == text + "'" + rest;
    SingleRead(text, token, quoted, rest);
  }

  lemma NextDouble(text: string, token: string, quoted: bool, rest: string)
    ensures Scan(Quote(text) + rest, Word, token, quoted) == Scan(rest, Word, token + text, true)
  {
    var s := Quote(text) + rest;
    assert s[0] == '"' && s[1..] == Escape(text) + "\"" + rest;
    ReadEscaped(text, token, quoted, rest);
  }

  lemma NextBackslashed(c: char, token: string, quoted: bool, rest: string)
    ensures Scan(['\\', c] + rest, Word, token, quoted) == Scan(rest, Word, token + [c], quoted)
  {
    var s := ['\\', c] + rest;
    assert s[0] == '\\' && s[1..] == [c] + rest && s[1..][1..] == rest;
  }

  lemma WordBegins(s: string)
    requires s != "" && !IsBlank(s[0]) && s[0] != '#'
    ensures Scan(s, Blank, "", false)
            == if s[0] == '\\' then Scan(s[1..], EscapedInWord, "", false)
               else if IsQuote(s[0]) then Scan(s[1..], InQuote(s[0]), "", false)
               else Scan(s[1..], Word, [s[0]], false)
  {
  }

  lemma EscapeEnds(c: char, rest: string, token: string, quoted: bool)
    ensures Scan([c] + rest, EscapedInWord, token, quoted) == Scan(rest, Word, token + [c], quoted)
  {
    assert ([c] + rest)[1..] == rest;
  }

  lemma WordEnds(more: string, token: string, quoted: bool)
    ensures Scan(" " + more, Word, token, quoted) == Prepend(Emitted(token, quoted), Split(more))
    ensures Scan("#" + more, Word, token, quoted) == Some(Emitted(token, quoted))
    ensures Split("#" + more) == Some([])
  {
    assert (" " + more)[1..] == more;
  }

  lemma FirstBare(text: string, rest: string)
    requires BareWord(text)
    ensures Scan(text + rest, Blank, "", false) == Scan(rest, Word, text, false)
  {
    hide Scan;
    var s := text + rest;
    assert s[0] == text[0] && s[1..] == text[1..] + rest && IsPlain(text[0]) && Plain(text[1..]);
    WordBegins(s);
    BareRead(text[1..], [text[0]], false, rest);
    assert [text[0]] + text[1..] == text;
  }

  lemma FirstSingle(text: string, rest: string)
    requires '\'' !in text
    ensures Scan("'" + text + "'" + rest, Blank, "", false) == Scan(rest, Word, text, true)
  {
    hide Scan;
    var s := "'" + text + "'" + rest;
    assert s[0] == '\'' && s[1..] == text + "'" + rest;
    WordBegins(s);
    SingleRead(text, "", false, rest);
    assert "" + text == text;
  }

  lemma FirstBackslashed(c: char, rest: string)
    ensures Scan(['\\', c] + rest, Blank, "", false) == Scan(rest, Word, [c], false)
  {
    hide Scan;
    var s := ['\\', c] + rest;
    assert s[0] == '\\' && s[1..] == [c] + rest;
    WordBegins(s);
    EscapeEnds(c, rest, "", false);
    assert "" + [c] == [c];
  }

  /** The first piece of a word. */
  lemma FirstPieceRead(p: Piece, rest: string)
    requires Writable(p)
    ensures Scan(Written(p) + rest, Blank, "", false) == Scan(rest, Word, Meant(p), p.Single? || p.Double?)
  {
    hide Scan, BareWord, Quote;
    match p
    case Bare(text) => FirstBare(text, rest);
    case Single(text) => FirstSingle(text, rest);
    case Double(text) => ReadQuoted(text, rest);
    case Backslashed(c) => FirstBackslashed(c, rest);
  }

  lemma {:induction false} PiecesRead(pieces: seq<Piece>, token: string, quoted: bool, rest: string)
    requires forall p | p in pieces :: Writable(p)
    ensures Scan(AllWritten(pieces) + rest, Word, token, quoted)
            == Scan(rest, Word, token + AllMeant(pieces), quoted || Quotes(pieces))
    decreases |pieces|
  {
    hide Scan, Writable, Written, Meant;
    if pieces == [] {
      assert AllWritten(pieces) + rest == rest && token + AllMeant(pieces) == token;
    } else {
      var p, more := pieces[0], pieces[1..];
      assert AllWritten(pieces) + rest == Written(p) + (AllWritten(more) + rest);
      PieceRead(p, token, quoted, AllWritten(more) + rest);
      PiecesRead(more, token + Meant(p), quoted || p.Single? || p.Double?, rest);
      assert token + Meant(p) + AllMeant(more) == token + AllMeant(pieces);
      assert pieces == [p] + more;
    }
  }

  /** A word written in any pieces, followed by a blank and more of the line, is read as one word that
    says what the pieces say; at a hash the line ends. */
  lemma WordIsRead(pieces: seq<Piece>, more: string, comment: string)
    requires pieces != [] && forall p | p in pieces :: Writable(p)
    ensures Split(AllWritten(pieces) + " " + more) == Prepend([AllMeant(pieces)], Split(more))
    ensures Split(AllWritten(pieces) + "#" + comment) == Some([AllMeant(pieces)])
    ensures Split("#" + comment) == Some([])
  {
    hide Scan, AllWritten, AllMeant, Quotes, Writable, Prepend;
    var written, meant, quoted := AllWritten(pieces), AllMeant(pieces), Quotes(pieces);
    WordReadTo(pieces, " " + more);
    WordReadTo(pieces, "#" + comment);
    WordEnds(more, meant, quoted);
    WordEnds(comment, meant, quoted);
    MeansSomething(pieces);
    assert written + " " + more == written + (" " + more);
    assert written + "#" + comment == written + ("#" + comment);
  }

  lemma WordReadTo(pieces: seq<Piece>, rest: string)
    requires pieces != [] && forall p | p in pieces :: Writable(p)
    ensures Scan(AllWritten(pieces) + rest, Blank, "", false) == Scan(rest, Word, AllMeant(pieces), Quotes(pieces))
  {
    hide Scan, Writable, Written, Meant;
    var first, later := pieces[0], pieces[1..];
    assert pieces == [first] + later;
    assert AllWritten(pieces) + rest == Written(first) + (AllWritten(later) + rest);
    FirstPieceRead(first, AllWritten(later) + rest);
    PiecesRead(later, Meant(first), first.Single? || first.Double?, rest);
  }

  lemma MeansSomething(pieces: seq<Piece>)
    requires pieces != [] && forall p | p in pieces :: Writable(p)
    ensures AllMeant(pieces) != "" || Quotes(pieces)
  {
    hide Writable, Meant;
    FirstMeans(pieces[0]);
  }

  lemma FirstMeans(p: Piece)
    requires Writable(p)
    ensures Meant(p) != "" || p.Single? || p.Double?
  {
  }
}
