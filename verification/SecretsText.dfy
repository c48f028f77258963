/** The secrets file as text. vpn_agent/agent.py reads it with `splitlines`, which breaks lines at
  more characters than the newline it writes; the daemon and an operator's editor break them at
  newlines only. Here is exactly when a rewrite keeps the text of everybody else's lines. */
module SecretsText {
  import opened Text
  import opened Ipv4
  import opened Shlex
  import opened ChapSecrets
  import opened PeerStores

  // ------------------------------------------------------------------ lines as others see them

  function FirstNewline(text: string): (i: nat)
    ensures i <= |text| && (forall j | 0 <= j < i :: text[j] != '\n') && (i < |text| ==> text[i] == '\n')
  {
    if text == "" || text[0] == '\n' then 0 else FirstNewline(text[1..]) + 1
  }

  /** The lines that newlines separate. */
  function NewlineLines(text: string): seq<string>
    decreases |text|
  {
    if text == "" then []
    else
      var i := FirstNewline(text);
      if i == |text| then [text] else [text[..i]] + NewlineLines(text[i + 1..])
  }

  /** The text has no line break but newlines. */
  predicate OnlyNewlines(text: string) { forall c | c in text :: IsLineBreak(c) ==> c == '\n' }

  lemma BreakComesFirst(text: string)
    ensures FirstBreak(text) <= FirstNewline(text)
    ensures OneLine(text[..FirstNewline(text)]) ==> FirstBreak(text) == FirstNewline(text)
  {
    var i, j := FirstBreak(text), FirstNewline(text);
    assert forall k | 0 <= k < i :: text[..i][k] == text[k] && text[k] in text[..i];
    assert forall k | 0 <= k < j :: text[..j][k] == text[k] && text[k] in text[..j];
  }

  lemma {:induction false} WholeLinesOnly(text: string)
    requires AllLines(NewlineLines(text))
    ensures OnlyNewlines(text)
    decreases |text|
  {
    hide IsLineBreak;
    if text != "" {
      var i := FirstNewline(text);
      if i < |text| {
        var rest := text[i + 1..];
        assert NewlineLines(text)[0] == text[..i] && OneLine(text[..i]);
        assert forall line | line in NewlineLines(rest) :: line in NewlineLines(text);
        WholeLinesOnly(rest);
        assert text == text[..i] + ['\n'] + rest;
        assert forall c | c in text :: c in text[..i] || c == '\n' || c in rest;
      } else {
        assert NewlineLines(text)[0] == text && OneLine(text);
      }
    }
  }

  lemma {:induction false} SplitsAtNewlines(text: string)
    requires OnlyNewlines(text)
    ensures SplitLines(text) == NewlineLines(text)
    decreases |text|
  {
    hide IsLineBreak;
    if text != "" {
      var i := FirstNewline(text);
      assert OneLine(text[..i]) by {
        forall c | c in text[..i] ensures !IsLineBreak(c) {
          assert c in text && c != '\n';
        }
      }
      BreakComesFirst(text);
      if i < |text| {
        assert forall c | c in text[i + 1..] :: c in text;
        SplitsAtNewlines(text[i + 1..]);
      }
    }
  }

  /** The agent sees the lines others see exactly when the text has no other line break. */
  lemma SameLinesExactly(text: string)
    ensures SplitLines(text) == NewlineLines(text) <==> OnlyNewlines(text)
  {
    hide OnlyNewlines, SplitLines, NewlineLines;
    if OnlyNewlines(text) {
      SplitsAtNewlines(text);
    } else {
      assert SplitLines(text) == NewlineLines(text) ==> OnlyNewlines(text) by {
        if AllLines(NewlineLines(text)) {
          WholeLinesOnly(text);
        }
      }
    }
  }

  lemma SplitHead(text: string)
    requires FirstBreak(text) < |text|
    ensures SplitLines(text) == [text[..FirstBreak(text)]] + SplitLines(text[FirstBreak(text) + 1..])
  {
    hide IsLineBreak;
  }

  lemma NewlineHead(text: string)
    requires FirstNewline(text) < |text|
    ensures NewlineLines(text) == [text[..FirstNewline(text)]] + NewlineLines(text[FirstNewline(text) + 1..])
  {
    hide FirstNewline;
  }

  /** Cutting the front off the first line leaves the later ones. */
  lemma LaterLines(text: string, i: nat)
    requires i < FirstNewline(text) < |text|
    ensures
      var j := FirstNewline(text);
      NewlineLines(text[i + 1..]) == [text[i + 1..j]] + NewlineLines(text[j + 1..])
  {
    hide *;
    var later, j := text[i + 1..], FirstNewline(text);
    assert forall k | 0 <= k < |later| :: later[k] == text[i + 1 + k];
    assert FirstNewline(later) == j - i - 1;
    NewlineHead(later);
    assert later[..j - i - 1] == text[i + 1..j] && later[j - i..] == text[j + 1..];
  }

  lemma NoBreakInside(text: string, line: string)
    requires line in NewlineLines(text) && OneLine(line) && FirstNewline(text) == |text|
    ensures SplitLines(text) == [line]
  {
    BreakComesFirst(text);
    assert forall k | 0 <= k < |text| :: text[k] in text;
  }

  lemma CutLineIsNotWhole(text: string)
    requires FirstBreak(text) < FirstNewline(text)
    ensures !OneLine(text[..FirstNewline(text)])
  {
    assert text[FirstBreak(text)] == text[..FirstNewline(text)][FirstBreak(text)];
    assert text[FirstBreak(text)] in text[..FirstNewline(text)];
  }

  /** A line without another break is one of the agent's lines as well. */
  lemma {:induction false} WholeLineIsSeen(text: string, line: string)
    requires line in NewlineLines(text) && OneLine(line)
    ensures line in SplitLines(text)
    decreases |text|
  {
    hide IsLineBreak, SplitLines, NewlineLines, OneLine;
    var i, j := FirstBreak(text), FirstNewline(text);
    BreakComesFirst(text);
    if j == |text| {
      NoBreakInside(text, line);
    } else {
      NewlineHead(text);
      SplitHead(text);
      if i == j {
        if line in NewlineLines(text[j + 1..]) {
          WholeLineIsSeen(text[j + 1..], line);
        }
      } else {
        CutLineIsNotWhole(text);
        LaterLines(text, i);
        WholeLineIsSeen(text[i + 1..], line);
      }
    }
  }

  // ------------------------------------------------------------------ what a rewrite keeps

  lemma {:induction false} RetainedMembers(lines: seq<string>, name: string)
    ensures forall line :: line in Retained(lines, name) <==> line in lines && !IsPeerLine(line, name)
  {
    hide IsPeerLine;
    if lines != [] {
      var front, last := lines[..|lines| - 1], lines[|lines| - 1];
      RetainedMembers(front, name);
      assert lines == front + [last];
    }
  }

  lemma {:induction false} SettledKeepsWritten(lines: seq<string>, line: string)
    requires line in lines && line != ""
    ensures line in DropTrailingBlanks(lines) && line in Settled(lines)
  {
    if lines[|lines| - 1] == "" {
      var front := lines[..|lines| - 1];
      assert lines == front + [""];
      SettledKeepsWritten(front, line);
    }
  }

  lemma {:induction false} JoinedHasOnlyNewlines(lines: seq<string>)
    requires AllLines(lines)
    ensures OnlyNewlines(JoinLines(lines))
  {
    hide IsLineBreak;
    if |lines| > 1 {
      assert lines[0] in lines && forall line | line in lines[1..] :: line in lines;
      JoinedHasOnlyNewlines(lines[1..]);
    } else if |lines| == 1 {
      assert lines[0] in lines;
    }
  }

  lemma {:induction false} StrippedHasOnlyNewlines(s: string)
    requires OnlyNewlines(s)
    ensures OnlyNewlines(StripNewlines(s))
  {
    hide IsLineBreak;
    if s != "" && s[|s| - 1] == '\n' {
      assert forall c | c in s[..|s| - 1] :: c in s;
      StrippedHasOnlyNewlines(s[..|s| - 1]);
    }
  }

  /** What the agent writes, everybody reads alike. */
  lemma WrittenReadsAlike(lines: seq<string>)
    requires AllLines(lines)
    ensures NewlineLines(WrittenText(lines)) == Settled(lines) == SplitLines(WrittenText(lines))
  {
    hide IsLineBreak, SplitLines, NewlineLines;
    JoinedHasOnlyNewlines(lines);
    StrippedHasOnlyNewlines(JoinLines(lines));
    SplitsAtNewlines(WrittenText(lines));
    WrittenLines(lines);
  }

  /** The line a create or rotate writes is one line. */
  lemma PlacedLineIsOneLine(config: Config, lines: seq<string>, action: Action, name: string, password: string)
    requires ValidConfig(config) && AllLines(lines) && Mutated(config, lines, action, name, password).1.Placed?
    ensures
      var line := PeerLine(name, config.server, password, Mutated(config, lines, action, name, password).1.address);
      OneLine(line) && line != ""
  {
    hide IsLineBreak, PeerLine, PeerName, PeerPassword, Matches, Used, LeastFree, PrintAddress, OneLine;
    var address := Mutated(config, lines, action, name, password).1.address;
    NameIsOneLine(name);
    PasswordIsOneLine(password);
    OwnAddressIsOneLine(lines, name);
    if Matches(lines, name) == [] {
      FreshAddressIsOneLine(LeastFree(Used(lines), config.first, config.last).value);
    }
    PeerLineIsOneLine(name, config.server, password, address);
  }

  lemma FreshAddressIsOneLine(a: Address)
    ensures OneLine(PrintAddress(a))
  {
    hide PrintAddress;
    AddressCharacters(a);
  }

  predicate Rewrites(reply: Reply) { reply.Placed? || reply == Deleted(true) }

  /** The new lines of the file: those the agent kept, and the peer's new one. */
  lemma RewrittenLines(config: Config, text: string, action: Action, name: string, password: string)
    requires ValidConfig(config)
    requires Rewrites(Mutated(config, SplitLines(text), action, name, password).1)
    ensures
      var lines := SplitLines(text);
      var (after, reply) := Mutated(config, lines, action, name, password);
      NewlineLines(MutatedText(config, text, action, name, password)) == after
  {
    hide IsLineBreak, SplitLines, NewlineLines, PeerName, PeerPassword, Matches, ChosenAddress, PeerLine, Retained,
         WrittenText, OneLine, Settled;
    var lines := SplitLines(text);
    var (after, reply) := Mutated(config, lines, action, name, password);
    if reply.Placed? {
      PlacedLineIsOneLine(config, lines, action, name, password);
      WrittenReadsAlike(after);
      LastLineSettles(after);
    } else {
      WrittenReadsAlike(Retained(lines, name));
    }
  }

  /** A rewrite loses no line of others, as newlines separate them, exactly when none of those lines
    holds another line break: of each such line the agent keeps only the pieces. */
  lemma RewriteLosesNoneExactly(config: Config, text: string, action: Action, name: string, password: string)
    requires ValidConfig(config)
    requires Rewrites(Mutated(config, SplitLines(text), action, name, password).1)
    ensures
      var others := Retained(NewlineLines(text), name);
      (forall line | line in others && line != "" ::
         line in NewlineLines(MutatedText(config, text, action, name, password)))
      <==> AllLines(others)
  {
    hide IsLineBreak, SplitLines, NewlineLines, PeerName, PeerPassword, Matches, ChosenAddress, PeerLine, Retained,
         OneLine, Settled, IsPeerLine, MutatedText;
    var lines, others := SplitLines(text), Retained(NewlineLines(text), name);
    var (after, reply) := Mutated(config, lines, action, name, password);
    RewrittenLines(config, text, action, name, password);
    RetainedMembers(NewlineLines(text), name);
    RetainedMembers(lines, name);
    assert AllLines(after) by {
      AfterIsLines(config, lines, action, name, password);
    }
    forall line | line in others && line != "" && OneLine(line) ensures line in after {
      WholeLineIsSeen(text, line);
      if !reply.Placed? {
        SettledKeepsWritten(Retained(lines, name), line);
      }
    }
    assert OneLine("") by {
      BlankIsOneLine();
    }
  }

  lemma BlankIsOneLine()
    ensures OneLine("")
  {
  }

  lemma AfterIsLines(config: Config, lines: seq<string>, action: Action, name: string, password: string)
    requires ValidConfig(config) && AllLines(lines)
    ensures AllLines(Mutated(config, lines, action, name, password).0)
  {
    hide IsLineBreak, PeerName, PeerPassword, Matches, ChosenAddress, PeerLine, Retained, OneLine, Settled;
    if Mutated(config, lines, action, name, password).1.Placed? {
      PlacedLineIsOneLine(config, lines, action, name, password);
    }
  }

  /** On a text with newlines only, a rewrite keeps the lines of others, in their order; a deletion
    drops blank lines at the end. */
  lemma RewriteKeepsOthersInOrder(config: Config, text: string, action: Action, name: string, password: string)
    requires ValidConfig(config) && OnlyNewlines(text)
    requires Rewrites(Mutated(config, SplitLines(text), action, name, password).1)
    ensures
      var (others, reply) := (Retained(NewlineLines(text), name),
                              Mutated(config, SplitLines(text), action, name, password).1);
      var after := Retained(NewlineLines(MutatedText(config, text, action, name, password)), name);
      && (reply.Placed? && BareWord(reply.address) ==> after == others)
      && (reply.Deleted? ==> after == Settled(others))
  {
    hide SplitLines, NewlineLines, Mutated, MutatedText, Retained, BareWord, Settled, OnlyNewlines;
    SplitsAtNewlines(text);
    RewrittenLines(config, text, action, name, password);
    OtherLinesStay(config, SplitLines(text), action, name, password);
  }

  // ------------------------------------------------------------------ neither lost nor gained

  function NonBlank(lines: seq<string>): (kept: seq<string>)
    ensures AllLines(lines) ==> AllLines(kept)
  {
    if lines == [] then []
    else
      var last := lines[|lines| - 1];
      NonBlank(lines[..|lines| - 1]) + if last == "" then [] else [last]
  }

  /** The lines of everybody but `name`, blank ones aside. */
  function Others(lines: seq<string>, name: string): seq<string> { NonBlank(Retained(lines, name)) }

  /** What the agent makes of one line: a line of others has to be one line to the agent too, and of
    a line of the peer's own nothing may be left over. */
  predicate SafeLine(line: string, name: string) {
    if IsPeerLine(line, name) then Others(SplitLines(line), name) == [] else OneLine(line)
  }

  lemma {:induction false} NonBlankConcat(a: seq<string>, b: seq<string>)
    ensures NonBlank(a + b) == NonBlank(a) + NonBlank(b)
  {
    if b == [] {
      assert a + b == a;
    } else {
      var n := |b| - 1;
      assert (a + b)[..|a + b| - 1] == a + b[..n] && (a + b)[|a + b| - 1] == b[n];
      NonBlankConcat(a, b[..n]);
    }
  }

  lemma {:induction false} RetainedConcat(a: seq<string>, b: seq<string>, name: string)
    ensures Retained(a + b, name) == Retained(a, name) + Retained(b, name)
  {
    hide IsPeerLine;
    if b == [] {
      assert a + b == a;
    } else {
      var n := |b| - 1;
      assert (a + b)[..|a + b| - 1] == a + b[..n] && (a + b)[|a + b| - 1] == b[n];
      RetainedConcat(a, b[..n], name);
    }
  }

  lemma OthersConcat(a: seq<string>, b: seq<string>, name: string)
    ensures Others(a + b, name) == Others(a, name) + Others(b, name)
  {
    hide NonBlank, Retained;
    RetainedConcat(a, b, name);
    NonBlankConcat(Retained(a, name), Retained(b, name));
  }

  lemma OthersOfOne(line: string, name: string)
    ensures Others([line], name) == if line == "" || IsPeerLine(line, name) then [] else [line]
    ensures Others([], name) == []
  {
    hide IsPeerLine, Retained, NonBlank;
    RetainedNone(name);
    RetainedAppend([], line, name);
    assert [] + [line] == [line];
    NonBlankOne(line);
  }

  lemma NonBlankOne(line: string)
    ensures NonBlank([line]) == if line == "" then [] else [line]
    ensures NonBlank([]) == []
  {
    assert [line][..0] == [] && [] + [line] == [line];
  }

  /** The agent's lines of a text are those of its newline-separated lines in turn. */
  lemma {:induction false} SplitsInTurn(line: string, rest: string)
    ensures SplitLines(line + "\n" + rest) == SplitLines(line + "\n") + SplitLines(rest)
    decreases |line|
  {
    hide SplitLines, IsLineBreak, OneLine;
    NewlineBreaks();
    var j := FirstBreak(line);
    if j == |line| {
      assert line[..j] == line;
      CutAt(line, '\n', rest);
      CutAt(line, '\n', "");
      assert line + ['\n'] + "" == line + "\n";
    } else {
      var head, c, tail := line[..j], line[j], line[j + 1..];
      SplitsInTurn(tail, rest);
      CutAt(head, c, tail + "\n" + rest);
      CutAt(head, c, tail + "\n");
      assert line + "\n" + rest == head + [c] + (tail + "\n" + rest) && line + "\n" == head + [c] + (tail + "\n");
    }
  }

  lemma NewlineBreaks()
    ensures IsLineBreak('\n') && SplitLines("") == [] && SplitLines("\n") == [""]
  {
    CutAt("", '\n', "");
    assert "" + ['\n'] + "" == "\n";
  }

  /** The newline at its end adds at most a blank piece to a line. */
  lemma {:induction false} EndOfLineAddsNothing(line: string, name: string)
    ensures Others(SplitLines(line + "\n"), name) == Others(SplitLines(line), name)
    decreases |line|
  {
    hide SplitLines, IsLineBreak, OneLine, Others;
    NewlineBreaks();
    OthersOfOne("", name);
    if line == "" {
      assert line + "\n" == "\n";
    } else {
      var j := FirstBreak(line);
      if j == |line| {
        assert line[..j] == line;
        CutAt(line, '\n', "");
        assert line + ['\n'] + "" == line + "\n" && [line] + [] == [line];
        UncutLine(line);
      } else {
        var head, c, tail := line[..j], line[j], line[j + 1..];
        EndOfLineAddsNothing(tail, name);
        CutAt(head, c, tail);
        CutAt(head, c, tail + "\n");
        assert line == head + [c] + tail && line + "\n" == head + [c] + (tail + "\n");
        OthersConcat([head], SplitLines(tail), name);
        OthersConcat([head], SplitLines(tail + "\n"), name);
      }
    }
  }

  lemma UncutLine(line: string)
    requires line != "" && FirstBreak(line) == |line|
    ensures SplitLines(line) == [line]
  {
  }

  /** What the agent sees of others, one newline-separated line at a time. */
  function Seen(lines: seq<string>, name: string): seq<string> {
    if lines == [] then [] else Others(SplitLines(lines[0]), name) + Seen(lines[1..], name)
  }

  lemma {:induction false} SeenLineByLine(text: string, name: string)
    ensures Others(SplitLines(text), name) == Seen(NewlineLines(text), name)
    decreases |text|
  {
    hide SplitLines, IsLineBreak, Others, IsPeerLine;
    NewlineBreaks();
    OthersOfOne("", name);
    if text != "" {
      var i := FirstNewline(text);
      if i < |text| {
        var line, rest := text[..i], text[i + 1..];
        assert text == line + "\n" + rest;
        SplitsInTurn(line, rest);
        EndOfLineAddsNothing(line, name);
        OthersConcat(SplitLines(line + "\n"), SplitLines(rest), name);
        SeenLineByLine(rest, name);
        assert NewlineLines(text)[0] == line && NewlineLines(text)[1..] == NewlineLines(rest);
      } else {
        assert NewlineLines(text)[1..] == [];
      }
    }
  }

  lemma SafeLineIsSeen(line: string, name: string)
    requires SafeLine(line, name)
    ensures Others(SplitLines(line), name) == Others([line], name)
  {
    hide SplitLines, IsPeerLine, Others, OneLine;
    OthersOfOne(line, name);
    if !IsPeerLine(line, name) {
      NewlineBreaks();
      if line != "" {
        WholeLine(line);
      }
    }
  }

  lemma WholeLine(line: string)
    requires OneLine(line) && line != ""
    ensures SplitLines(line) == [line]
  {
    hide IsLineBreak;
    assert forall j | 0 <= j < |line| :: line[j] in line;
  }

  /** Lines of others that are one line to the agent are seen whole; so the agent sees as many lines
    of others as there are exactly when nothing of the peer's own lines is left over. */
  lemma {:induction false} SeenAtLeast(lines: seq<string>, name: string)
    requires AllLines(Others(lines, name))
    ensures |Seen(lines, name)| >= |Others(lines, name)|
    ensures |Seen(lines, name)| == |Others(lines, name)| ==> forall line | line in lines :: SafeLine(line, name)
  {
    hide SplitLines, IsPeerLine, Others, OneLine;
    OthersOfOne("", name);
    BlankIsOneLine();
    if lines != [] {
      var head := lines[0];
      assert lines == [head] + lines[1..];
      OthersConcat([head], lines[1..], name);
      OthersOfOne(head, name);
      assert AllLines(Others(lines[1..], name)) && AllLines(Others([head], name));
      if !IsPeerLine(head, name) {
        assert head != "" ==> head in Others([head], name);
        SafeLineIsSeen(head, name);
      }
      SeenAtLeast(lines[1..], name);
    }
  }

  lemma {:induction false} SeenWhenSafe(lines: seq<string>, name: string)
    requires forall line | line in lines :: SafeLine(line, name)
    ensures Seen(lines, name) == Others(lines, name)
  {
    hide SplitLines, IsPeerLine, Others, OneLine, SafeLine;
    OthersOfOne("", name);
    if lines != [] {
      assert lines == [lines[0]] + lines[1..];
      OthersConcat([lines[0]], lines[1..], name);
      SafeLineIsSeen(lines[0], name);
      SeenWhenSafe(lines[1..], name);
    }
  }

  lemma {:induction false} SettledOthers(lines: seq<string>)
    ensures NonBlank(DropTrailingBlanks(lines)) == NonBlank(lines) == NonBlank(Settled(lines))
  {
    assert [""][..0] == [];
    if lines != [] && lines[|lines| - 1] == "" {
      SettledOthers(lines[..|lines| - 1]);
    }
  }

  /** The line a create or rotate writes is the peer's own to a reader if its address has a token. */
  lemma WrittenLineIsOwn(name: string, server: string, password: string, address: string)
    requires PeerName(name)
    ensures IsPeerLine(PeerLine(name, server, password, address), name) <==> Tokens(address) != []
  {
    hide PeerName, PeerLine, Scan;
    PeerLineTokens(name, server, password, address);
  }

  /** The lines of others after a rewrite: those the agent saw before it, and the written line if a
    reader does not take it for the peer's own. */
  lemma OthersAfter(config: Config, text: string, action: Action, name: string, password: string)
    requires ValidConfig(config)
    requires Rewrites(Mutated(config, SplitLines(text), action, name, password).1)
    ensures
      var reply := Mutated(config, SplitLines(text), action, name, password).1;
      var line := PeerLine(name, config.server, password, if reply.Placed? then reply.address else "");
      Others(NewlineLines(MutatedText(config, text, action, name, password)), name)
      == Others(SplitLines(text), name) + if reply.Placed? && Tokens(reply.address) == [] then [line] else []
  {
    hide SplitLines, NewlineLines, PeerName, PeerPassword, Matches, ChosenAddress, PeerLine, Retained, MutatedText,
         NonBlank, Settled, IsPeerLine, Tokens, OneLine;
    var lines := SplitLines(text);
    var (after, reply) := Mutated(config, lines, action, name, password);
    RewrittenLines(config, text, action, name, password);
    RetainedTwice(lines, name);
    if reply.Placed? {
      var line := PeerLine(name, config.server, password, reply.address);
      PlacedLineIsOneLine(config, lines, action, name, password);
      WrittenLineIsOwn(name, config.server, password, reply.address);
      OthersConcat(Retained(lines, name), [line], name);
      OthersOfOne(line, name);
    } else {
      SettledRetained(lines, name);
      SettledOthers(Retained(lines, name));
    }
  }

  lemma {:induction false} OthersMembers(lines: seq<string>, name: string)
    ensures forall line :: line in Others(lines, name) <==> line in lines && line != "" && !IsPeerLine(line, name)
  {
    hide IsPeerLine, Retained;
    RetainedMembers(lines, name);
    NonBlankMembers(Retained(lines, name));
  }

  lemma {:induction false} NonBlankMembers(lines: seq<string>)
    ensures forall line :: line in NonBlank(lines) <==> line in lines && line != ""
  {
    if lines != [] {
      var front, last := lines[..|lines| - 1], lines[|lines| - 1];
      NonBlankMembers(front);
      assert lines == front + [last];
    }
  }

  lemma SafeLinesAreWhole(lines: seq<string>, name: string)
    requires forall line | line in lines :: SafeLine(line, name)
    ensures AllLines(Others(lines, name))
  {
    hide IsPeerLine, Others, OneLine, SplitLines;
    OthersMembers(lines, name);
  }

  lemma WrittenIsWhole(config: Config, text: string, action: Action, name: string, password: string)
    requires ValidConfig(config)
    requires Rewrites(Mutated(config, SplitLines(text), action, name, password).1)
    ensures AllLines(Others(NewlineLines(MutatedText(config, text, action, name, password)), name))
  {
    hide SplitLines, NewlineLines, Mutated, Retained, MutatedText, NonBlank, OneLine;
    RewrittenLines(config, text, action, name, password);
    AfterIsLines(config, SplitLines(text), action, name, password);
  }

  /** A rewrite keeps the lines of others, as newlines separate them and blank ones aside, in their
    order, with none lost and none added, exactly when every line is safe and the line written has
    an address that a reader sees. */
  lemma RewriteKeepsOthersExactly(config: Config, text: string, action: Action, name: string, password: string)
    requires ValidConfig(config)
    requires Rewrites(Mutated(config, SplitLines(text), action, name, password).1)
    ensures
      var reply := Mutated(config, SplitLines(text), action, name, password).1;
      Others(NewlineLines(MutatedText(config, text, action, name, password)), name) == Others(NewlineLines(text), name)
      <==> && (forall line | line in NewlineLines(text) :: SafeLine(line, name))
           && (reply.Placed? ==> Tokens(reply.address) != [])
  {
    hide SplitLines, NewlineLines, Mutated, PeerLine, Retained, MutatedText, NonBlank, IsPeerLine, Tokens, OneLine,
         SafeLine, Seen, Others;
    var before := NewlineLines(text);
    OthersAfter(config, text, action, name, password);
    SeenLineByLine(text, name);
    if forall line | line in before :: SafeLine(line, name) {
      SeenWhenSafe(before, name);
    }
    OthersMembers(before, name);
    if AllLines(Others(before, name)) {
      SeenAtLeast(before, name);
    } else {
      WrittenIsWhole(config, text, action, name, password);
      if forall line | line in before :: SafeLine(line, name) {
        SafeLinesAreWhole(before, name);
      }
    }
  }

  // ------------------------------------------------------------------ a line that is cut in two

  /** The line breaks Python knows beside carriage return and newline: vertical tab, form feed, the three
    separators, next line, and the line and paragraph separators. */
  const BREAKS := "\U{000B}\U{000C}\U{001C}\U{001D}\U{001E}\U{0085}\U{2028}\U{2029}"

  lemma BreaksBreak(c: char)
    requires c in BREAKS
    ensures IsLineBreak(c) && c != '\n'
  {
  }

  /** A comment: a hash, such a break and more text. */
  function CommentOf(c: char, entry: string): string { ['#', c] + entry }

  /** A comment that holds one of them is cut there: what came after it, any line at all that is not the
    peer's own, was no entry before the rewrite and is one after it. */
  lemma CommentIsCutInTwo(config: Config, c: char, entry: string, action: Action, name: string, password: string)
    requires ValidConfig(config) && c in BREAKS && OneLine(entry) && entry != "" && !IsPeerLine(entry, name)
    requires Rewrites(Mutated(config, SplitLines(CommentOf(c, entry) + "\n"), action, name, password).1)
    ensures
      var text := CommentOf(c, entry) + "\n";
      var after := NewlineLines(MutatedText(config, text, action, name, password));
      && NewlineLines(text) == [CommentOf(c, entry)] && Tokens(CommentOf(c, entry)) == []
      && CommentOf(c, entry) !in after && "#" in after && entry in after
  {
    hide PeerName, PeerPassword, Matches, ChosenAddress, PeerLine, Retained, MutatedText, Settled, CommentOf,
         SplitLines, NewlineLines, IsLineBreak, OneLine, Tokens;
    var text := CommentOf(c, entry) + "\n";
    BreaksBreak(c);
    AgentCutsComment(c, entry);
    CommentIsOneLine(c, entry);
    RewrittenLines(config, text, action, name, password);
    RetainedMembers(["#", entry], name);
    AfterIsLines(config, ["#", entry], action, name, password);
    if Mutated(config, ["#", entry], action, name, password).1.Deleted? {
      SettledKeepsWritten(Retained(["#", entry], name), "#");
      SettledKeepsWritten(Retained(["#", entry], name), entry);
    }
  }

  lemma AgentCutsComment(c: char, entry: string)
    requires OneLine(entry) && IsLineBreak(c)
    ensures SplitLines(CommentOf(c, entry) + "\n") == ["#", entry] && OneLine("#") && Tokens("#") == []
  {
    hide SplitLines, Tokens, OneLine, IsLineBreak;
    CommentFacts();
    CutAt("#", c, entry + "\n");
    CutAt(entry, '\n', "");
    assert CommentOf(c, entry) + "\n" == "#" + [c] + (entry + "\n") && entry + ['\n'] + "" == entry + "\n";
  }

  lemma CommentFacts()
    ensures OneLine("#") && IsLineBreak('\n') && SplitLines("") == [] && Tokens("#") == []
  {
  }

  lemma CutAt(head: string, c: char, rest: string)
    requires OneLine(head) && IsLineBreak(c)
    ensures SplitLines(head + [c] + rest) == [head] + SplitLines(rest)
  {
    hide IsLineBreak, SplitLines;
    var text := head + [c] + rest;
    assert text == head + ([c] + rest);
    BreakAfter(head, [c] + rest);
    SplitHead(text);
    assert text[..|head|] == head && text[|head| + 1..] == rest;
  }

  lemma CommentIsOneLine(c: char, entry: string)
    requires OneLine(entry) && IsLineBreak(c) && c != '\n'
    ensures NewlineLines(CommentOf(c, entry) + "\n") == [CommentOf(c, entry)] && !OneLine(CommentOf(c, entry))
    ensures Tokens(CommentOf(c, entry)) == []
  {
    var comment := CommentOf(c, entry);
    var text := comment + "\n";
    forall j | 0 <= j < |comment| ensures text[j] != '\n' {
      assert text[j] == comment[j];
      if j > 1 {
        assert comment[j] == entry[j - 2] && entry[j - 2] in entry;
      }
    }
    assert text[|comment|] == '\n';
    NewlineHead(text);
    assert text[..|comment|] == comment && text[|comment| + 1..] == "";
    assert comment[1] in comment;
  }

  // ------------------------------------------------------------------ a line of the peer's own that is cut

  /** The peer's own line with a comment that holds such a break. */
  function OwnComment(name: string, server: string, secret: string, a: Address, c: char, entry: string): string {
    PeerLine(name, server, secret, PrintAddress(a) + " #") + [c] + entry
  }

  lemma {:induction false} ReadPlainThenBlank(s: string, token: string, rest: string)
    requires Plain(s) && token != ""
    ensures Scan(s + " " + rest, Word, token, false) == Prepend([token + s], Scan(rest, Blank, "", false))
    decreases |s|
  {
    if s == "" {
      assert s + " " + rest == " " + rest && (" " + rest)[1..] == rest && token + s == token;
    } else {
      assert Plain(s[1..]) && IsPlain(s[0]);
      assert (s + " " + rest)[1..] == s[1..] + " " + rest;
      ReadPlainThenBlank(s[1..], token + [s[0]], rest);
      assert token + [s[0]] + s[1..] == token + s;
    }
  }

  lemma AddressThenComment(a: Address, rest: string)
    ensures Split(PrintAddress(a) + " #" + rest) == Some([PrintAddress(a)])
  {
    hide PrintAddress;
    PrintedAddressIsBare(a);
    var s := PrintAddress(a);
    assert IsPlain(s[0]) && Plain(s[1..]);
    ReadPlainThenBlank(s[1..], [s[0]], "#" + rest);
    assert s + " #" + rest == s + " " + ("#" + rest);
    assert (s + " " + ("#" + rest))[1..] == s[1..] + " " + ("#" + rest);
    assert [s[0]] + s[1..] == s && [s] + [] == [s];
  }

  lemma OwnCommentIsOwn(name: string, server: string, secret: string, a: Address, rest: string)
    requires PeerName(name)
    ensures IsPeerLine(PeerLine(name, server, secret, PrintAddress(a) + " #" + rest), name)
  {
    hide PeerName, PeerLine, PrintAddress;
    AddressThenComment(a, rest);
    PeerLineTokens(name, server, secret, PrintAddress(a) + " #" + rest);
  }

  lemma OwnCommentIsCut(name: string, server: string, secret: string, a: Address, c: char, entry: string)
    requires IsLineBreak(c) && c != '\n' && PeerName(name) && OneLine(server) && OneLine(secret) && OneLine(entry)
    ensures
      var line := OwnComment(name, server, secret, a, c, entry);
      var own := PeerLine(name, server, secret, PrintAddress(a) + " #");
      && NewlineLines(line + "\n") == [line] && IsPeerLine(line, name)
      && SplitLines(line + "\n") == [own, entry] && IsPeerLine(own, name)
  {
    hide PeerName, PeerLine, PrintAddress, SplitLines, NewlineLines, IsLineBreak, IsPeerLine;
    var address := PrintAddress(a) + " #";
    var own, line := PeerLine(name, server, secret, address), OwnComment(name, server, secret, a, c, entry);
    assert OneLine(own) by {
      NameIsOneLine(name);
      CommentedAddressIsOneLine(a);
      PeerLineIsOneLine(name, server, secret, address);
    }
    CommentFacts();
    CutAt(own, c, entry + "\n");
    CutAt(entry, '\n', "");
    assert line + "\n" == own + [c] + (entry + "\n") && entry + ['\n'] + "" == entry + "\n";
    NewlineAfterPieces(own, c, entry);
    OwnCommentIsOwn(name, server, secret, a, "");
    assert address + "" == address;
    OwnCommentIsOwn(name, server, secret, a, [c] + entry);
    assert line == PeerLine(name, server, secret, address + ([c] + entry)) by {
      LineGoesOn(name, server, secret, address, [c] + entry);
    }
  }

  lemma LineGoesOn(name: string, server: string, secret: string, address: string, more: string)
    ensures PeerLine(name, server, secret, address) + more == PeerLine(name, server, secret, address + more)
  {
    hide Quote;
  }

  lemma CommentedAddressIsOneLine(a: Address)
    ensures OneLine(PrintAddress(a) + " #")
  {
    hide PrintAddress;
    AddressCharacters(a);
  }

  lemma NewlineAfterPieces(head: string, c: char, tail: string)
    requires c != '\n' && OneLine(head) && OneLine(tail)
    ensures
      var line := head + [c] + tail;
      NewlineLines(line + "\n") == [line]
  {
    var line := head + [c] + tail;
    forall j | 0 <= j < |line| ensures (line + "\n")[j] != '\n' {
      assert line[j] in head || line[j] == c || line[j] in tail;
    }
    assert (line + "\n")[|line|] == '\n';
    NewlineHead(line + "\n");
    assert (line + "\n")[..|line|] == line && (line + "\n")[|line| + 1..] == "";
  }

  lemma OwnLineIsRewritten(config: Config, own: string, line: string, action: Action, name: string, password: string)
    requires PeerName(name) && IsPeerLine(own, name) && (action.Delete? || PeerPassword(password))
    ensures Rewrites(Mutated(config, [own, line], action, name, password).1)
  {
    hide PeerName, PeerPassword, IsPeerLine, Retained;
    assert [own, line][..1] == [own];
    assert Matches([own, line], name)[..|Matches([own], name)|] == Matches([own], name);
  }

  /** A file whose one line is the peer's own, with such a break in its comment: any rewrite for that
    peer leaves what stood behind the break as a line of somebody else's, which it was not. */
  lemma OwnCommentBecomesALine(config: Config, server: string, secret: string, a: Address, c: char,
                               entry: string, action: Action, name: string, password: string)
    requires ValidConfig(config) && PeerName(name) && OneLine(server) && OneLine(secret)
    requires c in BREAKS && OneLine(entry) && entry != "" && !IsPeerLine(entry, name)
    requires action.Delete? || PeerPassword(password)
    ensures
      var text := OwnComment(name, server, secret, a, c, entry) + "\n";
      && Rewrites(Mutated(config, SplitLines(text), action, name, password).1)
      && Others(NewlineLines(text), name) == [] && entry !in NewlineLines(text)
      && entry in Others(NewlineLines(MutatedText(config, text, action, name, password)), name)
  {
    hide PeerName, PeerPassword, Matches, ChosenAddress, PeerLine, Retained, MutatedText, NonBlank, OwnComment,
         SplitLines, NewlineLines, IsLineBreak, OneLine, Tokens, IsPeerLine, Others, Mutated;
    var text := OwnComment(name, server, secret, a, c, entry) + "\n";
    BreaksBreak(c);
    OwnCommentIsCut(name, server, secret, a, c, entry);
    OwnLineIsRewritten(config, PeerLine(name, server, secret, PrintAddress(a) + " #"), entry, action, name, password);
    OthersOfOne(OwnComment(name, server, secret, a, c, entry), name);
    OthersAfter(config, text, action, name, password);
    OthersMembers(SplitLines(text), name);
  }
}
