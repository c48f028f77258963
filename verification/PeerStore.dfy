/** `PeerStore` of vpn_agent/agent.py, on the text of the secrets file. */
module PeerStores {
  import opened Text
  import opened Ipv4
  import opened Shlex
  import opened ChapSecrets

  datatype Allocation = Allocated(address: string) | NoneFree(reason: Refusal)

  class PeerStore {
    const config: Config
    /** The file, after Python has turned every carriage return into a newline. */
    var text: string

    predicate Valid()
      reads this
    {
      ValidConfig(config)
    }

    constructor (serverName: string, firstIp: Address, lastIp: Address, text: string)
      requires firstIp <= lastIp && OneLine(serverName)
      ensures Valid() && this.text == text && config == Config(serverName, firstIp, lastIp)
    {
      this.config := Config(serverName, firstIp, lastIp);
      this.text := text;
    }

    /** `_allocate`, with the error it ends in when the pool is full. */
    method Allocate(lines: seq<string>) returns (allocation: Allocation)
      requires Valid()
      ensures allocation == match LeastFree(Used(lines), config.first, config.last)
                            case Some(a) => Allocated(PrintAddress(a))
                            case None => NoneFree(FullPool(config))
    {
      hide Tokens, ReadAddress, PrintAddress;
      var used: set<Address> := {};
      var i := 0;
      while i < |lines|
        invariant 0 <= i <= |lines|
        invariant used == Used(lines[..i])
      {
        assert lines[..i + 1][..i] == lines[..i];
        var tokens := Tokens(lines[i]);
        if |tokens| >= 4 {
          var a := ReadAddress(tokens[3]);
          if a.Some? {
            used := used + {a.value};
          }
        }
        i := i + 1;
      }
      assert lines[..i] == lines;
      var current: nat := config.first;
      while current <= config.last
        invariant config.first <= current <= config.last + 1
        invariant current == config.last + 1 ==> config.last != TOP
        invariant LeastFree(used, config.first, config.last) == LeastFree(used, current, config.last)
      {
        if current !in used {
          return Allocated(PrintAddress(current));
        }
        if current == TOP {
          return NoneFree(InternalError);
        }
        current := current + 1;
      }
      allocation := NoneFree(PoolExhausted);
    }

    /** `_write`, without the backups it takes first. */
    method Write(lines: seq<string>)
      requires AllLines(lines)
      modifies this
      ensures text == WrittenText(lines)
      ensures SplitLines(text) == Settled(lines)
    {
      WrittenLines(lines);
      text := StripNewlines(JoinLines(lines)) + "\n";
    }

    /** The loop of `mutate`: the peer's own lines, tokenised, and all others. */
    method SortOut(lines: seq<string>, username: string) returns (matches: seq<seq<string>>, retained: seq<string>)
      ensures matches == Matches(lines, username)
      ensures retained == Retained(lines, username)
    {
      hide Tokens, PeerName;
      matches, retained := [], [];
      var i := 0;
      while i < |lines|
        invariant 0 <= i <= |lines|
        invariant matches == Matches(lines[..i], username)
        invariant retained == Retained(lines[..i], username)
      {
        assert lines[..i + 1][..i] == lines[..i];
        var line := lines[i];
        var tokens := Tokens(line);
        if Managed(tokens) && tokens[0] == username {
          matches := matches + [tokens];
        } else {
          retained := retained + [line];
        }
        i := i + 1;
      }
      assert lines[..i] == lines;
    }

    method Mutate(action: Action, username: string, password: string) returns (reply: Reply)
      requires Valid()
      modifies this
      ensures Valid()
      ensures (SplitLines(text), reply) == Mutated(config, SplitLines(old(text)), action, username, password)
      ensures text == MutatedText(config, old(text), action, username, password)
    {
      hide Tokens, PeerName, PeerPassword, PeerLine, Used, LeastFree, PrintAddress, SplitLines, DropTrailingBlanks,
           IsLineBreak, Retained, Matches;
      if !PeerName(username) {
        return Refused(InvalidUsername);
      }
      if (action.Create? || action.Rotate?) && !PeerPassword(password) {
        return Refused(InvalidPassword);
      }
      var lines := SplitLines(text);
      var matches, retained := SortOut(lines, username);
      if action.Delete? {
        if matches != [] {
          Write(retained);
        }
        return Deleted(matches != []);
      }
      var ipAddress: string;
      if matches != [] {
        ipAddress := matches[0][3];
        OwnAddressIsOneLine(lines, username);
      } else {
        var allocation := Allocate(lines);
        if allocation.NoneFree? {
          return Refused(allocation.reason);
        }
        ipAddress := allocation.address;
        AllocatedIsOneLine(lines);
      }
      NameIsOneLine(username);
      PasswordIsOneLine(password);
      var line := PeerLine(username, config.server, password, ipAddress);
      PeerLineIsOneLine(username, config.server, password, ipAddress);
      retained := retained + [line];
      Write(retained);
      LastLineSettles(retained);
      reply := Placed(matches == [], ipAddress);
    }

    lemma AllocatedIsOneLine(lines: seq<string>)
      ensures match LeastFree(Used(lines), config.first, config.last)
              case Some(a) => OneLine(PrintAddress(a))
              case None => true
    {
      var free := LeastFree(Used(lines), config.first, config.last);
      if free.Some? {
        AddressCharacters(free.value);
      }
    }
  }

  lemma LastLineSettles(lines: seq<string>)
    requires lines != [] && lines[|lines| - 1] != ""
    ensures Settled(lines) == lines
  {
  }

  lemma NameIsOneLine(name: string)
    requires PeerName(name)
    ensures OneLine(name)
  {
    forall c | c in name ensures !IsLineBreak(c) {
      var i :| 0 <= i < |name| && name[i] == c;
      if i < 7 {
        assert name[..7][i] == "router-"[i];
      }
    }
  }

  lemma PasswordIsOneLine(password: string)
    requires PeerPassword(password)
    ensures OneLine(password)
  {
    forall c | c in password ensures !IsLineBreak(c) {
      var i :| 0 <= i < |password| && password[i] == c;
    }
  }

  // ------------------------------------------------------------------ tokens of one line are one line

  lemma {:induction false} TokensAreOneLine(s: string, mode: Mode, token: string, quoted: bool)
    requires OneLine(s) && OneLine(token)
    ensures Scan(s, mode, token, quoted).Some? ==> AllLines(Scan(s, mode, token, quoted).value)
    decreases |s|
  {
    if s != "" {
      var c, rest := s[0], s[1..];
      assert c in s && forall d | d in rest :: d in s;
      assert OneLine(rest) && OneLine([c]) && OneLine(token + [c]) && OneLine(token + ['\\', c]);
      hide IsLineBreak;
      match mode
      case Blank =>
        TokensAreOneLine(rest, Blank, "", false);
        TokensAreOneLine(rest, EscapedInWord, "", false);
        TokensAreOneLine(rest, InQuote(c), "", false);
        TokensAreOneLine(rest, Word, [c], false);
      case Word =>
        TokensAreOneLine(rest, Blank, "", false);
        TokensAreOneLine(rest, InQuote(c), token, quoted);
        TokensAreOneLine(rest, EscapedInWord, token, quoted);
        TokensAreOneLine(rest, Word, token + [c], quoted);
      case InQuote(q) =>
        TokensAreOneLine(rest, Word, token, true);
        TokensAreOneLine(rest, EscapedInQuote, token, true);
        TokensAreOneLine(rest, InQuote(q), token + [c], true);
      case EscapedInWord => TokensAreOneLine(rest, Word, token + [c], quoted);
      case EscapedInQuote =>
        TokensAreOneLine(rest, InQuote('"'), token + [c], quoted);
        TokensAreOneLine(rest, InQuote('"'), token + ['\\', c], quoted);
    }
  }

  lemma {:induction false} OwnAddressIsOneLine(lines: seq<string>, name: string)
    requires AllLines(lines)
    ensures forall t | t in Matches(lines, name) :: OneLine(t[3])
  {
    hide IsLineBreak, Scan, PeerName;
    if lines != [] {
      var front, last := lines[..|lines| - 1], lines[|lines| - 1];
      assert AllLines(front);
      OwnAddressIsOneLine(front, name);
      assert last in lines;
      TokensAreOneLine(last, Blank, "", false);
    }
  }
}
