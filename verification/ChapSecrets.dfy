/** What the lines of the PPP secrets file mean to vpn_agent/agent.py, and what one call of
  `PeerStore.mutate` makes of them. */
module ChapSecrets {
  import opened Text
  import opened Ipv4
  import opened Shlex

  // ------------------------------------------------------------------ names and passwords

  predicate IsLowerHex(c: char) { '0' <= c <= '9' || 'a' <= c <= 'f' }

  /** PEER_PATTERN: `router-` and a lower-case UUID. */
  predicate PeerName(s: string) {
    && |s| == 43
    && s[..7] == "router-"
    && forall i | 7 <= i < 43 ::
         if i == 15 || i == 20 || i == 25 || i == 30 then s[i] == '-' else IsLowerHex(s[i])
  }

  /** PASSWORD_PATTERN */
  predicate PeerPassword(s: string) {
    && 20 <= |s| <= 128
    && forall i | 0 <= i < |s| ::
         '0' <= s[i] <= '9' || 'a' <= s[i] <= 'z' || 'A' <= s[i] <= 'Z' || s[i] == '_' || s[i] == '-'
  }

  // ------------------------------------------------------------------ reading the lines

  predicate Managed(tokens: seq<string>) {
    |tokens| >= 4 && PeerName(tokens[0])
  }

  predicate IsPeerLine(line: string, name: string) {
    Managed(Tokens(line)) && Tokens(line)[0] == name
  }

  function AddressOf(line: string): Option<Address> {
    var tokens := Tokens(line);
    if |tokens| >= 4 then ReadAddress(tokens[3]) else None
  }

  /** The tokens of the lines that belong to `name`. */
  function Matches(lines: seq<string>, name: string): (found: seq<seq<string>>)
    ensures forall t | t in found :: |t| >= 4
  {
    if lines == [] then [] else
      var front, last := lines[..|lines| - 1], lines[|lines| - 1];
      Matches(front, name) + if IsPeerLine(last, name) then [Tokens(last)] else []
  }

  /** All other lines. */
  function Retained(lines: seq<string>, name: string): (kept: seq<string>)
    ensures AllLines(lines) ==> AllLines(kept)
  {
    if lines == [] then [] else
      var front, last := lines[..|lines| - 1], lines[|lines| - 1];
      Retained(front, name) + if IsPeerLine(last, name) then [] else [last]
  }

  /** Every address some line assigns. */
  function Used(lines: seq<string>): set<Address> {
    if lines == [] then {} else
      var a := AddressOf(lines[|lines| - 1]);
      Used(lines[..|lines| - 1]) + if a.Some? then {a.value} else {}
  }

  datatype Peer = Peer(server: string, password: string, address: string)

  /** The file as a map: the first line of a peer is the one that counts. */
  function Peers(lines: seq<string>): map<string, Peer> {
    if lines == [] then map[] else
      AddPeer(Peers(lines[..|lines| - 1]), Tokens(lines[|lines| - 1]))
  }

  function AddPeer(peers: map<string, Peer>, t: seq<string>): map<string, Peer> {
    if Managed(t) && t[0] !in peers then peers[t[0] := Peer(t[1], t[2], t[3])] else peers
  }

  /** The lines nobody manages, blank ones aside. */
  function Foreign(lines: seq<string>): seq<string> {
    if lines == [] then [] else
      var last := lines[|lines| - 1];
      Foreign(lines[..|lines| - 1]) + if Managed(Tokens(last)) || last == "" then [] else [last]
  }

  // ------------------------------------------------------------------ one call

  datatype Config = Config(server: string, first: Address, last: Address)

  predicate ValidConfig(config: Config) {
    config.first <= config.last && OneLine(config.server)
  }

  datatype Action = Create | Rotate | Delete

  datatype Refusal = InvalidUsername | InvalidPassword | PoolExhausted | InternalError

  datatype Reply =
    | Deleted(deleted: bool)
    | Placed(created: bool, address: string)
    | Refused(reason: Refusal)

  function LeastFree(used: set<Address>, from: nat, last: Address): (a: Option<Address>)
    ensures a.Some? ==> from <= a.value <= last && a.value !in used
    ensures a.Some? ==> forall b: Address | from <= b < a.value :: b in used
    ensures a.None? ==> forall b: Address | from <= b <= last :: b in used
    decreases last + 1 - from
  {
    if from > last then None else if from in used then LeastFree(used, from + 1, last) else Some(from)
  }

  const TOP: Address := 0xFFFF_FFFF

  /** How a full pool is reported: past 255.255.255.255 the allocator cannot count, and raises. */
  function FullPool(config: Config): Refusal { if config.last == TOP then InternalError else PoolExhausted }

  function PeerLine(name: string, server: string, password: string, address: string): string {
    Quote(name) + " " + Quote(server) + " " + Quote(password) + " " + address
  }

  /** The address a create or rotate gives: the peer's own, else the least free one. */
  function ChosenAddress(config: Config, lines: seq<string>, name: string): Option<string> {
    var own := Matches(lines, name);
    if own != [] then Some(own[0][3])
    else match LeastFree(Used(lines), config.first, config.last)
         case Some(a) => Some(PrintAddress(a))
         case None => None
  }

  /** The lines of the file and the answer after `mutate(action, name, password)`. */
  function Mutated(config: Config, lines: seq<string>, action: Action, name: string, password: string)
    : (seq<string>, Reply)
  {
    if !PeerName(name) then (lines, Refused(InvalidUsername))
    else if !action.Delete? && !PeerPassword(password) then (lines, Refused(InvalidPassword))
    else if action.Delete? then
      if Matches(lines, name) == [] then (lines, Deleted(false)) else (Settled(Retained(lines, name)), Deleted(true))
    else
      match ChosenAddress(config, lines, name)
      case None => (lines, Refused(FullPool(config)))
      case Some(address) =>
        (Retained(lines, name) + [PeerLine(name, config.server, password, address)],
         Placed(Matches(lines, name) == [], address))
  }

  /** What `_write` puts into the file. */
  function WrittenText(lines: seq<string>): string { StripNewlines(JoinLines(lines)) + "\n" }

  /** The whole text of the file after `mutate(action, name, password)`. */
  function MutatedText(config: Config, text: string, action: Action, name: string, password: string): string {
    var lines := SplitLines(text);
    var (after, reply) := Mutated(config, lines, action, name, password);
    match reply
    case Refused(_) => text
    case Deleted(deleted) => if deleted then WrittenText(Retained(lines, name)) else text
    case Placed(_, _) => WrittenText(after)
  }

  // ------------------------------------------------------------------ the written line

  lemma PeerLineTokens(name: string, server: string, password: string, address: string)
    ensures Tokens(PeerLine(name, server, password, address)) ==
            if Split(address).Some? then [name, server, password] + Tokens(address) else []
  {
    hide Quote, Scan;
    var rest2 := Quote(password) + " " + address;
    var rest1 := Quote(server) + " " + rest2;
    ReadQuotedThenBlank(password, address);
    ReadQuotedThenBlank(server, rest2);
    ReadQuotedThenBlank(name, rest1);
    assert PeerLine(name, server, password, address) == Quote(name) + " " + rest1;
  }

  /** The line read back gives its four fields exactly when the address is a bare word. */
  lemma PeerLineReadsBack(name: string, server: string, password: string, address: string)
    ensures BareWord(address) ==>
              Tokens(PeerLine(name, server, password, address)) == [name, server, password, address]
    ensures (|Tokens(PeerLine(name, server, password, address))| >= 4
             && Tokens(PeerLine(name, server, password, address))[3] == address) <==> BareWord(address)
  {
    hide PeerLine, Scan;
    PeerLineTokens(name, server, password, address);
    BareWordExactly(address);
  }

  lemma PrintedAddressIsBare(a: Address)
    ensures BareWord(PrintAddress(a))
  {
    AddressCharacters(a);
  }

  lemma {:induction false} EscapeStaysOneLine(value: string)
    requires OneLine(value)
    ensures OneLine(Escape(value))
  {
    if value != "" {
      EscapeHead(value);
      assert value[0] in value;
      assert forall c | c in value[1..] :: c in value;
      EscapeStaysOneLine(value[1..]);
      var head, tail := EscapeChar(value[0]), Escape(value[1..]);
      assert forall c | c in head + tail :: c in head || c in tail;
    }
  }

  lemma PeerLineIsOneLine(name: string, server: string, password: string, address: string)
    requires OneLine(name) && OneLine(server) && OneLine(password) && OneLine(address)
    ensures OneLine(PeerLine(name, server, password, address)) && PeerLine(name, server, password, address) != ""
  {
    EscapeStaysOneLine(name);
    EscapeStaysOneLine(server);
    EscapeStaysOneLine(password);
  }

  // ------------------------------------------------------------------ the map

  lemma {:induction false} MatchesAreThePeer(lines: seq<string>, name: string)
    ensures Matches(lines, name) != [] <==> name in Peers(lines)
    ensures name in Peers(lines) ==>
              Peers(lines)[name]
              == Peer(Matches(lines, name)[0][1], Matches(lines, name)[0][2], Matches(lines, name)[0][3])
  {
    hide Tokens, PeerName;
    if lines != [] {
      MatchesAreThePeer(lines[..|lines| - 1], name);
    }
  }

  lemma PeersAppend(lines: seq<string>, line: string)
    ensures Peers(lines + [line]) == AddPeer(Peers(lines), Tokens(line))
  {
    hide Tokens, AddPeer;
    assert (lines + [line])[..|lines|] == lines;
  }

  lemma AddThenRemove(peers: map<string, Peer>, t: seq<string>, name: string)
    ensures AddPeer(peers, t) - {name} ==
            if Managed(t) && t[0] == name then peers - {name} else AddPeer(peers - {name}, t)
  {
    hide PeerName;
  }

  lemma {:induction false} PeersOfRetained(lines: seq<string>, name: string)
    ensures Peers(Retained(lines, name)) == Peers(lines) - {name}
  {
    if lines != [] {
      var front, last := lines[..|lines| - 1], lines[|lines| - 1];
      assert lines == front + [last];
      PeersOfRetained(front, name);
      hide Tokens, Managed, Peers, Retained, AddPeer;
      PeersAppend(front, last);
      AddThenRemove(Peers(front), Tokens(last), name);
      RetainedAppend(front, last, name);
      if IsPeerLine(last, name) {
        assert Retained(front, name) + [] == Retained(front, name);
      } else {
        PeersAppend(Retained(front, name), last);
      }
    }
  }

  lemma RetainedAppend(front: seq<string>, last: string, name: string)
    ensures Retained(front + [last], name) == Retained(front, name) + if IsPeerLine(last, name) then [] else [last]
  {
    hide IsPeerLine;
    assert (front + [last])[..|front|] == front;
  }

  lemma BlankHasNoTokens()
    ensures Tokens("") == []
  {
  }

  lemma {:induction false} SettledKeepsMeaning(lines: seq<string>)
    ensures Peers(DropTrailingBlanks(lines)) == Peers(lines) == Peers(Settled(lines))
    ensures Used(DropTrailingBlanks(lines)) == Used(lines) == Used(Settled(lines))
    ensures Foreign(DropTrailingBlanks(lines)) == Foreign(lines) == Foreign(Settled(lines))
  {
    hide Tokens, PeerName;
    BlankHasNoTokens();
    assert [""][..0] == [];
    if lines != [] && lines[|lines| - 1] == "" {
      SettledKeepsMeaning(lines[..|lines| - 1]);
    }
  }

  lemma RetainedNone(name: string)
    ensures Retained([], name) == []
  {
  }

  lemma {:induction false} RetainedTwice(lines: seq<string>, name: string)
    ensures Retained(Retained(lines, name), name) == Retained(lines, name)
  {
    hide *;
    if lines == [] {
      RetainedNone(name);
    } else {
      var front, last := lines[..|lines| - 1], lines[|lines| - 1];
      assert front + [last] == lines;
      RetainedTwice(front, name);
      RetainedAppend(front, last, name);
      RetainedAppend(Retained(front, name), last, name);
      assert Retained(front, name) + [] == Retained(front, name);
    }
  }

  lemma {:induction false} RetainedDropsBlanks(lines: seq<string>, name: string)
    requires Retained(lines, name) == lines
    ensures Retained(DropTrailingBlanks(lines), name) == DropTrailingBlanks(lines)
  {
    hide IsPeerLine;
    if lines != [] && lines[|lines| - 1] == "" {
      var front := lines[..|lines| - 1];
      RetainedAppend(front, "", name);
      assert front + [""] == lines;
      RetainedShorter(front, name);
      RetainedDropsBlanks(front, name);
    }
  }

  lemma {:induction false} RetainedShorter(lines: seq<string>, name: string)
    ensures |Retained(lines, name)| <= |lines|
    ensures |Retained(lines, name)| == |lines| ==> Retained(lines, name) == lines
  {
    hide IsPeerLine;
    if lines != [] {
      RetainedShorter(lines[..|lines| - 1], name);
    }
  }

  lemma SettledRetained(lines: seq<string>, name: string)
    requires PeerName(name)
    ensures Retained(Settled(Retained(lines, name)), name) == Settled(Retained(lines, name))
  {
    hide PeerName;
    RetainedTwice(lines, name);
    RetainedDropsBlanks(Retained(lines, name), name);
    BlankHasNoTokens();
    assert [""][..0] == [];
  }

  /** All lines but the peer's own, whether foreign, blank or another peer's, keep their text and
    order; a deletion drops the blank lines at the end of the file. */
  lemma OtherLinesStay(config: Config, lines: seq<string>, action: Action, name: string, password: string)
    ensures
      var (after, reply) := Mutated(config, lines, action, name, password);
      match reply
      case Refused(_) => after == lines
      case Deleted(deleted) =>
        Retained(after, name) == if deleted then Settled(Retained(lines, name)) else Retained(lines, name)
      case Placed(_, address) => BareWord(address) ==> Retained(after, name) == Retained(lines, name)
  {
    hide PeerPassword, Retained, Matches, ChosenAddress, BareWord, Settled, Tokens, PeerName, PeerLine;
    var (after, reply) := Mutated(config, lines, action, name, password);
    if reply == Deleted(true) {
      SettledRetained(lines, name);
    } else if reply.Placed? {
      var line := PeerLine(name, config.server, password, reply.address);
      PeerLineReadsBack(name, config.server, password, reply.address);
      RetainedTwice(lines, name);
      RetainedAppend(Retained(lines, name), line, name);
    }
  }

  /** `mutate` is an update of the map from peer names to their secrets. */
  lemma MutateUpdatesTheMap(config: Config, lines: seq<string>, action: Action, name: string, password: string)
    ensures
      var (after, reply) := Mutated(config, lines, action, name, password);
      match reply
      case Refused(_) => after == lines
      case Deleted(deleted) => Peers(after) == Peers(lines) - {name} && (deleted <==> name in Peers(lines))
      case Placed(created, address) =>
        && (created <==> name !in Peers(lines))
        && (name in Peers(lines) ==> address == Peers(lines)[name].address)
        && (BareWord(address) ==> Peers(after) == Peers(lines)[name := Peer(config.server, password, address)])
        && (BareWord(address) <==> name in Peers(after) && Peers(after)[name].address == address)
        && Peers(after) - {name} == Peers(lines) - {name}
  {
    hide Tokens, PeerName, PeerPassword, PeerLine, Peers, Matches, Retained, ChosenAddress, BareWord, Settled;
    var (after, reply) := Mutated(config, lines, action, name, password);
    MatchesAreThePeer(lines, name);
    PeersOfRetained(lines, name);
    SettledKeepsMeaning(Retained(lines, name));
    if reply.Placed? {
      OwnAddressChosen(config, lines, name);
      WrittenPeer(Retained(lines, name), name, config.server, password, reply.address);
    }
  }

  /** Appending a peer's line to a file that has no other line of that peer. */
  lemma WrittenPeer(others: seq<string>, name: string, server: string, password: string, address: string)
    requires PeerName(name) && name !in Peers(others)
    ensures
      var after := Peers(others + [PeerLine(name, server, password, address)]);
      && (BareWord(address) ==> after == Peers(others)[name := Peer(server, password, address)])
      && (BareWord(address) <==> name in after && after[name].address == address)
      && after - {name} == Peers(others)
  {
    hide Tokens, PeerName, PeerLine, Peers, BareWord;
    PeersAppend(others, PeerLine(name, server, password, address));
    PeerLineTokens(name, server, password, address);
    PeerLineReadsBack(name, server, password, address);
    assert Peers(others) - {name} == Peers(others);
  }

  lemma OwnAddressChosen(config: Config, lines: seq<string>, name: string)
    ensures Matches(lines, name) != [] ==> ChosenAddress(config, lines, name) == Some(Matches(lines, name)[0][3])
  {
  }
}
