/** When vpn_agent/agent.py takes a request for a peer and when it refuses one, and which address a
  new peer is given. */
module AgentAnswers {
  import opened Text
  import opened Ipv4
  import opened Shlex
  import opened ChapSecrets
  import opened AddressPool

  /** A lower-case UUID: 8, 4, 4, 4 and 12 hexadecimal digits with hyphens between. */
  predicate IsUuid(s: string) {
    && |s| == 36 && s[8] == '-' && s[13] == '-' && s[18] == '-' && s[23] == '-'
    && forall i | 0 <= i < 36 && i !in {8, 13, 18, 23} :: IsHex(s[i])
  }

  /** A character of the URL-safe alphabet. */
  predicate IsUrlSafe(c: char) {
    'a' <= c <= 'z' || 'A' <= c <= 'Z' || '0' <= c <= '9' || c == '-' || c == '_'
  }

  /** What the agent takes for a password. */
  predicate IsSecret(s: string) { 20 <= |s| <= 128 && forall c | c in s :: IsUrlSafe(c) }

  lemma UuidsAreNames(uid: string, name: string)
    requires name == "router-" + uid
    ensures PeerName(name) <==> IsUuid(uid)
  {
    hide IsHex;
    HexRange();
    assert name[..7] == "router-";
    if |uid| == 36 {
      assert forall i | 0 <= i < 36 :: uid[i] == name[i + 7];
      assert forall i | 7 <= i < 43 :: name[i] == uid[i - 7];
    }
  }

  lemma NamesAreUuids(name: string)
    ensures PeerName(name) <==> exists uid :: IsUuid(uid) && name == "router-" + uid
  {
    if PeerName(name) {
      assert name == name[..7] + name[7..];
      UuidsAreNames(name[7..], name);
    }
    if uid :| IsUuid(uid) && name == "router-" + uid {
      UuidsAreNames(uid, name);
    }
  }

  lemma SecretsAreTaken(password: string)
    ensures PeerPassword(password) <==> IsSecret(password)
  {
    assert forall i | 0 <= i < |password| :: password[i] in password;
  }

  /** The three refusals of a create or rotate, in their order, and when there is none: for a peer's
    name and a secret of 20 to 128 URL-safe characters it is carried out exactly when the name has a
    peer already or the pool has a free address. */
  lemma CallIsPlacedExactly(config: Config, lines: seq<string>, action: Action, name: string, password: string)
    requires ValidConfig(config) && !action.Delete?
    ensures
      var reply := Mutated(config, lines, action, name, password).1;
      var named, room := exists uid :: IsUuid(uid) && name == "router-" + uid,
                         name in Peers(lines) || FreePool(config, lines) != {};
      && (reply == Refused(InvalidUsername) <==> !named)
      && (reply == Refused(InvalidPassword) <==> named && !IsSecret(password))
      && (reply == Refused(if config.last == 0xFFFF_FFFF then InternalError else PoolExhausted) <==>
            named && IsSecret(password) && !room)
      && (reply.Placed? <==> named && IsSecret(password) && room)
      && (reply.Placed? ==> reply.created == (name !in Peers(lines)))
  {
    hide PeerName, PeerPassword, IsUuid, IsSecret, Matches, Peers, ChosenAddress, FreePool, PeerLine, Retained;
    NamesAreUuids(name);
    SecretsAreTaken(password);
    MatchesAreThePeer(lines, name);
    OwnAddressChosen(config, lines, name);
    if name !in Peers(lines) {
      AllocationIsLeastFree(config, lines, name);
    }
  }

  /** A delete is refused for a malformed name alone, and says whether there was such a peer. */
  lemma DeleteAnswers(config: Config, lines: seq<string>, name: string, password: string)
    ensures
      Mutated(config, lines, Delete, name, password).1
      == if exists uid :: IsUuid(uid) && name == "router-" + uid then Deleted(name in Peers(lines))
         else Refused(InvalidUsername)
  {
    hide PeerName, IsUuid, Matches, Peers, Retained, Settled;
    NamesAreUuids(name);
    MatchesAreThePeer(lines, name);
  }

  /** The line has a fourth word that is this address. */
  predicate Assigns(line: string, a: Address) {
    |Tokens(line)| >= 4 && ReadAddress(Tokens(line)[3]) == Some(a)
  }

  /** Some line of the file assigns it. */
  predicate IsAssigned(lines: seq<string>, a: Address) { exists line | line in lines :: Assigns(line, a) }

  lemma {:induction false} UsedIsAssigned(lines: seq<string>, a: Address)
    ensures a in Used(lines) <==> IsAssigned(lines, a)
  {
    hide Tokens, ReadAddress;
    if lines != [] {
      var front, last := lines[..|lines| - 1], lines[|lines| - 1];
      assert lines == front + [last];
      UsedIsAssigned(front, a);
      assert Assigns(last, a) <==> AddressOf(last) == Some(a);
      hide Assigns;
      if line :| line in lines && Assigns(line, a) {
        assert line in front || line == last;
      }
      if line :| line in front && Assigns(line, a) {
        assert line in lines;
      }
      assert last in lines;
    }
  }

  /** A new peer gets an address of the pool that no line of the file assigns, whoever's line it is,
    and every lower address of the pool is on some line. */
  lemma NewAddressIsOnNoLine(config: Config, lines: seq<string>, action: Action, name: string, password: string)
    requires ValidConfig(config) && name !in Peers(lines) && Mutated(config, lines, action, name, password).1.Placed?
    ensures
      var a := ReadAddress(Mutated(config, lines, action, name, password).1.address);
      && a.Some? && config.first <= a.value <= config.last
      && !IsAssigned(lines, a.value)
      && (forall b: Address | config.first <= b < a.value :: IsAssigned(lines, b))
  {
    hide PeerName, PeerPassword, Matches, Peers, Used, IsAssigned, ReadAddress, PrintAddress, LeastFree, PeerLine,
         Retained;
    MatchesAreThePeer(lines, name);
    var free := LeastFree(Used(lines), config.first, config.last).value;
    AddressRoundTrip(free);
    forall b: Address { UsedIsAssigned(lines, b); }
    assert forall b: Address | config.first <= b < free :: b in Used(lines);
  }
}
