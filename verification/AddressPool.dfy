/** The tunnel address pool of vpn_agent/agent.py over whole runs of `PeerStore.mutate`. */
module AddressPool {
  import opened Text
  import opened Ipv4
  import opened Shlex
  import opened ChapSecrets

  // ------------------------------------------------------------------ tidy files

  /** No two lines assign the same address. */
  predicate DistinctAddresses(lines: seq<string>) {
    lines == [] ||
    (var front, a := lines[..|lines| - 1], AddressOf(lines[|lines| - 1]);
     DistinctAddresses(front) && (a.Some? ==> a.value !in Used(front)))
  }

  predicate OneLinePerPeer(lines: seq<string>) {
    lines == [] ||
    (var front, t := lines[..|lines| - 1], Tokens(lines[|lines| - 1]);
     OneLinePerPeer(front) && (Managed(t) ==> t[0] !in Peers(front)))
  }

  /** What an operator's editing could break but the agent's own lines always meet: every
    peer's address can be written without quotes. */
  predicate BareAddresses(lines: seq<string>) {
    forall name | name in Peers(lines) :: BareWord(Peers(lines)[name].address)
  }

  predicate Tidy(lines: seq<string>) {
    DistinctAddresses(lines) && OneLinePerPeer(lines) && BareAddresses(lines)
  }

  // ------------------------------------------------------------------ appending and removing lines

  lemma UsedAppend(front: seq<string>, last: string)
    ensures Used(front + [last]) == Used(front) + if AddressOf(last).Some? then {AddressOf(last).value} else {}
    ensures DistinctAddresses(front + [last]) <==>
            DistinctAddresses(front) && (AddressOf(last).Some? ==> AddressOf(last).value !in Used(front))
    ensures OneLinePerPeer(front + [last]) <==>
            OneLinePerPeer(front) && (Managed(Tokens(last)) ==> Tokens(last)[0] !in Peers(front))
    ensures Foreign(front + [last]) == Foreign(front) + if Managed(Tokens(last)) || last == "" then [] else [last]
  {
    hide AddressOf, Tokens, Managed;
    assert (front + [last])[..|front|] == front;
  }

  lemma {:induction false} RetainedLines(lines: seq<string>, name: string)
    ensures Used(Retained(lines, name)) <= Used(lines)
    ensures DistinctAddresses(lines) ==> DistinctAddresses(Retained(lines, name))
    ensures OneLinePerPeer(lines) ==> OneLinePerPeer(Retained(lines, name))
    ensures Foreign(Retained(lines, name)) == Foreign(lines)
  {
    hide Tokens, PeerName, AddressOf;
    if lines != [] {
      var front, last := lines[..|lines| - 1], lines[|lines| - 1];
      assert lines == front + [last];
      RetainedLines(front, name);
      RetainedAppend(front, last, name);
      UsedAppend(front, last);
      if IsPeerLine(last, name) {
        assert Retained(lines, name) == Retained(front, name);
      } else {
        UsedAppend(Retained(front, name), last);
        PeersOfRetained(front, name);
      }
    }
  }

  lemma {:induction false} NothingToRetain(lines: seq<string>, name: string)
    requires name !in Peers(lines)
    ensures Retained(lines, name) == lines
  {
    hide Tokens, PeerName;
    if lines != [] {
      NothingToRetain(lines[..|lines| - 1], name);
    }
  }

  /** A peer's own address is on none of the other lines. */
  lemma {:induction false} OwnAddressIsUnique(lines: seq<string>, name: string)
    requires DistinctAddresses(lines) && OneLinePerPeer(lines) && name in Peers(lines)
    ensures
      var a := ReadAddress(Peers(lines)[name].address);
      a.Some? ==> a.value in Used(lines) && a.value !in Used(Retained(lines, name))
  {
    hide PeerName, ReadAddress, Split;
    var front, last := lines[..|lines| - 1], lines[|lines| - 1];
    assert lines == front + [last];
    RetainedAppend(front, last, name);
    UsedAppend(front, last);
    if IsPeerLine(last, name) {
      assert Retained(lines, name) == Retained(front, name);
      NothingToRetain(front, name);
    } else {
      OwnAddressIsUnique(front, name);
      UsedAppend(Retained(front, name), last);
    }
  }

  lemma {:induction false} SettledStaysTidy(lines: seq<string>)
    ensures DistinctAddresses(lines) ==>
              DistinctAddresses(DropTrailingBlanks(lines)) && DistinctAddresses(Settled(lines))
    ensures OneLinePerPeer(lines) ==> OneLinePerPeer(DropTrailingBlanks(lines)) && OneLinePerPeer(Settled(lines))
  {
    hide Tokens, PeerName, AddressOf;
    BlankAssignsNothing();
    assert [""][..0] == [];
    if lines != [] && lines[|lines| - 1] == "" {
      SettledStaysTidy(lines[..|lines| - 1]);
    }
  }

  lemma BlankAssignsNothing()
    ensures Tokens("") == [] && AddressOf("").None?
  {
    BlankHasNoTokens();
  }

  // ------------------------------------------------------------------ one call keeps a file tidy

  lemma MutateKeepsTidy(config: Config, lines: seq<string>, action: Action, name: string, password: string)
    requires Tidy(lines)
    ensures Tidy(Mutated(config, lines, action, name, password).0)
    ensures Foreign(Mutated(config, lines, action, name, password).0) == Foreign(lines)
  {
    hide PeerName, PeerPassword, PeerLine, Peers, Matches, Retained, Tokens, AddressOf, BareWord, Settled,
         DistinctAddresses, OneLinePerPeer, Used, Foreign, ChosenAddress;
    var (after, reply) := Mutated(config, lines, action, name, password);
    var others := Retained(lines, name);
    MutateUpdatesTheMap(config, lines, action, name, password);
    RetainedLines(lines, name);
    PeersOfRetained(lines, name);
    SettledStaysTidy(others);
    SettledKeepsMeaning(others);
    if reply.Placed? {
      PlacedAddressIsFree(config, lines, name);
      var line := PeerLine(name, config.server, password, reply.address);
      PeerLineReadsBack(name, config.server, password, reply.address);
      ManagedLine(line, name, config.server, password, reply.address);
      UsedAppend(others, line);
    }
  }

  lemma ManagedLine(line: string, name: string, server: string, password: string, address: string)
    requires Tokens(line) == [name, server, password, address] && PeerName(name)
    ensures Managed(Tokens(line)) && AddressOf(line) == ReadAddress(address)
  {
    hide PeerName, ReadAddress;
  }

  /** What a create or rotate assigns is a bare word that no other line uses. */
  lemma PlacedAddressIsFree(config: Config, lines: seq<string>, name: string)
    requires Tidy(lines) && ChosenAddress(config, lines, name).Some?
    ensures
      var address := ChosenAddress(config, lines, name).value;
      var a := ReadAddress(address);
      BareWord(address) && (a.Some? ==> a.value !in Used(Retained(lines, name)))
  {
    hide PeerName, Tokens, ReadAddress, Retained, Peers, Used, DistinctAddresses, OneLinePerPeer, LeastFree, BareWord,
         PrintAddress;
    MatchesAreThePeer(lines, name);
    if name in Peers(lines) {
      OwnAddressIsUnique(lines, name);
    } else {
      NothingToRetain(lines, name);
      var free := LeastFree(Used(lines), config.first, config.last);
      AddressRoundTrip(free.value);
      PrintedAddressIsBare(free.value);
    }
  }

  // ------------------------------------------------------------------ conservation

  predicate InRange(config: Config, a: Address) { config.first <= a <= config.last }

  function Pool(first: nat, last: Address): (pool: set<Address>)
    ensures forall a: Address :: a in pool <==> first <= a <= last
    decreases last + 1 - first
  {
    if first > last then {} else {first} + Pool(first + 1, last)
  }

  function FreePool(config: Config, lines: seq<string>): set<Address> {
    Pool(config.first, config.last) - Used(lines)
  }

  function UsedPool(config: Config, lines: seq<string>): set<Address> {
    set a | a in Used(lines) && InRange(config, a)
  }

  /** How many lines nobody manages take an address of the pool. */
  function ForeignInRange(config: Config, lines: seq<string>): nat {
    if lines == [] then 0 else
      var last := lines[|lines| - 1];
      ForeignInRange(config, lines[..|lines| - 1])
      + if !Managed(Tokens(last)) && AddressOf(last).Some? && InRange(config, AddressOf(last).value) then 1 else 0
  }

  predicate HoldsPoolAddress(config: Config, peer: Peer) {
    ReadAddress(peer.address).Some? && InRange(config, ReadAddress(peer.address).value)
  }

  /** The peers whose address is in the pool. */
  function PeersInRange(config: Config, lines: seq<string>): set<string> {
    set name | name in Peers(lines) && HoldsPoolAddress(config, Peers(lines)[name])
  }

  lemma {:induction false} PoolSize(first: nat, last: Address)
    requires first <= last + 1
    ensures |Pool(first, last)| == last + 1 - first
    decreases last + 1 - first
  {
    if first <= last {
      PoolSize(first + 1, last);
    }
  }

  lemma {:induction false} UsedPoolIsCounted(config: Config, lines: seq<string>)
    requires DistinctAddresses(lines) && OneLinePerPeer(lines)
    ensures |UsedPool(config, lines)| == ForeignInRange(config, lines) + |PeersInRange(config, lines)|
  {
    hide PeerName, Split, ReadAddress;
    if lines == [] {
      assert UsedPool(config, lines) == {} && PeersInRange(config, lines) == {};
    } else {
      var front, last := lines[..|lines| - 1], lines[|lines| - 1];
      assert lines == front + [last];
      UsedPoolIsCounted(config, front);
      UsedPoolAppend(config, front, last);
      PeersInRangeAppend(config, front, last);
    }
  }

  lemma UsedPoolAppend(config: Config, front: seq<string>, last: string)
    requires AddressOf(last).Some? ==> AddressOf(last).value !in Used(front)
    ensures |UsedPool(config, front + [last])| ==
            |UsedPool(config, front)| + if AddressOf(last).Some? && InRange(config, AddressOf(last).value) then 1 else 0
  {
    hide Tokens, AddressOf, Used, DistinctAddresses, OneLinePerPeer, Foreign, Peers;
    UsedAppend(front, last);
    var before, after := UsedPool(config, front), UsedPool(config, front + [last]);
    if AddressOf(last).Some? && InRange(config, AddressOf(last).value) {
      assert after == before + {AddressOf(last).value};
    } else {
      assert after == before;
    }
  }

  lemma PeersInRangeAppend(config: Config, front: seq<string>, last: string)
    requires Managed(Tokens(last)) ==> Tokens(last)[0] !in Peers(front)
    ensures |PeersInRange(config, front + [last])| ==
            |PeersInRange(config, front)|
            + if Managed(Tokens(last)) && AddressOf(last).Some? && InRange(config, AddressOf(last).value) then 1 else 0
  {
    hide PeerName, Tokens, Peers, ReadAddress;
    PeersAppend(front, last);
    var t := Tokens(last);
    var before, after := PeersInRange(config, front), PeersInRange(config, front + [last]);
    if Managed(t) {
      var peer := Peer(t[1], t[2], t[3]);
      assert Peers(front + [last]) == Peers(front)[t[0] := peer];
      if HoldsPoolAddress(config, peer) {
        assert after == before + {t[0]};
      } else {
        assert after == before;
      }
    } else {
      assert after == before;
    }
  }

  /** Every address of the pool is free, taken by a foreign line, or held by one live peer. */
  lemma PoolIsConserved(config: Config, lines: seq<string>)
    requires ValidConfig(config) && DistinctAddresses(lines) && OneLinePerPeer(lines)
    ensures |FreePool(config, lines)| ==
            (config.last + 1 - config.first) - ForeignInRange(config, lines) - |PeersInRange(config, lines)|
  {
    hide Used, DistinctAddresses, OneLinePerPeer, ForeignInRange, PeersInRange;
    UsedPoolIsCounted(config, lines);
    PoolSize(config.first, config.last);
    var pool := Pool(config.first, config.last);
    var free, taken := FreePool(config, lines), UsedPool(config, lines);
    assert pool == free + taken && free * taken == {};
  }

  /** A new peer gets the least free address; it is refused exactly when none is free. */
  lemma AllocationIsLeastFree(config: Config, lines: seq<string>, name: string)
    requires ValidConfig(config) && name !in Peers(lines)
    ensures ChosenAddress(config, lines, name).None? <==> FreePool(config, lines) == {}
    ensures ChosenAddress(config, lines, name).Some? ==>
              var a := ReadAddress(ChosenAddress(config, lines, name).value);
              a.Some? && a.value in FreePool(config, lines) && forall b | b in FreePool(config, lines) :: a.value <= b
  {
    hide Matches, Peers, ReadAddress, PrintAddress, Used;
    MatchesAreThePeer(lines, name);
    var free := LeastFree(Used(lines), config.first, config.last);
    if free.Some? {
      AddressRoundTrip(free.value);
      assert free.value in FreePool(config, lines);
    }
  }

  // ------------------------------------------------------------------ whole runs

  datatype Call = Call(action: Action, name: string, password: string)

  function RunCalls(config: Config, lines: seq<string>, calls: seq<Call>): seq<string>
    decreases |calls|
  {
    if calls == [] then lines
    else RunCalls(config, Mutated(config, lines, calls[0].action, calls[0].name, calls[0].password).0, calls[1..])
  }

  /** Any sequence of calls keeps addresses distinct, one line a peer, and every foreign line. */
  lemma {:induction false} RunKeepsTidy(config: Config, lines: seq<string>, calls: seq<Call>)
    requires Tidy(lines)
    ensures Tidy(RunCalls(config, lines, calls))
    ensures Foreign(RunCalls(config, lines, calls)) == Foreign(lines)
    decreases |calls|
  {
    hide Tidy, Mutated, Foreign;
    if calls != [] {
      MutateKeepsTidy(config, lines, calls[0].action, calls[0].name, calls[0].password);
      RunKeepsTidy(config, Mutated(config, lines, calls[0].action, calls[0].name, calls[0].password).0, calls[1..]);
    }
  }

  /** A live peer keeps its address for as long as nobody deletes it. */
  lemma {:induction false} RunKeepsAddress(config: Config, lines: seq<string>, calls: seq<Call>, name: string)
    requires Tidy(lines) && name in Peers(lines)
    requires forall c | c in calls :: !(c.action.Delete? && c.name == name)
    ensures name in Peers(RunCalls(config, lines, calls))
    ensures Peers(RunCalls(config, lines, calls))[name].address == Peers(lines)[name].address
    decreases |calls|
  {
    if calls != [] {
      var c := calls[0];
      var next := Mutated(config, lines, c.action, c.name, c.password).0;
      MutateKeepsTidy(config, lines, c.action, c.name, c.password);
      OtherPeersStay(config, lines, c, name);
      RunKeepsAddress(config, next, calls[1..], name);
    }
  }

  lemma OtherPeersStay(config: Config, lines: seq<string>, c: Call, name: string)
    requires Tidy(lines) && name in Peers(lines) && !(c.action.Delete? && c.name == name)
    ensures
      var next := Peers(Mutated(config, lines, c.action, c.name, c.password).0);
      name in next && next[name].address == Peers(lines)[name].address
  {
    hide Tokens, PeerName, PeerPassword, PeerLine, Peers, Matches, Retained, BareWord, Settled, DistinctAddresses,
         OneLinePerPeer;
    MutateUpdatesTheMap(config, lines, c.action, c.name, c.password);
    var before, after := Peers(lines), Peers(Mutated(config, lines, c.action, c.name, c.password).0);
    if name != c.name {
      assert (after - {c.name})[name] == (before - {c.name})[name];
    }
  }
}
