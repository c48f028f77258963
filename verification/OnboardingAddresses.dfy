/** The tunnel addresses of routers onboarded through the agent. The code reads 0.0.0.0 as "no
  address yet", so a router that was really given 0.0.0.0 can be moved off it by a claim; here is
  exactly when that can happen, and what holds in every run when it cannot. */
module OnboardingAddresses {
  import opened Text
  import opened Ipv4
  import opened Shlex
  import opened ChapSecrets
  import opened AddressPool
  import opened OnboardingModel

  lemma UnknownIpIsZero()
    ensures ReadAddress(UNKNOWN_IP) == Some(0) && PrintAddress(0) == UNKNOWN_IP
  {
    AddressRoundTrip(0);
    hide ReadAddress;
    assert PrintAddress(0) == UNKNOWN_IP;
  }

  lemma OnlyUnknownIpIsZero(value: string)
    ensures ReadAddress(value) == Some(0) <==> value == UNKNOWN_IP
  {
    hide ReadAddress, PrintAddress;
    UnknownIpIsZero();
    if ReadAddress(value).Some? {
      AddressUnique(value);
    }
  }

  // ------------------------------------------------------------------ one claim

  /** The text names an address of the control networks other than 0.0.0.0. */
  predicate NamesAnother(tunnelIp: string, allowed: Networks) {
    match ReadAddress(BeforeSlash(tunnelIp))
    case Some(a) => a in allowed.quads && a != 0
    case None => allowed.wide(BeforeSlash(tunnelIp)).Some?
  }

  lemma AnotherIsStored(tunnelIp: string, allowed: Networks)
    ensures NamesAnother(tunnelIp, allowed)
            <==> ValidClaimIp(tunnelIp, allowed).Some? && ValidClaimIp(tunnelIp, allowed).value != UNKNOWN_IP
  {
    hide ReadAddress, PrintAddress;
    UnknownIpIsZero();
    match ReadAddress(BeforeSlash(tunnelIp))
    case Some(a) => AddressRoundTrip(a);
    case None =>
      var stored := allowed.wide(BeforeSlash(tunnelIp));
      assert stored.Some? ==> ':' in stored.value;
      assert ':' !in UNKNOWN_IP;
  }

  /** A claim writes a new address exactly when the row says 0.0.0.0, its token has not expired, it
    is not claimed, and the address claimed is some other one of the control networks. */
  lemma ClaimMovesExactly(r: Router, tunnelIp: string, now: int, allowed: Networks)
    ensures
      ClaimOn(r, tunnelIp, now, allowed).0.ip != r.ip
      <==> && r.ip == UNKNOWN_IP && r.expires.Some? && r.expires.value >= now && !r.status.Claimed?
           && NamesAnother(tunnelIp, allowed)
  {
    hide ValidClaimIp, NamesAnother;
    AnotherIsStored(tunnelIp, allowed);
  }

  /** The control networks hold no address but 0.0.0.0. */
  ghost predicate OnlyZero(allowed: Networks) {
    allowed.quads <= {0} && forall raw :: allowed.wide(raw).None?
  }

  lemma OnlyZeroNamesNoOther(allowed: Networks, tunnelIp: string)
    requires OnlyZero(allowed)
    ensures !NamesAnother(tunnelIp, allowed)
  {
    hide ReadAddress;
  }

  // ------------------------------------------------------------------ when 0.0.0.0 is never given

  /** No peer's line says 0.0.0.0. */
  predicate NoZeroPeer(lines: seq<string>) {
    forall name | name in Peers(lines) :: Peers(lines)[name].address != UNKNOWN_IP
  }

  /** The agent will not give out 0.0.0.0: no peer has it, and it lies outside the pool or on a
    line of somebody else. */
  predicate ZeroNotGiven(pool: Config, lines: seq<string>) {
    NoZeroPeer(lines) && (pool.first > 0 || 0 in Used(lines))
  }

  /** Nothing can be moved: 0.0.0.0 is not accepted, or nothing else is, or it is never given. */
  ghost predicate Settling(s: Settings, lines: seq<string>) {
    0 !in s.allowed.quads || OnlyZero(s.allowed) || ZeroNotGiven(s.pool, lines)
  }

  lemma EarlierPeersStay(front: seq<string>, last: string)
    ensures forall name | name in Peers(front) ::
              name in Peers(front + [last]) && Peers(front + [last])[name] == Peers(front)[name]
    ensures Managed(Tokens(last)) && Tokens(last)[0] !in Peers(front) ==>
              && Tokens(last)[0] in Peers(front + [last])
              && Peers(front + [last])[Tokens(last)[0]].address == Tokens(last)[3]
  {
    hide Tokens, PeerName, Peers;
    PeersAppend(front, last);
  }

  /** A line with 0.0.0.0 that is no peer's survives every call. */
  lemma {:induction false} ForeignZeroStays(lines: seq<string>, name: string)
    requires OneLinePerPeer(lines) && NoZeroPeer(lines) && 0 in Used(lines)
    ensures 0 in Used(Retained(lines, name))
  {
    hide ReadAddress, PeerName, Tokens, Peers, Used, Retained, OneLinePerPeer;
    if lines == [] {
      assert Used([]) == {} by {
        NothingUsed();
      }
    } else {
      var front, last := lines[..|lines| - 1], lines[|lines| - 1];
      assert lines == front + [last];
      UsedAppend(front, last);
      RetainedAppend(front, last, name);
      EarlierPeersStay(front, last);
      UsedAppend(Retained(front, name), last);
      if AddressOf(last) == Some(0) {
        OnlyUnknownIpIsZero(Tokens(last)[3]);
      } else {
        ForeignZeroStays(front, name);
        assert Retained(front, name) + [] == Retained(front, name);
      }
    }
  }

  lemma NothingUsed()
    ensures Used([]) == {} && Peers([]) == map[]
  {
  }

  /** Every call keeps 0.0.0.0 from being given, and gives some other address. */
  lemma MutateGivesNoZero(pool: Config, lines: seq<string>, action: Action, name: string, password: string)
    requires Tidy(lines) && ZeroNotGiven(pool, lines)
    ensures
      var (after, reply) := Mutated(pool, lines, action, name, password);
      ZeroNotGiven(pool, after) && (reply.Placed? ==> reply.address != UNKNOWN_IP)
  {
    hide PeerName, PeerPassword, PeerLine, Peers, Matches, Retained, Tokens, AddressOf, BareWord, Settled,
         DistinctAddresses, Used, ChosenAddress, ReadAddress;
    var (after, reply) := Mutated(pool, lines, action, name, password);
    MutateUpdatesTheMap(pool, lines, action, name, password);
    SettledKeepsMeaning(Retained(lines, name));
    if pool.first == 0 {
      ForeignZeroStays(lines, name);
    }
    if reply.Placed? {
      ChosenIsNotZero(pool, lines, name);
      PlacedAddressIsFree(pool, lines, name);
      UsedAppend(Retained(lines, name), PeerLine(name, pool.server, password, reply.address));
      OtherEntries(Peers(lines), Peers(after), name);
    }
  }

  lemma ChosenIsNotZero(pool: Config, lines: seq<string>, name: string)
    requires ZeroNotGiven(pool, lines) && ChosenAddress(pool, lines, name).Some?
    ensures ChosenAddress(pool, lines, name).value != UNKNOWN_IP
  {
    hide PeerName, Peers, Matches, Tokens, Used, ReadAddress, PrintAddress, LeastFree;
    MatchesAreThePeer(lines, name);
    if Matches(lines, name) == [] {
      var free := LeastFree(Used(lines), pool.first, pool.last).value;
      AddressRoundTrip(free);
      UnknownIpIsZero();
    }
  }

  // ------------------------------------------------------------------ in every run

  /** Routers still have the address their peer was given, and nothing can move them. */
  ghost predicate AddressesKept(s: Settings, w: World) {
    && Settling(s, w.lines)
    && (forall uid | uid in w.granted && Live(w, uid) && uid !in w.edited ::
          w.routers[uid].ip == w.granted[uid] && (w.granted[uid] != UNKNOWN_IP || OnlyZero(s.allowed)))
  }

  lemma CallsKeepSettling(s: Settings, lines: seq<string>, uid: string, password: string, call: AgentCall)
    requires FileKept(lines) && Settling(s, lines)
    ensures Settling(s, AgentCreate(s.pool, lines, uid, password, call).0)
    ensures Settling(s, AgentDelete(s.pool, lines, uid, call))
  {
    hide Mutated, ZeroNotGiven, Tidy;
    if ZeroNotGiven(s.pool, lines) {
      MutateGivesNoZero(s.pool, lines, Create, PeerOf(uid), password);
      MutateGivesNoZero(s.pool, lines, Delete, PeerOf(uid), "");
    }
  }

  lemma StepKeepsSettling(s: Settings, w: World, step: Step)
    requires PeersKept(w) && Settling(s, w.lines)
    ensures Settling(s, Next(s, w, step).lines)
  {
    hide Settling, FileKept, HasPeer, AgentCreate, AgentDelete, ValidClaimIp, ClaimOn, SlugFree;
    match step
    case AskAgent(uid, password, call) => CallsKeepSettling(s, w.lines, uid, password, call);
    case EndOnboarding(uid, request, commits, revocation) => CallsKeepSettling(s, w.lines, uid, "", revocation);
    case Revoke(uid, call) => CallsKeepSettling(s, w.lines, uid, "", call);
    case _ =>
  }

  /** The address of an onboarding that commits. */
  lemma CommittedAddress(s: Settings, w: World, uid: string)
    requires PeersKept(w) && Settling(s, w.lines) && uid in w.inFlight && ValidClaimIp(w.inFlight[uid], s.allowed).Some?
    ensures ValidClaimIp(w.inFlight[uid], s.allowed).value == w.inFlight[uid]
    ensures w.inFlight[uid] != UNKNOWN_IP || OnlyZero(s.allowed)
  {
    hide FileKept, ValidClaimIp, ReadAddress, Peers;
    InFlightReads(w, uid);
    AcceptedAddressIsItself(w.inFlight[uid], s.allowed);
    UnknownIpIsZero();
  }

  lemma ClaimStays(s: Settings, r: Router, tunnelIp: string, now: int)
    requires r.ip != UNKNOWN_IP || OnlyZero(s.allowed)
    ensures ClaimOn(r, tunnelIp, now, s.allowed).0.ip == r.ip
    ensures ClaimOn(r, tunnelIp, now, s.allowed).0.status.Deleted? ==> r.status.Deleted?
  {
    hide ReadAddress, PrintAddress, OnlyZero, NamesAnother;
    ClaimMovesExactly(r, tunnelIp, now, s.allowed);
    if OnlyZero(s.allowed) {
      OnlyZeroNamesNoOther(s.allowed, tunnelIp);
    }
  }

  lemma StepKeepsAddresses(s: Settings, w: World, step: Step)
    requires Inv(w) && AddressesKept(s, w)
    ensures AddressesKept(s, Next(s, w, step))
  {
    hide Settling, FileKept, HasPeer, RowsKept, AgentCreate, AgentDelete, ValidClaimIp, ClaimOn, SlugFree;
    StepKeepsSettling(s, w, step);
    if step.EndOnboarding? && step.uid in w.inFlight && ValidClaimIp(w.inFlight[step.uid], s.allowed).Some? {
      CommittedAddress(s, w, step.uid);
    } else if step.Claim? && step.uid in w.routers {
      LiveClaims(s, w, step);
    }
  }

  lemma LiveClaims(s: Settings, w: World, step: Step)
    requires AddressesKept(s, w) && step.Claim? && step.uid in w.routers && RowsKept(w)
    ensures
      var v, uid := Next(s, w, step), step.uid;
      uid in w.granted && Live(v, uid) && uid !in w.edited ==> Live(w, uid) && v.routers[uid].ip == w.granted[uid]
  {
    hide Settling, ClaimOn;
    assert RowKept(w.routers[step.uid]);
    if step.uid in w.granted && Live(w, step.uid) && step.uid !in w.edited {
      ClaimStays(s, w.routers[step.uid], step.tunnelIp, step.now);
    }
  }

  lemma {:induction false} RunKeepsAddresses(s: Settings, w: World, steps: seq<Step>)
    requires Inv(w) && AddressesKept(s, w)
    ensures Inv(Run(s, w, steps)) && AddressesKept(s, Run(s, w, steps))
    decreases |steps|
  {
    hide Next, PeersKept, RowsKept, AddressesKept;
    if steps != [] {
      StepKeepsPeers(s, w, steps[0]);
      StepKeepsRows(s, w, steps[0]);
      StepKeepsAddresses(s, w, steps[0]);
      RunKeepsAddresses(s, Next(s, w, steps[0]), steps[1..]);
    }
  }

  // ------------------------------------------------------------------ exactly when peers stay

  /** In every run, every live router onboarded through the agent and not edited since has the
    address its peer was given. */
  ghost predicate PeersStay(s: Settings, lines: seq<string>) {
    forall steps, uid ::
      var w := Run(s, Start(lines), steps);
      uid in w.granted && Live(w, uid) && uid !in w.edited ==> w.routers[uid].ip == w.granted[uid]
  }

  function Secret(): (password: string)
    ensures PeerPassword(password)
  {
    seq(24, i => 'a')
  }

  const TOKEN := "token"

  const REQUEST := Request("slug", 1, TOKEN, "download", "script", 100)

  /** Onboarding the router `uid`, then claiming it from another address. */
  function MovingRun(uid: string, tunnelIp: string): seq<Step> {
    [AskAgent(uid, Secret(), Applied), EndOnboarding(uid, REQUEST, true, NeverArrived),
     Claim(uid, TOKEN, tunnelIp, 0)]
  }

  lemma PrintedIsWhole(a: Address)
    ensures BeforeSlash(PrintAddress(a)) == PrintAddress(a) && ReadAddress(PrintAddress(a)) == Some(a)
  {
    AddressRoundTrip(a);
    hide ReadAddress, PrintAddress;
    AddressCharacters(a);
    assert forall i | 0 <= i < |PrintAddress(a)| :: PrintAddress(a)[i] in PrintAddress(a);
    NoSlashBefore(PrintAddress(a));
  }

  lemma ThreeSteps(s: Settings, w: World, a: Step, b: Step, c: Step)
    ensures Run(s, w, [a, b, c]) == Next(s, Next(s, Next(s, w, a), b), c)
  {
    hide Next;
    assert [a, b, c][1..] == [b, c] && [b, c][1..] == [c] && [c][1..] == [];
    assert Run(s, w, [a, b, c]) == Run(s, Next(s, w, a), [b, c]);
    assert Run(s, Next(s, w, a), [b, c]) == Run(s, Next(s, Next(s, w, a), b), [c]);
  }

  lemma AgentGivesZero(s: Settings, lines: seq<string>, uid: string)
    requires PeerName(PeerOf(uid)) && ChosenAddress(s.pool, lines, PeerOf(uid)) == Some(UNKNOWN_IP)
    ensures AgentCreate(s.pool, lines, uid, Secret(), Applied).1 == Some(UNKNOWN_IP)
  {
    hide PeerName, ChosenAddress, Matches;
  }

  lemma ZeroIsAccepted(allowed: Networks)
    requires 0 in allowed.quads
    ensures ValidClaimIp(UNKNOWN_IP, allowed) == Some(UNKNOWN_IP)
  {
    hide ReadAddress, PrintAddress, BeforeSlash;
    UnknownIpIsZero();
    PrintedIsWhole(0);
  }

  /** Some text names another address, unless there is none. */
  lemma AnotherHasAText(allowed: Networks) returns (tunnelIp: string)
    requires !OnlyZero(allowed)
    ensures NamesAnother(tunnelIp, allowed)
  {
    hide ReadAddress, PrintAddress, BeforeSlash;
    if allowed.quads <= {0} {
      tunnelIp :| allowed.wide(tunnelIp).Some?;
      assert forall i | 0 <= i < |tunnelIp| :: tunnelIp[i] in tunnelIp;
      NoSlashBefore(tunnelIp);
    } else {
      var a :| a in allowed.quads && a != 0;
      PrintedIsWhole(a);
      tunnelIp := PrintAddress(a);
    }
  }

  /** When the agent gives out 0.0.0.0 and the networks hold it and another address, a claim moves
    the router to that other one, while its peer keeps 0.0.0.0. */
  lemma ClaimMovesAPeer(s: Settings, lines: seq<string>, uid: string, tunnelIp: string)
    requires s.agentEnabled && 0 in s.allowed.quads && NamesAnother(tunnelIp, s.allowed)
    requires PeerName(PeerOf(uid)) && ChosenAddress(s.pool, lines, PeerOf(uid)) == Some(UNKNOWN_IP)
    ensures
      var w := Run(s, Start(lines), MovingRun(uid, tunnelIp));
      && uid in w.granted && Live(w, uid) && uid !in w.edited && w.granted[uid] == UNKNOWN_IP
      && ValidClaimIp(tunnelIp, s.allowed) == Some(w.routers[uid].ip) && w.routers[uid].ip != UNKNOWN_IP
  {
    hide AgentCreate, AgentDelete, ReadAddress, PrintAddress, PeerName, ChosenAddress, NamesAnother, ValidClaimIp;
    AgentGivesZero(s, lines, uid);
    ZeroIsAccepted(s.allowed);
    AnotherIsStored(tunnelIp, s.allowed);
    var end := EndOnboarding(uid, REQUEST, true, NeverArrived);
    var claim := Claim(uid, TOKEN, tunnelIp, 0);
    ThreeSteps(s, Start(lines), AskAgent(uid, Secret(), Applied), end, claim);
    var w1 := Next(s, Start(lines), AskAgent(uid, Secret(), Applied));
    assert w1.routers == map[] && w1.inFlight == map[uid := UNKNOWN_IP];
    var w2 := Next(s, w1, end);
    assert w2.routers == map[uid := NewRouter(REQUEST, UNKNOWN_IP)] && w2.granted == map[uid := UNKNOWN_IP];
  }

  lemma {:induction false} PeersAreNamed(lines: seq<string>, name: string)
    requires name in Peers(lines)
    ensures PeerName(name) && PeerOf(name[7..]) == name
  {
    hide Tokens;
    var front, last := lines[..|lines| - 1], lines[|lines| - 1];
    if name in Peers(front) {
      PeersAreNamed(front, name);
    }
  }

  /** A router to whose peer the agent gives 0.0.0.0, if there is one. */
  lemma ZeroIsGiven(s: Settings, lines: seq<string>, newcomer: string) returns (uid: string)
    requires !ZeroNotGiven(s.pool, lines) && PeerName(PeerOf(newcomer)) && PeerOf(newcomer) !in Peers(lines)
    ensures PeerName(PeerOf(uid)) && ChosenAddress(s.pool, lines, PeerOf(uid)) == Some(UNKNOWN_IP)
  {
    hide PeerName, Peers, Matches, Used, PrintAddress, ReadAddress;
    if NoZeroPeer(lines) {
      uid := newcomer;
      MatchesAreThePeer(lines, PeerOf(uid));
      UnknownIpIsZero();
    } else {
      var name :| name in Peers(lines) && Peers(lines)[name].address == UNKNOWN_IP;
      PeersAreNamed(lines, name);
      uid := name[7..];
      MatchesAreThePeer(lines, name);
    }
  }

  /** Exactly when the peers' addresses stay, for every file in order: unless 0.0.0.0 and another
    address are both accepted while the agent can give out 0.0.0.0. */
  lemma PeersStayExactly(s: Settings, lines: seq<string>, newcomer: string)
    requires s.agentEnabled && FileKept(lines) && PeerName(PeerOf(newcomer)) && PeerOf(newcomer) !in Peers(lines)
    ensures PeersStay(s, lines) <==> Settling(s, lines)
  {
    hide Run, PeerName, Tidy, AddressedPeers, ZeroNotGiven, MovingRun;
    if Settling(s, lines) {
      forall steps, uid ensures
          var w := Run(s, Start(lines), steps);
          uid in w.granted && Live(w, uid) && uid !in w.edited ==> w.routers[uid].ip == w.granted[uid]
      {
        RunKeepsAddresses(s, Start(lines), steps);
      }
    } else {
      var tunnelIp := AnotherHasAText(s.allowed);
      var uid := ZeroIsGiven(s, lines, newcomer);
      ClaimMovesAPeer(s, lines, uid, tunnelIp);
    }
  }

  /** The UUID of all zeros. */
  function ZeroUid(): string {
    seq(36, i => if i == 8 || i == 13 || i == 18 || i == 23 then '-' else '0')
  }

  lemma ZeroUidIsAPeer()
    ensures PeerName(PeerOf(ZeroUid()))
  {
    var name := PeerOf(ZeroUid());
    assert name[..7] == "router-";
    assert forall i | 7 <= i < 43 :: name[i] == ZeroUid()[i - 7];
  }

  function QuadsOnly(quads: set<Address>): Networks { Networks(quads, (raw: string) => None) }

  /** For instance: a pool that starts at 0.0.0.0, and networks that hold 0.0.0.0 and 0.0.0.1. */
  lemma PoolFromZeroMovesAPeer()
    ensures
      var s := Settings(true, Config("l2tpd", 0, 9), QuadsOnly({0, 1}));
      var uid := ZeroUid();
      var w := Run(s, Start([]), MovingRun(uid, PrintAddress(1)));
      && uid in w.granted && w.granted[uid] == UNKNOWN_IP && uid in w.routers && w.routers[uid].ip == PrintAddress(1)
      && PrintAddress(1) != UNKNOWN_IP
  {
    hide Run, MovingRun, PrintAddress, ReadAddress, BeforeSlash;
    var s := Settings(true, Config("l2tpd", 0, 9), QuadsOnly({0, 1}));
    var uid := ZeroUid();
    ZeroUidIsAPeer();
    hide PeerName, ZeroUid;
    UnknownIpIsZero();
    PrintedIsWhole(1);
    assert ChosenAddress(s.pool, [], PeerOf(uid)) == Some(UNKNOWN_IP);
    ClaimMovesAPeer(s, [], uid, PrintAddress(1));
  }

  // ------------------------------------------------------------------ main results

  /** No claim moves a router off the address its peer was given. */
  lemma ClaimsNeverMoveAPeer(s: Settings, w: World, uid: string, token: string, tunnelIp: string, now: int)
    requires Inv(w) && AddressesKept(s, w) && uid in w.granted && Live(w, uid) && uid !in w.edited
    ensures
      var after := Next(s, w, Claim(uid, token, tunnelIp, now));
      uid in after.routers && after.routers[uid].ip == w.granted[uid]
  {
    hide Settling, ClaimOn, PeersKept;
    ClaimStays(s, w.routers[uid], tunnelIp, now);
  }

  lemma {:induction false} PeersHaveTheirOwnAddress(lines: seq<string>, m: string, n: string)
    requires DistinctAddresses(lines) && OneLinePerPeer(lines)
    requires m in Peers(lines) && n in Peers(lines) && m != n
    requires ReadAddress(Peers(lines)[m].address).Some?
    ensures Peers(lines)[m].address != Peers(lines)[n].address
  {
    hide ReadAddress, Peers, DistinctAddresses, OneLinePerPeer, Retained, Used;
    OwnAddressIsUnique(lines, m);
    OwnAddressIsUnique(lines, n);
    PeersOfRetained(lines, m);
    RetainedLines(lines, m);
    OwnAddressIsUnique(Retained(lines, m), n);
    assert Peers(Retained(lines, m))[n] == Peers(lines)[n];
  }

  /** In every run, whatever fails on the way: two live routers onboarded through the agent and
    not edited since never share a tunnel address, and each still has its peer with it. */
  lemma TunnelAddressesAreNotShared(s: Settings, lines: seq<string>, steps: seq<Step>, u: string, v: string)
    requires Settling(s, lines) && Tidy(lines) && AddressedPeers(lines)
    requires
      var w := Run(s, Start(lines), steps);
      && u in w.granted && Live(w, u) && u !in w.edited
      && v in w.granted && Live(w, v) && v !in w.edited && u != v
    ensures
      var w := Run(s, Start(lines), steps);
      && w.routers[u].ip != w.routers[v].ip
      && HasPeer(w.lines, u, w.routers[u].ip) && HasPeer(w.lines, v, w.routers[v].ip)
  {
    hide Run, Tidy, Peers, ReadAddress, ZeroNotGiven;
    RunKeepsAddresses(s, Start(lines), steps);
    var w := Run(s, Start(lines), steps);
    PeerOfInjective(u, v);
    TidyParts(w.lines);
    PeersHaveTheirOwnAddress(w.lines, PeerOf(u), PeerOf(v));
  }

  lemma TidyParts(lines: seq<string>)
    requires Tidy(lines)
    ensures DistinctAddresses(lines) && OneLinePerPeer(lines)
  {
  }
}
