/** What a router's onboarding leads to: from the agent's answer to the script, the claim and the
  deletion, and exactly when each of them is answered. */
module OnboardingOutcomes {
  import opened Text
  import opened Ipv4
  import opened ChapSecrets
  import opened AddressPool
  import opened AgentAnswers
  import opened OnboardingModel

  // ------------------------------------------------------------------ claims

  /** The text is that of an address of the control networks, stored as `ip`. */
  predicate Names(tunnelIp: string, allowed: Networks, ip: string) {
    match ReadAddress(BeforeSlash(tunnelIp))
    case Some(a) => a in allowed.quads && ip == PrintAddress(a)
    case None => allowed.wide(BeforeSlash(tunnelIp)) == Some(ip)
  }

  /** The token of the row still counts. */
  predicate InTime(r: Router, now: int) { r.expires.Some? && now <= r.expires.value }

  /** A claim is done exactly when its token counts, the row is not claimed yet, and the address is
    one of the control networks and the row's own, or the row has none; it then stores the address
    and withdraws script and download token. Every other claim changes nothing and says why. */
  lemma ClaimAnswersExactly(r: Router, tunnelIp: string, now: int, allowed: Networks, ip: string)
    requires Names(tunnelIp, allowed, ip)
    ensures
      var (after, answer) := ClaimOn(r, tunnelIp, now, allowed);
      && (answer.ClaimDone? <==> InTime(r, now) && !r.status.Claimed? && (r.ip == "0.0.0.0" || r.ip == ip))
      && (answer.Mismatch? <==> InTime(r, now) && !r.status.Claimed? && r.ip != "0.0.0.0" && r.ip != ip)
      && (answer.AlreadyClaimed? <==> InTime(r, now) && r.status.Claimed?)
      && (answer.Gone? <==> !InTime(r, now))
      && after == if answer.ClaimDone? then r.(ip := ip, status := Claimed, script := None, downloadToken := None)
                  else r
  {
    hide ReadAddress, PrintAddress, BeforeSlash;
  }

  /** An address outside the control networks is never stored. */
  lemma StrangeClaimsAnswer(r: Router, tunnelIp: string, now: int, allowed: Networks)
    requires forall ip :: !Names(tunnelIp, allowed, ip)
    ensures
      var (after, answer) := ClaimOn(r, tunnelIp, now, allowed);
      && after == r && (answer.BadAddress? <==> InTime(r, now) && !r.status.Claimed?)
  {
    hide ReadAddress, PrintAddress, BeforeSlash;
    match ReadAddress(BeforeSlash(tunnelIp))
    case Some(a) => assert !Names(tunnelIp, allowed, PrintAddress(a));
    case None =>
      var stored := allowed.wide(BeforeSlash(tunnelIp));
      assert stored.Some? ==> !Names(tunnelIp, allowed, stored.value);
  }

  // ------------------------------------------------------------------ from the request to the claim

  /** A create call with a fresh secret that takes effect puts the router in flight, with the address
    of its peer, whenever it has a peer or the pool has room. */
  lemma AgentAnswerIsKept(s: Settings, w: World, uid: string, password: string)
    requires s.agentEnabled && ValidConfig(s.pool) && FileKept(w.lines)
    requires IsUuid(uid) && IsSecret(password) && uid !in w.routers && uid !in w.inFlight
    requires PeerOf(uid) in Peers(w.lines) || FreePool(s.pool, w.lines) != {}
    ensures
      var v := Next(s, w, AskAgent(uid, password, Applied));
      && uid in v.inFlight && v == w.(lines := v.lines, inFlight := w.inFlight[uid := v.inFlight[uid]])
      && HasPeer(v.lines, uid, v.inFlight[uid]) && ReadAddress(v.inFlight[uid]).Some?
  {
    hide IsUuid, IsSecret, Mutated, FreePool, Peers, FileKept, ReadAddress;
    CallIsPlacedExactly(s.pool, w.lines, Create, PeerOf(uid), password);
    AgentCallsKeepPeers(s.pool, w.lines, uid, password, Applied);
    PlacedIsAddress(s.pool, w.lines, Create, PeerOf(uid), password);
    NoAddressIsBlank();
    assert PeerOf(uid) == "router-" + uid;
  }

  /** A create call whose answer is lost leaves a peer that no router stands for, and the onboarding
    ends; one that never arrives leaves nothing. */
  lemma LostAnswerLeavesAPeer(s: Settings, w: World, uid: string, password: string)
    requires s.agentEnabled && ValidConfig(s.pool) && FileKept(w.lines)
    requires IsUuid(uid) && IsSecret(password) && uid !in w.routers && uid !in w.inFlight
    requires PeerOf(uid) in Peers(w.lines) || FreePool(s.pool, w.lines) != {}
    ensures
      var v := Next(s, w, AskAgent(uid, password, ReplyLost));
      v == w.(lines := v.lines) && PeerOf(uid) in Peers(v.lines)
    ensures Next(s, w, AskAgent(uid, password, NeverArrived)) == w
  {
    hide IsUuid, IsSecret, Mutated, FreePool, Peers, FileKept, ReadAddress;
    AgentAnswerIsKept(s, w, uid, password);
  }

  /** Without the agent its file stays as it was, whatever operators and routers do. */
  lemma {:induction false} FileIsLeftWithoutAgent(s: Settings, w: World, steps: seq<Step>)
    requires !s.agentEnabled && w.inFlight == map[] && w.revoking == {}
    ensures Run(s, w, steps).lines == w.lines
    decreases |steps|
  {
    hide ClaimOn, AgentCreate, AgentDelete, ValidClaimIp, SlugFree;
    if steps != [] {
      FileIsLeftWithoutAgent(s, Next(s, w, steps[0]), steps[1..]);
    }
  }

  lemma NoAddressIsBlank()
    ensures ReadAddress("").None?
  {
  }

  /** The row an onboarding commits: pending, at the address of its peer, with the tokens and the
    script that were drawn for it. */
  lemma CommitStores(s: Settings, w: World, uid: string, request: Request, revocation: AgentCall)
    requires uid in w.inFlight && ReadAddress(w.inFlight[uid]).Some?
    requires ReadAddress(w.inFlight[uid]).value in s.allowed.quads
    requires forall other | other in w.routers && other != uid :: w.routers[other].slug != request.slug
    ensures
      var v := Next(s, w, EndOnboarding(uid, request, true, revocation));
      && v.lines == w.lines && v.inFlight == w.inFlight - {uid} && v.granted == w.granted[uid := w.inFlight[uid]]
      && uid in v.routers && v.routers == w.routers[uid := v.routers[uid]]
      && var r := v.routers[uid];
         && r.ip == w.inFlight[uid] && r.mode.L2tp? && r.status.Pending? && r.slug == request.slug && r.portalEnabled
         && r.owner == request.owner && r.claimToken == Some(request.claimToken) && r.expires == Some(request.expires)
         && r.downloadToken == Some(request.downloadToken) && r.script == Some(request.script)
  {
    hide ReadAddress, ValidClaimIp;
    AcceptedWhenAllowed(w.inFlight[uid], s.allowed);
  }

  lemma AcceptedWhenAllowed(value: string, allowed: Networks)
    requires ReadAddress(value).Some? && ReadAddress(value).value in allowed.quads
    ensures ValidClaimIp(value, allowed) == Some(value) && Names(value, allowed, value)
  {
    hide ReadAddress, PrintAddress;
    AddressUnique(value);
    AddressCharacters(ReadAddress(value).value);
    assert forall i | 0 <= i < |value| :: value[i] in PrintAddress(ReadAddress(value).value);
    NoSlashBefore(value);
  }

  /** An onboarding that ends without its commit leaves no row, and no peer if its revocation takes
    effect. */
  lemma AbortRevokes(s: Settings, w: World, uid: string, request: Request)
    requires uid in w.inFlight && IsUuid(uid)
    ensures
      var v := Next(s, w, EndOnboarding(uid, request, false, Applied));
      v.routers == w.routers && uid !in v.inFlight && Peers(v.lines) == Peers(w.lines) - {PeerOf(uid)}
  {
    hide IsUuid, Mutated, Peers, ValidClaimIp;
    RevocationRemoves(s.pool, w.lines, uid);
  }

  /** A revocation that takes effect removes the peer and no other, whether its answer arrives or not;
    one that never arrives changes nothing. */
  lemma RevocationRemoves(pool: Config, lines: seq<string>, uid: string)
    requires IsUuid(uid)
    ensures Peers(AgentDelete(pool, lines, uid, Applied)) == Peers(lines) - {PeerOf(uid)}
    ensures Peers(AgentDelete(pool, lines, uid, ReplyLost)) == Peers(lines) - {PeerOf(uid)}
    ensures AgentDelete(pool, lines, uid, NeverArrived) == lines
  {
    hide IsUuid, Mutated, Peers;
    MutateUpdatesTheMap(pool, lines, Delete, PeerOf(uid), "");
    DeleteAnswers(pool, lines, PeerOf(uid), "");
    assert PeerOf(uid) == "router-" + uid;
  }

  /** A router names its address with or without a prefix length. */
  lemma PrefixLengthIsDropped(value: string, rest: string, allowed: Networks)
    requires ReadAddress(value).Some? && ReadAddress(value).value in allowed.quads
    ensures Names(value, allowed, value) && Names(value + "/" + rest, allowed, value)
  {
    hide ReadAddress, PrintAddress, BeforeSlash;
    AddressUnique(value);
    AddressCharacters(ReadAddress(value).value);
    assert forall i | 0 <= i < |value| :: value[i] in PrintAddress(ReadAddress(value).value);
    NoSlashBefore(value);
    StopsAtSlash(value, rest);
  }

  lemma {:induction false} StopsAtSlash(value: string, rest: string)
    requires forall i | 0 <= i < |value| :: value[i] != '/'
    ensures BeforeSlash(value + "/" + rest) == value
  {
    if value == "" {
      assert (value + "/" + rest)[0] == '/';
    } else {
      assert (value + "/" + rest)[1..] == value[1..] + "/" + rest;
      StopsAtSlash(value[1..], rest);
    }
  }

  /** A router whose onboarding committed and whose peer's address is one of the control networks
    ends claimed at that address when it claims from there in time. */
  lemma CommittedRouterIsClaimed(s: Settings, w: World, uid: string, request: Request, revocation: AgentCall,
                                 tunnelIp: string, now: int)
    requires uid in w.inFlight && ReadAddress(w.inFlight[uid]).Some? && Names(tunnelIp, s.allowed, w.inFlight[uid])
    requires ReadAddress(w.inFlight[uid]).value in s.allowed.quads && now <= request.expires
    requires forall other | other in w.routers && other != uid :: w.routers[other].slug != request.slug
    ensures
      var v := Next(s, w, EndOnboarding(uid, request, true, revocation));
      var u := Next(s, v, Claim(uid, request.claimToken, tunnelIp, now));
      && uid in u.routers && u.routers[uid].status.Claimed? && u.routers[uid].ip == w.inFlight[uid]
      && u.routers[uid].script.None? && u.routers[uid].downloadToken.None? && u.routers[uid].portalEnabled
  {
    hide ReadAddress, ClaimOn, Names;
    CommitStores(s, w, uid, request, revocation);
    var v := Next(s, w, EndOnboarding(uid, request, true, revocation));
    ClaimAnswersExactly(v.routers[uid], tunnelIp, now, s.allowed, w.inFlight[uid]);
  }

  /** So a new router is onboarded from end to end: when the agent has room and its pool lies in the
    control networks, asking it, committing and claiming from the address it gave end with the router
    claimed there, on an address of the pool that no line of the file assigned before. */
  lemma OnboardingSucceeds(s: Settings, w: World, uid: string, password: string, request: Request, now: int)
    requires s.agentEnabled && ValidConfig(s.pool) && FileKept(w.lines) && FreePool(s.pool, w.lines) != {}
    requires forall a: Address | s.pool.first <= a <= s.pool.last :: a in s.allowed.quads
    requires IsUuid(uid) && IsSecret(password) && uid !in w.routers && uid !in w.inFlight
    requires PeerOf(uid) !in Peers(w.lines) && now <= request.expires
    requires forall other | other in w.routers :: w.routers[other].slug != request.slug
    ensures
      var asked := Next(s, w, AskAgent(uid, password, Applied));
      && uid in asked.inFlight
      && var address := asked.inFlight[uid];
         var v := Next(s, Next(s, asked, EndOnboarding(uid, request, true, NeverArrived)),
                       Claim(uid, request.claimToken, address, now));
         && uid in v.routers && v.routers[uid].status.Claimed? && v.routers[uid].ip == address
         && HasPeer(v.lines, uid, address) && ReadAddress(address).Some?
         && s.pool.first <= ReadAddress(address).value <= s.pool.last
         && !IsAssigned(w.lines, ReadAddress(address).value)
  {
    hide IsUuid, IsSecret, FreePool, Peers, FileKept, ReadAddress, Next, Names, IsAssigned, ValidConfig, Mutated;
    AgentAnswerIsKept(s, w, uid, password);
    var asked := Next(s, w, AskAgent(uid, password, Applied));
    AskedAddress(s, w, uid, password);
    AcceptedWhenAllowed(asked.inFlight[uid], s.allowed);
    CommittedRouterIsClaimed(s, asked, uid, request, NeverArrived, asked.inFlight[uid], now);
    CommitStores(s, asked, uid, request, NeverArrived);
    ClaimsLeaveTheFile(s, Next(s, asked, EndOnboarding(uid, request, true, NeverArrived)), uid, request.claimToken,
                       asked.inFlight[uid], now);
  }

  lemma ClaimsLeaveTheFile(s: Settings, w: World, uid: string, token: string, tunnelIp: string, now: int)
    ensures Next(s, w, Claim(uid, token, tunnelIp, now)).lines == w.lines
  {
    hide ClaimOn;
  }

  lemma AskedAddress(s: Settings, w: World, uid: string, password: string)
    requires s.agentEnabled && ValidConfig(s.pool) && PeerOf(uid) !in Peers(w.lines)
    requires uid !in w.routers && uid !in w.inFlight && uid in Next(s, w, AskAgent(uid, password, Applied)).inFlight
    ensures
      var a := ReadAddress(Next(s, w, AskAgent(uid, password, Applied)).inFlight[uid]);
      && a.Some? && s.pool.first <= a.value <= s.pool.last && !IsAssigned(w.lines, a.value)
  {
    hide Mutated, Peers, ReadAddress, IsAssigned, ValidConfig;
    NewAddressIsOnNoLine(s.pool, w.lines, Create, PeerOf(uid), password);
  }

  /** Without the agent a router has no address yet, and is claimed at the first one it names. */
  lemma UnassistedRouterIsClaimed(s: Settings, w: World, uid: string, request: Request, tunnelIp: string, ip: string,
                                  now: int)
    requires !s.agentEnabled && uid !in w.routers && uid !in w.inFlight
    requires Names(tunnelIp, s.allowed, ip) && now <= request.expires
    requires forall other | other in w.routers :: w.routers[other].slug != request.slug
    ensures
      var v := Next(s, Next(s, w, OnboardWithoutAgent(uid, request)), Claim(uid, request.claimToken, tunnelIp, now));
      && v.lines == w.lines && uid in v.routers && v.routers[uid].status.Claimed? && v.routers[uid].ip == ip
      && v.routers[uid].owner == request.owner && v.routers[uid].slug == request.slug
  {
    hide ClaimOn, Names;
    var u := Next(s, w, OnboardWithoutAgent(uid, request));
    ClaimAnswersExactly(u.routers[uid], tunnelIp, now, s.allowed, ip);
  }

  // ------------------------------------------------------------------ downloads

  /** 43 characters of the URL-safe alphabet: what a token looks like. */
  predicate IsToken(token: string) { |token| == 43 && forall c | c in token :: IsUrlSafe(c) }

  /** A script is handed out exactly for the row's own download token, before its expiry, while the
    router is pending and its owner active. */
  lemma DownloadsExactly(w: World, uid: string, token: string, now: int, activeOwners: set<nat>, script: string)
    ensures
      Download(w, uid, token, now, activeOwners) == Some(script)
      <==> && IsToken(token) && uid in w.routers
           && var r := w.routers[uid];
              && r.downloadToken == Some(token) && r.expires.Some? && now < r.expires.value && r.status.Pending?
              && r.owner in activeOwners && r.script == Some(script)
  {
  }

  /** The script of a fresh onboarding can be had, with its token and as often as wanted, until it
    expires, as long as the owner is active. */
  lemma FreshScriptIsHandedOut(s: Settings, w: World, uid: string, request: Request, revocation: AgentCall,
                               token: string, now: int, activeOwners: set<nat>)
    requires uid in w.inFlight && ReadAddress(w.inFlight[uid]).Some?
    requires ReadAddress(w.inFlight[uid]).value in s.allowed.quads && IsToken(request.downloadToken)
    requires forall other | other in w.routers && other != uid :: w.routers[other].slug != request.slug
    ensures
      var v := Next(s, w, EndOnboarding(uid, request, true, revocation));
      Download(v, uid, token, now, activeOwners)
      == if token == request.downloadToken && now < request.expires && request.owner in activeOwners
         then Some(request.script) else None
  {
    hide ReadAddress, Download, IsToken;
    CommitStores(s, w, uid, request, revocation);
    var v := Next(s, w, EndOnboarding(uid, request, true, revocation));
    DownloadsExactly(v, uid, token, now, activeOwners, request.script);
    var answer := Download(v, uid, token, now, activeOwners);
    if answer.Some? {
      DownloadsExactly(v, uid, token, now, activeOwners, answer.value);
    }
  }

  /** The job that expires downloads takes only what nobody can download any more, and leaves no
    script behind that has expired. */
  lemma ExpiryIsUnseen(s: Settings, w: World, now: int, uid: string, token: string, later: int, activeOwners: set<nat>)
    requires now <= later
    ensures
      var v := Next(s, w, ExpireDownloads(now));
      && v.routers.Keys == w.routers.Keys && v == w.(routers := v.routers)
      && Download(v, uid, token, later, activeOwners) == Download(w, uid, token, later, activeOwners)
      && (uid in w.routers ==>
            && v.routers[uid].(script := w.routers[uid].script, downloadToken := w.routers[uid].downloadToken)
               == w.routers[uid]
            && (v.routers[uid].script.Some? && v.routers[uid].expires.Some? ==> now < v.routers[uid].expires.value))
  {
  }

  // ------------------------------------------------------------------ the operator

  /** Deleting a router closes its portal, frees its slug and withdraws every token; when its
    revocation takes effect, its peer is gone and all others stay. */
  lemma DeletionRevokes(s: Settings, w: World, uid: string)
    requires s.agentEnabled && IsUuid(uid) && Live(w, uid) && w.routers[uid].mode.L2tp?
    requires forall other | other in w.routers && other != uid :: w.routers[other].slug != "deleted-" + uid
    ensures
      var v := Next(s, Next(s, w, DeleteRouter(uid)), Revoke(uid, Applied));
      && Peers(v.lines) == Peers(w.lines) - {PeerOf(uid)} && uid !in v.revoking
      && uid in v.routers && v.routers == w.routers[uid := v.routers[uid]]
      && var r := v.routers[uid];
         && r.status.Deleted? && !r.portalEnabled && r.slug == "deleted-" + uid && r.script.None?
         && r.downloadToken.None? && r.claimToken.None? && r.expires.None? && r.owner == w.routers[uid].owner
  {
    hide IsUuid, Mutated, Peers, AgentDelete;
    RevocationRemoves(s.pool, w.lines, uid);
  }

  /** The deletion of a router that was entered by hand asks nothing of the agent. */
  lemma DirectDeletionIsLocal(s: Settings, w: World, uid: string, call: AgentCall)
    requires uid in w.routers && w.routers[uid].mode.Direct? && uid !in w.revoking
    ensures Next(s, Next(s, w, DeleteRouter(uid)), Revoke(uid, call)).lines == w.lines
  {
    hide AgentDelete;
  }

  /** An operator's edit changes the address and the slug it names and nothing else of an onboarded
    router; a slug another router has is refused. */
  lemma EditsExactly(s: Settings, w: World, uid: string, ip: Option<string>, slug: Option<string>)
    requires Live(w, uid) && w.routers[uid].mode.L2tp?
    ensures
      var v, r := Next(s, w, Edit(uid, ip, slug)), w.routers[uid];
      if slug.Some? && exists other | other in w.routers :: other != uid && w.routers[other].slug == slug.value
      then v == w
      else
        && v.lines == w.lines && v.edited == (if ip.Some? then w.edited + {uid} else w.edited)
        && v.routers == w.routers[uid := r.(ip := if ip.Some? then ip.value else r.ip,
                                            slug := if slug.Some? then slug.value else r.slug)]
  {
  }

  /** A router entered by hand is configured at once, at the address given, with no token at all. */
  lemma DirectRouterIsConfigured(s: Settings, w: World, uid: string, address: string, portal: string, owner: nat)
    requires uid !in w.routers && uid !in w.inFlight
    requires forall other | other in w.routers :: w.routers[other].slug != portal
    ensures
      var v := Next(s, w, CreateDirect(uid, address, portal, owner));
      && v.lines == w.lines && uid in v.routers && v.routers == w.routers[uid := v.routers[uid]]
      && var r := v.routers[uid];
         && r.status.Configured? && r.mode.Direct? && r.ip == address && r.slug == portal && r.owner == owner
         && r.claimToken.None? && r.downloadToken.None? && r.script.None?
  {
  }
}
