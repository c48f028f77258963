/** Router onboarding and deletion (services/onboarding_service.py, services/router_service.py)
  as a saga across the database and the tunnel peer store of vpn_agent/agent.py.

  A step is one committed transaction or one call of the agent. A call may take effect and
  answer, take effect with its answer lost, or never arrive. */
module OnboardingModel {
  import opened Text
  import opened Ipv4
  import opened Shlex
  import opened ChapSecrets
  import opened AddressPool

  datatype Status = Pending | Claimed | Configured | Deleted

  datatype Mode = L2tp | Direct

  /** A router row. Tokens stand for their hashes, the script for its ciphertext. */
  datatype Router = Router(
    ip: string,
    mode: Mode,
    status: Status,
    slug: string,
    portalEnabled: bool,
    owner: nat,
    claimToken: Option<string>,
    expires: Option<int>,
    downloadToken: Option<string>,
    script: Option<string>)

  datatype AgentCall = Applied | ReplyLost | NeverArrived

  /** The IPv6 part of the control networks: the addresses that lie in it, by their texts, each with
    the text it is printed as. No IPv6 text is a dotted quad or holds a slash, and each has a colon. */
  type Wide = f: string -> Option<string>
    | forall raw | f(raw).Some? :: ReadAddress(raw).None? && '/' !in raw && ':' in f(raw).value
    witness (raw: string) => None

  /** The control networks: their IPv4 addresses, and the others. */
  datatype Networks = Networks(quads: set<Address>, wide: Wide)

  /** Settings the services read. */
  datatype Settings = Settings(agentEnabled: bool, pool: Config, allowed: Networks)

  /** `lines` is the agent's file. `inFlight` are onboardings between the agent's answer and the
    end of their transaction, `revoking` deletions whose revocation is still to come. `granted`
    records what the agent answered for each committed router, `edited` whose address an
    operator has changed since. */
  datatype World = World(
    routers: map<string, Router>,
    lines: seq<string>,
    inFlight: map<string, string>,
    revoking: set<string>,
    granted: map<string, string>,
    edited: set<string>)

  const UNKNOWN_IP := "0.0.0.0"

  function PeerOf(uid: string): string { "router-" + uid }

  // ------------------------------------------------------------------ pieces of the services

  /** Everything before the first slash. */
  function BeforeSlash(s: string): string {
    if s == "" || s[0] == '/' then "" else [s[0]] + BeforeSlash(s[1..])
  }

  /** `_valid_claim_ip`: None is its 422 error. */
  function ValidClaimIp(value: string, allowed: Networks): Option<string> {
    match ReadAddress(BeforeSlash(value))
    case Some(a) => if a in allowed.quads then Some(PrintAddress(a)) else None
    case None => allowed.wide(BeforeSlash(value))
  }

  function AgentCreate(pool: Config, lines: seq<string>, uid: string, password: string, call: AgentCall)
    : (seq<string>, Option<string>)
  {
    var (after, reply) := Mutated(pool, lines, Create, PeerOf(uid), password);
    match call
    case NeverArrived => (lines, None)
    case ReplyLost => (after, None)
    case Applied => (after, if reply.Placed? && reply.address != "" then Some(reply.address) else None)
  }

  function AgentDelete(pool: Config, lines: seq<string>, uid: string, call: AgentCall): seq<string> {
    if call.NeverArrived? then lines else Mutated(pool, lines, Delete, PeerOf(uid), "").0
  }

  /** What an operator asks for when onboarding a router, and the secrets drawn for it. */
  datatype Request = Request(
    slug: string, owner: nat, claimToken: string, downloadToken: string, script: string, expires: int)

  function NewRouter(r: Request, ip: string): Router {
    Router(ip, L2tp, Pending, r.slug, true, r.owner, Some(r.claimToken), Some(r.expires), Some(r.downloadToken),
           Some(r.script))
  }

  datatype ClaimResult = NotFound | Gone | AlreadyClaimed | BadAddress | Mismatch | ClaimDone

  /** `claim_onboarding` on the row its token finds. */
  function ClaimOn(router: Router, tunnelIp: string, now: int, allowed: Networks): (Router, ClaimResult) {
    if router.expires.None? || router.expires.value < now then (router, Gone)
    else if router.status.Claimed? then (router, AlreadyClaimed)
    else match ValidClaimIp(tunnelIp, allowed)
         case None => (router, BadAddress)
         case Some(ip) =>
           if router.ip != UNKNOWN_IP && router.ip != ip then (router, Mismatch)
           else (router.(ip := ip, downloadToken := None, script := None, status := Claimed), ClaimDone)
  }

  /** `delete_router` on a row that is not deleted yet. */
  function DeletedRow(uid: string, router: Router): Router {
    router.(portalEnabled := false, slug := "deleted-" + uid, status := Status.Deleted,
            downloadToken := None, script := None, claimToken := None, expires := None)
  }

  function ExpiredRow(router: Router, now: int): Router {
    if router.expires.Some? && router.expires.value <= now && router.script.Some?
    then router.(downloadToken := None, script := None) else router
  }

  /** `update_router`: a new address or slug, and the status of a direct router. */
  function EditedRow(router: Router, ip: Option<string>, slug: Option<string>): Router {
    router.(ip := if ip.Some? then ip.value else router.ip,
            slug := if slug.Some? then slug.value else router.slug,
            status := if router.mode.Direct? then Configured else router.status)
  }

  /** 43 characters of the URL-safe alphabet. */
  predicate TokenFormat(token: string) {
    && |token| == 43
    && forall c | c in token ::
         'A' <= c <= 'Z' || 'a' <= c <= 'z' || '0' <= c <= '9' || c == '_' || c == '-'
  }

  /** `consume_onboarding_script` on the row of `uid`: None is its one 404 answer. */
  function Download(w: World, uid: string, token: string, now: int, activeOwners: set<nat>): Option<string> {
    if !TokenFormat(token) || uid !in w.routers then None
    else
      var r := w.routers[uid];
      if r.downloadToken == Some(token) && r.expires.Some? && r.expires.value > now && r.status.Pending?
         && r.owner in activeOwners
      then r.script else None
  }

  // ------------------------------------------------------------------ steps

  datatype Step =
    | AskAgent(uid: string, password: string, call: AgentCall)
    | EndOnboarding(uid: string, request: Request, commits: bool, revocation: AgentCall)
    | OnboardWithoutAgent(uid: string, request: Request)
    | CreateDirect(uid: string, address: string, portal: string, owner: nat)
    | Claim(uid: string, token: string, tunnelIp: string, now: int)
    | ExpireDownloads(now: int)
    | Edit(uid: string, ip: Option<string>, slug: Option<string>)
    | DeleteRouter(uid: string)
    | Revoke(uid: string, call: AgentCall)

  /** The unique constraint on portal slugs: no other row has this one. */
  predicate SlugFree(w: World, slug: string, uid: string) {
    forall other | other in w.routers && other != uid :: w.routers[other].slug != slug
  }

  /** A step whose guard fails changes nothing, as its transaction is refused or rolled back. */
  function Next(s: Settings, w: World, step: Step): World {
    match step
    case AskAgent(uid, password, call) =>
      if uid in w.routers || uid in w.inFlight || !s.agentEnabled then w
      else
        var (lines, answer) := AgentCreate(s.pool, w.lines, uid, password, call);
        w.(lines := lines, inFlight := if answer.Some? then w.inFlight[uid := answer.value] else w.inFlight)
    case EndOnboarding(uid, request, commits, revocation) =>
      if uid !in w.inFlight then w
      else
        var ip := ValidClaimIp(w.inFlight[uid], s.allowed);
        if ip.Some? && commits && SlugFree(w, request.slug, uid) then
          w.(routers := w.routers[uid := NewRouter(request, ip.value)],
             inFlight := w.inFlight - {uid},
             granted := w.granted[uid := w.inFlight[uid]])
        else
          w.(lines := AgentDelete(s.pool, w.lines, uid, revocation), inFlight := w.inFlight - {uid})
    case OnboardWithoutAgent(uid, request) =>
      if uid in w.routers || uid in w.inFlight || s.agentEnabled || !SlugFree(w, request.slug, uid) then w
      else w.(routers := w.routers[uid := NewRouter(request, UNKNOWN_IP)])
    case CreateDirect(uid, address, portal, owner) =>
      if uid in w.routers || uid in w.inFlight || !SlugFree(w, portal, uid) then w
      else
        var row := Router(address, Direct, Configured, portal, true, owner, None, None, None, None);
        w.(routers := w.routers[uid := row])
    case Claim(uid, token, tunnelIp, now) =>
      if uid !in w.routers || w.routers[uid].claimToken != Some(token) then w
      else w.(routers := w.routers[uid := ClaimOn(w.routers[uid], tunnelIp, now, s.allowed).0])
    case ExpireDownloads(now) =>
      w.(routers := map uid | uid in w.routers :: ExpiredRow(w.routers[uid], now))
    case Edit(uid, ip, slug) =>
      if uid !in w.routers || w.routers[uid].status.Deleted? || (slug.Some? && !SlugFree(w, slug.value, uid)) then w
      else w.(routers := w.routers[uid := EditedRow(w.routers[uid], ip, slug)],
              edited := if ip.Some? then w.edited + {uid} else w.edited)
    case DeleteRouter(uid) =>
      if uid !in w.routers || w.routers[uid].status.Deleted? || !SlugFree(w, "deleted-" + uid, uid) then w
      else w.(routers := w.routers[uid := DeletedRow(uid, w.routers[uid])],
              revoking := if w.routers[uid].mode.L2tp? && s.agentEnabled then w.revoking + {uid} else w.revoking)
    case Revoke(uid, call) =>
      if uid !in w.revoking then w
      else w.(lines := AgentDelete(s.pool, w.lines, uid, call), revoking := w.revoking - {uid})
  }

  function Run(s: Settings, w: World, steps: seq<Step>): World
    decreases |steps|
  {
    if steps == [] then w else Run(s, Next(s, w, steps[0]), steps[1..])
  }

  // ------------------------------------------------------------------ what every step keeps

  predicate Live(w: World, uid: string) {
    uid in w.routers && !w.routers[uid].status.Deleted?
  }

  predicate HasPeer(lines: seq<string>, uid: string, address: string) {
    PeerOf(uid) in Peers(lines) && Peers(lines)[PeerOf(uid)].address == address
  }

  /** Every peer's fourth field is an address, as in every line the agent writes. */
  predicate AddressedPeers(lines: seq<string>) {
    forall name | name in Peers(lines) :: ReadAddress(Peers(lines)[name].address).Some?
  }

  predicate FileKept(lines: seq<string>) { Tidy(lines) && AddressedPeers(lines) }

  /** The agent's side: every onboarding in flight and every live router it served has its line. */
  predicate PeersKept(w: World) {
    && FileKept(w.lines)
    && (forall uid | uid in w.inFlight :: HasPeer(w.lines, uid, w.inFlight[uid]) && uid !in w.routers)
    && (forall uid | uid in w.granted :: uid in w.routers)
    && (forall uid | uid in w.granted && Live(w, uid) :: HasPeer(w.lines, uid, w.granted[uid]))
    && (forall uid | uid in w.revoking :: uid in w.routers && !Live(w, uid))
  }

  predicate RowKept(r: Router) {
    && (r.script.Some? ==> r.status.Pending?)
    && (r.script.Some? <==> r.downloadToken.Some?)
    && (r.mode.Direct? || r.status.Deleted? ==> r.claimToken.None? && r.script.None?)
  }

  /** The database's side. */
  predicate RowsKept(w: World) {
    forall uid | uid in w.routers :: RowKept(w.routers[uid])
  }

  predicate Inv(w: World) { PeersKept(w) && RowsKept(w) }

  // ------------------------------------------------------------------ the agent's side

  lemma PeerOfInjective(u: string, v: string)
    ensures PeerOf(u) == PeerOf(v) ==> u == v
  {
    assert PeerOf(u)[7..] == u && PeerOf(v)[7..] == v;
  }

  lemma OtherEntries(before: map<string, Peer>, after: map<string, Peer>, name: string)
    requires after - {name} == before - {name}
    ensures forall other | other != name && other in before :: other in after && after[other] == before[other]
    ensures forall other | other != name && other in after :: other in before
  {
    forall other | other != name && other in before ensures other in after && after[other] == before[other] {
      assert other in before - {name};
      assert (after - {name})[other] == (before - {name})[other];
    }
    forall other | other != name && other in after ensures other in before {
      assert other in after - {name};
    }
  }

  /** One call of the agent for `uid` keeps the file in order and every other peer where it was. */
  lemma AgentKeepsPeers(pool: Config, lines: seq<string>, action: Action, uid: string, password: string)
    requires FileKept(lines)
    ensures
      var (after, reply) := Mutated(pool, lines, action, PeerOf(uid), password);
      && FileKept(after)
      && (reply.Placed? ==> HasPeer(after, uid, reply.address))
      && (forall other, address | other != uid && HasPeer(lines, other, address) :: HasPeer(after, other, address))
  {
    hide Tidy, Mutated, Peers, BareWord, ReadAddress;
    var (after, reply) := Mutated(pool, lines, action, PeerOf(uid), password);
    MutateKeepsTidy(pool, lines, action, PeerOf(uid), password);
    MutateUpdatesTheMap(pool, lines, action, PeerOf(uid), password);
    if !reply.Refused? {
      OtherEntries(Peers(lines), Peers(after), PeerOf(uid));
    }
    if reply.Placed? {
      PlacedIsAddress(pool, lines, action, PeerOf(uid), password);
    }
    forall other, address | other != uid && HasPeer(lines, other, address) ensures HasPeer(after, other, address) {
      PeerOfInjective(uid, other);
    }
  }

  lemma PlacedIsAddress(pool: Config, lines: seq<string>, action: Action, name: string, password: string)
    requires FileKept(lines) && Mutated(pool, lines, action, name, password).1.Placed?
    ensures
      var address := Mutated(pool, lines, action, name, password).1.address;
      BareWord(address) && ReadAddress(address).Some?
  {
    hide BareWord, Tidy, PeerName, PeerPassword, ChosenAddress, ReadAddress, AddressedPeers;
    PlacedAddressIsFree(pool, lines, name);
    ChosenReads(pool, lines, name);
  }

  lemma ChosenReads(pool: Config, lines: seq<string>, name: string)
    requires AddressedPeers(lines) && ChosenAddress(pool, lines, name).Some?
    ensures ReadAddress(ChosenAddress(pool, lines, name).value).Some?
  {
    hide Peers, Matches, ReadAddress, PrintAddress, LeastFree;
    MatchesAreThePeer(lines, name);
    if name !in Peers(lines) {
      AddressRoundTrip(LeastFree(Used(lines), pool.first, pool.last).value);
    }
  }

  lemma AgentCallsKeepPeers(pool: Config, lines: seq<string>, uid: string, password: string, call: AgentCall)
    requires FileKept(lines)
    ensures
      var (created, answer) := AgentCreate(pool, lines, uid, password, call);
      && FileKept(created)
      && (answer.Some? ==> HasPeer(created, uid, answer.value))
      && (forall other, address | other != uid && HasPeer(lines, other, address) :: HasPeer(created, other, address))
    ensures
      var deleted := AgentDelete(pool, lines, uid, call);
      && FileKept(deleted)
      && (forall other, address | other != uid && HasPeer(lines, other, address) :: HasPeer(deleted, other, address))
  {
    hide HasPeer, FileKept, Mutated;
    AgentKeepsPeers(pool, lines, Create, uid, password);
    AgentKeepsPeers(pool, lines, Delete, uid, "");
  }

  /** A step that leaves the file and the onboardings in flight alone. */
  lemma RowStepKeepsPeers(w: World, v: World)
    requires PeersKept(w)
    requires v.lines == w.lines && v.inFlight == w.inFlight && v.granted == w.granted
    requires forall uid | uid in w.routers :: uid in v.routers && (Live(v, uid) ==> Live(w, uid))
    requires forall uid | uid in v.routers :: uid in w.routers || uid !in w.inFlight
    requires forall uid | uid in v.revoking :: uid in v.routers && !Live(v, uid)
    ensures PeersKept(v)
  {
    hide HasPeer, FileKept;
  }

  predicate CallsAgent(step: Step) { step.AskAgent? || step.EndOnboarding? || step.Revoke? }

  lemma AgentStepKeepsPeers(s: Settings, w: World, step: Step)
    requires PeersKept(w) && CallsAgent(step)
    ensures PeersKept(Next(s, w, step))
  {
    hide HasPeer, FileKept, AgentCreate, AgentDelete, ValidClaimIp, SlugFree;
    match step
    case AskAgent(uid, password, call) => AgentCallsKeepPeers(s.pool, w.lines, uid, password, call);
    case EndOnboarding(uid, request, commits, revocation) => AgentCallsKeepPeers(s.pool, w.lines, uid, "", revocation);
    case Revoke(uid, call) => AgentCallsKeepPeers(s.pool, w.lines, uid, "", call);
  }

  lemma RowStepKeepsLives(s: Settings, w: World, step: Step)
    requires Inv(w) && !CallsAgent(step)
    ensures PeersKept(Next(s, w, step))
  {
    hide HasPeer, FileKept, PeersKept, ClaimOn, SlugFree;
    if step.Claim? && step.uid in w.routers && w.routers[step.uid].claimToken == Some(step.token) {
      assert RowKept(w.routers[step.uid]);
    }
    DeletionsStayDeleted(w);
    RowStepKeepsPeers(w, Next(s, w, step));
  }

  lemma DeletionsStayDeleted(w: World)
    requires PeersKept(w)
    ensures forall uid | uid in w.revoking :: uid in w.routers && !Live(w, uid)
  {
    hide HasPeer, FileKept;
  }

  lemma StepKeepsPeers(s: Settings, w: World, step: Step)
    requires Inv(w)
    ensures PeersKept(Next(s, w, step))
  {
    hide Next, PeersKept;
    if CallsAgent(step) {
      AgentStepKeepsPeers(s, w, step);
    } else {
      RowStepKeepsLives(s, w, step);
    }
  }

  // ------------------------------------------------------------------ the database's side

  lemma {:induction false} NoSlashBefore(s: string)
    requires forall i | 0 <= i < |s| :: s[i] != '/'
    ensures BeforeSlash(s) == s
  {
    if s != "" {
      NoSlashBefore(s[1..]);
    }
  }

  /** A dotted quad the services accept is stored letter for letter. */
  lemma AcceptedAddressIsItself(value: string, allowed: Networks)
    requires ReadAddress(value).Some? && ValidClaimIp(value, allowed).Some?
    ensures ValidClaimIp(value, allowed).value == value && ReadAddress(value).value in allowed.quads
  {
    hide ReadAddress, PrintAddress;
    AddressUnique(value);
    AddressCharacters(ReadAddress(value).value);
    assert forall i | 0 <= i < |value| :: value[i] in PrintAddress(ReadAddress(value).value);
    NoSlashBefore(value);
  }

  /** A claim leaves a router's known address alone, and never brings a script back. */
  lemma ClaimOnRow(router: Router, tunnelIp: string, now: int, allowed: Networks)
    requires RowKept(router) && router.claimToken.Some?
    ensures
      var after := ClaimOn(router, tunnelIp, now, allowed).0;
      && RowKept(after) && !after.status.Deleted?
      && (router.ip != UNKNOWN_IP ==> after.ip == router.ip)
      && (after.script == router.script || after.script.None?)
  {
    hide ValidClaimIp;
  }

  lemma StepKeepsRows(s: Settings, w: World, step: Step)
    requires Inv(w)
    ensures RowsKept(Next(s, w, step))
  {
    hide ClaimOn, ValidClaimIp, PeersKept, AgentCreate, AgentDelete, SlugFree;
    if step.Claim? && step.uid in w.routers && w.routers[step.uid].claimToken == Some(step.token) {
      assert RowKept(w.routers[step.uid]);
      ClaimOnRow(w.routers[step.uid], step.tunnelIp, step.now, s.allowed);
    }
  }

  lemma InFlightReads(w: World, uid: string)
    requires PeersKept(w) && uid in w.inFlight
    ensures ReadAddress(w.inFlight[uid]).Some?
  {
    hide Tidy, ReadAddress, Peers;
  }

  // ------------------------------------------------------------------ over every run

  lemma {:induction false} RunKeepsInv(s: Settings, w: World, steps: seq<Step>)
    requires Inv(w)
    ensures Inv(Run(s, w, steps))
    decreases |steps|
  {
    hide Next, PeersKept, RowsKept;
    if steps != [] {
      StepKeepsPeers(s, w, steps[0]);
      StepKeepsRows(s, w, steps[0]);
      RunKeepsInv(s, Next(s, w, steps[0]), steps[1..]);
    }
  }

  function Start(lines: seq<string>): World { World(map[], lines, map[], {}, map[], {}) }
}
