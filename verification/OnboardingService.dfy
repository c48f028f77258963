/** The functions of services/onboarding_service.py and services/router_service.py that create,
  claim, expire, download and delete a router, step by step, against OnboardingModel.

  Two tables are state: the router rows and, inside `store`, the agent's file. The outcome of
  each agent call, and whether a commit succeeds, are inputs. */
module OnboardingServices {
  import opened Text
  import opened ChapSecrets
  import opened PeerStores
  import opened OnboardingModel

  class OnboardingService {
    const settings: Settings
    const store: PeerStore
    var routers: map<string, Router>
    ghost var granted: map<string, string>
    ghost var edited: set<string>

    ghost predicate Valid()
      reads this, store
    {
      ValidConfig(settings.pool) && store.Valid() && store.config == settings.pool
    }

    /** Between two calls nothing is in flight. */
    ghost function View(): World
      reads this, store
    {
      World(routers, SplitLines(store.text), map[], {}, granted, edited)
    }

    constructor (settings: Settings, store: PeerStore)
      requires ValidConfig(settings.pool) && store.Valid() && store.config == settings.pool
      ensures Valid() && this.settings == settings && this.store == store
      ensures View() == Start(SplitLines(store.text))
    {
      this.settings := settings;
      this.store := store;
      routers := map[];
      granted := map[];
      edited := {};
    }

    /** `provision_l2tp_peer`: None is any error its caller sees. */
    method ProvisionPeer(uid: string, password: string, call: AgentCall) returns (address: Option<string>)
      requires Valid()
      modifies store
      ensures Valid()
      ensures (SplitLines(store.text), address)
              == AgentCreate(settings.pool, old(SplitLines(store.text)), uid, password, call)
    {
      hide Mutated, SplitLines;
      if call.NeverArrived? {
        return None;
      }
      var reply := store.Mutate(Create, PeerOf(uid), password);
      if call.ReplyLost? || !reply.Placed? || reply.address == "" {
        return None;
      }
      address := Some(reply.address);
    }

    /** `revoke_l2tp_peer`, whose errors every caller swallows. */
    method RevokePeer(uid: string, call: AgentCall)
      requires Valid()
      modifies store
      ensures Valid()
      ensures SplitLines(store.text) == AgentDelete(settings.pool, old(SplitLines(store.text)), uid, call)
    {
      hide Mutated, SplitLines;
      if !call.NeverArrived? {
        var _ := store.Mutate(Delete, PeerOf(uid), "");
      }
    }

    method CreateOnboarding(uid: string, request: Request, password: string, call: AgentCall, commits: bool,
                            revocation: AgentCall)
      returns (created: bool)
      requires Valid() && uid !in routers
      modifies this, store
      ensures Valid()
      ensures View() ==
              if !SlugFree(old(View()), request.slug, uid) then old(View())
              else if settings.agentEnabled then
                Run(settings, old(View()),
                    [AskAgent(uid, password, call), EndOnboarding(uid, request, commits, revocation)])
              else if commits then Run(settings, old(View()), [OnboardWithoutAgent(uid, request)])
              else old(View())
      ensures created <==> uid in routers
    {
      hide AgentCreate, AgentDelete, ValidClaimIp, SplitLines;
      ghost var before := View();
      TwoSteps(settings, before, AskAgent(uid, password, call), EndOnboarding(uid, request, commits, revocation));
      OneStep(settings, before, OnboardWithoutAgent(uid, request));
      if exists other | other in routers :: other != uid && routers[other].slug == request.slug {
        return false;
      }
      var ip := UNKNOWN_IP;
      if settings.agentEnabled {
        var answer := ProvisionPeer(uid, password, call);
        if answer.None? {
          return false;
        }
        assert View().(inFlight := map[uid := answer.value]) == Next(settings, before, AskAgent(uid, password, call));
        var valid := ValidClaimIp(answer.value, settings.allowed);
        if valid.None? || !commits {
          RevokePeer(uid, revocation);
          assert map[uid := answer.value] - {uid} == map[];
          return false;
        }
        ip := valid.value;
        granted := granted[uid := answer.value];
        assert map[uid := answer.value] - {uid} == map[];
      } else if !commits {
        return false;
      }
      var router := Router(ip, L2tp, Pending, request.slug, true, request.owner, Some(request.claimToken),
                           Some(request.expires), None, None);
      router := router.(downloadToken := Some(request.downloadToken));
      router := router.(script := Some(request.script));
      routers := routers[uid := router];
      created := true;
    }

    /** `row` is the uid the query for the token's hash finds. */
    method ClaimOnboarding(row: Option<string>, token: string, tunnelIp: string, now: int) returns (result: ClaimResult)
      requires Valid()
      requires row.Some? ==> row.value in routers && routers[row.value].claimToken == Some(token)
      modifies this
      ensures Valid()
      ensures row.None? ==> result == NotFound && View() == old(View())
      ensures row.Some? ==>
                && View() == Next(settings, old(View()), Claim(row.value, token, tunnelIp, now))
                && result == ClaimOn(old(routers[row.value]), tunnelIp, now, settings.allowed).1
    {
      hide ValidClaimIp, SplitLines;
      if row.None? {
        return NotFound;
      }
      var router := routers[row.value];
      assert routers[row.value := router] == routers;
      if router.expires.None? || router.expires.value < now {
        return Gone;
      }
      if router.status.Claimed? {
        return AlreadyClaimed;
      }
      var claimedIp := ValidClaimIp(tunnelIp, settings.allowed);
      if claimedIp.None? {
        return BadAddress;
      }
      if router.ip != UNKNOWN_IP && router.ip != claimedIp.value {
        return Mismatch;
      }
      router := router.(ip := claimedIp.value);
      router := router.(downloadToken := None);
      router := router.(script := None);
      router := router.(status := Claimed);
      routers := routers[row.value := router];
      result := ClaimDone;
    }

    method ExpireOnboardingDownloads(now: int) returns (count: nat)
      requires Valid()
      modifies this
      ensures Valid() && View() == Next(settings, old(View()), ExpireDownloads(now))
      ensures count == |set uid | uid in old(routers) && old(routers)[uid] != routers[uid]|
    {
      hide SplitLines;
      var due := set uid | uid in routers && routers[uid].expires.Some? && routers[uid].expires.value <= now
                 && routers[uid].script.Some?;
      ghost var before := routers;
      routers := map uid | uid in routers ::
        if uid in due then routers[uid].(downloadToken := None, script := None) else routers[uid];
      assert due == set uid | uid in before && before[uid] != routers[uid];
      count := |due|;
    }

    method ConsumeOnboardingScript(uid: string, token: string, now: int, activeOwners: set<nat>)
      returns (script: Option<string>)
      requires Valid()
      ensures script == Download(View(), uid, token, now, activeOwners)
    {
      if !TokenFormat(token) || uid !in routers {
        return None;
      }
      var router := routers[uid];
      if router.downloadToken != Some(token) || router.expires.None? || router.expires.value <= now
         || !router.status.Pending? || router.script.None? || router.owner !in activeOwners
      {
        return None;
      }
      script := router.script;
    }

    method DeleteRouter(uid: string, revocation: AgentCall)
      requires Valid()
      modifies this, store
      ensures Valid()
      ensures View() == Run(settings, old(View()), [OnboardingModel.DeleteRouter(uid), Revoke(uid, revocation)])
    {
      hide AgentDelete, SplitLines;
      ghost var before := View();
      TwoSteps(settings, before, OnboardingModel.DeleteRouter(uid), Revoke(uid, revocation));
      if uid !in routers || routers[uid].status.Deleted? {
        return;
      }
      if exists other | other in routers :: other != uid && routers[other].slug == "deleted-" + uid {
        return;
      }
      var row := routers[uid];
      var shouldRevoke := row.mode.L2tp? && settings.agentEnabled;
      row := row.(portalEnabled := false, slug := "deleted-" + uid, status := Status.Deleted);
      row := row.(downloadToken := None, script := None, claimToken := None, expires := None);
      routers := routers[uid := row];
      if shouldRevoke {
        assert View().(revoking := {uid}) == Next(settings, before, OnboardingModel.DeleteRouter(uid));
        RevokePeer(uid, revocation);
        assert {uid} - {uid} == {};
      }
    }
  }

  lemma OneStep(s: Settings, w: World, step: Step)
    ensures Run(s, w, [step]) == Next(s, w, step)
  {
    hide Next;
    assert [step][1..] == [];
  }

  lemma TwoSteps(s: Settings, w: World, first: Step, second: Step)
    ensures Run(s, w, [first, second]) == Next(s, Next(s, w, first), second)
  {
    hide Next;
    assert [first, second][1..] == [second];
    OneStep(s, Next(s, w, first), second);
  }
}
