/** The life of a router row, its claim and download tokens and its stored script, over every
  run of services/onboarding_service.py and services/router_service.py. */
module OnboardingLifecycle {
  import opened OnboardingModel

  /** What may become of a row: nothing that was withdrawn ever comes back. */
  predicate Evolves(r: Router, later: Router) {
    && (r.status.Deleted? ==> later.status.Deleted?)
    && (later.status.Pending? ==> r.status.Pending?)
    && (later.script == r.script || later.script.None?)
    && (later.downloadToken == r.downloadToken || later.downloadToken.None?)
    && (later.expires == r.expires || later.expires.None?)
    && (later.claimToken == r.claimToken || later.claimToken.None?)
    && later.owner == r.owner && later.mode == r.mode
  }

  lemma ClaimEvolves(r: Router, tunnelIp: string, now: int, allowed: Networks)
    requires RowKept(r) && r.claimToken.Some?
    ensures Evolves(r, ClaimOn(r, tunnelIp, now, allowed).0)
  {
    hide ValidClaimIp;
  }

  lemma RowChangesEvolve(r: Router)
    ensures Evolves(r, r)
    ensures forall uid :: Evolves(r, DeletedRow(uid, r))
    ensures forall now :: Evolves(r, ExpiredRow(r, now))
    ensures !r.status.Deleted? ==> forall ip, slug :: Evolves(r, EditedRow(r, ip, slug))
  {
  }

  predicate AddsRouter(step: Step) { CallsAgent(step) || step.OnboardWithoutAgent? || step.CreateDirect? }

  lemma AddingKeepsRow(s: Settings, w: World, step: Step, uid: string)
    requires Inv(w) && uid in w.routers && AddsRouter(step)
    ensures uid in Next(s, w, step).routers && Next(s, w, step).routers[uid] == w.routers[uid]
  {
    NotYetARouter(w);
    hide Inv, AgentCreate, AgentDelete, ValidClaimIp, SlugFree, NewRouter;
  }

  lemma ChangingEvolvesRow(s: Settings, w: World, step: Step, uid: string)
    requires uid in w.routers && RowKept(w.routers[uid]) && !AddsRouter(step)
    ensures uid in Next(s, w, step).routers && Evolves(w.routers[uid], Next(s, w, step).routers[uid])
  {
    RowChangesEvolve(w.routers[uid]);
    hide ClaimOn, SlugFree, Evolves, DeletedRow, ExpiredRow, EditedRow;
    if step.Claim? && step.uid == uid && w.routers[uid].claimToken.Some? {
      ClaimEvolves(w.routers[uid], step.tunnelIp, step.now, s.allowed);
    }
  }

  lemma RowEvolves(s: Settings, w: World, step: Step, uid: string)
    requires Inv(w) && uid in w.routers
    ensures uid in Next(s, w, step).routers && Evolves(w.routers[uid], Next(s, w, step).routers[uid])
  {
    hide Inv, Next, Evolves;
    RowOfInv(w, uid);
    RowChangesEvolve(w.routers[uid]);
    if AddsRouter(step) {
      AddingKeepsRow(s, w, step, uid);
    } else {
      ChangingEvolvesRow(s, w, step, uid);
    }
  }

  lemma RowOfInv(w: World, uid: string)
    requires Inv(w) && uid in w.routers
    ensures RowKept(w.routers[uid])
  {
    hide PeersKept;
  }

  lemma NotYetARouter(w: World)
    requires Inv(w)
    ensures forall uid | uid in w.inFlight :: uid !in w.routers
  {
    hide FileKept, HasPeer, RowsKept;
  }

  lemma {:induction false} RowEvolvesOverRuns(s: Settings, w: World, steps: seq<Step>, uid: string)
    requires Inv(w) && uid in w.routers
    ensures uid in Run(s, w, steps).routers && Evolves(w.routers[uid], Run(s, w, steps).routers[uid])
    decreases |steps|
  {
    hide Next, Inv;
    if steps != [] {
      RowEvolves(s, w, steps[0], uid);
      StepKeepsInv(s, w, steps[0]);
      RowEvolvesOverRuns(s, Next(s, w, steps[0]), steps[1..], uid);
    }
  }

  lemma StepKeepsInv(s: Settings, w: World, step: Step)
    requires Inv(w)
    ensures Inv(Next(s, w, step))
  {
    hide Next, PeersKept, RowsKept;
    StepKeepsPeers(s, w, step);
    StepKeepsRows(s, w, step);
  }

  // ------------------------------------------------------------------ downloads

  /** A row that can still be downloaded at `now`. */
  predicate Downloadable(r: Router, now: int) {
    r.status.Pending? && r.script.Some? && r.expires.Some? && r.expires.value > now
  }

  /** Once a script is claimed, deleted, expired or withdrawn, no token ever fetches it again. */
  lemma NoDownloadEverAgain(s: Settings, w: World, steps: seq<Step>, uid: string, token: string, now0: int, now: int,
                            owners: set<nat>)
    requires Inv(w) && uid in w.routers
    requires !Downloadable(w.routers[uid], now0) && now0 <= now
    ensures Download(Run(s, w, steps), uid, token, now, owners).None?
  {
    hide Run, Inv;
    RowEvolvesOverRuns(s, w, steps, uid);
  }

  /** Any two downloads of one router in one run return the same script. */
  lemma DownloadsAgree(s: Settings, w: World, steps: seq<Step>, uid: string,
                       t1: string, now1: int, owners1: set<nat>, t2: string, now2: int, owners2: set<nat>)
    requires Inv(w)
    requires Download(w, uid, t1, now1, owners1).Some? && Download(Run(s, w, steps), uid, t2, now2, owners2).Some?
    ensures Download(Run(s, w, steps), uid, t2, now2, owners2) == Download(w, uid, t1, now1, owners1) && t1 == t2
  {
    hide Run, Inv;
    RowEvolvesOverRuns(s, w, steps, uid);
  }

  /** While the router stays pending, a download can be repeated up to the moment of expiry. */
  lemma {:induction false} DownloadIsRetryable(s: Settings, w: World, steps: seq<Step>, uid: string, token: string,
                                               now: int, owners: set<nat>)
    requires Inv(w) && Download(w, uid, token, now, owners).Some?
    requires forall st | st in steps && st.ExpireDownloads? :: st.now <= now
    requires uid in Run(s, w, steps).routers && Run(s, w, steps).routers[uid].status.Pending?
    ensures Download(Run(s, w, steps), uid, token, now, owners) == Download(w, uid, token, now, owners)
    decreases |steps|
  {
    if steps != [] {
      var v := Next(s, w, steps[0]);
      StepKeepsInv(s, w, steps[0]);
      RowEvolves(s, w, steps[0], uid);
      RowEvolvesOverRuns(s, v, steps[1..], uid);
      hide Inv, Run, Next;
      assert v.routers[uid].status.Pending?;
      PendingRowIsUntouched(s, w, steps[0], uid, now);
      DownloadIsRetryable(s, v, steps[1..], uid, token, now, owners);
    }
  }

  lemma PendingRowIsUntouched(s: Settings, w: World, step: Step, uid: string, now: int)
    requires Inv(w) && uid in w.routers && w.routers[uid].expires.Some? && now < w.routers[uid].expires.value
    requires step.ExpireDownloads? ==> step.now <= now
    requires uid in Next(s, w, step).routers && Next(s, w, step).routers[uid].status.Pending?
    ensures
      var r, later := w.routers[uid], Next(s, w, step).routers[uid];
      && later.script == r.script && later.downloadToken == r.downloadToken && later.expires == r.expires
      && later.owner == r.owner
  {
    hide Inv, SlugFree, ValidClaimIp;
    if AddsRouter(step) {
      AddingKeepsRow(s, w, step, uid);
      hide Next;
    }
  }

  // ------------------------------------------------------------------ claims and deletion

  /** A stored script belongs to a pending router, in every run. */
  lemma ScriptsArePending(s: Settings, w: World, steps: seq<Step>, uid: string)
    requires Inv(w) && uid in Run(s, w, steps).routers
    ensures Run(s, w, steps).routers[uid].script.Some? ==> Run(s, w, steps).routers[uid].status.Pending?
  {
    hide Run, PeersKept;
    RunKeepsInv(s, w, steps);
  }

  /** Deleted is never left, and a deleted router answers no claim. */
  lemma DeletedIsFinal(s: Settings, w: World, steps: seq<Step>, uid: string)
    requires Inv(w) && uid in w.routers && w.routers[uid].status.Deleted?
    ensures
      var later := Run(s, w, steps).routers;
      uid in later && later[uid].status.Deleted? && later[uid].claimToken.None? && later[uid].script.None?
  {
    hide Run, Inv, PeersKept;
    RowEvolvesOverRuns(s, w, steps, uid);
    RunKeepsInv(s, w, steps);
    RowOfInv(Run(s, w, steps), uid);
  }

  /** Claiming again before expiry changes nothing and says so. */
  lemma ClaimIsIdempotent(r: Router, tunnelIp: string, now: int, again: string, later: int, allowed: Networks)
    requires ClaimOn(r, tunnelIp, now, allowed).1.ClaimDone?
    ensures
      var claimed := ClaimOn(r, tunnelIp, now, allowed).0;
      && claimed.status.Claimed?
      && ClaimOn(claimed, again, later, allowed) == (claimed, if later <= r.expires.value then AlreadyClaimed else Gone)
  {
    hide ValidClaimIp;
  }

  // ------------------------------------------------------------------ slugs

  predicate UniqueSlugs(w: World) {
    forall u, v | u in w.routers && v in w.routers && u != v :: w.routers[u].slug != w.routers[v].slug
  }

  lemma StepKeepsSlugsUnique(s: Settings, w: World, step: Step)
    requires UniqueSlugs(w)
    ensures UniqueSlugs(Next(s, w, step))
  {
    hide AgentCreate, AgentDelete, ValidClaimIp, ClaimOn;
    if step.Claim? && step.uid in w.routers {
      ClaimKeepsSlug(w.routers[step.uid], step.tunnelIp, step.now, s.allowed);
    }
  }

  lemma ClaimKeepsSlug(r: Router, tunnelIp: string, now: int, allowed: Networks)
    ensures ClaimOn(r, tunnelIp, now, allowed).0.slug == r.slug
  {
    hide ValidClaimIp;
  }

  /** In every run no two routers share a portal slug, the deleted ones included, so a slug freed by
    a deletion can be used again and still names one router. */
  lemma {:induction false} SlugsStayUnique(s: Settings, w: World, steps: seq<Step>)
    requires UniqueSlugs(w)
    ensures UniqueSlugs(Run(s, w, steps))
    decreases |steps|
  {
    hide Next, UniqueSlugs;
    if steps != [] {
      StepKeepsSlugsUnique(s, w, steps[0]);
      SlugsStayUnique(s, Next(s, w, steps[0]), steps[1..]);
    }
  }
}
