/** What becomes of a payment session: the status each callback, query, job and deletion leaves it
  in, and what can still happen to it from there. */
module PaymentOutcomes {
  import opened Text
  import opened AccessTables
  import opened PaymentModel
  import opened PaymentAccess
  import opened PaymentMoves
  import opened PaymentHotspot
  import opened PaymentServed
  import opened PaymentJobs
  import opened PaymentServices

  /** The world with one session in another status. */
  function Marked(w: World, id: nat, status: Status, now: int): World
    requires id < |w.sessions|
  {
    w.(sessions := w.sessions[id := w.sessions[id].(status := status, updatedAt := now)])
  }

  /** Callbacks still count for it. */
  predicate Open(s: Session) { !s.status.Provisioned? && !s.status.ManualReview? }

  /** `id` is the one session with this request id. */
  predicate HasRequest(w: World, requestId: string, id: nat) {
    && requestId != "" && id < |w.sessions|
    && forall j: nat | j < |w.sessions| :: w.sessions[j].requestId == Some(requestId) <==> j == id
  }

  lemma RequestIsFound(w: World, requestId: string, id: nat)
    requires HasRequest(w, requestId, id)
    ensures FindByRequest(w.sessions, requestId) == Some(id)
  {
    var found := FindByRequest(w.sessions, requestId);
    assert found.Some? ==> w.sessions[found.value].requestId == Some(requestId);
    assert w.sessions[id].requestId == Some(requestId);
  }

  // ------------------------------------------------------------------ M-Pesa callbacks

  /** A callback that reports no success fails the session, and nothing else happens. */
  lemma FailureFails(settings: Settings, w: World, c: MpesaCallback, verification: Verification, meanwhile: seq<Step>,
                     call: Call, id: nat)
    requires c.requestId.Some? && HasRequest(w, c.requestId.value, id) && w.sessions[id].provider.Mpesa?
    requires Open(w.sessions[id]) && !c.success
    ensures Run(settings, w, MpesaCallbackSteps(w, c, verification, meanwhile, call)) == Marked(w, id, Failed, call.now)
  {
    hide Run, FindByRequest;
    RequestIsFound(w, c.requestId.value, id);
    RunOne(settings, w, StepCallbackFails(id, call.now));
  }

  /** A success with another amount or phone, or one the query denies, is left for a review unless
    the session was provisioned in the meantime. */
  lemma MismatchIsReviewed(settings: Settings, w: World, c: MpesaCallback, verification: Verification,
                           meanwhile: seq<Step>, call: Call, id: nat)
    requires c.requestId.Some? && HasRequest(w, c.requestId.value, id) && w.sessions[id].provider.Mpesa?
    requires Open(w.sessions[id]) && c.success
    requires c.amount != Some(w.sessions[id].amount) || c.phone != w.sessions[id].phone
             || verification == Verified(false)
    ensures
      var u := Run(settings, w, meanwhile);
      && id < |u.sessions|
      && Run(settings, w, MpesaCallbackSteps(w, c, verification, meanwhile, call))
         == if u.sessions[id].status.Provisioned? then u else Marked(u, id, ManualReview, call.now)
  {
    hide Run, FindByRequest;
    RequestIsFound(w, c.requestId.value, id);
    RunKeepsDeal(settings, w, meanwhile, id);
    OneMore(settings, w, meanwhile, StepMarkReview(id, call.now));
  }

  /** A matching success that the query confirms, or that needs no query, is completed: provisioned
    if access can be, left for a retry otherwise. */
  lemma SuccessCompletes(settings: Settings, w: World, c: MpesaCallback, verification: Verification,
                         meanwhile: seq<Step>, call: Call, id: nat)
    requires AccessInv(w)
    requires c.requestId.Some? && HasRequest(w, c.requestId.value, id) && w.sessions[id].provider.Mpesa?
    requires Open(w.sessions[id]) && c.success
    requires c.amount == Some(w.sessions[id].amount) && c.phone == w.sessions[id].phone
    requires verification.Disabled? || verification == Verified(true)
    ensures
      var u := Run(settings, w, meanwhile);
      var v := Run(settings, w, MpesaCallbackSteps(w, c, verification, meanwhile, call));
      && id < |u.sessions| && id < |v.sessions|
      && (u.sessions[id].status.Provisioned? ==> v == u)
      && (!u.sessions[id].status.Provisioned? ==>
            v.sessions[id].status == if CanProvision(u, id, call.up) then Provisioned else ProvisioningFailed)
  {
    hide Run, FindByRequest, Complete, CanProvision, AccessInv;
    RequestIsFound(w, c.requestId.value, id);
    ThenCompletes(settings, w, meanwhile, id, c.receipt, call);
    StoresAgree(settings, w, meanwhile);
    var u := Run(settings, w, meanwhile);
    CompleteMoves(u, id, c.receipt, call.password, call.up, call.now);
    if !u.sessions[id].status.Provisioned? {
      CompletionSucceedsExactly(u, id, c.receipt, call.password, call.up, call.now);
    }
  }

  /** A query that fails leaves the session to later answers. */
  lemma FailedQueryWaits(settings: Settings, w: World, c: MpesaCallback, meanwhile: seq<Step>, call: Call, id: nat)
    requires c.requestId.Some? && HasRequest(w, c.requestId.value, id) && w.sessions[id].provider.Mpesa?
    requires Open(w.sessions[id]) && c.success
    requires c.amount == Some(w.sessions[id].amount) && c.phone == w.sessions[id].phone
    ensures
      Run(settings, w, MpesaCallbackSteps(w, c, QueryFails, meanwhile, call)) == Run(settings, w, meanwhile)
  {
    hide Run, FindByRequest;
    RequestIsFound(w, c.requestId.value, id);
  }

  /** A session that failed by a callback is not lost: a later success of the same request provisions
    it exactly when access can be provisioned. */
  lemma SuccessAfterFailure(settings: Settings, w: World, failure: MpesaCallback, success: MpesaCallback, first: Call,
                            verification: Verification, second: Call, id: nat)
    requires AccessInv(w) && success.requestId == failure.requestId
    requires failure.requestId.Some? && HasRequest(w, failure.requestId.value, id) && w.sessions[id].provider.Mpesa?
    requires Open(w.sessions[id]) && !failure.success && success.success
    requires success.amount == Some(w.sessions[id].amount) && success.phone == w.sessions[id].phone
    requires verification.Disabled? || verification == Verified(true)
    ensures
      var u := Run(settings, w, MpesaCallbackSteps(w, failure, Disabled, [], first));
      var v := Run(settings, u, MpesaCallbackSteps(u, success, verification, [], second));
      && id < |v.sessions|
      && v.sessions[id].status == if CanProvision(w, id, second.up) then Provisioned else ProvisioningFailed
  {
    FailureFails(settings, w, failure, Disabled, [], first, id);
    StoresAgree(settings, w, MpesaCallbackSteps(w, failure, Disabled, [], first));
    var u := Marked(w, id, Failed, first.now);
    assert HasRequest(u, success.requestId.value, id);
    RunNothing(settings, u);
    hide Run, AccessInv, MpesaCallbackSteps, HasRequest;
    SuccessCompletes(settings, u, success, verification, [], second, id);
  }

  // ------------------------------------------------------------------ Kopo Kopo callbacks

  /** The one transaction of a Kopo Kopo callback, or its completion: a failure fails the session, a
    success that does not match is left for a review, and one that matches is completed. */
  lemma KopoCallbackSettles(settings: Settings, w: World, c: KopoCallback, meanwhile: seq<Step>, call: Call, id: nat)
    requires AccessInv(w) && id < |w.sessions| && c.id == Some(id) && w.sessions[id].provider.Kopokopo?
    requires Open(w.sessions[id])
    ensures
      var s, v := w.sessions[id], Run(settings, w, KopoCallbackSteps(w, c, meanwhile, call));
      var u, matches := Run(settings, w, meanwhile), c.amount == Some(s.amount) && c.phone == s.phone;
      && (!c.success ==> v == Marked(w, id, Failed, call.now))
      && (c.success && matches ==> KopoAnswer(w, id, c.success, matches, call.now) == w)
      && (c.success && !matches ==> v == Marked(w, id, ManualReview, call.now))
      && (c.success && matches ==>
            && id < |u.sessions| && id < |v.sessions|
            && (u.sessions[id].status.Provisioned? ==> v == u)
            && (!u.sessions[id].status.Provisioned? ==>
                  v.sessions[id].status == if CanProvision(u, id, call.up) then Provisioned else ProvisioningFailed))
  {
    hide Run, Complete, CanProvision, AccessInv;
    var s := w.sessions[id];
    RunOne(settings, w, StepKopoAnswer(id, c.success, c.amount == Some(s.amount) && c.phone == s.phone, call.now));
    ThenCompletes(settings, w, meanwhile, id, c.receipt, call);
    StoresAgree(settings, w, meanwhile);
    var u := Run(settings, w, meanwhile);
    CompleteMoves(u, id, c.receipt, call.password, call.up, call.now);
    if !u.sessions[id].status.Provisioned? {
      CompletionSucceedsExactly(u, id, c.receipt, call.password, call.up, call.now);
    }
  }

  /** A session in review is left alone by both providers' callbacks, by a retry and by polls until
    somebody has looked at it; so is a provisioned one. */
  lemma ClosedIsLeftAlone(settings: Settings, w: World, c: MpesaCallback, k: KopoCallback, verification: Verification,
                          meanwhile: seq<Step>, call: Call, tokenOk: bool, now: int, id: nat)
    requires id < |w.sessions| && !Open(w.sessions[id])
    ensures c.requestId.Some? && HasRequest(w, c.requestId.value, id) ==>
              MpesaCallbackSteps(w, c, verification, meanwhile, call) == []
    ensures k.id == Some(id) ==> KopoCallbackSteps(w, k, meanwhile, call) == []
    ensures RetrySteps(w, id, meanwhile, call) == []
    ensures Poll(settings, w, id, tokenOk, now) == (w, None)
  {
    hide FindByRequest;
    if c.requestId.Some? && HasRequest(w, c.requestId.value, id) {
      RequestIsFound(w, c.requestId.value, id);
    }
  }

  // ------------------------------------------------------------------ failed sessions

  /** A failed hotspot session gives its unpaid account back: a cleanup that reaches the router
    removes it on both sides, whatever failed the session. */
  lemma FailedSessionIsCleaned(w: World, id: nat, up: bool, now: int)
    requires AccessInv(w) && id < |w.sessions| && w.sessions[id].status.Failed? && w.sessions[id].service.Hotspot?
    requires RouterUp(w, w.sessions[id].router, up)
    requires
      var key := Key(Hotspot, w.sessions[id].router, Derived(id));
      key in w.customers && w.customers[key].expires.None?
    ensures
      var v, key := Cleanup(w, id, up, now), Key(Hotspot, w.sessions[id].router, Derived(id));
      v.customers == w.customers - {key} && Lookup(v.device, key).None? && OthersServed(w, v, key)
  {
    OwnerIsNamed(w, id);
    hide Cleanup, AccessInv, Lookup, RouterUp, OthersServed;
    CleanupServes(w, id, up, now);
  }

  lemma OwnerIsNamed(w: World, id: nat)
    requires AccessInv(w) && id < |w.sessions| && Key(Hotspot, w.sessions[id].router, Derived(id)) in w.customers
    ensures w.sessions[id].accessName == Some(Derived(id))
  {
    var key := Key(Hotspot, w.sessions[id].router, Derived(id));
    assert Owns(w.sessions, key, w.customers[key]);
  }

  /** So it is after a callback that reports no success. */
  lemma FailureIsCleaned(settings: Settings, w: World, c: MpesaCallback, call: Call, id: nat, up: bool, now: int)
    requires AccessInv(w)
    requires c.requestId.Some? && HasRequest(w, c.requestId.value, id) && w.sessions[id].provider.Mpesa?
    requires Open(w.sessions[id]) && !c.success && w.sessions[id].service.Hotspot?
    requires RouterUp(w, w.sessions[id].router, up)
    requires
      var key := Key(Hotspot, w.sessions[id].router, Derived(id));
      key in w.customers && w.customers[key].expires.None?
    ensures
      var key := Key(Hotspot, w.sessions[id].router, Derived(id));
      var v := Cleanup(Run(settings, w, MpesaCallbackSteps(w, c, Disabled, [], call)), id, up, now);
      v.customers == w.customers - {key} && Lookup(v.device, key).None?
  {
    FailureFails(settings, w, c, Disabled, [], call, id);
    StoresAgree(settings, w, MpesaCallbackSteps(w, c, Disabled, [], call));
    hide Run, Cleanup, AccessInv, Lookup, HasRequest, MpesaCallbackSteps;
    FailedSessionIsCleaned(Marked(w, id, Failed, call.now), id, up, now);
  }

  // ------------------------------------------------------------------ initiation, expiry, polls

  /** The provider's answer to the request: with its id the session waits for a payment, whatever it
    was before; without one a session nobody has moved fails. */
  lemma InitiationSettles(w: World, id: nat, answer: Option<string>, now: int)
    requires id < |w.sessions| && w.sessions[id].task == Asking(true)
    ensures
      var s, v := w.sessions[id], FinishInitiation(w, id, answer, now);
      && |v.sessions| == |w.sessions| && v == w.(sessions := w.sessions[id := v.sessions[id]])
      && v.sessions[id].task.Done?
      && (if answer.Some? then v.sessions[id].status.Pending? && v.sessions[id].requestId == answer
          else && v.sessions[id].status == (if s.status.Created? then Failed else s.status)
               && v.sessions[id].requestId == s.requestId)
  {
  }

  /** The expiry job fails exactly the sessions that were created or pending and whose time is up. */
  lemma ExpiryFails(w: World, now: int, i: nat)
    requires i < |w.sessions|
    ensures
      var s, v := w.sessions[i], ExpireSessions(w, now);
      && |v.sessions| == |w.sessions| && v == w.(sessions := v.sessions)
      && v.sessions[i] == if (s.status.Created? || s.status.Pending?) && s.expiresAt <= now
                          then s.(status := Failed, updatedAt := now) else s
  {
  }

  /** A poll is answered for as long as its token lives; it fails a session whose time has passed,
    and asks M-Pesa about a pending one that nobody has touched for five seconds. */
  lemma PollSettles(settings: Settings, w: World, id: nat, tokenOk: bool, now: int)
    ensures
      var answered := id < |w.sessions| && tokenOk && now <= w.sessions[id].createdAt + 60 * settings.tokenMinutes;
      var late := answered && (w.sessions[id].status.Created? || w.sessions[id].status.Pending?)
                  && w.sessions[id].expiresAt < now;
      var asks := answered && !late && w.sessions[id].status.Pending? && w.sessions[id].provider.Mpesa?
                  && w.sessions[id].requestId.Some? && w.sessions[id].updatedAt + 5 <= now;
      Poll(settings, w, id, tokenOk, now)
      == if late then (Marked(w, id, Failed, now), None)
         else if asks then (Marked(w, id, Pending, now), w.sessions[id].requestId)
         else (w, None)
  {
  }

  /** Two polls of one session within five seconds make at most one query, and none follows an
    unpaid answer for as long. */
  lemma PollsAreThrottled(settings: Settings, w: World, id: nat, now: int, tokenOk: bool, later: int)
    requires later < now + 5
    ensures Poll(settings, w, id, true, now).1.Some? ==>
              Poll(settings, Poll(settings, w, id, true, now).0, id, tokenOk, later).1.None?
    ensures Poll(settings, RecordQuery(w, id, now), id, tokenOk, later).1.None?
  {
  }

  /** An answer that the session is not paid, or no answer, moves no session; one that it is paid
    completes it. */
  lemma AnswersSettle(settings: Settings, w: World, id: nat, receipt: Option<string>, call: Call)
    requires AccessInv(w) && CanComplete(w, id) && !w.sessions[id].status.Provisioned?
    ensures Run(settings, w, AnswerSteps(id, NoAnswer, call)) == w
    ensures
      Run(settings, w, AnswerSteps(id, NotPaid, call))
      == if w.sessions[id].status.Pending? then Marked(w, id, Pending, call.now) else w
    ensures
      var v := Run(settings, w, AnswerSteps(id, Paid(receipt), call));
      && id < |v.sessions|
      && v.sessions[id].status == if CanProvision(w, id, call.up) then Provisioned else ProvisioningFailed
  {
    hide Run, Complete, CanProvision, AccessInv;
    RunNothing(settings, w);
    RunOne(settings, w, StepRecordQuery(id, call.now));
    RunOne(settings, w, CompleteStep(id, receipt, call));
    CompletionSucceedsExactly(w, id, receipt, call.password, call.up, call.now);
  }

  /** A retry completes exactly the sessions that are paid and wait for access. */
  lemma RetrySettles(settings: Settings, w: World, id: nat, call: Call)
    requires AccessInv(w) && id < |w.sessions|
    ensures
      var s, v := w.sessions[id], Run(settings, w, RetrySteps(w, id, [], call));
      if s.status.ProvisioningFailed? then
        && |v.sessions| == |w.sessions| && v.sessions[id].status
           == (if CanProvision(w, id, call.up) then Provisioned else ProvisioningFailed)
        && (v.sessions[id].status.Provisioned? ==> v.sessions[id].receipt == s.receipt)
      else v == w
  {
    SessionHolds(w, id);
    hide Run, Complete, CanProvision, AccessInv, Granted, LineGranted, OthersServed;
    var s := w.sessions[id];
    RunNothing(settings, w);
    if s.status.ProvisioningFailed? {
      assert [] + [CompleteStep(id, s.receipt, call)] == [CompleteStep(id, s.receipt, call)];
      RunOne(settings, w, CompleteStep(id, s.receipt, call));
      if CanProvision(w, id, call.up) {
        CompletionServes(w, id, s.receipt, call.password, call.up, call.now);
      } else {
        CompletionMisses(w, id, s.receipt, call.password, call.up, call.now);
      }
    }
  }

  // ------------------------------------------------------------------ deleting a router

  /** The deletion of a router closes its portal and retires its packages, fails the sessions nobody
    has paid, leaves those paid but without access for a review, and touches nothing else. */
  lemma DeletionSettles(w: World, router: nat, now: int)
    requires router in w.routers && !w.routers[router].deleted
    ensures
      var v := DeleteRouter(w, router, now);
      && v.customers == w.customers && v.device == w.device && v.ledger == w.ledger
      && v.routers == w.routers[router := w.routers[router].(deleted := true, portalEnabled := false)]
      && v.packages.Keys == w.packages.Keys && |v.sessions| == |w.sessions|
      && (forall p | p in w.packages ::
            v.packages[p] == w.packages[p].(active := w.packages[p].active && w.packages[p].router != router))
      && (forall i | 0 <= i < |w.sessions| && w.sessions[i].router != router :: v.sessions[i] == w.sessions[i])
      && (forall i | 0 <= i < |w.sessions| && w.sessions[i].router == router ::
            var s := w.sessions[i];
            v.sessions[i] ==
            match s.status
            case Created => s.(status := Failed, updatedAt := now)
            case Pending => s.(status := Failed, updatedAt := now)
            case Provisioning => s.(status := ManualReview, updatedAt := now)
            case ProvisioningFailed => s.(status := ManualReview, updatedAt := now)
            case _ => s)
  {
  }

  // ------------------------------------------------------------------ the end of paid access

  /** The job switches an account off at its expiry and not before, if its router answers, and leaves
    accounts without an expiry on. */
  lemma AccessEndsOnTime(w: World, rows: seq<Key>, now: int, unreachable: set<Key>, key: Key)
    requires AccessInv(w) && key in w.customers && key in rows && w.customers[key].active
    requires key !in unreachable && key.router in w.routers && !w.routers[key.router].deleted
    ensures
      var v := ExpireAccess(w, rows, now, unreachable);
      && key in v.customers
      && (v.customers[key].active <==> w.customers[key].expires.None? || now < w.customers[key].expires.value)
  {
    hide ExpireAccess, AccessInv;
    ExpirySwitchesOffExactly(w, rows, now, unreachable);
  }
}
