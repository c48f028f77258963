/** What `create_public_payment` answers to each request, and what a session it starts says. */
module PaymentRequests {
  import opened Text
  import opened PaymentModel
  import opened PaymentWindow

  // ------------------------------------------------------------------ the limit

  /** The session was created since `since` for this phone, or from this address if there is one. */
  predicate Attempted(s: Session, phone: string, client: Option<string>, since: int) {
    s.createdAt >= since && (s.phone == phone || (client.Some? && s.client == client))
  }

  function Attempts(sessions: seq<Session>, phone: string, client: Option<string>, since: int): set<nat> {
    set i: nat | i < |sessions| && Attempted(sessions[i], phone, client, since)
  }

  lemma OneMoreAttempt(front: seq<Session>, last: Session, phone: string, client: Option<string>, since: int)
    ensures Attempts(front + [last], phone, client, since)
            == Attempts(front, phone, client, since)
               + if Attempted(last, phone, client, since) then {|front|} else {}
  {
    hide Attempted;
    var all := front + [last];
    assert all[|front|] == last;
    assert forall i | 0 <= i < |front| :: all[i] == front[i];
  }

  lemma {:induction false} AttemptsAreCounted(sessions: seq<Session>, phone: string, client: Option<string>, since: int)
    ensures |Attempts(sessions, phone, client, since)| == RecentCount(sessions, phone, client, since)
  {
    if sessions != [] {
      var front, last := sessions[..|sessions| - 1], sessions[|sessions| - 1];
      assert sessions == front + [last];
      AttemptsAreCounted(front, phone, client, since);
      OneMoreAttempt(front, last, phone, client, since);
      assert |front| !in Attempts(front, phone, client, since);
    }
  }

  // ------------------------------------------------------------------ the answers

  predicate PortalOpen(w: World, r: Request) {
    r.router.Some? && r.router.value in w.routers && w.routers[r.router.value].portalEnabled
  }

  /** The portal sells this package, active and its own. */
  predicate Sells(w: World, r: Request) {
    && r.router.Some? && r.package.Some? && r.package.value in w.packages
    && w.packages[r.package.value].router == r.router.value && w.packages[r.package.value].active
  }

  /** Session `i` was started on this portal with this key. */
  predicate UsedBy(w: World, r: Request, i: nat) {
    i < |w.sessions| && r.router == Some(w.sessions[i].router) && w.sessions[i].idempotencyKey == r.key
  }

  /** Session `i` asked for the same package, phone and account. */
  predicate SameRequest(s: Session, r: Request) {
    r.package == Some(s.fingerprint.package) && s.fingerprint.phone == r.phone && s.fingerprint.reference == r.reference
  }

  /** The request passes every check before the idempotency key. */
  predicate Valid(settings: Settings, w: World, r: Request) {
    && PortalOpen(w, r) && w.routers[r.router.value].provider in settings.providers && Sells(w, r)
    && (w.packages[r.package.value].service.Pppoe? ==> r.reference != "")
  }

  lemma InvalidAnswers(settings: Settings, w: World, r: Request, now: int, stamp: int)
    ensures
      var (v, answer) := CreatePayment(settings, w, r, now, stamp);
      && (answer.PortalNotFound? <==> !PortalOpen(w, r))
      && (answer.ProviderDisabled? <==> PortalOpen(w, r) && w.routers[r.router.value].provider !in settings.providers)
      && (answer.PackageNotFound? <==>
            PortalOpen(w, r) && w.routers[r.router.value].provider in settings.providers && !Sells(w, r))
      && (answer.ReferenceMissing? <==>
            && PortalOpen(w, r) && w.routers[r.router.value].provider in settings.providers && Sells(w, r)
            && w.packages[r.package.value].service.Pppoe? && r.reference == "")
      && (!Valid(settings, w, r) <==>
            answer.PortalNotFound? || answer.ProviderDisabled? || answer.PackageNotFound? || answer.ReferenceMissing?)
      && (!answer.Started? ==> v == w)
  {
    hide FindByKey, RecentCount;
  }

  /** A key that was used before is answered with its session, or refused for another request. */
  lemma UsedKeyAnswers(settings: Settings, w: World, r: Request, now: int, stamp: int, i: nat)
    requires UniqueKeys(w.sessions) && Valid(settings, w, r) && UsedBy(w, r, i)
    ensures CreatePayment(settings, w, r, now, stamp).1
            == if SameRequest(w.sessions[i], r) then Replayed(i) else KeyReused
  {
    hide RecentCount;
    var found := FindByKey(w.sessions, r.router.value, r.key);
    assert found == Some(i);
  }

  /** What a session says when it has just been started. */
  predicate Opened(settings: Settings, w: World, r: Request, now: int, stamp: int, s: Session)
    requires Valid(settings, w, r)
  {
    var p := w.packages[r.package.value];
    && s.status.Created? && s.task == Asking(false) && s.provider == w.routers[r.router.value].provider
    && s.amount == p.price && s.service == p.service && s.router == r.router.value && s.package == r.package.value
    && s.phone == r.phone && s.client == r.client && s.reference == r.reference && s.idempotencyKey == r.key
    && SameRequest(s, r) && s.createdAt == s.updatedAt == stamp && s.expiresAt == now + 60 * settings.sessionMinutes
    && s.requestId.None? && s.receipt.None? && s.accessName.None? && s.accessPassword.None? && s.credentialsUntil.None?
  }

  /** A valid request with a new key is refused exactly when the configured number of attempts was
    reached in the window before it, by this phone or from this address, and starts a payment for
    the price of the package otherwise. */
  lemma NewKeyAnswers(settings: Settings, w: World, r: Request, now: int, stamp: int)
    requires Valid(settings, w, r) && forall i: nat :: !UsedBy(w, r, i)
    ensures
      var (v, answer) := CreatePayment(settings, w, r, now, stamp);
      if |Attempts(w.sessions, r.phone, r.client, now - 60 * settings.windowMinutes)| >= settings.limit
      then answer == TooMany && v == w
      else
        && answer == Started(|w.sessions|) && v == w.(sessions := v.sessions) && |v.sessions| == |w.sessions| + 1
        && v.sessions[..|w.sessions|] == w.sessions && Opened(settings, w, r, now, stamp, v.sessions[|w.sessions|])
  {
    hide RecentCount, Attempts;
    AttemptsAreCounted(w.sessions, r.phone, r.client, now - 60 * settings.windowMinutes);
    var found := FindByKey(w.sessions, r.router.value, r.key);
    assert found.Some? ==> UsedBy(w, r, found.value);
  }

  /** Attempts older than the window never count: whoever has made none since may start again. */
  lemma QuietPhoneMayStart(settings: Settings, w: World, r: Request, now: int, stamp: int)
    requires Valid(settings, w, r) && settings.limit > 0 && forall i: nat :: !UsedBy(w, r, i)
    requires
      forall s | s in w.sessions && s.createdAt >= now - 60 * settings.windowMinutes ::
        s.phone != r.phone && (r.client.Some? ==> s.client != r.client)
    ensures CreatePayment(settings, w, r, now, stamp).1.Started?
  {
    hide CreatePayment, Valid;
    NewKeyAnswers(settings, w, r, now, stamp);
    assert Attempts(w.sessions, r.phone, r.client, now - 60 * settings.windowMinutes) == {};
  }

  /** A payment that was started fails in the expiry job once its minutes have passed, not earlier. */
  lemma StartedSessionExpires(settings: Settings, w: World, r: Request, now: int, stamp: int, later: int)
    requires Valid(settings, w, r) && CreatePayment(settings, w, r, now, stamp).1.Started?
    ensures
      var v := CreatePayment(settings, w, r, now, stamp).0;
      var u := ExpireSessions(v, later);
      && |u.sessions| == |v.sessions| == |w.sessions| + 1
      && u.sessions[|w.sessions|].status == if later >= now + 60 * settings.sessionMinutes then Failed else Created
  {
    hide FindByKey, RecentCount;
  }
}
