/** The payment limit as a bound on every window, and requests that repeat an idempotency key. */
module PaymentWindow {
  import opened Text
  import opened PaymentModel
  import opened PaymentMoves

  // ------------------------------------------------------------------ the sliding window

  /** Who the limit counts: a phone number, or a client address. */
  datatype Source = Phone(phone: string) | Client(client: string)

  predicate From(s: Session, source: Source) {
    match source
    case Phone(phone) => s.phone == phone
    case Client(client) => s.client == Some(client)
  }

  /** The sessions of this source created in the closed window [from, from + span]. */
  function InWindow(sessions: seq<Session>, source: Source, from: int, span: nat): nat {
    if sessions == [] then 0 else
      var last := sessions[|sessions| - 1];
      InWindow(sessions[..|sessions| - 1], source, from, span)
      + if From(last, source) && from <= last.createdAt <= from + span then 1 else 0
  }

  ghost predicate Bounded(sessions: seq<Session>, limit: nat, span: nat) {
    forall source, from :: InWindow(sessions, source, from, span) <= limit
  }

  /** Every window is counted by the check, which looks at everything since its start. */
  lemma {:induction false} WindowWithinRecent(sessions: seq<Session>, r: Session, source: Source, since: int, from: int,
                                              span: nat)
    requires From(r, source) && from >= since
    ensures InWindow(sessions, source, from, span) <= RecentCount(sessions, r.phone, r.client, since)
  {
    if sessions != [] {
      WindowWithinRecent(sessions[..|sessions| - 1], r, source, since, from, span);
    }
  }

  lemma {:induction false} WindowSameDeals(a: seq<Session>, b: seq<Session>, source: Source, from: int, span: nat)
    requires |a| == |b| && forall i | 0 <= i < |a| :: SameDeal(a[i], b[i])
    ensures InWindow(a, source, from, span) == InWindow(b, source, from, span)
  {
    if a != [] {
      var n := |a| - 1;
      assert SameDeal(a[n], b[n]);
      WindowSameDeals(a[..n], b[..n], source, from, span);
    }
  }

  lemma WindowAppend(sessions: seq<Session>, s: Session, source: Source, from: int, span: nat)
    ensures InWindow(sessions + [s], source, from, span)
            == InWindow(sessions, source, from, span)
               + if From(s, source) && from <= s.createdAt <= from + span then 1 else 0
  {
    assert (sessions + [s])[..|sessions|] == sessions;
  }

  /** The insert takes its time stamp after the check took the clock. */
  predicate ClockForward(step: Step) { step.StepCreatePayment? ==> step.now <= step.stamp }

  lemma CreateKeepsBound(settings: Settings, w: World, r: Request, now: int, stamp: int)
    requires Bounded(w.sessions, settings.limit, 60 * settings.windowMinutes) && now <= stamp
    ensures Bounded(CreatePayment(settings, w, r, now, stamp).0.sessions, settings.limit, 60 * settings.windowMinutes)
  {
    hide FindByKey, RecentCount, InWindow;
    var v, span := CreatePayment(settings, w, r, now, stamp).0, 60 * settings.windowMinutes;
    if v != w {
      var s := v.sessions[|w.sessions|];
      assert v.sessions == w.sessions + [s];
      forall source, from ensures InWindow(v.sessions, source, from, span) <= settings.limit {
        WindowAppend(w.sessions, s, source, from, span);
        if From(s, source) && from <= s.createdAt <= from + span {
          WindowWithinRecent(w.sessions, s, source, now - span, from, span);
        }
      }
    }
  }

  lemma StepKeepsBound(settings: Settings, w: World, step: Step)
    requires Bounded(w.sessions, settings.limit, 60 * settings.windowMinutes) && ClockForward(step)
    ensures Bounded(Next(settings, w, step).sessions, settings.limit, 60 * settings.windowMinutes)
  {
    hide CreatePayment, Prepare, FinishInitiation, Complete, Cleanup, CreateCustomer, SetCustomer, DropCustomer,
         ExpireAccess, Poll, RecordQuery, CallbackFails, MarkReview, KopoAnswer, ExpireSessions, DeleteRouter,
         PutPackage, PutRouter, InWindow, SameDeal;
    var v, span := Next(settings, w, step), 60 * settings.windowMinutes;
    if step.StepCreatePayment? {
      CreateKeepsBound(settings, w, step.request, step.now, step.stamp);
    } else {
      StepCreates(settings, w, step);
      forall i | 0 <= i < |w.sessions| ensures SameDeal(w.sessions[i], v.sessions[i]) {
        StepMoves(settings, w, step, i);
      }
      forall source, from ensures InWindow(v.sessions, source, from, span) <= settings.limit {
        WindowSameDeals(w.sessions, v.sessions, source, from, span);
      }
    }
  }

  /** In every run, no closed window of the configured length holds more sessions of one phone or
    of one client address than the limit. */
  lemma {:induction false} LimitHoldsInEveryWindow(settings: Settings, w: World, steps: seq<Step>)
    requires Bounded(w.sessions, settings.limit, 60 * settings.windowMinutes)
    requires forall step | step in steps :: ClockForward(step)
    ensures Bounded(Run(settings, w, steps).sessions, settings.limit, 60 * settings.windowMinutes)
    decreases |steps|
  {
    hide Next, Bounded;
    if steps != [] {
      StepKeepsBound(settings, w, steps[0]);
      LimitHoldsInEveryWindow(settings, Next(settings, w, steps[0]), steps[1..]);
    }
  }

  // ------------------------------------------------------------------ idempotency keys

  predicate UniqueKeys(sessions: seq<Session>) {
    forall i, j | 0 <= i < j < |sessions| ::
      !(sessions[i].router == sessions[j].router && sessions[i].idempotencyKey == sessions[j].idempotencyKey)
  }

  lemma StepKeepsKeys(settings: Settings, w: World, step: Step)
    requires UniqueKeys(w.sessions)
    ensures UniqueKeys(Next(settings, w, step).sessions)
  {
    hide Next;
    var v := Next(settings, w, step);
    StepCreates(settings, w, step);
    forall i | 0 <= i < |w.sessions| ensures SameDeal(w.sessions[i], v.sessions[i]) {
      StepMoves(settings, w, step, i);
    }
    if |v.sessions| > |w.sessions| {
      NewKeyIsFresh(settings, w, step);
    }
  }

  lemma NewKeyIsFresh(settings: Settings, w: World, step: Step)
    requires step.StepCreatePayment? && |Next(settings, w, step).sessions| == |w.sessions| + 1
    ensures
      var s := Next(settings, w, step).sessions[|w.sessions|];
      forall j | 0 <= j < |w.sessions| ::
        !(w.sessions[j].router == s.router && w.sessions[j].idempotencyKey == s.idempotencyKey)
  {
    hide RecentCount;
  }

  /** In every run, no two sessions share a router and an idempotency key. */
  lemma {:induction false} KeysStayUnique(settings: Settings, w: World, steps: seq<Step>)
    requires UniqueKeys(w.sessions)
    ensures UniqueKeys(Run(settings, w, steps).sessions)
    decreases |steps|
  {
    hide Next, UniqueKeys;
    if steps != [] {
      StepKeepsKeys(settings, w, steps[0]);
      KeysStayUnique(settings, Next(settings, w, steps[0]), steps[1..]);
    }
  }

  lemma CreateIsAStep(settings: Settings, w: World, r: Request, now: int, stamp: int)
    ensures Next(settings, w, StepCreatePayment(r, now, stamp)) == CreatePayment(settings, w, r, now, stamp).0
  {
  }

  lemma FindsTheSession(sessions: seq<Session>, i: nat)
    requires UniqueKeys(sessions) && i < |sessions|
    ensures FindByKey(sessions, sessions[i].router, sessions[i].idempotencyKey) == Some(i)
  {
  }

  /** Whatever happened since, a request that repeats the key of an earlier one changes nothing and
    asks the provider for nothing; if it is the same request, still offered, it is answered with
    the session of the first. */
  lemma ReplayStartsNothing(settings: Settings, w: World, r: Request, now: int, stamp: int, steps: seq<Step>,
                            again: Request, later: int, stamped: int)
    requires UniqueKeys(w.sessions) && CreatePayment(settings, w, r, now, stamp).1.Started?
    requires again.router == r.router && again.key == r.key
    ensures
      var id := CreatePayment(settings, w, r, now, stamp).1.id;
      var v := Run(settings, CreatePayment(settings, w, r, now, stamp).0, steps);
      var (after, answer) := CreatePayment(settings, v, again, later, stamped);
      && after == v && !answer.Started?
      && (answer.Replayed? || answer.KeyReused? ==>
            (answer == Replayed(id) <==>
               again.package == r.package && again.phone == r.phone && again.reference == r.reference))
      && (answer.Replayed? ==> answer.id == id)
  {
    hide RecentCount, Run, Next;
    var (first, started) := CreatePayment(settings, w, r, now, stamp);
    var id, v := started.id, Run(settings, first, steps);
    assert UniqueKeys(first.sessions) by {
      hide CreatePayment;
      StepKeepsKeys(settings, w, StepCreatePayment(r, now, stamp));
      CreateIsAStep(settings, w, r, now, stamp);
    }
    KeysStayUnique(settings, first, steps);
    RunKeepsDeal(settings, first, steps, id);
    FindsTheSession(v.sessions, id);
  }
}
