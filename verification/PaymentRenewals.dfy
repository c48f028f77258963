/** A PPPoE account's expiry is the fold of its paid renewals, each paid session counted once
  however many callbacks, failed attempts and retries there were. */
module PaymentRenewals {
  import opened Text
  import opened AccessTables
  import opened PaymentModel
  import opened PaymentAccess
  import opened PaymentMoves
  import opened PaymentLedger

  // ------------------------------------------------------------------ what a completion grants

  /** The expiry the grant for session `s` leaves on its account. */
  function ExpiryGranted(customers: map<Key, Customer>, key: Key, now: int, validity: nat): Option<int> {
    var kept := if key in customers then customers[key].expires else None;
    if key.service.Pppoe? then Renewed(kept, now, validity)
    else if kept.Some? then kept else Some(now + 60 * validity)
  }

  lemma ProvisionGrants(w: World, id: nat, row: Session, p: Package, password: string, up: bool, now: int)
    requires AccessInv(w) && id < |w.sessions| && row.service == p.service
    requires row.accessName == w.sessions[id].accessName && row.accessPassword == w.sessions[id].accessPassword
    requires row.service.Hotspot? ==> row.accessName.None? || row.accessName == Some(Derived(id))
    requires Provision(w, id, row, p, password, up, now).Some?
    ensures
      var g := Provision(w, id, row, p, password, up, now).value;
      && g.key == SessionKey(id, row) && g.customer.active && g.customer.package == row.package
      && g.customer.expires == ExpiryGranted(w.customers, g.key, now, p.validity)
      && (row.service.Pppoe? ==> g.key in w.customers && g.customer.password == w.customers[g.key].password)
      && (row.service.Hotspot? ==> g.session.accessPassword == Some(g.customer.password))
  {
    hide Agrees, Upsert, RouterUp, Renewed, Owns, SessionOk;
  }

  lemma CompleteGrants(w: World, id: nat, receipt: Option<string>, password: string, up: bool, now: int)
    requires AccessInv(w) && id < |w.sessions| && !w.sessions[id].status.Provisioned?
    ensures
      var s, v := w.sessions[id], Complete(w, id, receipt, password, up, now);
      var key := SessionKey(id, s);
      if v.sessions[id].status.Provisioned? then
        && s.package in w.packages && key in v.customers
        && v.customers == w.customers[key := v.customers[key]]
        && v.customers[key].active && v.customers[key].package == s.package
        && v.customers[key].expires == ExpiryGranted(w.customers, key, now, w.packages[s.package].validity)
        && v.sessions[id].accessName == Some(key.name)
        && (s.service.Hotspot? ==> v.sessions[id].accessPassword == Some(v.customers[key].password))
        && (s.service.Pppoe? ==> key in w.customers && v.customers[key].password == w.customers[key].password)
      else
        v.customers == w.customers && v.device == w.device
  {
    hide Agrees, OwnAccess, ProvisionHotspot, ProvisionPppoe, HasInvoice, ExpiryGranted;
    var s := w.sessions[id];
    assert SessionOk(w.packages, id, s);
    var row, p := s.(status := Provisioning, receipt := receipt, updatedAt := now), w.packages[s.package];
    if Provision(w, id, row, p, password, up, now).Some? {
      ProvisionGrants(w, id, row, p, password, up, now);
      if p.service.Hotspot? {
        ProvisionHotspotAgrees(w, id, row, p, password, up, now);
      } else {
        ProvisionPppoeAgrees(w, id, row, p, up, now);
      }
    }
  }

  // ------------------------------------------------------------------ the renewals of a run

  datatype Renewal = Renewal(session: nat, at: int, validity: nat)

  /** The renewal of this account that one step makes: a session of the account became provisioned. */
  function Granted(settings: Settings, w: World, step: Step, key: Key): seq<Renewal> {
    if !Bought(w, step, Next(settings, w, step)) || SessionKey(step.id, w.sessions[step.id]) != key then []
    else
      var s := w.sessions[step.id];
      [Renewal(step.id, step.now, if s.package in w.packages then w.packages[s.package].validity else 0)]
  }

  function Renewals(settings: Settings, w: World, steps: seq<Step>, key: Key): seq<Renewal>
    decreases |steps|
  {
    if steps == [] then []
    else Granted(settings, w, steps[0], key) + Renewals(settings, Next(settings, w, steps[0]), steps[1..], key)
  }

  function Fold(expires: Option<int>, renewals: seq<Renewal>): Option<int>
    decreases |renewals|
  {
    if renewals == [] then expires else Fold(Renewed(expires, renewals[0].at, renewals[0].validity), renewals[1..])
  }

  predicate Drops(step: Step, key: Key) { step.StepDropCustomer? && step.key == key }

  lemma {:induction false} ExpireKeepsExpiry(w: World, rows: seq<Key>, now: int, unreachable: set<Key>, key: Key)
    requires key in w.customers
    ensures
      var v := ExpireAccess(w, rows, now, unreachable);
      key in v.customers && v.customers[key] == w.customers[key].(active := v.customers[key].active)
    decreases |rows|
  {
    if rows != [] {
      ExpireKeepsExpiry(w, rows[..|rows| - 1], now, unreachable, key);
    }
  }

  lemma AccessKeepsExpiry(settings: Settings, w: World, step: Step, key: Key)
    requires key in w.customers && !Drops(step, key) && IsAccessStep(step)
    ensures
      var v := Next(settings, w, step);
      key in v.customers && v.customers[key] == w.customers[key].(active := v.customers[key].active)
  {
    hide Upsert, SetEnabled, Delete, RouterUp;
    if step.StepExpireAccess? {
      ExpireKeepsExpiry(w, step.rows, step.now, step.unreachable, key);
    }
  }

  lemma HotspotStepKeepsPppoe(settings: Settings, w: World, step: Step, key: Key)
    requires key in w.customers && key.service.Pppoe?
    requires step.StepPrepare? || step.StepCleanup? || step.StepFinishInitiation? || step.StepCreatePayment?
    ensures var v := Next(settings, w, step); key in v.customers && v.customers[key] == w.customers[key]
  {
    hide Upsert, Delete, RouterUp, FindByKey, RecentCount;
  }

  lemma StepFolds(settings: Settings, w: World, step: Step, key: Key)
    requires AccessInv(w) && key in w.customers && key.service.Pppoe? && !Drops(step, key)
    ensures
      var v := Next(settings, w, step);
      key in v.customers && v.customers[key].expires == Fold(w.customers[key].expires, Granted(settings, w, step, key))
  {
    hide AccessInv, Complete, SessionKey, Renewed;
    if step.StepComplete? {
      if CanComplete(w, step.id) {
        CompleteMoves(w, step.id, step.receipt, step.password, step.up, step.now);
        if !w.sessions[step.id].status.Provisioned? {
          CompleteGrants(w, step.id, step.receipt, step.password, step.up, step.now);
        }
      }
    } else {
      hide Next;
      if IsQuiet(step) {
        QuietSteps(settings, w, step);
      } else if IsAccessStep(step) {
        AccessKeepsExpiry(settings, w, step, key);
      } else {
        HotspotStepKeepsPppoe(settings, w, step, key);
      }
    }
  }

  lemma {:induction false} FoldAppend(expires: Option<int>, a: seq<Renewal>, b: seq<Renewal>)
    ensures Fold(expires, a + b) == Fold(Fold(expires, a), b)
    decreases |a|
  {
    if a == [] {
      assert a + b == b;
    } else {
      assert (a + b)[0] == a[0] && (a + b)[1..] == a[1..] + b;
      FoldAppend(Renewed(expires, a[0].at, a[0].validity), a[1..], b);
    }
  }

  /** Over any run that does not delete the account, its expiry is the fold of
    `max(expiry, now) + validity` over the sessions that became provisioned for it, in order. */
  lemma {:induction false} ExpiryIsTheFold(settings: Settings, w: World, steps: seq<Step>, key: Key)
    requires AccessInv(w) && key in w.customers && key.service.Pppoe?
    requires forall step | step in steps :: !Drops(step, key)
    ensures
      var v := Run(settings, w, steps);
      key in v.customers
      && v.customers[key].expires == Fold(w.customers[key].expires, Renewals(settings, w, steps, key))
    decreases |steps|
  {
    hide Next, AccessInv, Fold, Granted;
    if steps == [] {
      FoldEmpty(w.customers[key].expires);
    } else {
      var v := Next(settings, w, steps[0]);
      StepKeepsInv(settings, w, steps[0]);
      StepFolds(settings, w, steps[0], key);
      ExpiryIsTheFold(settings, v, steps[1..], key);
      FoldAppend(w.customers[key].expires, Granted(settings, w, steps[0], key), Renewals(settings, v, steps[1..], key));
    }
  }

  lemma FoldEmpty(expires: Option<int>)
    ensures Fold(expires, []) == expires
  {
  }

  // ------------------------------------------------------------------ each session once

  function Times(renewals: seq<Renewal>, i: nat): nat {
    if renewals == [] then 0 else (if renewals[0].session == i then 1 else 0) + Times(renewals[1..], i)
  }

  lemma {:induction false} TimesAppend(a: seq<Renewal>, b: seq<Renewal>, i: nat)
    ensures Times(a + b, i) == Times(a, i) + Times(b, i)
  {
    if a == [] {
      assert a + b == b;
    } else {
      assert (a + b)[0] == a[0] && (a + b)[1..] == a[1..] + b;
      TimesAppend(a[1..], b, i);
    }
  }

  /** The session was for this account and was provisioned between the two worlds. */
  predicate Newly(w: World, v: World, i: nat, key: Key) {
    !IsProvisioned(w, i) && IsProvisioned(v, i) && SessionKey(i, v.sessions[i]) == key
  }

  lemma TimesGranted(settings: Settings, w: World, step: Step, key: Key, i: nat)
    ensures Times(Granted(settings, w, step, key), i) == if Newly(w, Next(settings, w, step), i, key) then 1 else 0
  {
    hide Next;
    var v := Next(settings, w, step);
    StepCreates(settings, w, step);
    if i < |w.sessions| {
      StepMoves(settings, w, step, i);
    }
    if step.StepComplete? && step.id < |w.sessions| {
      StepMoves(settings, w, step, step.id);
    }
  }

  /** A covered session renews its account exactly once if it became provisioned in the run, and
    otherwise not at all. */
  lemma {:induction false} EachSessionRenewsOnce(settings: Settings, w: World, steps: seq<Step>, key: Key, kopo: bool,
                                                 i: nat)
    requires LedgerInv(w, kopo) && (kopo ==> TimelyRun(settings, w, steps))
    requires i < |Run(settings, w, steps).sessions| && Covered(Run(settings, w, steps).sessions[i], kopo)
    ensures Times(Renewals(settings, w, steps, key), i) == if Newly(w, Run(settings, w, steps), i, key) then 1 else 0
    decreases |steps|
  {
    hide Next, LedgerInv, Timely, Granted, Times;
    if steps == [] {
      TimesNone(i);
    } else {
      var v, end := Next(settings, w, steps[0]), Run(settings, w, steps);
      StepKeepsLedger(settings, w, steps[0], kopo);
      TimesGranted(settings, w, steps[0], key, i);
      TimesAppend(Granted(settings, w, steps[0], key), Renewals(settings, v, steps[1..], key), i);
      EachSessionRenewsOnce(settings, v, steps[1..], key, kopo, i);
      if i < |v.sessions| {
        RunKeepsDeal(settings, v, steps[1..], i);
        if v.sessions[i].status.Provisioned? {
          ProvisionedIsFinal(settings, v, steps[1..], kopo, i);
        }
      }
      if i < |w.sessions| {
        StepMoves(settings, w, steps[0], i);
        if w.sessions[i].status.Provisioned? {
          RunKeepsDeal(settings, w, steps, i);
          ProvisionedIsFinal(settings, w, steps, kopo, i);
          MatchedOne(w, kopo, i);
        }
      }
    }
  }

  lemma TimesNone(i: nat)
    ensures Times([], i) == 0
  {
  }

  // ------------------------------------------------------------------ nothing paid is lost

  function Minutes(renewals: seq<Renewal>): nat {
    if renewals == [] then 0 else renewals[0].validity + Minutes(renewals[1..])
  }

  /** The account gains at least all the minutes it was sold, and after the last renewal it runs
    for at least that renewal's validity. */
  lemma {:induction false} RenewalsAreNotLost(expires: Option<int>, renewals: seq<Renewal>)
    ensures expires.Some? ==>
              Fold(expires, renewals).Some? && Fold(expires, renewals).value >= expires.value + 60 * Minutes(renewals)
    ensures renewals != [] ==>
      var last := renewals[|renewals| - 1];
      Fold(expires, renewals).Some? && Fold(expires, renewals).value >= last.at + 60 * last.validity
    decreases |renewals|
  {
    if renewals != [] {
      var next := Renewed(expires, renewals[0].at, renewals[0].validity);
      RenewalsAreNotLost(next, renewals[1..]);
      if |renewals| > 1 {
        assert renewals[1..][|renewals| - 2] == renewals[|renewals| - 1];
      }
    }
  }
}
