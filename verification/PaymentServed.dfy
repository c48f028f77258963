/** What the router holds for each customer after every operation, line by line: the password, the
  profile and the limit of the package paid for, and whether the line is enabled. */
module PaymentServed {
  import opened Text
  import opened AccessTables
  import opened PaymentModel
  import opened PaymentAccess
  import opened PaymentMoves
  import opened PaymentHotspot

  /** The router's line of that name, in full. */
  predicate Line(device: seq<Entry>, key: Key, password: string, profile: string, enabled: bool, limit: Option<nat>) {
    Lookup(device, key) == Some(Entry(key, password, profile, enabled, limit))
  }

  /** Nothing changed on either side for any other customer. */
  ghost predicate OthersServed(w: World, v: World, key: Key) {
    && (forall other | other != key :: Lookup(v.device, other) == Lookup(w.device, other))
    && (forall other | other != key :: other in v.customers <==> other in w.customers)
    && (forall other | other != key && other in w.customers :: v.customers[other] == w.customers[other])
  }

  lemma UpsertServes(device: seq<Entry>, up: bool, e: Entry, replace: bool)
    requires UniqueNames(device) && Upsert(device, up, e, replace).Some?
    ensures
      var after := Upsert(device, up, e, replace).value;
      && Line(after, e.key, e.password, e.profile, e.enabled,
              if e.limit.Some? then e.limit else LimitOf(Lookup(device, e.key)))
      && forall other | other != e.key :: Lookup(after, other) == Lookup(device, other)
  {
    hide Upsert, Lookup, UniqueNames;
    LookupAfterUpsert(device, up, e, replace, e.key);
    forall other | other != e.key ensures Lookup(Upsert(device, up, e, replace).value, other) == Lookup(device, other) {
      LookupAfterUpsert(device, up, e, replace, other);
    }
  }

  // ------------------------------------------------------------------ payments

  /** What a preparation leaves behind when it reached the router. */
  ghost predicate Prepared(w: World, v: World, id: nat, chosen: string)
    requires id < |w.sessions|
  {
    var s, key := w.sessions[id], Key(Hotspot, w.sessions[id].router, Derived(id));
    && s.package in w.packages && key in v.customers && OthersServed(w, v, key)
    && v.customers[key] == Customer(chosen, true, None, s.package)
    && Line(v.device, key, chosen, w.packages[s.package].profile, true, Some(w.packages[s.package].validity))
    && id < |v.sessions| && v.sessions[id].accessName == Some(Derived(id))
    && v.sessions[id].accessPassword == Some(chosen)
  }

  /** A preparation that reaches the router leaves an enabled line with the credentials of the
    session and the profile and limit of its package, and a row without an expiry; one that does
    not leaves everything but the task. */
  lemma PreparationServes(w: World, id: nat, password: string, up: bool, now: int)
    requires AccessInv(w) && id < |w.sessions| && w.sessions[id].service.Hotspot?
    requires w.sessions[id].task == Asking(false)
    ensures
      var s, v := w.sessions[id], Prepare(w, id, password, up, now);
      if RouterUp(w, s.router, up) then
        Prepared(w, v, id, if s.accessName.Some? && s.accessPassword.Some? then s.accessPassword.value else password)
      else v == w.(sessions := w.sessions[id := s.(task := Asking(true))])
  {
    hide Prepared, AccessInv, Prepare;
    var s := w.sessions[id];
    if RouterUp(w, s.router, up) {
      PreparationReaches(w, id, password, up, now,
                         if s.accessName.Some? && s.accessPassword.Some? then s.accessPassword.value else password);
    } else {
      PreparationMisses(w, id, password, up, now);
    }
  }

  lemma PreparationMisses(w: World, id: nat, password: string, up: bool, now: int)
    requires id < |w.sessions| && w.sessions[id].task == Asking(false) && !RouterUp(w, w.sessions[id].router, up)
    ensures
      Prepare(w, id, password, up, now)
      == w.(sessions := w.sessions[id := w.sessions[id].(task := Asking(true))])
  {
    hide RouterUp;
  }

  lemma {:induction false} PreparationReaches(w: World, id: nat, password: string, up: bool, now: int, chosen: string)
    requires AccessInv(w) && id < |w.sessions| && w.sessions[id].service.Hotspot?
    requires w.sessions[id].task == Asking(false)
    requires RouterUp(w, w.sessions[id].router, up)
    requires chosen == if w.sessions[id].accessName.Some? && w.sessions[id].accessPassword.Some?
                       then w.sessions[id].accessPassword.value else password
    ensures Prepared(w, Prepare(w, id, password, up, now), id, chosen)
  {
    SessionHolds(w, id);
    AgreesHere(w);
    PreparationIsUpsert(w, id, password, up, now, chosen);
    hide Upsert, RouterUp, Lookup, UniqueNames, AccessInv, Prepare;
    var s := w.sessions[id];
    var key := Key(Hotspot, s.router, Derived(id));
    UpsertServes(w.device, true, HotspotEntry(key, chosen, w.packages[s.package]), true);
  }

  lemma {:induction false} PreparationIsUpsert(w: World, id: nat, password: string, up: bool, now: int, chosen: string)
    requires id < |w.sessions| && SessionOk(w.packages, id, w.sessions[id])
    requires w.sessions[id].service.Hotspot? && w.sessions[id].task == Asking(false)
    requires RouterUp(w, w.sessions[id].router, up)
    requires chosen == if w.sessions[id].accessName.Some? && w.sessions[id].accessPassword.Some?
                       then w.sessions[id].accessPassword.value else password
    ensures
      var s, v := w.sessions[id], Prepare(w, id, password, up, now);
      var key := Key(Hotspot, s.router, Derived(id));
      var device := Upsert(w.device, true, HotspotEntry(key, chosen, w.packages[s.package]), true);
      && device.Some? && v.device == device.value
      && v.customers == w.customers[key := Customer(chosen, true, None, s.package)] && id < |v.sessions|
      && v.sessions[id].accessName == Some(Derived(id)) && v.sessions[id].accessPassword == Some(chosen)
  {
    hide Upsert, RouterUp;
    var s := w.sessions[id];
    var e := HotspotEntry(Key(Hotspot, s.router, Derived(id)), chosen, w.packages[s.package]);
    UpsertSucceedsExactly(w.device, true, e);
    assert RouterUp(w, s.router, up) == true;
  }

  lemma AgreesHere(w: World)
    requires AccessInv(w)
    ensures UniqueNames(w.device) && OwnAccess(w.sessions, w.customers)
  {
  }

  /** The account a completion leaves: for PPPoE the one that was there, with a full validity past
    the later of its expiry and the present; for a hotspot the session's own, with a full validity
    from now on unless it has an expiry already. */
  predicate Granted(w: World, v: World, id: nat, now: int)
    requires id < |w.sessions| && id < |v.sessions|
  {
    var s, key := w.sessions[id], SessionKey(id, w.sessions[id]);
    && s.package in w.packages && key in v.customers
    && var c, validity := v.customers[key], w.packages[s.package].validity;
       && c.active && c.package == s.package
       && (s.service.Pppoe? ==>
             && key in w.customers && c.password == w.customers[key].password
             && var prior := w.customers[key].expires;
                c.expires == Some((if prior.Some? && prior.value > now then prior.value else now) + 60 * validity))
       && (s.service.Hotspot? ==>
             && v.sessions[id].accessPassword == Some(c.password)
             && (key in w.customers ==> c.password == w.customers[key].password)
             && c.expires == (if key in w.customers && w.customers[key].expires.Some? then w.customers[key].expires
                              else Some(now + 60 * validity)))
  }

  /** The line of the account after a completion: enabled, with the account's password and the
    profile of the package that was paid; a hotspot account that was on already keeps its line. */
  predicate LineGranted(w: World, v: World, id: nat)
    requires id < |w.sessions|
  {
    var s, key := w.sessions[id], SessionKey(id, w.sessions[id]);
    && s.package in w.packages && key in v.customers
    && if s.service.Hotspot? && key in w.customers && w.customers[key].active then v.device == w.device
       else Line(v.device, key, v.customers[key].password, w.packages[s.package].profile, true,
                 if s.service.Hotspot? then Some(w.packages[s.package].validity) else LimitOf(Lookup(w.device, key)))
  }

  lemma CompletionServes(w: World, id: nat, receipt: Option<string>, password: string, up: bool, now: int)
    requires AccessInv(w) && id < |w.sessions| && !w.sessions[id].status.Provisioned? && CanProvision(w, id, up)
    ensures
      var s, v := w.sessions[id], Complete(w, id, receipt, password, up, now);
      && |v.sessions| == |w.sessions| && v.sessions[id].status.Provisioned? && v.sessions[id].receipt == receipt
      && v.sessions[id].accessName == Some(SessionKey(id, s).name)
      && Granted(w, v, id, now) && LineGranted(w, v, id) && OthersServed(w, v, SessionKey(id, s))
  {
    SessionHolds(w, id);
    hide Complete, AccessInv, CanProvision, Granted, LineGranted, OthersServed;
    if w.sessions[id].service.Hotspot? {
      HotspotCompletionServes(w, id, receipt, password, up, now);
    } else {
      PppoeCompletionServes(w, id, receipt, password, up, now);
    }
  }

  lemma HotspotCompletionServes(w: World, id: nat, receipt: Option<string>, password: string, up: bool, now: int)
    requires AccessInv(w) && id < |w.sessions| && !w.sessions[id].status.Provisioned? && CanProvision(w, id, up)
    requires w.sessions[id].service.Hotspot?
    ensures
      var s, v := w.sessions[id], Complete(w, id, receipt, password, up, now);
      && |v.sessions| == |w.sessions| && v.sessions[id].status.Provisioned? && v.sessions[id].receipt == receipt
      && v.sessions[id].accessName == Some(SessionKey(id, s).name)
      && Granted(w, v, id, now) && LineGranted(w, v, id) && OthersServed(w, v, SessionKey(id, s))
  {
    hide Complete, AccessInv, CanProvision, Lookup, LimitOf, Line, UniqueNames, OwnAccess, ProvisionHotspot,
         ProvisionPppoe;
    CompletionIsGrant(w, id, receipt, password, up, now);
    AgreesHere(w);
    SessionHolds(w, id);
    var row := w.sessions[id].(status := Provisioning, receipt := receipt, updatedAt := now);
    HotspotServes(w, id, row, w.packages[w.sessions[id].package], password, up, now);
  }

  lemma PppoeCompletionServes(w: World, id: nat, receipt: Option<string>, password: string, up: bool, now: int)
    requires AccessInv(w) && id < |w.sessions| && !w.sessions[id].status.Provisioned? && CanProvision(w, id, up)
    requires w.sessions[id].service.Pppoe?
    ensures
      var s, v := w.sessions[id], Complete(w, id, receipt, password, up, now);
      && |v.sessions| == |w.sessions| && v.sessions[id].status.Provisioned? && v.sessions[id].receipt == receipt
      && v.sessions[id].accessName == Some(SessionKey(id, s).name)
      && Granted(w, v, id, now) && LineGranted(w, v, id) && OthersServed(w, v, SessionKey(id, s))
  {
    hide Complete, AccessInv, CanProvision, Lookup, LimitOf, Line, UniqueNames, OwnAccess, ProvisionHotspot,
         ProvisionPppoe;
    CompletionIsGrant(w, id, receipt, password, up, now);
    AgreesHere(w);
    SessionHolds(w, id);
    var row := w.sessions[id].(status := Provisioning, receipt := receipt, updatedAt := now);
    PppoeServes(w, id, row, w.packages[w.sessions[id].package], up, now);
  }

  lemma CompletionIsGrant(w: World, id: nat, receipt: Option<string>, password: string, up: bool, now: int)
    requires AccessInv(w) && id < |w.sessions| && !w.sessions[id].status.Provisioned? && CanProvision(w, id, up)
    ensures w.sessions[id].package in w.packages
    ensures
      var s, v := w.sessions[id], Complete(w, id, receipt, password, up, now);
      var row := s.(status := Provisioning, receipt := receipt, updatedAt := now);
      var g := Provision(w, id, row, w.packages[s.package], password, up, now);
      && g.Some? && v.sessions == w.sessions[id := g.value.session.(status := Provisioned)]
      && v.device == g.value.device && v.customers == w.customers[g.value.key := g.value.customer]
  {
    SessionHolds(w, id);
    hide HasInvoice, CanProvision, AccessInv, Provision;
    var s := w.sessions[id];
    ProvisionSucceedsExactly(w, id, s.(status := Provisioning, receipt := receipt, updatedAt := now),
                             w.packages[s.package], password, up, now);
  }

  lemma HotspotServes(w: World, id: nat, row: Session, p: Package, password: string, up: bool, now: int)
    requires UniqueNames(w.device) && OwnAccess(w.sessions, w.customers) && row.service.Hotspot? && id < |w.sessions|
    requires row.accessName == w.sessions[id].accessName && row.accessPassword == w.sessions[id].accessPassword
    requires row.accessName.None? || row.accessName == Some(Derived(id))
    requires ProvisionHotspot(w, id, row, p, password, up, now).Some?
    ensures
      var g, key := ProvisionHotspot(w, id, row, p, password, up, now).value, SessionKey(id, row);
      && g.key == key && g.session.(accessName := row.accessName, accessPassword := row.accessPassword,
                                    credentialsUntil := row.credentialsUntil) == row
      && g.session.accessName == Some(key.name) && g.session.accessPassword == Some(g.customer.password)
      && g.customer.active && g.customer.package == row.package
      && (key in w.customers ==> g.customer.password == w.customers[key].password)
      && g.customer.expires == (if key in w.customers && w.customers[key].expires.Some? then w.customers[key].expires
                                else Some(now + 60 * p.validity))
      && (forall other | other != key :: Lookup(g.device, other) == Lookup(w.device, other))
      && (if key in w.customers && w.customers[key].active then g.device == w.device
          else Line(g.device, key, g.customer.password, p.profile, true, Some(p.validity)))
  {
    hide Upsert, RouterUp, Lookup, UniqueNames;
    var g, key := ProvisionHotspot(w, id, row, p, password, up, now).value, SessionKey(id, row);
    assert key in w.customers ==> Owns(w.sessions, key, w.customers[key]);
    if !(key in w.customers && w.customers[key].active) {
      UpsertServes(w.device, RouterUp(w, row.router, up), HotspotEntry(key, g.customer.password, p), true);
    }
  }

  lemma PppoeServes(w: World, id: nat, row: Session, p: Package, up: bool, now: int)
    requires UniqueNames(w.device) && row.service.Pppoe? && ProvisionPppoe(w, row, p, up, now).Some?
    ensures
      var g, key := ProvisionPppoe(w, row, p, up, now).value, SessionKey(id, row);
      && g.key == key && key in w.customers
      && g.session == row.(accessName := Some(key.name), accessPassword := None, credentialsUntil := None)
      && g.customer.active && g.customer.package == row.package && g.customer.password == w.customers[key].password
      && (var prior := w.customers[key].expires;
          g.customer.expires == Some((if prior.Some? && prior.value > now then prior.value else now) + 60 * p.validity))
      && (forall other | other != key :: Lookup(g.device, other) == Lookup(w.device, other))
      && Line(g.device, key, w.customers[key].password, p.profile, true, LimitOf(Lookup(w.device, key)))
  {
    hide Upsert, RouterUp, Lookup, UniqueNames;
    var key := SessionKey(id, row);
    UpsertServes(w.device, RouterUp(w, row.router, up), Entry(key, w.customers[key].password, p.profile, true, None),
                 true);
  }

  /** A completion that cannot provision writes its status and nothing else. */
  lemma CompletionMisses(w: World, id: nat, receipt: Option<string>, password: string, up: bool, now: int)
    requires AccessInv(w) && id < |w.sessions| && !w.sessions[id].status.Provisioned? && !CanProvision(w, id, up)
    ensures
      Complete(w, id, receipt, password, up, now)
      == w.(sessions := w.sessions[id := w.sessions[id].(status := ProvisioningFailed, updatedAt := now)])
  {
    SessionHolds(w, id);
    hide HasInvoice, CanProvision, AccessInv, Provision;
    ProvisionSucceedsExactly(w, id, w.sessions[id].(status := Provisioning, receipt := receipt, updatedAt := now),
                             w.packages[w.sessions[id].package], password, up, now);
  }

  /** A session without a stored password gets the fresh one, from its preparation or from its
    completion, and its browser may see it for half an hour; stored ones are kept, with their time. A
    session that was cleaned has none. */
  lemma CredentialsAreOpen(w: World, id: nat, receipt: Option<string>, password: string, up: bool, now: int)
    requires AccessInv(w) && id < |w.sessions| && w.sessions[id].service.Hotspot?
    ensures
      var s := w.sessions[id];
      var stored := s.accessName.Some? && s.accessPassword.Some?;
      var until := if stored then s.credentialsUntil else Some(now + 30 * 60);
      var chosen := if stored then s.accessPassword else Some(password);
      && (s.task == Asking(false) && RouterUp(w, s.router, up) ==>
            && |Prepare(w, id, password, up, now).sessions| == |w.sessions|
            && Prepare(w, id, password, up, now).sessions[id].credentialsUntil == until
            && Prepare(w, id, password, up, now).sessions[id].accessPassword == chosen)
      && (!s.status.Provisioned? && CanProvision(w, id, up) ==>
            && |Complete(w, id, receipt, password, up, now).sessions| == |w.sessions|
            && Complete(w, id, receipt, password, up, now).sessions[id].credentialsUntil == until
            && Complete(w, id, receipt, password, up, now).sessions[id].accessPassword == chosen)
  {
    hide Prepare, Complete, AccessInv, RouterUp, CanProvision;
    var s := w.sessions[id];
    if s.task == Asking(false) && RouterUp(w, s.router, up) {
      PreparationDraws(w, id, password, up, now);
    }
    if !s.status.Provisioned? && CanProvision(w, id, up) {
      CompletionDraws(w, id, receipt, password, up, now);
    }
  }

  lemma PreparationDraws(w: World, id: nat, password: string, up: bool, now: int)
    requires AccessInv(w) && id < |w.sessions| && w.sessions[id].service.Hotspot?
    requires w.sessions[id].task == Asking(false) && RouterUp(w, w.sessions[id].router, up)
    ensures
      var s, v := w.sessions[id], Prepare(w, id, password, up, now);
      var drawn := WithCredentials(id, s, password, now);
      && |v.sessions| == |w.sessions| && v.sessions[id].credentialsUntil == drawn.credentialsUntil
      && v.sessions[id].accessPassword == drawn.accessPassword
  {
    hide AccessInv, RouterUp, Upsert;
    SessionHolds(w, id);
    forall e { UpsertSucceedsExactly(w.device, true, e); }
    assert RouterUp(w, w.sessions[id].router, up) == true;
  }

  lemma CompletionDraws(w: World, id: nat, receipt: Option<string>, password: string, up: bool, now: int)
    requires AccessInv(w) && id < |w.sessions| && w.sessions[id].service.Hotspot?
    requires !w.sessions[id].status.Provisioned? && CanProvision(w, id, up)
    ensures
      var s, v := w.sessions[id], Complete(w, id, receipt, password, up, now);
      var drawn := WithCredentials(id, s, password, now);
      && |v.sessions| == |w.sessions| && v.sessions[id].credentialsUntil == drawn.credentialsUntil
      && v.sessions[id].accessPassword == drawn.accessPassword
  {
    hide AccessInv, RouterUp, Upsert, Complete, CanProvision;
    SessionHolds(w, id);
    CompletionIsGrant(w, id, receipt, password, up, now);
  }

  // ------------------------------------------------------------------ the operator

  /** What the operator asks for can be sold there, and the name is free on both sides. */
  predicate Creatable(w: World, service: Service, router: nat, name: string, package: nat, up: bool) {
    && router in w.routers && !w.routers[router].deleted && up
    && package in w.packages && w.packages[package].router == router && w.packages[package].service == service
    && w.packages[package].active
    && Key(service, router, Typed(name)) !in w.customers
    && forall line | line in w.device :: line.key != Key(service, router, Typed(name))
  }

  /** An operator's customer is created on both sides, with the profile of the package and a full
    validity, or on neither. */
  lemma CreationServes(w: World, service: Service, router: nat, name: string, password: string, package: nat, up: bool,
                       now: int)
    requires AccessInv(w)
    ensures
      var v := CreateCustomer(w, service, router, name, password, package, up, now);
      var key := Key(service, router, Typed(name));
      if Creatable(w, service, router, name, package, up) then
        && OthersServed(w, v, key) && key in v.customers
        && v.customers[key] == Customer(password, true, Some(now + 60 * w.packages[package].validity), package)
        && Line(v.device, key, password, w.packages[package].profile, true,
                if service.Hotspot? then Some(w.packages[package].validity) else None)
      else v == w
  {
    hide Upsert, Lookup, UniqueNames, AccessInv, CreateCustomer, Creatable, OthersServed, Line;
    AgreesHere(w);
    CreationIsUpsert(w, service, router, name, password, package, up, now);
    if Creatable(w, service, router, name, package, up) {
      CreationReaches(w, service, router, name, password, package, up, now);
    }
  }

  /** The line an operator's customer gets. */
  function CreatedLine(w: World, service: Service, router: nat, name: string, password: string, package: nat): Entry
    requires package in w.packages
  {
    Entry(Key(service, router, Typed(name)), password, w.packages[package].profile, true,
          if service.Hotspot? then Some(w.packages[package].validity) else None)
  }

  lemma CreationIsUpsert(w: World, service: Service, router: nat, name: string, password: string, package: nat,
                         up: bool, now: int)
    ensures
      var v := CreateCustomer(w, service, router, name, password, package, up, now);
      if Creatable(w, service, router, name, package, up) then
        package in w.packages
        && var e := CreatedLine(w, service, router, name, password, package);
           && Upsert(w.device, up, e, false) == Some(v.device)
           && v.customers == w.customers[e.key := Customer(password, true,
                                                           Some(now + 60 * w.packages[package].validity), package)]
      else v == w
  {
    hide Upsert, Find;
    if package in w.packages {
      CallsFailExactly(w.device, up, CreatedLine(w, service, router, name, password, package), false, true);
    }
  }

  lemma CreationReaches(w: World, service: Service, router: nat, name: string, password: string, package: nat, up: bool,
                        now: int)
    requires UniqueNames(w.device) && Creatable(w, service, router, name, package, up)
    ensures
      var v := CreateCustomer(w, service, router, name, password, package, up, now);
      var key := Key(service, router, Typed(name));
      && package in w.packages && OthersServed(w, v, key) && key in v.customers
      && v.customers[key] == Customer(password, true, Some(now + 60 * w.packages[package].validity), package)
      && Line(v.device, key, password, w.packages[package].profile, true,
              if service.Hotspot? then Some(w.packages[package].validity) else None)
  {
    hide Upsert, Lookup, UniqueNames, CreateCustomer;
    CreationIsUpsert(w, service, router, name, password, package, up, now);
    CallsFailExactly(w.device, up, CreatedLine(w, service, router, name, password, package), false, true);
    UpsertServes(w.device, up, CreatedLine(w, service, router, name, password, package), false);
  }

  /** Switching an account takes effect on both sides exactly when there is one and its router
    answers, and then changes that flag alone. */
  lemma SwitchServes(w: World, key: Key, enabled: bool, up: bool)
    requires AccessInv(w)
    ensures
      var v := SetCustomer(w, key, enabled, up);
      if key in w.customers && RouterUp(w, key.router, up) then
        && OthersServed(w, v, key) && v.customers == w.customers[key := w.customers[key].(active := enabled)]
        && Lookup(w.device, key).Some?
        && Lookup(v.device, key) == Some(Lookup(w.device, key).value.(enabled := enabled))
      else v == w
  {
    hide SetEnabled, UniqueNames, RouterUp, AccessInv, Lookup;
    if key in w.customers {
      AgreesHere(w);
      HasLine(w, key);
      var answers := RouterUp(w, key.router, up);
      CallsFailExactly(w.device, answers, Entry(key, "", "", true, None), true, enabled);
      if answers {
        SetServes(w.device, key, enabled);
      }
    }
  }

  lemma HasLine(w: World, key: Key)
    requires AccessInv(w) && key in w.customers
    ensures Lookup(w.device, key).Some?
  {
    assert SameAccess(w.customers[key], Lookup(w.device, key));
  }

  lemma SetServes(device: seq<Entry>, key: Key, enabled: bool)
    requires UniqueNames(device) && SetEnabled(device, true, key, enabled).Some?
    ensures Lookup(device, key).Some?
    ensures
      forall other ::
        Lookup(SetEnabled(device, true, key, enabled).value, other)
        == if other == key then Some(Lookup(device, key).value.(enabled := enabled)) else Lookup(device, other)
  {
    hide *;
    LookupAfterSet(device, true, key, enabled, key);
    forall other
      ensures Lookup(SetEnabled(device, true, key, enabled).value, other)
              == if other == key then Some(Lookup(device, key).value.(enabled := enabled)) else Lookup(device, other)
    {
      LookupAfterSet(device, true, key, enabled, other);
    }
  }

  /** Deleting an account takes effect on both sides exactly when there is one and its router
    answers, and then removes it from both. */
  lemma DeletionServes(w: World, key: Key, up: bool)
    requires AccessInv(w)
    ensures
      var v := DropCustomer(w, key, up);
      if key in w.customers && RouterUp(w, key.router, up) then
        OthersServed(w, v, key) && v.customers == w.customers - {key} && Lookup(v.device, key).None?
      else v == w
  {
    hide Without, RouterUp, AccessInv, Lookup;
    forall other
      ensures Lookup(Without(w.device, key), other) == if other == key then None else Lookup(w.device, other)
    {
      WithoutKeepsOthers(w.device, key, other);
    }
  }

  // ------------------------------------------------------------------ in every run

  /** The router's line of a customer, as its row and its package have it. */
  predicate Served(w: World, key: Key)
    requires key in w.customers
  {
    var c := w.customers[key];
    && c.package in w.packages
    && Line(w.device, key, c.password, w.packages[c.package].profile, c.active,
            if key.service.Hotspot? then Some(w.packages[c.package].validity) else None)
    && (key.name.Derived? ==>
          key.name.session < |w.sessions| && c.package == w.sessions[key.name.session].package)
  }

  predicate AllServed(w: World) { AccessInv(w) && forall key | key in w.customers :: Served(w, key) }

  /** No package in the tables gets another profile or validity. */
  predicate KeepsTerms(w: World, step: Step) {
    step.StepPutPackage? && step.package in w.packages ==>
      step.p.profile == w.packages[step.package].profile && step.p.validity == w.packages[step.package].validity
  }

  predicate TermsKept(settings: Settings, w: World, steps: seq<Step>)
    decreases |steps|
  {
    steps == [] || (KeepsTerms(w, steps[0]) && TermsKept(settings, Next(settings, w, steps[0]), steps[1..]))
  }

  predicate SameTerms(before: map<nat, Package>, after: map<nat, Package>) {
    forall p | p in before ::
      p in after && after[p].profile == before[p].profile && after[p].validity == before[p].validity
  }

  predicate SamePackages(a: seq<Session>, b: seq<Session>) {
    |a| <= |b| && forall i | 0 <= i < |a| :: b[i].package == a[i].package
  }

  /** One account changed and is served; nothing else moved. */
  lemma OneServed(w: World, v: World, key: Key)
    requires AllServed(w) && AccessInv(v) && OthersServed(w, v, key) && v.packages == w.packages
    requires SamePackages(w.sessions, v.sessions) && (key in v.customers ==> Served(v, key))
    ensures AllServed(v)
  {
    hide AccessInv, Lookup;
    forall other | other in v.customers && other != key ensures Served(v, other) {
      assert Served(w, other);
    }
  }

  lemma NoneChanged(w: World, v: World)
    requires AllServed(w) && AccessInv(v) && v.customers == w.customers && v.device == w.device
    requires v.packages == w.packages && SamePackages(w.sessions, v.sessions)
    ensures AllServed(v)
  {
    hide AccessInv, Lookup;
    forall key | key in v.customers ensures Served(v, key) {
      assert Served(w, key);
    }
  }

  lemma QuietServed(settings: Settings, w: World, step: Step)
    requires AllServed(w) && IsQuiet(step) && KeepsTerms(w, step)
    ensures AllServed(Next(settings, w, step))
  {
    hide AccessInv, Lookup, Next, Served;
    var v := Next(settings, w, step);
    StepKeepsInv(settings, w, step);
    QuietSteps(settings, w, step);
    QuietKeepsTerms(settings, w, step);
    forall key | key in v.customers ensures Served(v, key) {
      assert Served(w, key);
      QuietKeepsServed(w, v, key);
    }
  }

  lemma QuietKeepsServed(w: World, v: World, key: Key)
    requires Quiet(w, v) && SameTerms(w.packages, v.packages) && key in w.customers && Served(w, key)
    ensures Served(v, key)
  {
    hide Lookup;
    assert key.name.Derived? ==> Settles(w.sessions[key.name.session], v.sessions[key.name.session]);
  }

  lemma QuietKeepsTerms(settings: Settings, w: World, step: Step)
    requires IsQuiet(step) && KeepsTerms(w, step)
    ensures SameTerms(w.packages, Next(settings, w, step).packages)
  {
    hide CreatePayment, Prepare, FinishInitiation, Complete, Cleanup, CreateCustomer, SetCustomer, DropCustomer,
         ExpireAccess, CanComplete;
  }

  lemma StepKeepsPackages(settings: Settings, w: World, step: Step)
    ensures SamePackages(w.sessions, Next(settings, w, step).sessions)
    ensures !IsQuiet(step) ==> Next(settings, w, step).packages == w.packages
  {
    hide Next;
    forall i | 0 <= i < |w.sessions|
      ensures i < |Next(settings, w, step).sessions|
      ensures Next(settings, w, step).sessions[i].package == w.sessions[i].package
    {
      StepMoves(settings, w, step, i);
    }
    StepCreates(settings, w, step);
    if !IsQuiet(step) {
      OnlyQuietStepsSell(settings, w, step);
    }
  }

  lemma OnlyQuietStepsSell(settings: Settings, w: World, step: Step)
    requires !IsQuiet(step)
    ensures Next(settings, w, step).packages == w.packages
  {
    hide Upsert, SetEnabled, Delete, RouterUp, HasInvoice, FindByKey, RecentCount, Provision, ExpireAccess,
         WithCredentials;
    if step.StepExpireAccess? {
      ExpireAccessOnly(w, step.rows, step.now, step.unreachable);
    }
  }

  lemma PreparedServed(settings: Settings, w: World, step: Step)
    requires AllServed(w) && step.StepPrepare?
    ensures AllServed(Next(settings, w, step))
  {
    hide AccessInv, Lookup, Prepare, Served, RouterUp;
    var v, id := Next(settings, w, step), step.id;
    StepKeepsInv(settings, w, step);
    StepKeepsPackages(settings, w, step);
    if id < |w.sessions| && w.sessions[id].task == Asking(false) && w.sessions[id].service.Hotspot?
       && RouterUp(w, w.sessions[id].router, step.up)
    {
      PreparationServes(w, id, step.password, step.up, step.now);
      PreparedIsServed(w, v, id);
      OneServed(w, v, Key(Hotspot, w.sessions[id].router, Derived(id)));
    } else {
      IdlePreparation(w, id, step.password, step.up, step.now);
      NoneChanged(w, v);
    }
  }

  lemma PreparedIsServed(w: World, v: World, id: nat)
    requires id < |w.sessions| && v.packages == w.packages && SamePackages(w.sessions, v.sessions)
    requires exists chosen :: Prepared(w, v, id, chosen)
    ensures
      var key := Key(Hotspot, w.sessions[id].router, Derived(id));
      key in v.customers && Served(v, key) && OthersServed(w, v, key)
  {
    hide Lookup;
    var chosen :| Prepared(w, v, id, chosen);
  }

  lemma IdlePreparation(w: World, id: nat, password: string, up: bool, now: int)
    requires id < |w.sessions| ==> w.sessions[id].task != Asking(false) || w.sessions[id].service.Pppoe?
                                   || !RouterUp(w, w.sessions[id].router, up)
    ensures
      var v := Prepare(w, id, password, up, now);
      v.customers == w.customers && v.device == w.device
  {
    hide RouterUp, Find;
  }

  lemma CompletedServed(settings: Settings, w: World, step: Step)
    requires AllServed(w) && step.StepComplete?
    ensures AllServed(Next(settings, w, step))
  {
    hide AccessInv, Lookup, Complete, Served, CanProvision, Granted, LineGranted;
    var v, id := Next(settings, w, step), step.id;
    StepKeepsInv(settings, w, step);
    StepKeepsPackages(settings, w, step);
    if !CanComplete(w, id) || w.sessions[id].status.Provisioned? {
      ProvisionedCompletes(w, id, step.receipt, step.password, step.up, step.now);
    } else if CanProvision(w, id, step.up) {
      CompletionServes(w, id, step.receipt, step.password, step.up, step.now);
      GrantedIsServed(w, v, id, step.now);
      OneServed(w, v, SessionKey(id, w.sessions[id]));
    } else {
      CompletionMisses(w, id, step.receipt, step.password, step.up, step.now);
      NoneChanged(w, v);
    }
  }

  lemma ProvisionedCompletes(w: World, id: nat, receipt: Option<string>, password: string, up: bool, now: int)
    ensures id < |w.sessions| && w.sessions[id].status.Provisioned? ==>
              Complete(w, id, receipt, password, up, now) == w
  {
    hide Provision, HasInvoice;
  }

  lemma GrantedIsServed(w: World, v: World, id: nat, now: int)
    requires AllServed(w) && id < |w.sessions| && v.packages == w.packages && SamePackages(w.sessions, v.sessions)
    requires Granted(w, v, id, now) && LineGranted(w, v, id)
    ensures SessionKey(id, w.sessions[id]) in v.customers && Served(v, SessionKey(id, w.sessions[id]))
  {
    hide Lookup, AccessInv;
    var key := SessionKey(id, w.sessions[id]);
    assert key in w.customers ==> Served(w, key);
  }

  /** Cleanup removes the account on both sides or changes neither. */
  lemma CleanupServes(w: World, id: nat, up: bool, now: int)
    requires AccessInv(w) && id < |w.sessions|
    ensures
      var v, key := Cleanup(w, id, up, now), SessionKey(id, w.sessions[id]);
      if Removes(w, id, up) then
        && OthersServed(w, v, key) && v.customers == w.customers - {key} && Lookup(v.device, key).None?
        && |v.sessions| == |w.sessions| && v.sessions == w.sessions[id := v.sessions[id]]
        && v.sessions[id].status.Failed? && v.sessions[id].accessName == w.sessions[id].accessName
        && v.sessions[id].accessPassword.None? && v.sessions[id].credentialsUntil.None?
      else v == w
  {
    hide Without, RouterUp, AccessInv, Lookup;
    SessionHolds(w, id);
    var key := SessionKey(id, w.sessions[id]);
    forall other
      ensures Lookup(Without(w.device, key), other) == if other == key then None else Lookup(w.device, other)
    {
      WithoutKeepsOthers(w.device, key, other);
    }
  }

  lemma CleanedServed(settings: Settings, w: World, step: Step)
    requires AllServed(w) && step.StepCleanup?
    ensures AllServed(Next(settings, w, step))
  {
    hide AccessInv, Lookup, Cleanup, Served, Removes;
    var v, id := Next(settings, w, step), step.id;
    StepKeepsInv(settings, w, step);
    StepKeepsPackages(settings, w, step);
    if id < |w.sessions| {
      CleanupServes(w, id, step.up, step.now);
      if Removes(w, id, step.up) {
        OneServed(w, v, SessionKey(id, w.sessions[id]));
      }
    } else {
      CleanupMoves(w, id, step.up, step.now);
    }
  }

  lemma SwitchedServed(w: World, key: Key, enabled: bool, up: bool)
    requires AllServed(w)
    ensures AllServed(SetCustomer(w, key, enabled, up))
  {
    hide AccessInv, Lookup, SetCustomer, RouterUp, Served;
    var v := SetCustomer(w, key, enabled, up);
    SetCustomerKeepsInv(w, key, enabled, up);
    SwitchServes(w, key, enabled, up);
    if v != w {
      SetCustomerOnly(w, key, enabled, up);
      SwitchedIsServed(w, v, key, enabled);
      OneServed(w, v, key);
    }
  }

  lemma SetCustomerOnly(w: World, key: Key, enabled: bool, up: bool)
    ensures AccessOnly(w, SetCustomer(w, key, enabled, up))
  {
  }

  lemma SwitchedIsServed(w: World, v: World, key: Key, enabled: bool)
    requires key in w.customers && Served(w, key) && v.sessions == w.sessions && v.packages == w.packages
    requires v.customers == w.customers[key := w.customers[key].(active := enabled)]
    requires Lookup(w.device, key).Some?
    requires Lookup(v.device, key) == Some(Lookup(w.device, key).value.(enabled := enabled))
    ensures Served(v, key)
  {
    hide Lookup;
  }

  lemma {:induction false} ExpiredServed(w: World, rows: seq<Key>, now: int, unreachable: set<Key>)
    requires AllServed(w)
    ensures AllServed(ExpireAccess(w, rows, now, unreachable))
    decreases |rows|
  {
    hide AllServed, SetCustomer, AccessDue;
    if rows != [] {
      var front, last := rows[..|rows| - 1], rows[|rows| - 1];
      ExpiredServed(w, front, now, unreachable);
      SwitchedServed(ExpireAccess(w, front, now, unreachable), last, false, last !in unreachable);
    }
  }

  lemma OperatedServed(settings: Settings, w: World, step: Step)
    requires AllServed(w) && IsAccessStep(step)
    ensures AllServed(Next(settings, w, step))
  {
    hide AccessInv, Lookup, SetCustomer, DropCustomer, CreateCustomer, ExpireAccess, RouterUp, Served, Creatable;
    var v := Next(settings, w, step);
    StepKeepsInv(settings, w, step);
    StepKeepsPackages(settings, w, step);
    match step
    case StepCreateCustomer(service, router, name, password, package, up, now) =>
      CreationServes(w, service, router, name, password, package, up, now);
      if Creatable(w, service, router, name, package, up) {
        CreatedIsServed(w, v, service, router, name, password, package, up, now);
        OneServed(w, v, Key(service, router, Typed(name)));
      }
    case StepSetCustomer(key, enabled, up) => SwitchedServed(w, key, enabled, up);
    case StepDropCustomer(key, up) =>
      DeletionServes(w, key, up);
      if key in w.customers && RouterUp(w, key.router, up) {
        OneServed(w, v, key);
      }
    case StepExpireAccess(rows, now, unreachable) => ExpiredServed(w, rows, now, unreachable);
  }

  lemma CreatedIsServed(w: World, v: World, service: Service, router: nat, name: string, password: string, package: nat,
                        up: bool, now: int)
    requires Creatable(w, service, router, name, package, up) && v.packages == w.packages
    requires
      var key := Key(service, router, Typed(name));
      && key in v.customers
      && v.customers[key] == Customer(password, true, Some(now + 60 * w.packages[package].validity), package)
      && Line(v.device, key, password, w.packages[package].profile, true,
              if service.Hotspot? then Some(w.packages[package].validity) else None)
    ensures Served(v, Key(service, router, Typed(name)))
  {
    hide Lookup;
  }

  lemma StepKeepsServed(settings: Settings, w: World, step: Step)
    requires AllServed(w) && KeepsTerms(w, step)
    ensures AllServed(Next(settings, w, step))
  {
    hide AccessInv, Lookup, Served, Next, KeepsTerms;
    if IsQuiet(step) {
      QuietServed(settings, w, step);
    } else if IsAccessStep(step) {
      OperatedServed(settings, w, step);
    } else {
      match step
      case StepPrepare(_, _, _, _) => PreparedServed(settings, w, step);
      case StepComplete(_, _, _, _, _) => CompletedServed(settings, w, step);
      case StepCleanup(_, _, _) => CleanedServed(settings, w, step);
      case _ =>
        StepKeepsInv(settings, w, step);
        StepKeepsPackages(settings, w, step);
        RequestsServe(settings, w, step);
        NoneChanged(w, Next(settings, w, step));
    }
  }

  lemma RequestsServe(settings: Settings, w: World, step: Step)
    requires step.StepCreatePayment? || step.StepFinishInitiation?
    ensures Next(settings, w, step).customers == w.customers && Next(settings, w, step).device == w.device
  {
    hide FindByKey, RecentCount;
  }

  /** In every run that leaves the terms of the packages in use alone, whatever fails on the way, the
    router's line of every customer is the one its row and its package say: its password, the
    profile of the package it was sold last, enabled exactly when the row is active, with the
    package's limit on a hotspot and none on PPPoE. */
  lemma {:induction false} LinesFollowTheRows(settings: Settings, w: World, steps: seq<Step>)
    requires AllServed(w) && TermsKept(settings, w, steps)
    ensures AllServed(Run(settings, w, steps))
    decreases |steps|
  {
    hide Next, AllServed, KeepsTerms;
    if steps != [] {
      StepKeepsServed(settings, w, steps[0]);
      LinesFollowTheRows(settings, Next(settings, w, steps[0]), steps[1..]);
    }
  }
}
