/** Payment sessions and the access they buy (services/payment_service.py,
  services/access_service.py, services/maintenance_service.py, services/router_service.py) as a
  transition system: one step is one committed transaction together with its router call.

  A router call takes effect and returns, or raises with no effect; commits succeed; receipts
  and provider request ids are unique. Times are in seconds, amounts in cents. */
module PaymentModel {
  import opened Text
  import opened AccessTables

  datatype Provider = Mpesa | Kopokopo

  datatype Status = Created | Pending | Provisioning | Provisioned | Failed | ManualReview | ProvisioningFailed

  /** How far the coroutine that created a session has come: both initiation tasks running
    (`prepared` once the access task has ended), or the result written. */
  datatype Task = Asking(prepared: bool) | Done

  /** Stands for the hash of the request's three fields. */
  datatype Fingerprint = Fingerprint(package: nat, phone: string, reference: string)

  /** A payment session; its position in the table stands for its public id. */
  datatype Session = Session(
    provider: Provider,
    status: Status,
    amount: int,
    service: Service,
    reference: string,
    phone: string,
    client: Option<string>,
    idempotencyKey: string,
    fingerprint: Fingerprint,
    router: nat,
    package: nat,
    createdAt: int,
    expiresAt: int,
    updatedAt: int,
    requestId: Option<string>,
    receipt: Option<string>,
    accessName: Option<Name>,
    accessPassword: Option<string>,
    credentialsUntil: Option<int>,
    task: Task)

  datatype Package = Package(router: nat, service: Service, price: int, validity: nat, profile: string, active: bool)

  datatype RouterRow = RouterRow(portalEnabled: bool, provider: Provider, deleted: bool)

  /** A ledger row; `invoice` is the session it was paid in. */
  datatype Payment = Payment(invoice: nat, receipt: Option<string>, amount: int, customer: Key, package: nat)

  datatype World = World(
    routers: map<nat, RouterRow>,
    packages: map<nat, Package>,
    sessions: seq<Session>,
    customers: map<Key, Customer>,
    device: seq<Entry>,
    ledger: seq<Payment>)

  datatype Settings = Settings(
    providers: set<Provider>, limit: nat, windowMinutes: nat, sessionMinutes: nat, tokenMinutes: nat)

  const QUERY_SECONDS: int := 5

  // ------------------------------------------------------------------ creating a session

  /** `router` and `package` are the rows the slug and the uid name, if any. */
  datatype Request = Request(
    router: Option<nat>, package: Option<nat>, phone: string, client: Option<string>, reference: string, key: string)

  datatype CreateResult =
    | PortalNotFound | ProviderDisabled | PackageNotFound | ReferenceMissing | KeyReused | TooMany
    | Replayed(id: nat) | Started(id: nat)

  function FindByKey(sessions: seq<Session>, router: nat, key: string): (i: Option<nat>)
    ensures i.Some? ==>
              i.value < |sessions| && sessions[i.value].router == router && sessions[i.value].idempotencyKey == key
    ensures i.None? ==>
              forall j | 0 <= j < |sessions| :: !(sessions[j].router == router && sessions[j].idempotencyKey == key)
  {
    if sessions == [] then None
    else
      var n := |sessions| - 1;
      match FindByKey(sessions[..n], router, key)
      case Some(i) => Some(i)
      case None => if sessions[n].router == router && sessions[n].idempotencyKey == key then Some(n) else None
  }

  predicate SameSource(s: Session, phone: string, client: Option<string>) {
    s.phone == phone || (client.Some? && s.client == client)
  }

  /** The sessions since `since` from this phone or this client address. */
  function RecentCount(sessions: seq<Session>, phone: string, client: Option<string>, since: int): nat {
    if sessions == [] then 0 else
      var last := sessions[|sessions| - 1];
      RecentCount(sessions[..|sessions| - 1], phone, client, since)
      + if last.createdAt >= since && SameSource(last, phone, client) then 1 else 0
  }

  function NewSession(settings: Settings, router: nat, row: RouterRow, package: nat, p: Package, r: Request, now: int,
                      stamp: int): Session
  {
    Session(row.provider, Created, p.price, p.service, r.reference, r.phone, r.client, r.key,
            Fingerprint(package, r.phone, r.reference), router, package,
            stamp, now + 60 * settings.sessionMinutes, stamp, None, None, None, None, None, Asking(false))
  }

  /** `now` is the clock of the checks, `stamp` the creation time the insert stores. */
  function CreatePayment(settings: Settings, w: World, r: Request, now: int, stamp: int): (World, CreateResult) {
    if r.router.None? || r.router.value !in w.routers || !w.routers[r.router.value].portalEnabled
    then (w, PortalNotFound)
    else
      var router, row := r.router.value, w.routers[r.router.value];
      if row.provider !in settings.providers then (w, ProviderDisabled)
      else if r.package.None? || r.package.value !in w.packages || w.packages[r.package.value].router != router
              || !w.packages[r.package.value].active then (w, PackageNotFound)
      else
        var package, p := r.package.value, w.packages[r.package.value];
        if p.service.Pppoe? && r.reference == "" then (w, ReferenceMissing)
        else match FindByKey(w.sessions, router, r.key)
             case Some(i) =>
               if w.sessions[i].fingerprint != Fingerprint(package, r.phone, r.reference) then (w, KeyReused)
               else (w, Replayed(i))
             case None =>
               var since := now - 60 * settings.windowMinutes;
               if RecentCount(w.sessions, r.phone, r.client, since) >= settings.limit then (w, TooMany)
               else (w.(sessions := w.sessions + [NewSession(settings, router, row, package, p, r, now, stamp)]),
                     Started(|w.sessions|))
  }

  // ------------------------------------------------------------------ access

  function SessionKey(id: nat, s: Session): Key {
    Key(s.service, s.router, if s.service.Hotspot? then Derived(id) else Typed(s.reference))
  }

  predicate RouterUp(w: World, router: nat, up: bool) {
    up && router in w.routers && !w.routers[router].deleted
  }

  /** `_payment_credentials`: the stored pair, or the derived name with the fresh password. */
  function WithCredentials(id: nat, s: Session, password: string, now: int): (r: Session)
    ensures r.accessName.Some? && r.accessPassword.Some?
  {
    if s.accessName.Some? && s.accessPassword.Some? then s
    else s.(accessName := Some(Derived(id)), accessPassword := Some(password), credentialsUntil := Some(now + 60 * 30))
  }

  function HotspotEntry(key: Key, password: string, p: Package): Entry {
    Entry(key, password, p.profile, true, Some(p.validity))
  }

  /** `_prepare_payment_access`: a failure rolls back, and the coroutine goes on either way. */
  function Prepare(w: World, id: nat, password: string, up: bool, now: int): World {
    if id >= |w.sessions| || w.sessions[id].task != Asking(false) then w
    else
      var row := w.sessions[id].(task := Asking(true));
      var rolledBack := w.(sessions := w.sessions[id := row]);
      if !row.service.Hotspot? || row.package !in w.packages || !w.packages[row.package].service.Hotspot?
      then rolledBack
      else
        var p := w.packages[row.package];
        var s := WithCredentials(id, row, password, now);
        var key := Key(Hotspot, s.router, s.accessName.value);
        match Upsert(w.device, RouterUp(w, s.router, up), HotspotEntry(key, s.accessPassword.value, p), true)
        case None => rolledBack
        case Some(device) =>
          w.(sessions := w.sessions[id := s.(updatedAt := now)],
             device := device,
             customers := w.customers[key := Customer(s.accessPassword.value, true, None, s.package)])
  }

  /** What `provision_paid_session` leaves behind when it returns. */
  datatype Grant = Grant(session: Session, device: seq<Entry>, key: Key, customer: Customer)

  function ProvisionHotspot(w: World, id: nat, row: Session, p: Package, password: string, up: bool, now: int)
    : Option<Grant>
  {
    var s := WithCredentials(id, row, password, now);
    var key := Key(Hotspot, s.router, s.accessName.value);
    var expiry := now + 60 * p.validity;
    if key in w.customers && w.customers[key].active then
      var c := w.customers[key];
      Some(Grant(s, w.device, key,
                 c.(password := s.accessPassword.value, package := s.package,
                    expires := if c.expires.None? then Some(expiry) else c.expires)))
    else
      match Upsert(w.device, RouterUp(w, s.router, up), HotspotEntry(key, s.accessPassword.value, p), true)
      case None => None
      case Some(device) =>
        var kept := if key in w.customers then w.customers[key].expires else None;
        Some(Grant(s, device, key,
                   Customer(s.accessPassword.value, true, if kept.None? then Some(expiry) else kept, s.package)))
  }

  /** The renewed expiry: a full validity past both the old expiry and the present. */
  function Renewed(expires: Option<int>, now: int, validity: nat): Option<int> {
    var base := if expires.Some? && expires.value > now then expires.value else now;
    Some(base + 60 * validity)
  }

  function ProvisionPppoe(w: World, row: Session, p: Package, up: bool, now: int): Option<Grant> {
    var key := Key(Pppoe, row.router, Typed(row.reference));
    if row.reference == "" || key !in w.customers then None
    else
      var c := w.customers[key];
      match Upsert(w.device, RouterUp(w, row.router, up), Entry(key, c.password, p.profile, true, None), true)
      case None => None
      case Some(device) =>
        Some(Grant(row.(accessName := Some(key.name), accessPassword := None, credentialsUntil := None), device, key,
                   c.(active := true, package := row.package, expires := Renewed(c.expires, now, p.validity))))
  }

  function Provision(w: World, id: nat, row: Session, p: Package, password: string, up: bool, now: int): Option<Grant> {
    if p.service.Hotspot? then ProvisionHotspot(w, id, row, p, password, up, now)
    else ProvisionPppoe(w, row, p, up, now)
  }

  predicate HasInvoice(ledger: seq<Payment>, id: nat) {
    exists i | 0 <= i < |ledger| :: ledger[i].invoice == id
  }

  /** `complete_payment`, its failure write included. */
  function Complete(w: World, id: nat, receipt: Option<string>, password: string, up: bool, now: int): World {
    if id >= |w.sessions| || w.sessions[id].status.Provisioned? then w
    else
      var prior := w.sessions[id];
      var row := prior.(status := Provisioning, receipt := receipt, updatedAt := now);
      if row.package !in w.packages then w.(sessions := w.sessions[id := row.(status := ManualReview)])
      else
        match Provision(w, id, row, w.packages[row.package], password, up, now)
        case None => w.(sessions := w.sessions[id := prior.(status := ProvisioningFailed, updatedAt := now)])
        case Some(g) =>
          w.(sessions := w.sessions[id := g.session.(status := Provisioned)],
             device := g.device,
             customers := w.customers[g.key := g.customer],
             ledger := if HasInvoice(w.ledger, id) then w.ledger
                       else w.ledger + [Payment(id, receipt, row.amount, g.key, row.package)])
  }

  /** `cleanup_prepared_hotspot_session` on a failed session. */
  function Cleanup(w: World, id: nat, up: bool, now: int): World {
    if id >= |w.sessions| then w
    else
      var s := w.sessions[id];
      if !s.status.Failed? || !s.service.Hotspot? || s.accessName.None? then w
      else
        var key := Key(Hotspot, s.router, s.accessName.value);
        if key !in w.customers || w.customers[key].expires.Some? then w
        else match Delete(w.device, RouterUp(w, s.router, up), key)
             case None => w
             case Some(device) =>
               w.(sessions := w.sessions[id := s.(accessPassword := None, credentialsUntil := None, updatedAt := now)],
                  device := device,
                  customers := w.customers - {key})
  }

  // ------------------------------------------------------------------ statuses

  /** The last write of `create_public_payment`: the provider's request id, or its failure. */
  function FinishInitiation(w: World, id: nat, answer: Option<string>, now: int): World {
    if id >= |w.sessions| || w.sessions[id].task != Asking(true) then w
    else
      var s := w.sessions[id];
      match answer
      case Some(requestId) =>
        var asked := s.(requestId := Some(requestId), status := Pending, updatedAt := now, task := Done);
        w.(sessions := w.sessions[id := asked])
      case None =>
        var ended := if s.status.Created? then s.(status := Failed, updatedAt := now) else s;
        w.(sessions := w.sessions[id := ended.(task := Done)])
  }

  predicate Unpaid(s: Session) { s.status.Created? || s.status.Pending? }

  /** The first transaction of `get_public_payment`; the answer is the request to query, if any. */
  function Poll(settings: Settings, w: World, id: nat, tokenOk: bool, now: int): (World, Option<string>) {
    if id >= |w.sessions| || !tokenOk || w.sessions[id].createdAt + 60 * settings.tokenMinutes < now then (w, None)
    else
      var s := w.sessions[id];
      if Unpaid(s) && s.expiresAt < now then
        (w.(sessions := w.sessions[id := s.(status := Failed, updatedAt := now)]), None)
      else if s.status.Pending? && s.provider.Mpesa? && s.requestId.Some? && s.updatedAt <= now - QUERY_SECONDS then
        (w.(sessions := w.sessions[id := s.(updatedAt := now)]), s.requestId)
      else (w, None)
  }

  /** `_record_provider_query_state`, whose code and text are not modelled. */
  function RecordQuery(w: World, id: nat, now: int): World {
    if id < |w.sessions| && w.sessions[id].status.Pending?
    then w.(sessions := w.sessions[id := w.sessions[id].(updatedAt := now)]) else w
  }

  predicate CallbackIgnored(s: Session) { s.status.Provisioned? || s.status.ManualReview? }

  /** An M-Pesa callback that reports no success. */
  function CallbackFails(w: World, id: nat, now: int): World {
    if id >= |w.sessions| || !w.sessions[id].provider.Mpesa? || w.sessions[id].requestId.None?
       || CallbackIgnored(w.sessions[id]) then w
    else w.(sessions := w.sessions[id := w.sessions[id].(status := Failed, updatedAt := now)])
  }

  /** `_mark_manual_review`, after a mismatch or a failed verification of an M-Pesa callback. */
  function MarkReview(w: World, id: nat, now: int): World {
    if id >= |w.sessions| || !w.sessions[id].provider.Mpesa? || w.sessions[id].requestId.None?
       || w.sessions[id].status.Provisioned? then w
    else w.(sessions := w.sessions[id := w.sessions[id].(status := ManualReview, updatedAt := now)])
  }

  /** The transaction of `process_kopokopo_callback`. */
  function KopoAnswer(w: World, id: nat, success: bool, matches: bool, now: int): World {
    if id >= |w.sessions| || !w.sessions[id].provider.Kopokopo? || CallbackIgnored(w.sessions[id])
       || (success && matches) then w
    else
      var status := if success then ManualReview else Failed;
      w.(sessions := w.sessions[id := w.sessions[id].(status := status, updatedAt := now)])
  }

  function Expired(s: Session, now: int): Session {
    if Unpaid(s) && s.expiresAt <= now then s.(status := Failed, updatedAt := now) else s
  }

  function ExpireSessions(w: World, now: int): World {
    w.(sessions := seq(|w.sessions|, i requires 0 <= i < |w.sessions| => Expired(w.sessions[i], now)))
  }

  function Orphaned(s: Session, router: nat, now: int): Session {
    if s.router != router then s
    else if Unpaid(s) then s.(status := Failed, updatedAt := now)
    else if s.status.Provisioning? || s.status.ProvisioningFailed? then s.(status := ManualReview, updatedAt := now)
    else s
  }

  /** The effects of `delete_router` on sessions and packages. */
  function DeleteRouter(w: World, router: nat, now: int): World {
    if router !in w.routers || w.routers[router].deleted then w
    else
      w.(routers := w.routers[router := w.routers[router].(deleted := true, portalEnabled := false)],
         packages := map p | p in w.packages ::
           if w.packages[p].router == router then w.packages[p].(active := false) else w.packages[p],
         sessions := seq(|w.sessions|, i requires 0 <= i < |w.sessions| => Orphaned(w.sessions[i], router, now)))
  }

  // ------------------------------------------------------------------ customers

  /** `create_hotspot_customer` and `create_pppoe_customer`: the operator types the name. */
  function CreateCustomer(w: World, service: Service, router: nat, name: string, password: string, package: nat,
                          up: bool, now: int): World
  {
    var key := Key(service, router, Typed(name));
    if router !in w.routers || w.routers[router].deleted
       || package !in w.packages || w.packages[package].router != router || w.packages[package].service != service
       || !w.packages[package].active || key in w.customers then w
    else
      var p := w.packages[package];
      var limit := if service.Hotspot? then Some(p.validity) else None;
      match Upsert(w.device, up, Entry(key, password, p.profile, true, limit), false)
      case None => w
      case Some(device) =>
        w.(device := device,
           customers := w.customers[key := Customer(password, true, Some(now + 60 * p.validity), package)])
  }

  function SetCustomer(w: World, key: Key, enabled: bool, up: bool): World {
    if key !in w.customers then w
    else match SetEnabled(w.device, RouterUp(w, key.router, up), key, enabled)
         case None => w
         case Some(device) =>
           w.(device := device, customers := w.customers[key := w.customers[key].(active := enabled)])
  }

  function DropCustomer(w: World, key: Key, up: bool): World {
    if key !in w.customers then w
    else match Delete(w.device, RouterUp(w, key.router, up), key)
         case None => w
         case Some(device) => w.(device := device, customers := w.customers - {key})
  }

  predicate AccessDue(w: World, key: Key, now: int) {
    key in w.customers && w.customers[key].active && w.customers[key].expires.Some?
    && w.customers[key].expires.value <= now
  }

  /** `expire_access` over the rows in the order the database returns them; `unreachable` holds
    those whose router call fails. */
  function ExpireAccess(w: World, rows: seq<Key>, now: int, unreachable: set<Key>): World {
    if rows == [] then w
    else
      var key, v := rows[|rows| - 1], ExpireAccess(w, rows[..|rows| - 1], now, unreachable);
      if AccessDue(v, key, now) then SetCustomer(v, key, false, key !in unreachable) else v
  }

  /** Creating a package, or updating one, which changes neither its router nor its service. */
  function PutPackage(w: World, package: nat, p: Package): World {
    if p.router !in w.routers then w
    else if package in w.packages
            && (w.packages[package].router != p.router || w.packages[package].service != p.service) then w
    else w.(packages := w.packages[package := p])
  }

  function PutRouter(w: World, router: nat, row: RouterRow): World {
    if row.deleted || (router in w.routers && w.routers[router].deleted) then w
    else w.(routers := w.routers[router := row])
  }

  // ------------------------------------------------------------------ steps and runs

  datatype Step =
    | StepCreatePayment(request: Request, now: int, stamp: int)
    | StepPrepare(id: nat, password: string, up: bool, now: int)
    | StepFinishInitiation(id: nat, answer: Option<string>, now: int)
    | StepPoll(id: nat, tokenOk: bool, now: int)
    | StepRecordQuery(id: nat, now: int)
    | StepCallbackFails(id: nat, now: int)
    | StepMarkReview(id: nat, now: int)
    | StepKopoAnswer(id: nat, success: bool, matches: bool, now: int)
    | StepComplete(id: nat, receipt: Option<string>, password: string, up: bool, now: int)
    | StepCleanup(id: nat, up: bool, now: int)
    | StepExpireSessions(now: int)
    | StepDeleteRouter(router: nat, now: int)
    | StepCreateCustomer(
        service: Service, router: nat, name: string, password: string, package: nat, up: bool, now: int)
    | StepSetCustomer(key: Key, enabled: bool, up: bool)
    | StepDropCustomer(key: Key, up: bool)
    | StepExpireAccess(rows: seq<Key>, now: int, unreachable: set<Key>)
    | StepPutPackage(package: nat, p: Package)
    | StepPutRouter(router: nat, row: RouterRow)

  /** An M-Pesa completion names its session by the provider's request id, so it cannot come
    before that id is stored. A Kopo Kopo completion can come at any time. */
  predicate CanComplete(w: World, id: nat) {
    id < |w.sessions| && (w.sessions[id].provider.Mpesa? ==> w.sessions[id].requestId.Some?)
  }

  function Next(settings: Settings, w: World, step: Step): World {
    match step
    case StepCreatePayment(request, now, stamp) => CreatePayment(settings, w, request, now, stamp).0
    case StepPrepare(id, password, up, now) => Prepare(w, id, password, up, now)
    case StepFinishInitiation(id, answer, now) => FinishInitiation(w, id, answer, now)
    case StepPoll(id, tokenOk, now) => Poll(settings, w, id, tokenOk, now).0
    case StepRecordQuery(id, now) => RecordQuery(w, id, now)
    case StepCallbackFails(id, now) => CallbackFails(w, id, now)
    case StepMarkReview(id, now) => MarkReview(w, id, now)
    case StepKopoAnswer(id, success, matches, now) => KopoAnswer(w, id, success, matches, now)
    case StepComplete(id, receipt, password, up, now) =>
      if CanComplete(w, id) then Complete(w, id, receipt, password, up, now) else w
    case StepCleanup(id, up, now) => Cleanup(w, id, up, now)
    case StepExpireSessions(now) => ExpireSessions(w, now)
    case StepDeleteRouter(router, now) => DeleteRouter(w, router, now)
    case StepCreateCustomer(service, router, name, password, package, up, now) =>
      CreateCustomer(w, service, router, name, password, package, up, now)
    case StepSetCustomer(key, enabled, up) => SetCustomer(w, key, enabled, up)
    case StepDropCustomer(key, up) => DropCustomer(w, key, up)
    case StepExpireAccess(rows, now, unreachable) => ExpireAccess(w, rows, now, unreachable)
    case StepPutPackage(package, p) => PutPackage(w, package, p)
    case StepPutRouter(router, row) => PutRouter(w, router, row)
  }

  function Run(settings: Settings, w: World, steps: seq<Step>): World
    decreases |steps|
  {
    if steps == [] then w else Run(settings, Next(settings, w, steps[0]), steps[1..])
  }

  const EMPTY := World(map[], map[], [], map[], [], [])

  lemma RunNothing(settings: Settings, w: World)
    ensures Run(settings, w, []) == w
  {
  }

  lemma RunOne(settings: Settings, w: World, step: Step)
    ensures Run(settings, w, [step]) == Next(settings, w, step)
  {
    assert [step][1..] == [];
  }

  lemma {:induction false} RunAppend(settings: Settings, w: World, a: seq<Step>, b: seq<Step>)
    ensures Run(settings, w, a + b) == Run(settings, Run(settings, w, a), b)
    decreases |a|
  {
    hide Next;
    if a == [] {
      assert a + b == b;
    } else {
      assert (a + b)[0] == a[0] && (a + b)[1..] == a[1..] + b;
      RunAppend(settings, Next(settings, w, a[0]), a[1..], b);
    }
  }

  lemma OneMore(settings: Settings, w: World, steps: seq<Step>, step: Step)
    ensures Run(settings, w, steps + [step]) == Next(settings, Run(settings, w, steps), step)
  {
    hide Next;
    RunAppend(settings, w, steps, [step]);
    RunOne(settings, Run(settings, w, steps), step);
  }

  /** The world after the first `k` steps. */
  function Until(settings: Settings, w: World, steps: seq<Step>, k: nat): World
    requires k <= |steps|
  {
    Run(settings, w, steps[..k])
  }

  lemma UntilBegins(settings: Settings, w: World, steps: seq<Step>)
    ensures Until(settings, w, steps, 0) == w
    ensures Until(settings, w, steps, |steps|) == Run(settings, w, steps)
  {
    assert steps[..0] == [] && steps[..|steps|] == steps;
  }

  lemma UntilNext(settings: Settings, w: World, steps: seq<Step>, k: nat)
    requires k < |steps|
    ensures Until(settings, w, steps, k + 1) == Next(settings, Until(settings, w, steps, k), steps[k])
  {
    hide Next, Run;
    assert steps[..k + 1] == steps[..k] + [steps[k]];
    OneMore(settings, w, steps[..k], steps[k]);
  }
}
