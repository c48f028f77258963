/** The two stores that hold a customer's access: the customer rows of the database, and the
  user tables on the routers (services/mikrotik_service.py). */
module AccessTables {
  import opened Text

  datatype Service = Hotspot | Pppoe

  /** A user name. `Derived(i)` is the name made from the public id of payment session `i`;
    those names are distinct, and no operator types one. */
  datatype Name = Derived(session: nat) | Typed(text: string)

  datatype Key = Key(service: Service, router: nat, name: Name)

  /** A hotspot or PPPoE customer row; passwords stand for their ciphertext. */
  datatype Customer = Customer(password: string, active: bool, expires: Option<int>, package: nat)

  /** One line of a router's user table. */
  datatype Entry = Entry(key: Key, password: string, profile: string, enabled: bool, limit: Option<nat>)

  // ------------------------------------------------------------------ the routers' tables

  /** The first line with this name: what the services act on. */
  function Find(device: seq<Entry>, key: Key): (i: Option<nat>)
    ensures i.Some? ==> i.value < |device| && device[i.value].key == key
    ensures i.Some? ==> forall j | 0 <= j < i.value :: device[j].key != key
    ensures i.None? ==> forall j | 0 <= j < |device| :: device[j].key != key
  {
    if device == [] then None
    else if device[0].key == key then Some(0)
    else match Find(device[1..], key)
         case Some(i) =>
           assert forall j | 0 < j < i + 1 :: device[j] == device[1..][j - 1];
           Some(i + 1)
         case None =>
           assert forall j | 0 < j < |device| :: device[j] == device[1..][j - 1];
           None
  }

  function Lookup(device: seq<Entry>, key: Key): Option<Entry> {
    match Find(device, key) case Some(i) => Some(device[i]) case None => None
  }

  predicate UniqueNames(device: seq<Entry>) {
    forall i, j | 0 <= i < j < |device| :: device[i].key != device[j].key
  }

  /** `_upsert_router_user` and the PPPoE provisioning: None when the call raises. A time limit
    already on the line stays when the call brings none. */
  function Upsert(device: seq<Entry>, up: bool, e: Entry, replace: bool): Option<seq<Entry>> {
    if !up then None
    else match Find(device, e.key)
         case None => Some(device + [e])
         case Some(i) =>
           if replace then Some(device[i := e.(limit := if e.limit.Some? then e.limit else device[i].limit)]) else None
  }

  /** `set_hotspot_enabled` and `set_pppoe_enabled`. */
  function SetEnabled(device: seq<Entry>, up: bool, key: Key, enabled: bool): Option<seq<Entry>> {
    if !up then None
    else match Find(device, key)
         case None => None
         case Some(i) => Some(device[i := device[i].(enabled := enabled)])
  }

  function Without(device: seq<Entry>, key: Key): seq<Entry> {
    if device == [] then []
    else (if device[0].key == key then [] else [device[0]]) + Without(device[1..], key)
  }

  /** `delete_hotspot_access` and `delete_pppoe_access`. */
  function Delete(device: seq<Entry>, up: bool, key: Key): Option<seq<Entry>> {
    if up then Some(Without(device, key)) else None
  }

  // ------------------------------------------------------------------ reading after writing

  lemma LookupIs(device: seq<Entry>, key: Key, i: nat)
    requires UniqueNames(device) && i < |device| && device[i].key == key
    ensures Find(device, key) == Some(i) && Lookup(device, key) == Some(device[i])
  {
  }

  lemma LookupNone(device: seq<Entry>, key: Key)
    requires forall j | 0 <= j < |device| :: device[j].key != key
    ensures Lookup(device, key).None?
  {
  }

  /** Replacing one line by another of the same name. */
  lemma LookupAfterUpdate(device: seq<Entry>, i: nat, e: Entry, other: Key)
    requires UniqueNames(device) && i < |device| && device[i].key == e.key
    ensures UniqueNames(device[i := e])
    ensures Lookup(device[i := e], other) == if other == e.key then Some(e) else Lookup(device, other)
  {
    var after := device[i := e];
    match Find(device, other)
    case Some(j) => LookupIs(after, other, j);
    case None => LookupNone(after, other);
  }

  lemma LookupAfterAdd(device: seq<Entry>, e: Entry, other: Key)
    requires UniqueNames(device) && Find(device, e.key).None?
    ensures UniqueNames(device + [e])
    ensures Lookup(device + [e], other) == if other == e.key then Some(e) else Lookup(device, other)
  {
    var after := device + [e];
    match Find(device, other)
    case Some(j) => LookupIs(after, other, j);
    case None =>
      if other == e.key {
        LookupIs(after, other, |device|);
      } else {
        LookupNone(after, other);
      }
  }

  function LimitOf(line: Option<Entry>): Option<nat> { if line.Some? then line.value.limit else None }

  /** An upsert is refused exactly when the router cannot be reached, or may not replace the line
    that is there; a switch exactly when the router cannot be reached or has no such line. */
  lemma CallsFailExactly(device: seq<Entry>, up: bool, e: Entry, replace: bool, enabled: bool)
    ensures Upsert(device, up, e, replace).None? <==>
              !up || (!replace && exists line | line in device :: line.key == e.key)
    ensures SetEnabled(device, up, e.key, enabled).None? <==> !up || forall line | line in device :: line.key != e.key
    ensures Lookup(device, e.key).None? <==> forall line | line in device :: line.key != e.key
  {
    match Find(device, e.key)
    case Some(i) => assert device[i] in device;
    case None =>
  }

  lemma LookupAfterUpsert(device: seq<Entry>, up: bool, e: Entry, replace: bool, other: Key)
    requires UniqueNames(device) && Upsert(device, up, e, replace).Some?
    ensures
      var after := Upsert(device, up, e, replace).value;
      && UniqueNames(after)
      && (other != e.key ==> Lookup(after, other) == Lookup(device, other))
      && (other == e.key ==> Lookup(after, other).Some? && Lookup(after, other).value.(limit := e.limit) == e)
      && (other == e.key ==> Lookup(after, other).value.limit
                             == if e.limit.Some? then e.limit else LimitOf(Lookup(device, other)))
  {
    hide UniqueNames;
    match Find(device, e.key)
    case None => LookupAfterAdd(device, e, other);
    case Some(i) =>
      LookupAfterUpdate(device, i, e.(limit := if e.limit.Some? then e.limit else device[i].limit), other);
  }

  lemma LookupAfterSet(device: seq<Entry>, up: bool, key: Key, enabled: bool, other: Key)
    requires UniqueNames(device) && SetEnabled(device, up, key, enabled).Some?
    ensures
      var after := SetEnabled(device, up, key, enabled).value;
      && UniqueNames(after) && Lookup(device, key).Some?
      && Lookup(after, other) ==
         if other == key then Some(Lookup(device, key).value.(enabled := enabled)) else Lookup(device, other)
  {
    hide UniqueNames;
    var i := Find(device, key).value;
    LookupAfterUpdate(device, i, device[i].(enabled := enabled), other);
  }

  lemma UniqueCons(head: Entry, tail: seq<Entry>)
    ensures UniqueNames([head] + tail) <==> UniqueNames(tail) && forall e | e in tail :: e.key != head.key
  {
    var all := [head] + tail;
    if UniqueNames(all) {
      forall i, j | 0 <= i < j < |tail| ensures tail[i].key != tail[j].key {
        assert all[i + 1] == tail[i] && all[j + 1] == tail[j];
      }
      forall e | e in tail ensures e.key != head.key {
        var j :| 0 <= j < |tail| && tail[j] == e;
        assert all[0] == head && all[j + 1] == e;
      }
    }
  }

  lemma LookupCons(head: Entry, tail: seq<Entry>, key: Key)
    ensures Lookup([head] + tail, key) == if head.key == key then Some(head) else Lookup(tail, key)
  {
    assert ([head] + tail)[1..] == tail;
  }

  lemma {:induction false} WithoutMembers(device: seq<Entry>, key: Key)
    ensures forall e | e in Without(device, key) :: e in device && e.key != key
    ensures UniqueNames(device) ==> UniqueNames(Without(device, key))
  {
    if device != [] {
      var head, tail := device[0], device[1..];
      assert device == [head] + tail;
      WithoutMembers(tail, key);
      UniqueCons(head, tail);
      UniqueCons(head, Without(tail, key));
      hide UniqueNames;
      assert head.key == key ==> Without(device, key) == Without(tail, key);
    }
  }

  lemma {:induction false} WithoutKeepsOthers(device: seq<Entry>, key: Key, other: Key)
    ensures Lookup(Without(device, key), other) == if other == key then None else Lookup(device, other)
  {
    if device != [] {
      var head, tail := device[0], device[1..];
      assert device == [head] + tail;
      WithoutKeepsOthers(tail, key, other);
      LookupCons(head, tail, other);
      LookupCons(head, Without(tail, key), other);
      hide Lookup;
      assert head.key == key ==> Without(device, key) == Without(tail, key);
    }
  }

  // ------------------------------------------------------------------ agreement of the stores

  /** One customer row and the router's line of that name say the same. */
  predicate SameAccess(customer: Customer, line: Option<Entry>) {
    line.Some? && line.value.password == customer.password && line.value.enabled == customer.active
  }

  /** Every customer row has exactly one router user of its name, with its password, enabled
    exactly when the row is active. */
  predicate Agrees(customers: map<Key, Customer>, device: seq<Entry>) {
    && UniqueNames(device)
    && forall key | key in customers :: SameAccess(customers[key], Lookup(device, key))
  }

  /** Provisioning on the router and writing the row. */
  lemma ProvisionAgrees(customers: map<Key, Customer>, device: seq<Entry>, up: bool, e: Entry, replace: bool,
                        c: Customer)
    requires Agrees(customers, device) && Upsert(device, up, e, replace).Some?
    requires c.password == e.password && c.active == e.enabled
    ensures Agrees(customers[e.key := c], Upsert(device, up, e, replace).value)
  {
    hide Upsert, UniqueNames, Lookup;
    var after := Upsert(device, up, e, replace).value;
    LookupAfterUpsert(device, up, e, replace, e.key);
    forall key | key in customers[e.key := c] ensures SameAccess(customers[e.key := c][key], Lookup(after, key)) {
      LookupAfterUpsert(device, up, e, replace, key);
    }
  }

  lemma EnableAgrees(customers: map<Key, Customer>, device: seq<Entry>, up: bool, key: Key, enabled: bool)
    requires Agrees(customers, device) && key in customers && SetEnabled(device, up, key, enabled).Some?
    ensures Agrees(customers[key := customers[key].(active := enabled)], SetEnabled(device, up, key, enabled).value)
  {
    hide SetEnabled, UniqueNames, Lookup;
    var after := SetEnabled(device, up, key, enabled).value;
    var rows := customers[key := customers[key].(active := enabled)];
    LookupAfterSet(device, up, key, enabled, key);
    forall k | k in rows ensures SameAccess(rows[k], Lookup(after, k)) {
      LookupAfterSet(device, up, key, enabled, k);
    }
  }

  lemma DeleteAgrees(customers: map<Key, Customer>, device: seq<Entry>, up: bool, key: Key)
    requires Agrees(customers, device) && Delete(device, up, key).Some?
    ensures Agrees(customers - {key}, Delete(device, up, key).value)
  {
    hide UniqueNames, Lookup, Without;
    WithoutMembers(device, key);
    forall k | k in customers - {key} ensures SameAccess(customers[k], Lookup(Without(device, key), k)) {
      WithoutKeepsOthers(device, key, k);
    }
  }

  /** Rewriting a row without touching password or state. */
  lemma RowUpdateAgrees(customers: map<Key, Customer>, device: seq<Entry>, key: Key, c: Customer)
    requires Agrees(customers, device) && key in customers
    requires c.password == customers[key].password && c.active == customers[key].active
    ensures Agrees(customers[key := c], device)
  {
    hide UniqueNames, Lookup;
  }
}
