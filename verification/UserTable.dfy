/** The user tables of the routers, changed in place by the calls of services/mikrotik_service.py.
  `up` says whether the router could be reached; a call that raises changes nothing. */
module UserTables {
  import opened Text
  import opened AccessTables

  class UserTable {
    var lines: seq<Entry>

    constructor (lines: seq<Entry>)
      ensures this.lines == lines
    {
      this.lines := lines;
    }

    /** The first line with this name, as `existing[0]` and `rows[0]`. */
    method FindUser(key: Key) returns (at: Option<nat>)
      ensures at == Find(lines, key)
    {
      var i := 0;
      while i < |lines|
        invariant i <= |lines|
        invariant forall j | 0 <= j < i :: lines[j].key != key
      {
        if lines[i].key == key {
          return Some(i);
        }
        i := i + 1;
      }
      at := None;
    }

    /** `_upsert_router_user` and the body of `provision_pppoe_access`. */
    method UpsertUser(up: bool, e: Entry, replaceExisting: bool) returns (done: bool)
      modifies this
      ensures done == Upsert(old(lines), up, e, replaceExisting).Some?
      ensures lines == if done then Upsert(old(lines), up, e, replaceExisting).value else old(lines)
    {
      if !up {
        return false;
      }
      var existing := FindUser(e.key);
      match existing
      case Some(i) =>
        if !replaceExisting {
          return false;
        }
        // An update names the fields it sets: without a duration the old limit stays.
        var line := lines[i].(password := e.password, profile := e.profile, enabled := e.enabled);
        if e.limit.Some? {
          line := line.(limit := e.limit);
        }
        lines := lines[i := line];
        done := true;
      case None =>
        lines := lines + [e];
        done := true;
    }

    /** `set_hotspot_enabled` and `set_pppoe_enabled`. */
    method SetUserEnabled(up: bool, key: Key, enabled: bool) returns (done: bool)
      modifies this
      ensures done == SetEnabled(old(lines), up, key, enabled).Some?
      ensures lines == if done then SetEnabled(old(lines), up, key, enabled).value else old(lines)
    {
      if !up {
        return false;
      }
      var existing := FindUser(key);
      match existing
      case Some(i) =>
        lines := lines[i := lines[i].(enabled := enabled)];
        done := true;
      case None =>
        done := false;
    }

    /** `delete_hotspot_access` and `delete_pppoe_access`: every line of the name goes. */
    method DeleteUser(up: bool, key: Key) returns (done: bool)
      modifies this
      ensures done == up
      ensures lines == if up then Without(old(lines), key) else old(lines)
    {
      if !up {
        return false;
      }
      var i := 0;
      assert lines[..i] == [] && lines[i..] == lines;
      while i < |lines|
        invariant i <= |lines|
        invariant lines[..i] + Without(lines[i..], key) == Without(old(lines), key)
        decreases |lines| - i
      {
        var rest := lines[i..];
        assert Without(rest, key) == (if rest[0].key == key then [] else [rest[0]]) + Without(rest[1..], key);
        if lines[i].key == key {
          assert (lines[..i] + lines[i + 1..])[i..] == rest[1..] && (lines[..i] + lines[i + 1..])[..i] == lines[..i];
          lines := lines[..i] + lines[i + 1..];
        } else {
          assert lines[..i + 1] == lines[..i] + [rest[0]] && lines[i + 1..] == rest[1..];
          i := i + 1;
        }
      }
      assert lines[..i] == lines && lines[i..] == [];
      done := true;
    }
  }
}
