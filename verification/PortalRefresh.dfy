/** `_refresh_managed_hotspot_login` in services/mikrotik_service.py: which files on a router are
  replaced by the portal page, and which never are. Ids of files on one router are unique. */
module PortalRefresh {
  import opened Text

  /** `disabled` is what `_routeros_disabled` makes of the row. */
  datatype Server = Server(disabled: bool, profile: string)

  datatype Profile = Profile(name: string, directory: string, overriding: string)

  /** A file of the router; "" stands for a field the row lacks. */
  datatype File = File(id: string, name: string, contents: string)

  // ------------------------------------------------------------------ strings

  predicate Contains(s: string, part: string)
    decreases |s|
  {
    part <= s || (s != "" && Contains(s[1..], part))
  }

  /** `rstrip("/")`. */
  function WithoutSlashes(s: string): string {
    if s != "" && s[|s| - 1] == '/' then WithoutSlashes(s[..|s| - 1]) else s
  }

  /** `s.split("-")[0]` */
  function BeforeHyphen(s: string): string {
    if s == "" || s[0] == '-' then "" else [s[0]] + BeforeHyphen(s[1..])
  }

  /** How directories of the older kind end. */
  function LegacySuffix(routerUid: string): string { "-uzanet-" + BeforeHyphen(routerUid) }

  const MARKER: string := "uzanet-managed-portal"

  lemma {:induction false} ContainsMiddle(a: string, part: string, b: string)
    ensures Contains(a + part + b, part)
  {
    var s := a + part + b;
    if a == "" {
      assert s == part + b && part <= s;
    } else {
      assert s[1..] == a[1..] + part + b;
      ContainsMiddle(a[1..], part, b);
    }
  }

  // ------------------------------------------------------------------ which files are chosen

  /** The last row of a name, as in a dictionary built from the rows. */
  function FindProfile(profiles: seq<Profile>, name: string): Option<Profile> {
    if profiles == [] then None
    else
      var last := profiles[|profiles| - 1];
      if last.name == name && name != "" then Some(last) else FindProfile(profiles[..|profiles| - 1], name)
  }

  function FindFile(files: seq<File>, name: string): (i: Option<nat>)
    ensures i.Some? ==> i.value < |files| && files[i.value].name == name
  {
    if files == [] then None
    else if files[|files| - 1].name == name && name != "" then Some(|files| - 1)
    else FindFile(files[..|files| - 1], name)
  }

  /** The directory a server's pages come from. */
  function SourceDirectory(p: Profile): string {
    var base := WithoutSlashes(if p.directory == "" then "hotspot" else p.directory);
    var over := WithoutSlashes(p.overriding);
    if over != "" then over else base
  }

  function LoginPath(dir: string): string { dir + "/login.html" }

  /** The page's owner is known: a backup beside it, a directory of the older kind, or the marker
    in it. */
  predicate ProvesOwnership(files: seq<File>, dir: string, suffix: string, login: File) {
    FindFile(files, dir + "/login-pre-uzanet.txt").Some? || Contains(dir, suffix) || Contains(login.contents, MARKER)
  }

  /** The id of the file to replace for one server, if any. */
  function Target(server: Server, profiles: seq<Profile>, files: seq<File>, suffix: string): Option<string> {
    if server.disabled then None
    else match FindProfile(profiles, server.profile)
         case None => None
         case Some(p) =>
           var dir := SourceDirectory(p);
           match FindFile(files, LoginPath(dir))
           case None => None
           case Some(i) =>
             if files[i].id != "" && ProvesOwnership(files, dir, suffix, files[i]) then Some(files[i].id) else None
  }

  /** The ids chosen, each once, in the order of the servers. */
  function Targets(servers: seq<Server>, profiles: seq<Profile>, files: seq<File>, suffix: string): seq<string> {
    if servers == [] then []
    else
      var ids := Targets(servers[..|servers| - 1], profiles, files, suffix);
      match Target(servers[|servers| - 1], profiles, files, suffix)
      case Some(id) => if id in ids then ids else ids + [id]
      case None => ids
  }

  /** The files after the page was written to those ids. */
  function Pushed(files: seq<File>, ids: seq<string>, html: string): (r: seq<File>)
    ensures |r| == |files|
    ensures forall i | 0 <= i < |files| :: r[i] == if files[i].id in ids then files[i].(contents := html) else files[i]
  {
    if files == [] then []
    else
      var n := |files| - 1;
      Pushed(files[..n], ids, html) + [if files[n].id in ids then files[n].(contents := html) else files[n]]
  }

  // ------------------------------------------------------------------ the router call

  datatype Refresh = NoServer | NoManagedPage | Rejected | Refreshed(count: nat)

  class RouterFiles {
    var files: seq<File>

    constructor (files: seq<File>)
      ensures this.files == files
    {
      this.files := files;
    }

    /** One `update` of the file resource. */
    method Update(id: string, html: string)
      modifies this
      ensures files == Pushed(old(files), [id], html)
    {
      ghost var before := files;
      var i := 0;
      while i < |files|
        invariant i <= |files| == |before|
        invariant forall j | 0 <= j < i ::
                    files[j] == if before[j].id == id then before[j].(contents := html) else before[j]
        invariant forall j | i <= j < |before| :: files[j] == before[j]
      {
        if files[i].id == id {
          files := files[i := files[i].(contents := html)];
        }
        i := i + 1;
      }
      assert files == Pushed(before, [id], html);
    }

    /** The loop that collects the targets, and whether any server was enabled. */
    method CollectTargets(servers: seq<Server>, profiles: seq<Profile>, suffix: string)
      returns (targets: seq<string>, enabled: bool)
      ensures targets == Targets(servers, profiles, files, suffix)
      ensures !enabled <==> forall j | 0 <= j < |servers| :: servers[j].disabled
    {
      hide Target;
      targets, enabled := [], false;
      var i := 0;
      while i < |servers|
        invariant i <= |servers|
        invariant targets == Targets(servers[..i], profiles, files, suffix)
        invariant !enabled <==> forall j | 0 <= j < i :: servers[j].disabled
      {
        assert servers[..i + 1][..i] == servers[..i];
        if !servers[i].disabled {
          enabled := true;
        }
        var target := Target(servers[i], profiles, files, suffix);
        if target.Some? && target.value !in targets {
          targets := targets + [target.value];
        }
        i := i + 1;
      }
      assert servers[..i] == servers;
    }

    /** The loop that writes the page; `accepted` is how many updates the router takes before it
      rejects one. */
    method PushPages(targets: seq<string>, html: string, accepted: nat) returns (done: bool)
      modifies this
      ensures files == Pushed(old(files), if accepted < |targets| then targets[..accepted] else targets, html)
      ensures done <==> accepted >= |targets|
    {
      hide Pushed;
      ghost var before := files;
      PushNothing(before, html);
      var i := 0;
      while i < |targets|
        invariant i <= |targets| && i <= accepted
        invariant files == Pushed(before, targets[..i], html)
      {
        if i == accepted {
          return false;
        }
        Update(targets[i], html);
        PushTwice(before, targets[..i], [targets[i]], html);
        assert targets[..i + 1] == targets[..i] + [targets[i]];
        i := i + 1;
      }
      assert targets[..i] == targets;
      done := true;
    }

    method RefreshManagedLogin(servers: seq<Server>, profiles: seq<Profile>, routerUid: string, html: string,
                               accepted: nat)
      returns (result: Refresh)
      modifies this
      ensures
        var ids := Targets(servers, profiles, old(files), LegacySuffix(routerUid));
        && files == Pushed(old(files), if accepted < |ids| then ids[..accepted] else ids, html)
        && (result.NoServer? <==> forall i | 0 <= i < |servers| :: servers[i].disabled)
        && (result.NoManagedPage? <==> !result.NoServer? && ids == [])
        && (result.Rejected? <==> accepted < |ids|)
        && (result.Refreshed? ==> result.count == |ids|)
    {
      hide Pushed, Targets;
      var suffix := LegacySuffix(routerUid);
      var targets, enabled := CollectTargets(servers, profiles, suffix);
      PushNothing(files, html);
      if !enabled {
        NoServerNoTarget(servers, profiles, files, suffix);
        return NoServer;
      }
      if targets == [] {
        return NoManagedPage;
      }
      var done := PushPages(targets, html, accepted);
      result := if done then Refreshed(|targets|) else Rejected;
    }
  }

  lemma PushNothing(files: seq<File>, html: string)
    ensures Pushed(files, [], html) == files
  {
    assert |Pushed(files, [], html)| == |files|;
  }

  lemma PushTwice(files: seq<File>, a: seq<string>, b: seq<string>, html: string)
    ensures Pushed(Pushed(files, a, html), b, html) == Pushed(files, a + b, html)
  {
    var once := Pushed(files, a, html);
    forall i | 0 <= i < |files| ensures Pushed(once, b, html)[i] == Pushed(files, a + b, html)[i] {
    }
  }

  lemma {:induction false} NoServerNoTarget(servers: seq<Server>, profiles: seq<Profile>, files: seq<File>,
                                            suffix: string)
    requires forall i | 0 <= i < |servers| :: servers[i].disabled
    ensures Targets(servers, profiles, files, suffix) == []
  {
    if servers != [] {
      NoServerNoTarget(servers[..|servers| - 1], profiles, files, suffix);
    }
  }

  // ------------------------------------------------------------------ main results

  predicate UniqueIds(files: seq<File>) {
    forall i, j | 0 <= i < j < |files| :: files[i].id != "" ==> files[i].id != files[j].id
  }

  /** File `f` is the login page of an enabled server and shows who owns it. */
  predicate ManagedLogin(servers: seq<Server>, profiles: seq<Profile>, files: seq<File>, suffix: string, f: nat)
    requires f < |files|
  {
    exists k | 0 <= k < |servers| ::
      && !servers[k].disabled && FindProfile(profiles, servers[k].profile).Some?
      && var dir := SourceDirectory(FindProfile(profiles, servers[k].profile).value);
         FindFile(files, LoginPath(dir)) == Some(f) && files[f].id != ""
         && ProvesOwnership(files, dir, suffix, files[f])
  }

  lemma {:induction false} TargetsAre(servers: seq<Server>, profiles: seq<Profile>, files: seq<File>, suffix: string,
                                      id: string)
    ensures id in Targets(servers, profiles, files, suffix)
            <==> exists k | 0 <= k < |servers| :: Target(servers[k], profiles, files, suffix) == Some(id)
  {
    hide Target;
    if servers != [] {
      var n := |servers| - 1;
      TargetsAre(servers[..n], profiles, files, suffix, id);
      assert forall k | 0 <= k < n :: servers[..n][k] == servers[k];
    }
  }

  /** A refresh writes the page to exactly the login pages of enabled servers that show their
    owner; every other file stays as it was, and no file is added, removed or renamed. */
  lemma RefreshTouchesExactlyManagedPages(servers: seq<Server>, profiles: seq<Profile>, files: seq<File>,
                                          suffix: string, html: string, f: nat)
    requires UniqueIds(files) && f < |files|
    ensures
      var after := Pushed(files, Targets(servers, profiles, files, suffix), html);
      && |after| == |files|
      && after[f] == if ManagedLogin(servers, profiles, files, suffix, f) then files[f].(contents := html) else files[f]
  {
    hide FindFile, FindProfile, SourceDirectory, ProvesOwnership, LoginPath, Targets;
    TargetsAre(servers, profiles, files, suffix, files[f].id);
    if ManagedLogin(servers, profiles, files, suffix, f) {
      var k :| 0 <= k < |servers| && !servers[k].disabled && FindProfile(profiles, servers[k].profile).Some?
        && FindFile(files, LoginPath(SourceDirectory(FindProfile(profiles, servers[k].profile).value))) == Some(f)
        && files[f].id != ""
        && ProvesOwnership(files, SourceDirectory(FindProfile(profiles, servers[k].profile).value), suffix, files[f]);
      assert Target(servers[k], profiles, files, suffix) == Some(files[f].id);
    }
  }

  lemma {:induction false} SameNamesSameFile(a: seq<File>, b: seq<File>, name: string)
    requires |a| == |b| && forall i | 0 <= i < |a| :: a[i].name == b[i].name
    ensures FindFile(a, name) == FindFile(b, name)
  {
    if a != [] {
      SameNamesSameFile(a[..|a| - 1], b[..|b| - 1], name);
    }
  }

  lemma TargetAfterPush(server: Server, profiles: seq<Profile>, files: seq<File>, suffix: string, ids: seq<string>,
                        html: string)
    requires Contains(html, MARKER)
    requires forall f | 0 <= f < |files| && files[f].id in ids && files[f].id != "" ::
               KeptBy(server, profiles, files, suffix, f)
    ensures Target(server, profiles, Pushed(files, ids, html), suffix) == Target(server, profiles, files, suffix)
  {
    hide Contains, FindFile, SourceDirectory, FindProfile;
    var after := Pushed(files, ids, html);
    forall name ensures FindFile(after, name) == FindFile(files, name) {
      SameNamesSameFile(after, files, name);
    }
  }

  /** If this server's page is file `f`, the server chooses it. */
  predicate KeptBy(server: Server, profiles: seq<Profile>, files: seq<File>, suffix: string, f: nat)
    requires f < |files|
  {
    !server.disabled && FindProfile(profiles, server.profile).Some?
    && FindFile(files, LoginPath(SourceDirectory(FindProfile(profiles, server.profile).value))) == Some(f)
    ==> Target(server, profiles, files, suffix).Some?
  }

  lemma LoginPathIsInjective(a: string, b: string)
    requires LoginPath(a) == LoginPath(b)
    ensures a == b
  {
    assert LoginPath(a)[..|LoginPath(a)| - 11] == a && LoginPath(b)[..|LoginPath(b)| - 11] == b;
  }

  /** Servers that share a login page share its directory, and so the proof of its owner. */
  lemma TargetsAreKept(servers: seq<Server>, profiles: seq<Profile>, files: seq<File>, suffix: string, server: Server,
                       f: nat)
    requires UniqueIds(files) && f < |files| && files[f].id != ""
    requires files[f].id in Targets(servers, profiles, files, suffix)
    ensures KeptBy(server, profiles, files, suffix, f)
  {
    hide FindProfile, SourceDirectory, Contains, Targets, LoginPath;
    TargetsAre(servers, profiles, files, suffix, files[f].id);
    var k :| 0 <= k < |servers| && Target(servers[k], profiles, files, suffix) == Some(files[f].id);
    var dir := SourceDirectory(FindProfile(profiles, servers[k].profile).value);
    assert FindFile(files, LoginPath(dir)) == Some(f);
    if !server.disabled && FindProfile(profiles, server.profile).Some? {
      var other := SourceDirectory(FindProfile(profiles, server.profile).value);
      if FindFile(files, LoginPath(other)) == Some(f) {
        LoginPathIsInjective(dir, other);
      }
    }
  }

  lemma {:induction false} SameTargets(servers: seq<Server>, profiles: seq<Profile>, a: seq<File>, b: seq<File>,
                                       suffix: string)
    requires forall k | 0 <= k < |servers| ::
               Target(servers[k], profiles, a, suffix) == Target(servers[k], profiles, b, suffix)
    ensures Targets(servers, profiles, a, suffix) == Targets(servers, profiles, b, suffix)
  {
    hide Target;
    if servers != [] {
      var n := |servers| - 1;
      assert forall k | 0 <= k < n :: servers[..n][k] == servers[k];
      SameTargets(servers[..n], profiles, a, b, suffix);
    }
  }

  lemma PushOver(files: seq<File>, part: seq<string>, ids: seq<string>, html: string, next: string)
    requires forall id | id in part :: id in ids
    ensures Pushed(Pushed(files, part, html), ids, next) == Pushed(files, ids, next)
  {
    var both, once := Pushed(Pushed(files, part, html), ids, next), Pushed(files, ids, next);
    forall i | 0 <= i < |files| ensures both[i] == once[i] {
    }
  }

  /** After a refresh with `html`, complete or cut short after `accepted` files, a second one
    chooses exactly the same files; whatever page it writes, it leaves the files as if it had been
    the only one. */
  ghost predicate Repeats(servers: seq<Server>, profiles: seq<Profile>, files: seq<File>, suffix: string,
                          html: string, accepted: nat, next: string) {
    var ids := Targets(servers, profiles, files, suffix);
    var first := Pushed(files, if accepted < |ids| then ids[..accepted] else ids, html);
    && Targets(servers, profiles, first, suffix) == ids
    && Pushed(first, ids, next) == Pushed(files, ids, next)
  }

  /** That is so on every router, wherever a first refresh stopped. */
  ghost predicate Repeatable(html: string) {
    forall servers, profiles, files, suffix, accepted, next ::
      UniqueIds(files) ==> Repeats(servers, profiles, files, suffix, html, accepted, next)
  }

  lemma RefreshIsIdempotent(servers: seq<Server>, profiles: seq<Profile>, files: seq<File>, suffix: string,
                            html: string, accepted: nat, next: string)
    requires UniqueIds(files) && Contains(html, MARKER)
    ensures Repeats(servers, profiles, files, suffix, html, accepted, next)
  {
    hide FindProfile, FindFile, SourceDirectory, Contains, Targets, Target, KeptBy;
    var ids := Targets(servers, profiles, files, suffix);
    var part := if accepted < |ids| then ids[..accepted] else ids;
    var first := Pushed(files, part, html);
    assert forall id | id in part :: id in ids;
    forall k | 0 <= k < |servers|
      ensures Target(servers[k], profiles, first, suffix) == Target(servers[k], profiles, files, suffix)
    {
      forall f | 0 <= f < |files| && files[f].id in part && files[f].id != ""
        ensures KeptBy(servers[k], profiles, files, suffix, f)
      {
        TargetsAreKept(servers, profiles, files, suffix, servers[k], f);
      }
      TargetAfterPush(servers[k], profiles, files, suffix, part, html);
    }
    SameTargets(servers, profiles, first, files, suffix);
    PushOver(files, part, ids, html, next);
  }

  lemma MarkedPagesRepeat(html: string)
    requires Contains(html, MARKER)
    ensures Repeatable(html)
  {
    hide Contains, Repeats;
    forall servers, profiles, files, suffix, accepted, next | UniqueIds(files)
      ensures Repeats(servers, profiles, files, suffix, html, accepted, next)
    {
      RefreshIsIdempotent(servers, profiles, files, suffix, html, accepted, next);
    }
  }
}
