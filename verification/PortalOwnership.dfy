/** Which file of a router the refresh may replace, said without the functions that choose it: by the
  text of names, directories and documents. */
module PortalOwnership {
  import opened Text
  import opened PortalRefresh

  /** `d` is `s` without the slashes at its end. */
  predicate Stripped(s: string, d: string) {
    d <= s && (d == "" || d[|d| - 1] != '/') && forall i | |d| <= i < |s| :: s[i] == '/'
  }

  /** The pages of the profile lie in `d`: in its override if that says anything but slashes, else in
    its own directory, "hotspot" if it names none. */
  predicate LiesIn(p: Profile, d: string) {
    if exists c | c in p.overriding :: c != '/' then Stripped(p.overriding, d)
    else Stripped(if p.directory == "" then "hotspot" else p.directory, d)
  }

  predicate At(s: string, part: string, i: nat) { i + |part| <= |s| && s[i..i + |part|] == part }

  /** `part` stands somewhere in `s`. */
  predicate Within(s: string, part: string) { exists i | 0 <= i <= |s| :: At(s, part, i) }

  /** The last row of a name, which is the one that counts. */
  predicate LastNamed(files: seq<File>, name: string, f: nat) {
    f < |files| && files[f].name == name && forall g | f < g < |files| :: files[g].name != name
  }

  predicate LastProfile(profiles: seq<Profile>, name: string, p: Profile) {
    exists j | 0 <= j < |profiles| ::
      profiles[j] == p && p.name == name && name != "" && forall i | j < i < |profiles| :: profiles[i].name != name
  }

  /** File `f` is the login page in this directory, and something there says it is the portal's: a
    backup of what it replaced, the directory's name, or the document itself. */
  predicate OwnPage(files: seq<File>, d: string, suffix: string, f: nat) {
    && LastNamed(files, d + "/login.html", f) && files[f].id != ""
    && ((exists g | 0 <= g < |files| :: files[g].name == d + "/login-pre-uzanet.txt")
        || Within(d, suffix) || Within(files[f].contents, "uzanet-managed-portal"))
  }

  /** File `f` is that page of an enabled server. */
  ghost predicate OwnLogin(servers: seq<Server>, profiles: seq<Profile>, files: seq<File>, suffix: string, f: nat) {
    exists k, p, d | 0 <= k < |servers| ::
      !servers[k].disabled && LastProfile(profiles, servers[k].profile, p) && LiesIn(p, d)
      && OwnPage(files, d, suffix, f)
  }

  // ------------------------------------------------------------------ the functions say the same

  lemma {:induction false} StrippedExactly(s: string, d: string)
    ensures Stripped(s, d) <==> WithoutSlashes(s) == d
  {
    if s != "" && s[|s| - 1] == '/' {
      var front := s[..|s| - 1];
      StrippedExactly(front, d);
      assert |d| == |s| && d <= s ==> d == s;
      assert d <= front ==> d <= s;
      assert d <= s && |d| < |s| ==> d <= front;
    } else {
      assert Stripped(s, d) ==> |d| == |s|;
      assert d <= s && |d| == |s| ==> d == s;
    }
  }

  lemma LiesInExactly(p: Profile, d: string)
    ensures LiesIn(p, d) <==> SourceDirectory(p) == d
  {
    hide WithoutSlashes;
    var over := p.overriding;
    StrippedExactly(over, d);
    StrippedExactly(over, "");
    StrippedExactly(if p.directory == "" then "hotspot" else p.directory, d);
    assert Stripped(over, "") <==> forall c | c in over :: c == '/' by {
      assert forall i | 0 <= i < |over| :: over[i] in over;
    }
  }

  lemma {:induction false} WithinExactly(s: string, part: string)
    ensures Within(s, part) <==> Contains(s, part)
  {
    if part <= s {
      assert At(s, part, 0);
    } else if s != "" {
      var rest := s[1..];
      WithinExactly(rest, part);
      if i :| 0 <= i <= |rest| && At(rest, part, i) {
        AtLater(s, part, i);
      }
      if i :| 0 <= i <= |s| && At(s, part, i) {
        assert At(s, part, 0) ==> part <= s;
        AtLater(s, part, i - 1);
      }
    }
  }

  lemma AtLater(s: string, part: string, i: nat)
    requires s != ""
    ensures At(s[1..], part, i) <==> At(s, part, i + 1)
  {
    if i + 1 + |part| <= |s| {
      assert s[1..][i..i + |part|] == s[i + 1..i + 1 + |part|];
    }
  }

  lemma {:induction false} LastNamedExactly(files: seq<File>, name: string, f: nat)
    requires name != ""
    ensures LastNamed(files, name, f) <==> FindFile(files, name) == Some(f)
    ensures (exists g | 0 <= g < |files| :: files[g].name == name) <==> FindFile(files, name).Some?
  {
    if files != [] {
      LastNamedExactly(files[..|files| - 1], name, f);
    }
  }

  lemma {:induction false} LastProfileExactly(profiles: seq<Profile>, name: string, p: Profile)
    ensures LastProfile(profiles, name, p) <==> FindProfile(profiles, name) == Some(p)
  {
    if profiles != [] {
      var n := |profiles| - 1;
      LastProfileExactly(profiles[..n], name, p);
      if profiles[n].name == name && name != "" {
        assert LastProfile(profiles, name, p) ==> p == profiles[n];
        assert profiles[n] == p ==> LastProfile(profiles, name, p);
      } else {
        if j :| 0 <= j < n && profiles[..n][j] == p && p.name == name && name != ""
                && forall i | j < i < n :: profiles[..n][i].name != name {
          assert profiles[j] == p;
        }
        if j :| 0 <= j < |profiles| && profiles[j] == p && p.name == name && name != ""
                && forall i | j < i < |profiles| :: profiles[i].name != name {
          assert j < n && profiles[..n][j] == p;
        }
      }
    }
  }

  lemma OwnPageExactly(files: seq<File>, d: string, suffix: string, f: nat)
    ensures OwnPage(files, d, suffix, f)
            <==> && FindFile(files, LoginPath(d)) == Some(f) && files[f].id != ""
                 && ProvesOwnership(files, d, suffix, files[f])
  {
    hide Contains, Within, FindFile, LastNamed;
    LastNamedExactly(files, d + "/login.html", f);
    LastNamedExactly(files, d + "/login-pre-uzanet.txt", f);
    WithinExactly(d, suffix);
    if f < |files| {
      WithinExactly(files[f].contents, "uzanet-managed-portal");
    }
  }

  lemma OwnLoginExactly(servers: seq<Server>, profiles: seq<Profile>, files: seq<File>, suffix: string, f: nat)
    requires f < |files|
    ensures OwnLogin(servers, profiles, files, suffix, f) <==> ManagedLogin(servers, profiles, files, suffix, f)
  {
    hide FindProfile, FindFile, SourceDirectory, ProvesOwnership, LoginPath, LastProfile, LiesIn, OwnPage;
    if k, p, d :| 0 <= k < |servers| && !servers[k].disabled && LastProfile(profiles, servers[k].profile, p)
                  && LiesIn(p, d) && OwnPage(files, d, suffix, f) {
      LastProfileExactly(profiles, servers[k].profile, p);
      LiesInExactly(p, d);
      OwnPageExactly(files, d, suffix, f);
    }
    if ManagedLogin(servers, profiles, files, suffix, f) {
      var k :| 0 <= k < |servers| && !servers[k].disabled && FindProfile(profiles, servers[k].profile).Some?
        && FindFile(files, LoginPath(SourceDirectory(FindProfile(profiles, servers[k].profile).value))) == Some(f)
        && files[f].id != ""
        && ProvesOwnership(files, SourceDirectory(FindProfile(profiles, servers[k].profile).value), suffix, files[f]);
      var p := FindProfile(profiles, servers[k].profile).value;
      LastProfileExactly(profiles, servers[k].profile, p);
      LiesInExactly(p, SourceDirectory(p));
      OwnPageExactly(files, SourceDirectory(p), suffix, f);
      assert OwnLogin(servers, profiles, files, suffix, f);
    }
  }

  // ------------------------------------------------------------------ main result

  lemma {:induction false} StopsAtHyphen(head: string, rest: string)
    requires forall i | 0 <= i < |head| :: head[i] != '-'
    ensures BeforeHyphen(head + "-" + rest) == head
  {
    if head == "" {
      assert (head + "-" + rest)[0] == '-';
    } else {
      assert (head + "-" + rest)[1..] == head[1..] + "-" + rest;
      StopsAtHyphen(head[1..], rest);
    }
  }

  /** A refresh replaces exactly the portal's own login pages of enabled servers, those in a directory
    named after the first part of the router's id among them, and leaves every other file. */
  lemma OwnPagesAreReplaced(servers: seq<Server>, profiles: seq<Profile>, files: seq<File>, head: string, rest: string,
                            html: string, f: nat)
    requires UniqueIds(files) && f < |files| && forall i | 0 <= i < |head| :: head[i] != '-'
    ensures
      var after := Pushed(files, Targets(servers, profiles, files, LegacySuffix(head + "-" + rest)), html);
      && |after| == |files|
      && after[f] == if OwnLogin(servers, profiles, files, "-uzanet-" + head, f) then files[f].(contents := html)
                     else files[f]
  {
    hide OwnLogin, ManagedLogin, Targets;
    StopsAtHyphen(head, rest);
    RefreshTouchesExactlyManagedPages(servers, profiles, files, "-uzanet-" + head, html, f);
    OwnLoginExactly(servers, profiles, files, "-uzanet-" + head, f);
  }
}
