/** The failed-login counter and the temporary lock of `_authenticate` in mono.py, as methods on
  the account row, and the bound they put on guessing. Times are in seconds. */
module LoginLock {
  import opened Text

  const TRIES: nat := 5
  const LOCK_SECONDS: int := 900

  /** The columns of an admin user that a login reads or writes. */
  datatype User = User(active: bool, failures: nat, lockedUntil: Option<int>, lastLogin: Option<int>)

  /** The password check's answer is an input. */
  datatype Attempt = Attempt(now: int, valid: bool)

  datatype Outcome = Locked | WrongPassword | Disabled | LoggedIn

  function Login(u: User, a: Attempt): (User, Outcome) {
    if u.lockedUntil.Some? && u.lockedUntil.value > a.now && !a.valid then (u, Locked)
    else if !a.valid then
      if u.failures + 1 >= TRIES then (u.(failures := 0, lockedUntil := Some(a.now + LOCK_SECONDS)), WrongPassword)
      else (u.(failures := u.failures + 1), WrongPassword)
    else if !u.active then (u, Disabled)
    else (u.(failures := 0, lockedUntil := None, lastLogin := Some(a.now)), LoggedIn)
  }

  class Account {
    var active: bool
    var failedLoginCount: nat
    var lockedUntil: Option<int>
    var lastLoginAt: Option<int>

    ghost function Row(): User
      reads this
    {
      User(active, failedLoginCount, lockedUntil, lastLoginAt)
    }

    constructor ()
      ensures Row() == User(true, 0, None, None)
    {
      active, failedLoginCount, lockedUntil, lastLoginAt := true, 0, None, None;
    }

    method Authenticate(now: int, valid: bool) returns (outcome: Outcome)
      modifies this
      ensures (Row(), outcome) == Login(old(Row()), Attempt(now, valid))
    {
      if lockedUntil.Some? && lockedUntil.value > now && !valid {
        return Locked;
      }
      if !valid {
        failedLoginCount := failedLoginCount + 1;
        if failedLoginCount >= TRIES {
          lockedUntil := Some(now + LOCK_SECONDS);
          failedLoginCount := 0;
        }
        return WrongPassword;
      }
      if !active {
        return Disabled;
      }
      failedLoginCount := 0;
      lockedUntil := None;
      lastLoginAt := Some(now);
      outcome := LoggedIn;
    }
  }

  // ------------------------------------------------------------------ runs

  predicate Ordered(attempts: seq<Attempt>) {
    forall i, j | 0 <= i < j < |attempts| :: attempts[i].now <= attempts[j].now
  }

  /** No attempt of the run logs in. */
  predicate NoLogin(active: bool, attempts: seq<Attempt>) {
    forall a | a in attempts :: !(a.valid && active)
  }

  function After(u: User, attempts: seq<Attempt>): User
    decreases |attempts|
  {
    if attempts == [] then u else After(Login(u, attempts[0]).0, attempts[1..])
  }

  /** The times at which a wrong password was taken and counted. */
  function Counted(u: User, attempts: seq<Attempt>): seq<int>
    decreases |attempts|
  {
    if attempts == [] then []
    else
      var (v, outcome) := Login(u, attempts[0]);
      (if outcome.WrongPassword? then [attempts[0].now] else []) + Counted(v, attempts[1..])
  }

  /** How many of the times lie in [from, from + 900). */
  function Within(times: seq<int>, from: int): nat {
    if times == [] then 0 else (if from <= times[0] < from + 900 then 1 else 0) + Within(times[1..], from)
  }

  lemma WithinCons(t: int, times: seq<int>, from: int)
    ensures Within([t] + times, from) == (if from <= t < from + 900 then 1 else 0) + Within(times, from)
  {
    assert ([t] + times)[1..] == times;
  }

  lemma {:induction false} NoneWithin(times: seq<int>, from: int)
    requires forall t | t in times :: t >= from + 900
    ensures Within(times, from) == 0
  {
    if times != [] {
      assert times[0] in times;
      assert forall t | t in times[1..] :: t in times;
      NoneWithin(times[1..], from);
    }
  }

  lemma Tail(active: bool, attempts: seq<Attempt>)
    requires attempts != [] && Ordered(attempts) && NoLogin(active, attempts)
    ensures Ordered(attempts[1..]) && NoLogin(active, attempts[1..])
    ensures forall a | a in attempts[1..] :: a.now >= attempts[0].now
    ensures !(attempts[0].valid && active)
  {
    assert attempts[0] in attempts;
    forall a | a in attempts[1..] ensures a.now >= attempts[0].now {
      var i :| 0 <= i < |attempts| - 1 && attempts[1..][i] == a;
      assert attempts[i + 1] == a;
    }
  }

  /** Nothing is counted before its attempt, nor while the lock holds. */
  lemma {:induction false} CountedIsLate(u: User, attempts: seq<Attempt>, earliest: int)
    requires Ordered(attempts) && NoLogin(u.active, attempts)
    requires forall a | a in attempts :: a.now >= earliest
    ensures forall t | t in Counted(u, attempts) :: t >= earliest && (u.lockedUntil.Some? ==> t >= u.lockedUntil.value)
    decreases |attempts|
  {
    if attempts != [] {
      Tail(u.active, attempts);
      assert attempts[0] in attempts;
      CountedIsLate(Login(u, attempts[0]).0, attempts[1..], earliest);
    }
  }

  /** Once a window has begun it still holds at most as many as the counter lacks. */
  lemma {:induction false} OpenWindow(u: User, attempts: seq<Attempt>, from: int)
    requires u.failures < 5 && Ordered(attempts) && NoLogin(u.active, attempts)
    requires forall a | a in attempts :: a.now >= from
    ensures Within(Counted(u, attempts), from) <= 5 - u.failures
    decreases |attempts|
  {
    if attempts != [] {
      var head, rest := attempts[0], attempts[1..];
      var (v, outcome) := Login(u, head);
      Tail(u.active, attempts);
      assert head in attempts;
      if outcome.WrongPassword? {
        WithinCons(head.now, Counted(v, rest), from);
        if u.failures + 1 >= 5 || head.now >= from + 900 {
          CountedIsLate(v, rest, head.now);
          NoneWithin(Counted(v, rest), from);
        } else {
          OpenWindow(v, rest, from);
        }
      } else {
        OpenWindow(v, rest, from);
        assert [] + Counted(v, rest) == Counted(v, rest);
      }
    }
  }

  /** With attempts in order and no successful login, the counter stays from 0 to 4, and no
    half-open window of fifteen minutes holds more than five counted wrong passwords. */
  lemma {:induction false} GuessingIsBounded(u: User, attempts: seq<Attempt>, from: int)
    requires u.failures < 5 && Ordered(attempts) && NoLogin(u.active, attempts)
    ensures After(u, attempts).failures < 5
    ensures Within(Counted(u, attempts), from) <= 5
    decreases |attempts|
  {
    if attempts != [] {
      var head, rest := attempts[0], attempts[1..];
      var (v, outcome) := Login(u, head);
      Tail(u.active, attempts);
      GuessingIsBounded(v, rest, from);
      if head.now >= from {
        assert forall a | a in attempts :: a == head || a in rest;
        OpenWindow(u, attempts, from);
      } else if outcome.WrongPassword? {
        WithinCons(head.now, Counted(v, rest), from);
      } else {
        assert [] + Counted(v, rest) == Counted(v, rest);
      }
    }
  }

  /** The window must be half-open: five wrong passwords and a sixth as the lock ends. */
  lemma ClosedWindowHoldsSix(u: User)
    requires u.failures == 0 && u.lockedUntil.None?
    ensures
      var wrong := Attempt(0, false);
      Counted(u, [wrong, wrong, wrong, wrong, wrong, Attempt(900, false)]) == [0, 0, 0, 0, 0, 900]
  {
    var wrong := Attempt(0, false);
    CountsOneMore(u, wrong, [wrong, wrong, wrong, wrong, Attempt(900, false)]);
    CountsOneMore(u.(failures := 1), wrong, [wrong, wrong, wrong, Attempt(900, false)]);
    CountsOneMore(u.(failures := 2), wrong, [wrong, wrong, Attempt(900, false)]);
    CountsOneMore(u.(failures := 3), wrong, [wrong, Attempt(900, false)]);
    CountsOneMore(u.(failures := 4), wrong, [Attempt(900, false)]);
    CountsOneMore(u.(lockedUntil := Some(900)), Attempt(900, false), []);
  }

  lemma CountsOneMore(u: User, a: Attempt, rest: seq<Attempt>)
    ensures Counted(u, [a] + rest)
            == (if Login(u, a).1.WrongPassword? then [a.now] else []) + Counted(Login(u, a).0, rest)
  {
    assert ([a] + rest)[1..] == rest;
  }

  // ------------------------------------------------------------------ what a lock does, and does not

  function Wrong(times: seq<int>): seq<Attempt> {
    seq(|times|, i requires 0 <= i < |times| => Attempt(times[i], false))
  }

  lemma {:induction false} FewWrongCount(u: User, times: seq<int>)
    requires u.lockedUntil.None? && u.failures + |times| <= 4
    ensures After(u, Wrong(times)) == u.(failures := u.failures + |times|)
    decreases |times|
  {
    if times != [] {
      assert Wrong(times)[0] == Attempt(times[0], false) && Wrong(times)[1..] == Wrong(times[1..]);
      FewWrongCount(u.(failures := u.failures + 1), times[1..]);
    }
  }

  lemma {:induction false} AfterAppend(u: User, attempts: seq<Attempt>, last: Attempt)
    ensures After(u, attempts + [last]) == Login(After(u, attempts), last).0
    decreases |attempts|
  {
    hide Login;
    if attempts == [] {
      assert ([] + [last])[1..] == [];
    } else {
      assert (attempts + [last])[0] == attempts[0] && (attempts + [last])[1..] == attempts[1..] + [last];
      AfterAppend(Login(u, attempts[0]).0, attempts[1..], last);
    }
  }

  /** From a clean account, four wrong passwords lock nothing; the fifth locks it for 15 minutes,
    during which wrong passwords are turned away unread and after which they count from one again. */
  lemma FifthWrongLocks(u: User, times: seq<int>, fifth: int, now: int)
    requires u.lockedUntil.None? && u.failures == 0 && |times| == 4
    ensures
      var four := After(u, Wrong(times));
      var five := After(u, Wrong(times) + [Attempt(fifth, false)]);
      && Login(four, Attempt(now, false)).1.WrongPassword?
      && five == u.(failures := 0, lockedUntil := Some(fifth + 15 * 60))
      && Login(five, Attempt(now, false))
         == if now < fifth + 15 * 60 then (five, Locked) else (five.(failures := 1), WrongPassword)
  {
    FewWrongCount(u, times);
    AfterAppend(u, Wrong(times), Attempt(fifth, false));
  }

  lemma {:induction false} ActiveStays(u: User, attempts: seq<Attempt>)
    ensures After(u, attempts).active == u.active
    decreases |attempts|
  {
    if attempts != [] {
      ActiveStays(Login(u, attempts[0]).0, attempts[1..]);
    }
  }

  /** Whatever anyone has tried before, locked or not: the right password gets an active operator in
    and clears counter and lock; it does nothing for one who is disabled; and no wrong one gets in. */
  lemma LockNeverKeepsTheOperatorOut(u: User, attempts: seq<Attempt>, now: int)
    ensures
      var v := After(u, attempts);
      && Login(v, Attempt(now, true))
         == (if u.active then (User(true, 0, None, Some(now)), LoggedIn) else (v, Disabled))
      && !Login(v, Attempt(now, false)).1.LoggedIn?
      && Login(v, Attempt(now, false)).0.lastLogin == v.lastLogin
  {
    hide After;
    ActiveStays(u, attempts);
  }
}
