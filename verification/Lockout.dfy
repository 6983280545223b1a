/** Account lockout: failed passwords, the lock they set, and how fast passwords can be tried. */
module Lockout {
  import opened Optional

  const MAX_FAILED := 5
  const LOCK_MS := 15 * 60 * 1000

  datatype Account = Account(failedLoginAttempts: nat, lockedUntil: Option<int>, lastLoginAt: Option<int>, loginCount: nat)

  const FRESH := Account(0, None, None, 0)

  predicate IsLocked(a: Account, now: int) {
    a.lockedUntil.Some? && a.lockedUntil.value > now
  }

  function AfterFailure(a: Account, now: int): Account {
    var failed := a.failedLoginAttempts + 1;
    a.(failedLoginAttempts := failed,
       lockedUntil := if failed >= MAX_FAILED then Some(now + LOCK_MS) else a.lockedUntil)
  }

  function AfterSuccess(a: Account, now: int): Account {
    Account(0, None, Some(now), a.loginCount + 1)
  }

  datatype Status = Active | Invited | Suspended | Deactivated

  predicate MayLogIn(status: Status) { status in {Active, Invited} }

  /** One login: the account's status, whether the password is right, and the times of the lock
      check, the comparison and the save. */
  datatype Attempt = Attempt(status: Status, correct: bool, tCheck: int, tCompare: int, tSave: int)

  datatype Outcome = Locked | Refused | WrongPassword | LoggedIn

  function Login(a: Account, l: Attempt): (Account, Outcome) {
    if IsLocked(a, l.tCheck) then (a, Locked)
    else if !MayLogIn(l.status) then (a, Refused)
    else if !l.correct then (AfterFailure(a, l.tSave), WrongPassword)
    else (AfterSuccess(a, l.tSave), LoggedIn)
  }

  /** The account with the times of the password comparisons and of the saves that followed them since
      its last successful login. */
  datatype History = History(account: Account, compared: seq<int>, saved: seq<int>, clock: int)

  const START := History(FRESH, [], [], 0)

  predicate Legal(h: History, l: Attempt) {
    h.clock <= l.tCheck <= l.tCompare <= l.tSave
  }

  function Next(h: History, l: Attempt): History {
    var (a, outcome) := Login(h.account, l);
    History(a,
            if outcome.LoggedIn? then []
            else if outcome.WrongPassword? then h.compared + [l.tCompare]
            else h.compared,
            if outcome.LoggedIn? then []
            else if outcome.WrongPassword? then h.saved + [l.tSave]
            else h.saved,
            l.tSave)
  }

  predicate Trace(h: History, ls: seq<Attempt>)
    decreases |ls|
  {
    ls == [] || (Legal(h, ls[0]) && Trace(Next(h, ls[0]), ls[1..]))
  }

  function Exec(h: History, ls: seq<Attempt>): History
    decreases |ls|
  {
    if ls == [] then h else Exec(Next(h, ls[0]), ls[1..])
  }

  ghost predicate HistoryOk(h: History) {
    && |h.compared| == |h.saved| == h.account.failedLoginAttempts
    && (h.account.lockedUntil == if |h.saved| >= 5 then Some(h.saved[|h.saved| - 1] + 900_000) else None)
    && (|h.saved| > 0 ==> h.compared[|h.saved| - 1] <= h.saved[|h.saved| - 1])
    && (|h.compared| > 0 ==> h.compared[|h.compared| - 1] <= h.clock)
    && (|h.compared| < MAX_FAILED ==> h.account.lockedUntil.None?)
    && (|h.compared| >= MAX_FAILED ==>
          h.account.lockedUntil.Some? && h.account.lockedUntil.value >= h.compared[|h.compared| - 1] + LOCK_MS)
    && (forall i | 1 <= i < |h.compared| ::
          h.compared[i] >= h.compared[i - 1] + if i >= MAX_FAILED then LOCK_MS else 0)
  }

  lemma {:induction false} NextOk(h: History, l: Attempt)
    requires HistoryOk(h) && Legal(h, l)
    ensures HistoryOk(Next(h, l))
  {
  }

  lemma {:induction false} ExecOk(h: History, ls: seq<Attempt>)
    requires HistoryOk(h) && Trace(h, ls)
    ensures HistoryOk(Exec(h, ls))
    decreases |ls|
  {
    if ls != [] {
      NextOk(h, ls[0]);
      ExecOk(Next(h, ls[0]), ls[1..]);
    }
  }

  lemma {:induction false} FifthOn(h: History, n: nat)
    requires HistoryOk(h) && MAX_FAILED <= n <= |h.compared|
    ensures h.compared[n - 1] >= h.compared[MAX_FAILED - 1] + (n - MAX_FAILED) * LOCK_MS
  {
    if n > MAX_FAILED {
      FifthOn(h, n - 1);
    }
  }

  /** However logins follow each other without a success, from the fifth wrong password on each
      further comparison costs fifteen minutes: n comparisons by time t_n obey
      n <= 5 + (t_n - t_5) / 900000. */
  lemma {:induction false} LockoutRate(ls: seq<Attempt>, n: nat)
    requires Trace(START, ls) && MAX_FAILED <= n <= |Exec(START, ls).compared|
    ensures var t := Exec(START, ls).compared;
            n <= 5 + (t[n - 1] - t[4]) / 900_000
  {
    ExecOk(START, ls);
    FifthOn(Exec(START, ls), n);
  }

  /** The lock does not start over: once five passwords have failed, one more wrong password after
      the lock has run out locks the account again. */
  lemma {:induction false} RelocksAtOnce(ls: seq<Attempt>, l: Attempt)
    requires Trace(START, ls) && Legal(Exec(START, ls), l)
    requires |Exec(START, ls).compared| >= MAX_FAILED
    ensures var (a, outcome) := Login(Exec(START, ls).account, l);
            outcome == WrongPassword ==> forall now :: IsLocked(a, now) <==> now < l.tSave + 900_000
  {
    ExecOk(START, ls);
  }

  /** What a login comes to after any sequence of logins: it is turned away as locked exactly within
      fifteen minutes of the last failure's save if at least five passwords have failed since the last
      success, then for its status, then for its password; only a wrong password or a success changes
      the account, and a success forgets every failure. */
  lemma {:induction false} LogsInIff(ls: seq<Attempt>, l: Attempt)
    requires Trace(START, ls) && Legal(Exec(START, ls), l)
    ensures var h := Exec(START, ls);
            var (a, outcome) := Login(h.account, l);
            var locked := |h.saved| >= 5 && l.tCheck < h.saved[|h.saved| - 1] + 900_000;
            var barred := l.status == Suspended || l.status == Deactivated;
            && (outcome == Locked <==> locked)
            && (outcome == Refused <==> !locked && barred)
            && (outcome == WrongPassword <==> !locked && !barred && !l.correct)
            && (outcome == LoggedIn <==> !locked && !barred && l.correct)
            && (outcome == Locked || outcome == Refused ==> a == h.account)
            && (outcome == WrongPassword ==> a.failedLoginAttempts == |h.saved| + 1 && a.loginCount == h.account.loginCount)
            && (outcome == LoggedIn ==> a == Account(0, None, Some(l.tSave), h.account.loginCount + 1))
  {
    ExecOk(START, ls);
  }

  class User {
    var failedLoginAttempts: nat
    var lockedUntil: Option<int>
    var lastLoginAt: Option<int>
    var loginCount: nat

    constructor ()
      ensures View() == FRESH
    {
      failedLoginAttempts, lockedUntil, lastLoginAt, loginCount := 0, None, None, 0;
    }

    function View(): Account
      reads this
    {
      Account(failedLoginAttempts, lockedUntil, lastLoginAt, loginCount)
    }

    method IncrementFailedLogin(now: int)
      modifies this
      ensures View() == AfterFailure(old(View()), now)
    {
      failedLoginAttempts := failedLoginAttempts + 1;
      if failedLoginAttempts >= MAX_FAILED {
        lockedUntil := Some(now + LOCK_MS);
      }
    }

    method ResetFailedLogin(now: int)
      modifies this
      ensures View() == AfterSuccess(old(View()), now)
    {
      failedLoginAttempts := 0;
      lockedUntil := None;
      lastLoginAt := Some(now);
      loginCount := loginCount + 1;
    }

    /** The controller's checks in their order, for a tenant and user that exist. */
    method TryLogin(l: Attempt) returns (outcome: Outcome)
      modifies this
      ensures (View(), outcome) == Login(old(View()), l)
    {
      if lockedUntil.Some? && lockedUntil.value > l.tCheck {
        return Locked;
      }
      if !MayLogIn(l.status) {
        return Refused;
      }
      if !l.correct {
        IncrementFailedLogin(l.tSave);
        return WrongPassword;
      }
      ResetFailedLogin(l.tSave);
      outcome := LoggedIn;
    }
  }
}
