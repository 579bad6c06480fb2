/** The login limiter: a user name gets a number of wrong passwords per window, and expired windows
    are dropped when there are many. It is proved to answer like a plain record of each name's wrong
    passwords that drops nothing, and that record is proved to hold the limits. Calls come one
    after the other, with a clock that never goes back. */
module LoginLimiter {
  import opened Basics

  const LIMIT: nat := 10
  const WINDOW: int := 15 * MINUTE
  const MANY: nat := 1000

  /** Wrong passwords counted since a window began. */
  datatype Window = Window(count: nat, since: int)

  function Blocked(byName: map<string, Window>, name: string, now: int): bool {
    name in byName && byName[name].count >= LIMIT && now - byName[name].since < WINDOW
  }

  function Purged(byName: map<string, Window>, now: int): map<string, Window> {
    map key | key in byName && now - byName[key].since < WINDOW :: byName[key]
  }

  function FailStep(byName: map<string, Window>, name: string, now: int): map<string, Window> {
    var kept := if |byName| > MANY then Purged(byName, now) else byName;
    var window := if name in kept && now - kept[name].since < WINDOW then kept[name] else Window(0, now);
    kept[name := window.(count := window.count + 1)]
  }

  datatype Verdict = Right | Wrong | Broken

  /** A login: who, when, how long looking the password up takes, and what comes of it. */
  datatype Attempt = Attempt(name: string, at: int, took: nat, verdict: Verdict)

  function AttemptStep(byName: map<string, Window>, a: Attempt): map<string, Window> {
    if Blocked(byName, a.name, a.at) then byName
    else
      match a.verdict
      case Right => byName - {a.name}
      case Wrong => FailStep(byName, a.name, a.at + a.took)
      case Broken => byName
  }

  function Run(attempts: seq<Attempt>): map<string, Window> {
    if attempts == [] then map[] else AttemptStep(Run(Front(attempts)), Last(attempts))
  }

  /** Attempts one after the other, all over by a time. */
  ghost predicate OverBy(attempts: seq<Attempt>, now: int) {
    attempts != [] ==> Last(attempts).at + Last(attempts).took <= now && OverBy(Front(attempts), Last(attempts).at)
  }

  datatype Answer = Refused | Failed | Accepted

  class LoginFailures {
    var byName: map<string, Window>

    constructor ()
      ensures byName == map[]
    {
      byName := map[];
    }

    method IsBlocked(name: string, now: int) returns (blocked: bool)
      ensures blocked == Blocked(byName, name, now)
    {
      if name in byName {
        return byName[name].count >= LIMIT && now - byName[name].since < WINDOW;
      }
      return false;
    }

    method Purge(now: int)
      modifies this
      ensures byName == Purged(old(byName), now)
    {
      ghost var before := byName;
      var keys := byName.Keys;
      while keys != {}
        invariant keys <= before.Keys
        invariant byName == map key | key in before && (key in keys || now - before[key].since < WINDOW) :: before[key]
        decreases |keys|
      {
        var key :| key in keys;
        keys := keys - {key};
        if now - byName[key].since >= WINDOW {
          byName := byName - {key};
        }
      }
    }

    method Fail(name: string, now: int)
      modifies this
      ensures byName == FailStep(old(byName), name, now)
    {
      if |byName| > MANY {
        Purge(now);
      }
      var window := Window(0, now);
      if name in byName && now - byName[name].since < WINDOW {
        window := byName[name];
      }
      byName := byName[name := window.(count := window.count + 1)];
    }

    method Clear(name: string)
      modifies this
      ensures byName == old(byName) - {name}
    {
      byName := byName - {name};
    }

    /** One login: refused for a blocked name, counted when wrong, and a fresh start when right. */
    method CheckLogin(a: Attempt) returns (answer: Answer)
      modifies this
      ensures byName == AttemptStep(old(byName), a)
      ensures answer.Refused? <==> Blocked(old(byName), a.name, a.at)
      ensures answer.Accepted? <==> !answer.Refused? && a.verdict.Right?
    {
      var blocked := IsBlocked(a.name, a.at);
      if blocked {
        return Refused;
      }
      if a.verdict.Wrong? {
        Fail(a.name, a.at + a.took);
      }
      if !a.verdict.Right? {
        return Failed;
      }
      Clear(a.name);
      return Accepted;
    }
  }

  // ---------------------------------------------------------------- the plain record

  /** A counted wrong password: its time, when its window began, and its number in that window. */
  datatype Failure = Failure(at: int, since: int, nth: nat)

  predicate LockedOut(failures: seq<Failure>, now: int) {
    failures != [] && Last(failures).nth >= LIMIT && now < Last(failures).since + WINDOW
  }

  function Next(failures: seq<Failure>, at: int): Failure {
    if failures != [] && at < Last(failures).since + WINDOW then Failure(at, Last(failures).since, Last(failures).nth + 1)
    else Failure(at, at, 1)
  }

  /** The wrong passwords counted for a name since its last successful login. */
  function Counted(attempts: seq<Attempt>, name: string): seq<Failure> {
    if attempts == [] then []
    else
      var before, a := Counted(Front(attempts), name), Last(attempts);
      if a.name != name || LockedOut(before, a.at) then before
      else
        match a.verdict
        case Right => []
        case Wrong => before + [Next(before, a.at + a.took)]
        case Broken => before
  }

  /** What the limiter keeps of a name agrees with its record. A window is only missing when it has
      ended. */
  ghost predicate Agrees(byName: map<string, Window>, name: string, failures: seq<Failure>, now: int) {
    if name in byName then failures != [] && byName[name] == Window(Last(failures).nth, Last(failures).since)
    else failures == [] || Last(failures).since + WINDOW <= now
  }

  lemma FailAgrees(byName: map<string, Window>, name: string, failures: seq<Failure>, failing: string, now: int)
    requires Agrees(byName, name, failures, now)
    ensures Agrees(FailStep(byName, failing, now), name, if name == failing then failures + [Next(failures, now)] else failures, now)
  {
  }

  lemma {:induction false} RunAgrees(attempts: seq<Attempt>, name: string, now: int)
    requires OverBy(attempts, now)
    ensures Agrees(Run(attempts), name, Counted(attempts, name), now)
  {
    if attempts != [] {
      var a := Last(attempts);
      RunAgrees(Front(attempts), name, a.at);
      RunAgrees(Front(attempts), a.name, a.at);
      FailAgrees(Run(Front(attempts)), name, Counted(Front(attempts), name), a.name, a.at + a.took);
    }
  }

  /** Whatever was purged on the way, the limiter locks a name out exactly when its record does. */
  lemma LimiterFollowsRecord(attempts: seq<Attempt>, name: string, now: int)
    requires OverBy(attempts, now)
    ensures Blocked(Run(attempts), name, now) <==> LockedOut(Counted(attempts, name), now)
  {
    RunAgrees(attempts, name, now);
  }

  // ---------------------------------------------------------------- the limits

  /** Each failure goes on with the window of the one before, or starts one once that has ended. */
  ghost predicate Continues(f: Failure, g: Failure) {
    if g.since == f.since then g.nth == f.nth + 1 else g.nth == 1 && g.since == g.at && f.since + WINDOW <= g.since
  }

  ghost predicate WellCounted(failures: seq<Failure>) {
    && (forall i :: 0 <= i < |failures| ==> 1 <= failures[i].nth <= LIMIT && failures[i].since <= failures[i].at < failures[i].since + WINDOW)
    && (forall i :: 0 <= i < |failures| && failures[i].nth == 1 ==> failures[i].since == failures[i].at)
    && (forall i :: 0 <= i < |failures| - 1 ==> Continues(failures[i], failures[i + 1]))
  }

  lemma NextIsWellCounted(failures: seq<Failure>, checked: int, at: int)
    requires WellCounted(failures) && !LockedOut(failures, checked) && checked <= at && (failures != [] ==> Last(failures).at <= checked)
    ensures WellCounted(failures + [Next(failures, at)])
  {
    if failures != [] {
      assert Last(failures) == failures[|failures| - 1];
    }
  }

  lemma {:induction false} RecordIsWellCounted(attempts: seq<Attempt>, name: string, now: int)
    requires OverBy(attempts, now)
    ensures WellCounted(Counted(attempts, name))
    ensures Counted(attempts, name) != [] ==> Last(Counted(attempts, name)).at <= now
  {
    if attempts != [] {
      var before, a := Counted(Front(attempts), name), Last(attempts);
      RecordIsWellCounted(Front(attempts), name, a.at);
      if !LockedOut(before, a.at) {
        NextIsWellCounted(before, a.at, a.at + a.took);
      }
    }
  }

  /** Two failures are either in one window, with every failure between them counted in it, or in
      windows that do not overlap. */
  lemma {:induction false} WindowsChain(failures: seq<Failure>, i: nat, j: nat)
    requires WellCounted(failures) && i <= j < |failures|
    ensures || (failures[j].since == failures[i].since && failures[j].nth == failures[i].nth + (j - i))
            || failures[i].since + WINDOW <= failures[j].since
  {
    if i < j {
      WindowsChain(failures, i, j - 1);
      assert Continues(failures[j - 1], failures[j]);
    }
  }

  /** Between successful logins, a window holds at most ten counted failures of a name. */
  lemma WindowHoldsLimit(attempts: seq<Attempt>, name: string, now: int, i: nat, j: nat)
    requires OverBy(attempts, now) && i <= j < |Counted(attempts, name)|
    requires Counted(attempts, name)[i].since == Counted(attempts, name)[j].since
    ensures j - i + 1 <= 10
  {
    RecordIsWellCounted(attempts, name, now);
    WindowsChain(Counted(attempts, name), i, j);
  }

  /** And any span as long as a window, wherever it starts, holds at most nineteen. */
  lemma SpanStaysUnderTwice(attempts: seq<Attempt>, name: string, now: int, start: int, i: nat, j: nat)
    requires OverBy(attempts, now) && i <= j < |Counted(attempts, name)|
    requires start <= Counted(attempts, name)[i].at && Counted(attempts, name)[j].at < start + 900 * SECOND
    ensures j - i + 1 <= 19
  {
    var failures := Counted(attempts, name);
    RecordIsWellCounted(attempts, name, now);
    if j >= i + 2 * LIMIT - 1 {
      var mid, end := i + LIMIT - 1, i + 2 * LIMIT - 1;
      WindowsChain(failures, i, mid);
      WindowsChain(failures, i, end);
      WindowsChain(failures, mid, end);
      WindowsChain(failures, end, j);
    }
  }

  /** Wrong passwords for a name, one after the other at one time. */
  function Burst(name: string, at: int, n: nat): seq<Attempt> {
    if n == 0 then [] else Burst(name, at, n - 1) + [Attempt(name, at, 0, Wrong)]
  }

  lemma BurstOneMore(attempts: seq<Attempt>, name: string, at: int, n: nat)
    requires n > 0 && OverBy(attempts + Burst(name, at, n - 1), at) && !LockedOut(Counted(attempts + Burst(name, at, n - 1), name), at)
    ensures OverBy(attempts + Burst(name, at, n), at)
    ensures var prior := Counted(attempts + Burst(name, at, n - 1), name);
            Counted(attempts + Burst(name, at, n), name) == prior + [Next(prior, at)]
  {
    var all := attempts + Burst(name, at, n);
    assert Front(all) == attempts + Burst(name, at, n - 1) && Last(all) == Attempt(name, at, 0, Wrong);
  }

  /** A record grown by n failures of one window at one time. */
  ghost predicate Grown(before: seq<Failure>, at: int, n: nat, failures: seq<Failure>) {
    && |failures| == |before| + n && failures[..|before|] == before
    && (forall k :: |before| <= k < |failures| ==> failures[k].at == at)
    && (n > 0 ==> Last(failures) == Failure(at, Next(before, at).since, Next(before, at).nth + n - 1))
  }

  lemma GrownOneMore(before: seq<Failure>, at: int, n: nat, failures: seq<Failure>)
    requires Grown(before, at, n, failures) && Next(before, at).nth + n <= LIMIT
    ensures !LockedOut(failures, at) && Grown(before, at, n + 1, failures + [Next(failures, at)])
  {
    if n == 0 {
      assert failures == before;
    }
  }

  lemma {:induction false} BurstIsCounted(attempts: seq<Attempt>, name: string, at: int, n: nat)
    requires OverBy(attempts, at) && Next(Counted(attempts, name), at).nth + n <= LIMIT + 1
    ensures OverBy(attempts + Burst(name, at, n), at)
    ensures Grown(Counted(attempts, name), at, n, Counted(attempts + Burst(name, at, n), name))
  {
    if n == 0 {
      assert attempts + [] == attempts;
    } else {
      BurstIsCounted(attempts, name, at, n - 1);
      GrownOneMore(Counted(attempts, name), at, n - 1, Counted(attempts + Burst(name, at, n - 1), name));
      BurstOneMore(attempts, name, at, n);
    }
  }

  /** Twice the limit less one of the failures lie within a window's length. */
  ghost predicate HoldsAllButOne(failures: seq<Failure>, start: int) {
    |failures| == 2 * LIMIT && forall k :: 1 <= k < 2 * LIMIT ==> start <= failures[k].at < start + WINDOW
  }

  /** The longer count is reached: one wrong password opens a window, nine come at its very end and
      ten more as soon as it is over. */
  lemma SpanCanHoldThatMany(name: string)
    ensures exists attempts :: OverBy(attempts, WINDOW) && HoldsAllButOne(Counted(attempts, name), WINDOW - 1)
  {
    BurstIsCounted([], name, 0, 1);
    var first := [] + Burst(name, 0, 1);
    assert OverBy(first, WINDOW - 1);
    BurstIsCounted(first, name, WINDOW - 1, LIMIT - 1);
    var second := first + Burst(name, WINDOW - 1, LIMIT - 1);
    assert OverBy(second, WINDOW);
    BurstIsCounted(second, name, WINDOW, LIMIT);
    var third := second + Burst(name, WINDOW, LIMIT);
    assert OverBy(third, WINDOW) && HoldsAllButOne(Counted(third, name), WINDOW - 1);
  }

  /** A name without counted failures gets ten wrong passwords, and is then refused for exactly fifteen
      minutes from the first of them on. */
  lemma TenLockOut(attempts: seq<Attempt>, name: string, at: int, n: nat, now: int)
    requires OverBy(attempts, at) && Counted(attempts, name) == [] && n <= 10 && at <= now
    ensures Blocked(Run(attempts + Burst(name, at, n)), name, now) <==> n == 10 && now < at + 900 * SECOND
  {
    BurstIsCounted(attempts, name, at, n);
    var all := attempts + Burst(name, at, n);
    assert OverBy(all, now);
    LimiterFollowsRecord(all, name, now);
  }

  /** A successful login starts the count over, for its own name only. */
  lemma RightStartsOver(attempts: seq<Attempt>, a: Attempt, name: string)
    requires a.verdict.Right? && OverBy(attempts, a.at)
    ensures var counted := Counted(attempts + [a], name);
            if name == a.name && !Blocked(Run(attempts), a.name, a.at) then counted == [] && name !in Run(attempts + [a])
            else counted == Counted(attempts, name)
  {
    assert Front(attempts + [a]) == attempts;
    LimiterFollowsRecord(attempts, a.name, a.at);
  }

  /** A wrong password counts for its own name only, and one that cannot be checked counts for none. */
  lemma WrongCountsOnce(attempts: seq<Attempt>, a: Attempt, name: string)
    requires OverBy(attempts, a.at)
    ensures |Counted(attempts + [a], name)| > |Counted(attempts, name)| ==> name == a.name && a.verdict.Wrong?
    ensures name == a.name && a.verdict.Wrong? && !Blocked(Run(attempts), name, a.at) ==>
              |Counted(attempts + [a], name)| == |Counted(attempts, name)| + 1
  {
    assert Front(attempts + [a]) == attempts;
    LimiterFollowsRecord(attempts, name, a.at);
  }

  /** Past a thousand names, a wrong password leaves no window that has ended. */
  lemma ManyArePurged(byName: map<string, Window>, name: string, now: int, key: string)
    requires |byName| > 1000 && key in FailStep(byName, name, now)
    ensures now - FailStep(byName, name, now)[key].since < 900 * SECOND
  {
  }
}
