/** service.py, run_forever: enrollment, reconnection backoff and the auth-failure streak. */
module Reconnect {
  import opened Prelude

  const MAX_AUTH_RETRIES: nat := 3
  const AUTH_RETRY_DELAY: real := 15.0

  datatype Config = Config(minSec: real, maxSec: real, hasToken: bool)

  datatype Enrollment = Rejected | Unreachable | NoCredential | Enrolled(credential: string)
  datatype Session = Closed | Status(code: nat) | RuntimeFailure | OtherFailure

  /** What the backend does in one iteration: `enrollment` matters only when there is no credential. */
  datatype Attempt = Attempt(enrollment: Enrollment, session: Session)

  datatype Result = Fatal | CleanReturn | AuthRejected | Failed

  datatype Sleep = AuthRetry(delay: real) | Ordinary(delay: real)

  datatype Agent = Agent(credential: Option<string>, backoff: real, streak: nat, sleeps: seq<Sleep>, ended: bool)

  function Min(a: real, b: real): real {
    if a <= b then a else b
  }

  /** A stored credential, unless it is the empty string. */
  predicate Usable(credential: Option<string>) {
    credential.Some? && credential.value != ""
  }

  /** _ensure_credential: the credential after it, or how it raises. */
  function Ensure(cfg: Config, credential: Option<string>, e: Enrollment): (Option<string>, Option<Result>) {
    if Usable(credential) then (credential, None)
    else if !cfg.hasToken then (credential, Some(Fatal))
    else match e
      case Rejected => (credential, Some(Fatal))
      case Unreachable => (credential, Some(Failed))
      case NoCredential => (credential, Some(Fatal))
      case Enrolled(c) => if c == "" then (credential, Some(Fatal)) else (Some(c), None)
  }

  function SessionResult(s: Session): Result {
    match s
    case Closed => CleanReturn
    case Status(code) => if code == 401 || code == 403 then AuthRejected else Failed
    case RuntimeFailure => Fatal
    case OtherFailure => Failed
  }

  function ResultOf(cfg: Config, a: Agent, attempt: Attempt): Result {
    var (_, raised) := Ensure(cfg, a.credential, attempt.enrollment);
    if raised.Some? then raised.value else SessionResult(attempt.session)
  }

  function Start(cfg: Config, credential: Option<string>): Agent {
    Agent(credential, cfg.minSec, 0, [], false)
  }

  /** Lines 215-216: the ordinary sleep, then the doubling. */
  function SleepAndDouble(cfg: Config, a: Agent): Agent {
    a.(sleeps := a.sleeps + [Ordinary(a.backoff)], backoff := Min(a.backoff * 2.0, cfg.maxSec))
  }

  function Iterate(cfg: Config, a: Agent, attempt: Attempt): Agent {
    if a.ended then a
    else
      var b := a.(credential := Ensure(cfg, a.credential, attempt.enrollment).0);
      match ResultOf(cfg, a, attempt)
      case Fatal => b.(ended := true)
      case CleanReturn => SleepAndDouble(cfg, b.(backoff := cfg.minSec, streak := 0))
      case AuthRejected =>
        if b.streak + 1 >= MAX_AUTH_RETRIES then SleepAndDouble(cfg, b.(credential := None, streak := 0))
        else b.(streak := b.streak + 1, sleeps := b.sleeps + [AuthRetry(AUTH_RETRY_DELAY * (b.streak + 1) as real)])
      case Failed => SleepAndDouble(cfg, b)
  }

  function After(cfg: Config, credential: Option<string>, attempts: seq<Attempt>): Agent {
    if attempts == [] then Start(cfg, credential)
    else Iterate(cfg, After(cfg, credential, attempts[..|attempts| - 1]), attempts[|attempts| - 1])
  }

  /** The endless loop, over the attempts the backend allows for. */
  method RunForever(cfg: Config, stored: Option<string>, attempts: seq<Attempt>) returns (agent: Agent)
    ensures agent == After(cfg, stored, attempts)
  {
    var backoff, streak, credential := cfg.minSec, 0, stored;
    var sleeps: seq<Sleep>, ended := [], false;
    var i := 0;
    while i < |attempts| && !ended
      invariant 0 <= i <= |attempts|
      invariant After(cfg, stored, attempts[..i]) == Agent(credential, backoff, streak, sleeps, ended)
    {
      NextAfter(cfg, stored, attempts, i);
      var (c, raised) := Ensure(cfg, credential, attempts[i].enrollment);
      credential := c;
      var result := if raised.Some? then raised.value else SessionResult(attempts[i].session);
      i := i + 1;
      if result == CleanReturn {
        backoff := cfg.minSec;
        streak := 0;
      } else if result == AuthRejected {
        streak := streak + 1;
        if streak >= MAX_AUTH_RETRIES {
          credential := None;
          streak := 0;
        } else {
          sleeps := sleeps + [AuthRetry(AUTH_RETRY_DELAY * streak as real)];
          continue;
        }
      } else if result == Fatal {
        ended := true;
        break;
      }
      sleeps := sleeps + [Ordinary(backoff)];
      backoff := Min(backoff * 2.0, cfg.maxSec);
    }
    if i < |attempts| {
      EndedForGood(cfg, stored, attempts, i);
    }
    assert attempts[..|attempts|] == attempts;
    return Agent(credential, backoff, streak, sleeps, ended);
  }

  lemma NextAfter(cfg: Config, stored: Option<string>, attempts: seq<Attempt>, i: nat)
    requires i < |attempts|
    ensures After(cfg, stored, attempts[..i + 1]) == Iterate(cfg, After(cfg, stored, attempts[..i]), attempts[i])
  {
    assert attempts[..i + 1][..i] == attempts[..i];
  }

  lemma {:induction false} EndedForGood(cfg: Config, stored: Option<string>, attempts: seq<Attempt>, i: nat)
    requires i <= |attempts| && After(cfg, stored, attempts[..i]).ended
    ensures After(cfg, stored, attempts) == After(cfg, stored, attempts[..i])
  {
    if i == |attempts| {
      assert attempts[..i] == attempts;
    } else {
      var n := |attempts| - 1;
      assert attempts[..n][..i] == attempts[..i];
      EndedForGood(cfg, stored, attempts[..n], i);
    }
  }

  // ---------------------------------------------------------------------------------------------
  // The closed form
  // ---------------------------------------------------------------------------------------------

  /** m * 2^k */
  function Scaled(m: real, k: nat): real {
    if k == 0 then m else 2.0 * Scaled(m, k - 1)
  }

  function Pow2(k: nat): nat {
    if k == 0 then 1 else 2 * Pow2(k - 1)
  }

  lemma {:induction false} ScaledIsProduct(m: real, k: nat)
    ensures Scaled(m, k) == m * Pow2(k) as real
  {
    if k > 0 {
      ScaledIsProduct(m, k - 1);
      var p := Pow2(k - 1) as real;
      assert Pow2(k) as real == 2.0 * p;
      DoubleOutside(m, p);
    }
  }

  lemma DoubleOutside(m: real, p: real)
    ensures m * (2.0 * p) == 2.0 * (m * p)
  {
  }

  /** The delay of ordinary sleep number k since the last clean return. */
  function ClosedForm(cfg: Config, k: nat): real {
    Min(Scaled(cfg.minSec, k), cfg.maxSec)
  }

  function ResultAt(cfg: Config, stored: Option<string>, attempts: seq<Attempt>): Result
    requires attempts != []
  {
    ResultOf(cfg, After(cfg, stored, attempts[..|attempts| - 1]), attempts[|attempts| - 1])
  }

  /** Auth rejections since the last clean return, or since the start. */
  function AuthCount(cfg: Config, stored: Option<string>, attempts: seq<Attempt>): nat {
    if attempts == [] then 0
    else match ResultAt(cfg, stored, attempts)
      case CleanReturn => 0
      case AuthRejected => AuthCount(cfg, stored, attempts[..|attempts| - 1]) + 1
      case _ => AuthCount(cfg, stored, attempts[..|attempts| - 1])
  }

  /** The last attempt was followed by an ordinary sleep. */
  predicate SleptOrdinarily(cfg: Config, stored: Option<string>, attempts: seq<Attempt>)
    requires attempts != []
  {
    match ResultAt(cfg, stored, attempts)
    case Fatal => false
    case AuthRejected => AuthCount(cfg, stored, attempts) % MAX_AUTH_RETRIES == 0
    case _ => true
  }

  /** Ordinary sleeps since the last clean return, the one right after it included. */
  function Sleeps(cfg: Config, stored: Option<string>, attempts: seq<Attempt>): nat {
    if attempts == [] then 0
    else if ResultAt(cfg, stored, attempts) == CleanReturn then 1
    else Sleeps(cfg, stored, attempts[..|attempts| - 1]) + if SleptOrdinarily(cfg, stored, attempts) then 1 else 0
  }

  /** No attempt so far has ended the loop. */
  predicate Alive(cfg: Config, stored: Option<string>, attempts: seq<Attempt>) {
    !After(cfg, stored, attempts).ended
  }

  lemma {:induction false} NeverAboveNegativeCap(m: real, cap: real, k: nat)
    requires m <= cap < 0.0
    ensures Scaled(m, k) <= cap
  {
    if k > 0 {
      NeverAboveNegativeCap(m, cap, k - 1);
    }
  }

  /** Doubling a capped delay and capping it again is the next term: capping can be left to the end. */
  lemma Doubling(cfg: Config, k: nat)
    requires cfg.minSec <= cfg.maxSec
    ensures Min(ClosedForm(cfg, k) * 2.0, cfg.maxSec) == ClosedForm(cfg, k + 1)
  {
    if cfg.maxSec < 0.0 {
      NeverAboveNegativeCap(cfg.minSec, cfg.maxSec, k);
    }
    CapLater(Scaled(cfg.minSec, k), cfg.maxSec);
  }

  lemma CapLater(x: real, cap: real)
    requires cap < 0.0 ==> x <= cap
    ensures Min(Min(x, cap) * 2.0, cap) == Min(2.0 * x, cap)
  {
  }

  /** One iteration that does not end the loop: it sleeps once, and counts or doubles by its result alone. */
  lemma Iteration(cfg: Config, a: Agent, attempt: Attempt)
    requires !a.ended && a.streak < MAX_AUTH_RETRIES && !Iterate(cfg, a, attempt).ended
    ensures var q, r := Iterate(cfg, a, attempt), ResultOf(cfg, a, attempt);
            && r != Fatal && |q.sleeps| == |a.sleeps| + 1
            && q.streak == (if r == CleanReturn then 0 else if r == AuthRejected then (a.streak + 1) % MAX_AUTH_RETRIES else a.streak)
            && q.backoff == (if r == CleanReturn then Min(cfg.minSec * 2.0, cfg.maxSec)
                             else if r == AuthRejected && q.streak != 0 then a.backoff
                             else Min(a.backoff * 2.0, cfg.maxSec))
  {
  }

  /** At every loop head the streak is the number of auth rejections since the last clean return, modulo 3. */
  lemma {:induction false} StreakAtLoopHead(cfg: Config, stored: Option<string>, attempts: seq<Attempt>)
    requires Alive(cfg, stored, attempts)
    ensures var a := After(cfg, stored, attempts);
            a.streak == AuthCount(cfg, stored, attempts) % MAX_AUTH_RETRIES && |a.sleeps| == |attempts|
  {
    if attempts != [] {
      var before := attempts[..|attempts| - 1];
      var a, n := After(cfg, stored, before), AuthCount(cfg, stored, before);
      StreakAtLoopHead(cfg, stored, before);
      Iteration(cfg, a, attempts[|attempts| - 1]);
      NextModulo3(n);
      assert ResultAt(cfg, stored, attempts) == ResultOf(cfg, a, attempts[|attempts| - 1]);
    }
  }

  lemma NextModulo3(n: nat)
    ensures (n + 1) % MAX_AUTH_RETRIES == (n % MAX_AUTH_RETRIES + 1) % MAX_AUTH_RETRIES
  {
  }

  /**
   At every loop head the backoff is min(min_sec * 2^k, max_sec), where k counts the ordinary sleeps since
   the last clean return; auth retries leave it alone.
   */
  lemma {:induction false} BackoffAtLoopHead(cfg: Config, stored: Option<string>, attempts: seq<Attempt>)
    requires cfg.minSec <= cfg.maxSec && Alive(cfg, stored, attempts)
    ensures After(cfg, stored, attempts).backoff == ClosedForm(cfg, Sleeps(cfg, stored, attempts))
  {
    if attempts != [] {
      var before := attempts[..|attempts| - 1];
      BackoffAtLoopHead(cfg, stored, before);
      StreakAtLoopHead(cfg, stored, before);
      StreakAtLoopHead(cfg, stored, attempts);
      Iteration(cfg, After(cfg, stored, before), attempts[|attempts| - 1]);
      Doubling(cfg, Sleeps(cfg, stored, before));
      FirstDoubling(cfg);
    }
  }

  lemma FirstDoubling(cfg: Config)
    ensures ClosedForm(cfg, 1) == Min(cfg.minSec * 2.0, cfg.maxSec)
  {
    assert Scaled(cfg.minSec, 1) == 2.0 * Scaled(cfg.minSec, 0);
  }

  /** Every sleep taken: 15 s times the streak for an auth retry, the closed form for every other one. */
  lemma SleepTaken(cfg: Config, stored: Option<string>, attempts: seq<Attempt>)
    requires cfg.minSec <= cfg.maxSec && attempts != [] && Alive(cfg, stored, attempts)
    ensures var a := After(cfg, stored, attempts);
            && a.sleeps != []
            && a.sleeps[|a.sleeps| - 1] ==
               (if !SleptOrdinarily(cfg, stored, attempts) then AuthRetry(15.0 * (AuthCount(cfg, stored, attempts) % MAX_AUTH_RETRIES) as real)
                else if ResultAt(cfg, stored, attempts) == CleanReturn then Ordinary(cfg.minSec)
                else Ordinary(ClosedForm(cfg, Sleeps(cfg, stored, attempts[..|attempts| - 1]))))
  {
    StreakAtLoopHead(cfg, stored, attempts);
    StreakAtLoopHead(cfg, stored, attempts[..|attempts| - 1]);
    BackoffAtLoopHead(cfg, stored, attempts[..|attempts| - 1]);
  }

  /** The cap is not applied to the first sleep: the closed form holds from the start exactly when min_sec <= max_sec. */
  lemma ClosedFormIff(cfg: Config, stored: Option<string>)
    ensures (forall attempts :: Alive(cfg, stored, attempts) ==> After(cfg, stored, attempts).backoff == ClosedForm(cfg, Sleeps(cfg, stored, attempts)))
            <==> cfg.minSec <= cfg.maxSec
  {
    if cfg.minSec <= cfg.maxSec {
      forall attempts | Alive(cfg, stored, attempts)
        ensures After(cfg, stored, attempts).backoff == ClosedForm(cfg, Sleeps(cfg, stored, attempts))
      {
        BackoffAtLoopHead(cfg, stored, attempts);
      }
    } else {
      assert Alive(cfg, stored, []);
      assert After(cfg, stored, []).backoff != ClosedForm(cfg, Sleeps(cfg, stored, []));
    }
  }

  /**
   The credential is cleared exactly by the auth rejections that bring their number since the last clean
   return to a multiple of three; whatever failed in between neither clears it nor resets the count.
   */
  lemma ClearedExactlyOnThird(cfg: Config, stored: Option<string>, attempts: seq<Attempt>)
    requires attempts != [] && Alive(cfg, stored, attempts)
    requires Usable(Ensure(cfg, After(cfg, stored, attempts[..|attempts| - 1]).credential, attempts[|attempts| - 1].enrollment).0)
    ensures !Usable(After(cfg, stored, attempts).credential) <==>
            ResultAt(cfg, stored, attempts) == AuthRejected && AuthCount(cfg, stored, attempts) % MAX_AUTH_RETRIES == 0
  {
    StreakAtLoopHead(cfg, stored, attempts);
    StreakAtLoopHead(cfg, stored, attempts[..|attempts| - 1]);
  }

  /** A cleared credential is never used again: the next attempt enrolls anew, and without a token it ends the agent. */
  lemma ClearedMeansReenroll(cfg: Config, a: Agent, attempt: Attempt)
    requires !a.ended && !Usable(a.credential)
    ensures var q := Iterate(cfg, a, attempt);
            && (!cfg.hasToken ==> q.ended)
            && (Usable(q.credential) ==> attempt.enrollment.Enrolled? && q.credential == Some(attempt.enrollment.credential))
            && (q.streak > a.streak || (!q.ended && q.streak < a.streak) ==> attempt.enrollment.Enrolled?)
  {
  }

  /** The attempt reaches the stream: with the stored credential, or with one that enrollment has just given. */
  predicate Connects(cfg: Config, a: Agent, attempt: Attempt) {
    || (a.credential.Some? && a.credential.value != "")
    || (cfg.hasToken && attempt.enrollment.Enrolled? && attempt.enrollment.credential != "")
  }

  /** No credential and none to be had: the agent ends with an error. */
  predicate GivesUp(cfg: Config, a: Agent, attempt: Attempt) {
    && !(a.credential.Some? && a.credential.value != "")
    && (!cfg.hasToken || attempt.enrollment.Rejected? || attempt.enrollment.NoCredential? || attempt.enrollment == Enrolled(""))
  }

  predicate IsAuth(s: Session) {
    s == Status(401) || s == Status(403)
  }

  /**
   One iteration by what the backend did.  A closed stream resets both counters before the sleep; the
   first two auth rejections in a row wait 15 s and 30 s, and the third clears the credential; any other
   failure sleeps and doubles; a runtime error, or no way to get a credential, ends the agent.
   */
  lemma IterationByCause(cfg: Config, a: Agent, attempt: Attempt)
    requires !a.ended && a.streak < MAX_AUTH_RETRIES
    ensures var q, s := Iterate(cfg, a, attempt), attempt.session;
            var credential := if a.credential.Some? && a.credential.value != "" then a.credential
                              else if Connects(cfg, a, attempt) then Some(attempt.enrollment.credential) else a.credential;
            && (q.ended <==> GivesUp(cfg, a, attempt) || (Connects(cfg, a, attempt) && s == RuntimeFailure))
            && (q.ended ==> q.sleeps == a.sleeps)
            && (Connects(cfg, a, attempt) && s == Closed ==>
                  q == Agent(credential, Min(cfg.minSec * 2.0, cfg.maxSec), 0, a.sleeps + [Ordinary(cfg.minSec)], false))
            && (Connects(cfg, a, attempt) && IsAuth(s) && a.streak < 2 ==>
                  q == Agent(credential, a.backoff, a.streak + 1, a.sleeps + [AuthRetry(if a.streak == 0 then 15.0 else 30.0)], false))
            && (Connects(cfg, a, attempt) && IsAuth(s) && a.streak == 2 ==>
                  q == Agent(None, Min(a.backoff * 2.0, cfg.maxSec), 0, a.sleeps + [Ordinary(a.backoff)], false))
            && (!q.ended && !(Connects(cfg, a, attempt) && (s == Closed || IsAuth(s))) ==>
                  q == Agent(credential, Min(a.backoff * 2.0, cfg.maxSec), a.streak, a.sleeps + [Ordinary(a.backoff)], false))
  {
  }
}
