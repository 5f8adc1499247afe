// When a workload renews its certificate. Times and durations are in nanoseconds.
module Renewal {
  import opened Wrappers

  const SECOND := 1_000_000_000
  const RETRY := 10 * SECOND
  const HOUR := 3600 * SECOND

  function Max(a: int, b: int): int {
    if a < b then b else a
  }

  function Offset(ttl: nat): nat {
    ttl * 30 / 100
  }

  method NextRenewalDelay(notAfter: int, totalTtl: nat, now: int) returns (delay: nat)
    ensures delay == Delay(notAfter, totalTtl, now)
    ensures delay >= RETRY
  {
    var remaining := Max(notAfter - now, 0);
    if remaining == 0 {
      return RETRY;
    }
    var ttl: nat := if totalTtl == 0 then remaining else totalTtl;
    var renewAt := notAfter - ttl * 30 / 100;
    delay := Max(renewAt - now, 0);
    if delay < RETRY {
      delay := RETRY;
    }
  }

  // The instant to renew at, and at least ten seconds from now. A lifetime of zero counts as what is left.
  function Delay(notAfter: int, totalTtl: nat, now: int): (delay: nat)
    ensures delay >= RETRY
  {
    if notAfter <= now then RETRY
    else
      var ttl: nat := if totalTtl == 0 then notAfter - now else totalTtl;
      Max(notAfter - Offset(ttl) - now, RETRY)
  }

  // --- The loop ---

  // An attempt takes time and fails, or yields a certificate, whose validity may be unreadable.
  datatype Outcome = Failed(took: nat) | Renewed(took: nat, validity: Option<(int, int)>)

  datatype State = State(now: int, notAfter: int, totalTtl: nat)

  function Installed(s: State, validity: Option<(int, int)>): State {
    var v := if validity.Some? then validity.value else (s.now, s.now + HOUR);
    State(s.now, v.1, if v.0 <= v.1 then v.1 - v.0 else HOUR)
  }

  function Attempt(s: State): int {
    s.now + Delay(s.notAfter, s.totalTtl, s.now)
  }

  function Next(s: State, o: Outcome): State {
    var t := s.(now := Attempt(s) + o.took);
    if o.Failed? then t else Installed(t, o.validity)
  }

  function After(s: State, outcomes: seq<Outcome>): State {
    if outcomes == [] then s else Next(After(s, outcomes[..|outcomes| - 1]), outcomes[|outcomes| - 1])
  }

  class CertStore {
    var notAfter: int
    var totalTtl: nat

    constructor (notAfter: int, totalTtl: nat)
      ensures this.notAfter == notAfter && this.totalTtl == totalTtl
    {
      this.notAfter, this.totalTtl := notAfter, totalTtl;
    }

    // The loop for as long as the given attempts last; the times are those at which they start.
    method RenewalLoop(start: int, outcomes: seq<Outcome>) returns (now: int, attempts: seq<int>)
      modifies this
      ensures State(now, notAfter, totalTtl) == After(State(start, old(notAfter), old(totalTtl)), outcomes)
      ensures |attempts| == |outcomes|
      ensures forall i :: 0 <= i < |outcomes| ==>
        attempts[i] == Attempt(After(State(start, old(notAfter), old(totalTtl)), outcomes[..i]))
    {
      now, attempts := start, [];
      ghost var s0 := State(start, notAfter, totalTtl);
      for i := 0 to |outcomes|
        invariant State(now, notAfter, totalTtl) == After(s0, outcomes[..i]) && |attempts| == i
        invariant forall j :: 0 <= j < i ==> attempts[j] == Attempt(After(s0, outcomes[..j]))
      {
        assert outcomes[..i + 1][..i] == outcomes[..i];
        var delay := NextRenewalDelay(notAfter, totalTtl, now);
        now := now + delay;
        attempts := attempts + [now];
        var o := outcomes[i];
        now := now + o.took;
        if o.Renewed? {
          var notBefore, until := now, now + HOUR;
          if o.validity.Some? {
            notBefore, until := o.validity.value.0, o.validity.value.1;
          }
          totalTtl := if notBefore <= until then until - notBefore else HOUR;
          notAfter := until;
        }
      }
      assert outcomes[..|outcomes|] == outcomes;
    }
  }

  // --- Bounds ---

  // Attempts start at least ten seconds after the one before has ended, whatever the certificates say.
  lemma AttemptsApart(s: State, outcomes: seq<Outcome>, i: nat)
    requires i + 1 < |outcomes|
    ensures Attempt(After(s, outcomes[..i + 1])) >= Attempt(After(s, outcomes[..i])) + outcomes[i].took + RETRY
  {
    assert outcomes[..i + 1][..i] == outcomes[..i];
  }

  // The first attempt: three tenths of the lifetime before the end, but not within ten seconds.
  function FirstAttempt(s: State): int {
    Max(s.notAfter - Offset(s.totalTtl), s.now + RETRY)
  }

  function Failing(n: nat): seq<Outcome> {
    seq(n, _ => Failed(0))
  }

  // When renewal keeps failing at once, the attempts are ten seconds apart from the first on.
  lemma {:induction false} FailingAttempts(s: State, k: nat)
    requires s.totalTtl > 0
    ensures Attempt(After(s, Failing(k))) == FirstAttempt(s) + k * RETRY
    ensures After(s, Failing(k)) == s.(now := if k == 0 then s.now else FirstAttempt(s) + (k - 1) * RETRY)
  {
    if k > 0 {
      FailingAttempts(s, k - 1);
      assert Failing(k)[..k - 1] == Failing(k - 1);
    }
  }

  function CeilDiv(a: nat, b: nat): nat
    requires b > 0
  {
    (a + b - 1) / b
  }

  lemma CountBelow(a: int, n: nat, k: nat)
    requires n == CeilDiv(Max(a, 0), RETRY)
    ensures k * RETRY < a <==> k < n
  {
  }

  // --- A lifetime of zero ---

  // Three tenths of what is left are left after an attempt, but at least ten seconds have passed.
  function LeftAfter(left: int): int {
    if left <= 0 then left - RETRY else Min(Offset(left), left - RETRY)
  }

  function Min(a: int, b: int): int {
    if a < b then a else b
  }

  // How many attempts fit in before expiry when so much is left.
  function Tries(left: int): nat
    decreases if left > 0 then left else 0
  {
    if left <= 0 || LeftAfter(left) <= 0 then 0 else 1 + Tries(LeftAfter(left))
  }

  lemma {:induction false} AfterFirst(s: State, o: Outcome, rest: seq<Outcome>)
    ensures After(s, [o] + rest) == After(Next(s, o), rest)
  {
    var all := [o] + rest;
    if rest == [] {
      assert all[..0] == [];
    } else {
      AfterFirst(s, o, rest[..|rest| - 1]);
      assert all[..|all| - 1] == [o] + rest[..|rest| - 1];
    }
  }

  lemma ZeroDelay(s: State)
    requires s.totalTtl == 0
    ensures s.notAfter - Attempt(s) == LeftAfter(s.notAfter - s.now)
  {
  }

  lemma {:induction false} ZeroLifetimeAttempts(s: State, k: nat)
    requires s.totalTtl == 0
    ensures Attempt(After(s, Failing(k))) < s.notAfter <==> k < Tries(s.notAfter - s.now)
    decreases k
  {
    ZeroDelay(s);
    if k > 0 {
      AfterFirst(s, Failed(0), Failing(k - 1));
      assert Failing(k) == [Failed(0)] + Failing(k - 1);
      ZeroLifetimeAttempts(Next(s, Failed(0)), k - 1);
    }
  }

  function Pow(b: nat, n: nat): nat {
    if n == 0 then 1 else b * Pow(b, n - 1)
  }

  // Each attempt but the last costs seven tenths of what is left, so their number grows with its logarithm only.
  lemma {:induction false} TriesBound(left: int)
    requires Tries(left) > 0
    ensures RETRY * Pow(10, Tries(left) - 1) < left * Pow(3, Tries(left) - 1)
    decreases left
  {
    var next, n := LeftAfter(left), Tries(left);
    if n > 1 {
      TriesBound(next);
      Scale(RETRY * Pow(10, n - 2), next, left, Pow(3, n - 2));
    }
  }

  lemma Scale(a: nat, next: int, left: int, p: nat)
    requires a < next * p && 10 * next <= 3 * left
    ensures 10 * a < left * (3 * p)
  {
    assert 10 * (next * p) == (10 * next) * p <= (3 * left) * p == left * (3 * p);
  }

  // --- Every lifetime ---

  function AttemptCount(s: State): nat {
    if s.totalTtl == 0 then Tries(s.notAfter - s.now)
    else CeilDiv(Max(s.notAfter - FirstAttempt(s), 0), RETRY)
  }

  // When renewal keeps failing at once, attempt k comes before expiry exactly for the first so many.
  lemma AttemptsBeforeExpiry(s: State, k: nat)
    ensures Attempt(After(s, Failing(k))) < s.notAfter <==> k < AttemptCount(s)
  {
    if s.totalTtl == 0 {
      ZeroLifetimeAttempts(s, k);
    } else {
      FailingAttempts(s, k);
      CountBelow(s.notAfter - FirstAttempt(s), AttemptCount(s), k);
    }
  }

  // From a loop that starts ten seconds before the instant to renew at, the first attempt is at that instant,
  // and ten seconds fit so often, rounded up, into three tenths of the lifetime.
  lemma AttemptsOnTime(s: State)
    requires s.totalTtl > 0 && s.now + RETRY <= s.notAfter - Offset(s.totalTtl)
    ensures Attempt(s) == s.notAfter - Offset(s.totalTtl) && AttemptCount(s) == CeilDiv(Offset(s.totalTtl), RETRY)
  {
    assert FirstAttempt(s) == s.notAfter - Offset(s.totalTtl);
  }

  // --- With the controller's certificates ---

  const BACKDATED := 60 * SECOND
  const WORKLOAD := 300 * SECOND

  // A certificate issued in this second: validity is kept in whole seconds.
  function Issued(second: int): Option<(int, int)> {
    Some((second * SECOND - BACKDATED, second * SECOND + WORKLOAD))
  }

  // After a renewal within 182 seconds of issue, the next attempt is 192 seconds after issue, and eleven
  // attempts fit in before the certificate expires.
  lemma ControllerCerts(s: State, second: int, took: nat, k: nat)
    requires Attempt(s) + took <= second * SECOND + 182 * SECOND
    ensures var t := Next(s, Renewed(took, Issued(second)));
      && Attempt(t) == second * SECOND + 192 * SECOND
      && (Attempt(After(t, Failing(k))) < t.notAfter <==> k < 11)
  {
    var t := Next(s, Renewed(took, Issued(second)));
    AttemptsBeforeExpiry(t, k);
    AttemptsOnTime(t);
  }

  // A certificate whose validity cannot be read counts as good for an hour from then: the next attempt comes
  // after 42 minutes. One that ends before it begins keeps its end and counts as an hour long.
  lemma UnreadableCerts(s: State, took: nat, from: int, until: int)
    requires until < from
    ensures Attempt(Next(s, Renewed(took, None))) == Attempt(s) + took + 42 * 60 * SECOND
    ensures var t := Next(s, Renewed(took, Some((from, until))));
      t.notAfter == until && Attempt(t) == Max(until - 18 * 60 * SECOND, t.now + RETRY)
  {
  }
}
