// The polling loop that waits for a child process under a hard time limit.
// Time is counted in microseconds.
module Watchdog {
  import opened Options

  const POLL_START: nat := 100
  const POLL_CAP: nat := 1000

  type Status = int

  datatype Poll = Exited(status: Status) | StillRunning | PollFailed

  /** The spacing before the poll that follows `n` sleeps. */
  function Spacing(n: nat): (d: nat)
    ensures POLL_START <= d <= POLL_CAP
  {
    if n == 0 then POLL_START
    else if Spacing(n - 1) * 2 <= POLL_CAP then Spacing(n - 1) * 2 else POLL_CAP
  }

  /** The sum of the first `n` spacings. */
  function Slept(n: nat): nat { if n == 0 then 0 else Slept(n - 1) + Spacing(n - 1) }

  /** After the doubling phase every spacing is the cap, so `n` sleeps last all but 2.5 caps of `n` caps. */
  lemma {:induction false} SleptGrowsByCap(n: nat)
    ensures 4 <= n ==> Spacing(n) == POLL_CAP
    ensures Slept(n) * 2 + 5 * POLL_CAP >= 2 * n * POLL_CAP
    ensures 4 <= n ==> Slept(n) * 2 + 5 * POLL_CAP == 2 * n * POLL_CAP
  {
    if n > 4 {
      SleptGrowsByCap(n - 1);
    } else {
      assert Spacing(0) == 100 && Spacing(1) == 200 && Spacing(2) == 400 && Spacing(3) == 800 && Spacing(4) == 1000;
      assert Slept(1) == 100 && Slept(2) == 300 && Slept(3) == 700 && Slept(4) == 1500;
    }
  }

  /** The spacing and the sum after `n` sleeps, in closed form: four doublings, then the cap. */
  predicate Doubling(n: nat, spacing: nat, slept: nat) {
    match n
    case 0 => spacing == 100 && slept == 0
    case 1 => spacing == 200 && slept == 100
    case 2 => spacing == 400 && slept == 300
    case 3 => spacing == 800 && slept == 700
    case _ => spacing == 1000 && slept == 1500 + 1000 * (n - 4)
  }

  lemma {:induction false} DoublingIsSlept(n: nat, spacing: nat, slept: nat)
    ensures Doubling(n, spacing, slept) <==> spacing == Spacing(n) && slept == Slept(n)
  {
    SleptGrowsByCap(n);
    assert Spacing(0) == 100 && Spacing(1) == 200 && Spacing(2) == 400 && Spacing(3) == 800 && Spacing(4) == 1000;
    assert Slept(1) == 100 && Slept(2) == 300 && Slept(3) == 700 && Slept(4) == 1500;
  }

  /** Sleeping `n` times without having passed the deadline before the last one. */
  lemma PollBound(n: nat, spacing: nat, slept: nat, last: nat, timeout: nat)
    requires Doubling(n, spacing, slept) && last <= POLL_CAP && (n > 0 ==> slept < timeout + last)
    ensures n + 1 <= timeout / POLL_CAP + 5
  {}

  /** A child, the clock, and the scheduler: what the loop cannot choose is a constant of the host. */
  class Host {
    const exitsAt: Option<nat>  // when the child ends by itself
    const status: Status
    const overshoot: nat -> nat // how much longer than asked the n-th sleep takes
    const lag: nat -> nat       // time between the n-th poll and the deadline check after it
    const broken: nat -> bool   // whether the n-th poll reports an error
    const killFails: bool       // errors of the final kill and wait are swallowed
    const waitFails: bool

    var now: nat
    var polls: nat
    var killed: bool
    var reaped: bool
    ghost var seenAt: nat       // when the last poll was taken

    constructor (exitsAt: Option<nat>, status: Status, overshoot: nat -> nat, lag: nat -> nat, broken: nat -> bool,
                 killFails: bool, waitFails: bool, now: nat)
      ensures this.exitsAt == exitsAt && this.status == status && this.overshoot == overshoot
      ensures this.lag == lag && this.broken == broken && this.now == now
      ensures this.killFails == killFails && this.waitFails == waitFails
      ensures polls == 0 && !killed && !reaped
    {
      this.exitsAt, this.status, this.overshoot := exitsAt, status, overshoot;
      this.lag, this.broken, this.now := lag, broken, now;
      this.killFails, this.waitFails := killFails, waitFails;
      polls, killed, reaped := 0, false, false;
    }

    predicate Ended(t: nat) { exitsAt.Some? && exitsAt.value <= t }

    /** No poll fails, and no time is lost between a poll and its deadline check. */
    ghost predicate Reliable() { forall n :: !broken(n) && lag(n) == 0 }

    /** Time passes in sleeps only, and these last exactly as long as asked. */
    ghost predicate Exact() { forall n :: lag(n) == 0 && overshoot(n) == 0 }

    method TryWait() returns (r: Poll)
      modifies this
      ensures r == if broken(old(polls)) then PollFailed else if Ended(now) then Exited(status) else StillRunning
      ensures polls == old(polls) + 1 && now == old(now) && seenAt == now && killed == old(killed)
      ensures reaped == (old(reaped) || r.Exited?)
    {
      if broken(polls) {
        r := PollFailed;
      } else if exitsAt.Some? && exitsAt.value <= now {
        r, reaped := Exited(status), true;
      } else {
        r := StillRunning;
      }
      polls, seenAt := polls + 1, now;
    }

    method KillAndReap()
      modifies this
      ensures killed == (old(killed) || !killFails) && reaped == (old(reaped) || !waitFails)
      ensures polls == old(polls) && now == old(now) && seenAt == old(seenAt)
    {
      killed := killed || !killFails;
      reaped := reaped || !waitFails;
    }

    /** Returns the child's status or nothing; in every case the child is reaped, unless the last wait fails. */
    method WaitWithTimeout(timeout: nat) returns (r: Option<Status>)
      requires !reaped && !killed && polls == 0
      modifies this
      ensures reaped == (r.Some? || !waitFails) && killed == (r.None? && !killFails)
      ensures r.Some? ==> r.value == status && Ended(now)
      // it gives up only past the deadline, with the child last seen running, or on a failed poll
      ensures r.None? ==>
                polls > 0
                && (broken(polls - 1)
                    || (now == seenAt + lag(polls - 1) && now >= old(now) + timeout && !Ended(seenAt)))
      // a bound on the number of polls
      ensures polls <= timeout / POLL_CAP + 5
      // an exit is noticed at most one cap late, plus what the scheduler adds
      ensures r.Some? && polls > 1 ==>
                now <= exitsAt.value + POLL_CAP + lag(polls - 2) + overshoot(polls - 2)
      ensures r.Some? && polls == 1 ==> now == old(now)
      // and is accepted at most that long past the deadline
      ensures r.Some? && polls > 1 ==> now < old(now) + timeout + POLL_CAP + overshoot(polls - 2)
      // a child that ends in time is not killed, unless a poll fails or time is lost before the check
      ensures Reliable() && Ended(old(now) + timeout) ==> r == Some(status)
      ensures Exact() && !Ended(old(now) + timeout + POLL_CAP) ==> r.None?
    {
      var deadline := now + timeout;
      var interval: nat := POLL_START;
      ghost var start := now;
      ghost var slept: nat, gap: nat := 0, 0;  // the sum of the sleeps asked for, and the last of them
      while true
        invariant Doubling(polls, interval, slept) && !reaped && !killed
        invariant now >= start + slept
        invariant polls == 0 ==> now == start && gap == 0
        invariant polls > 0 ==> 0 < gap <= POLL_CAP && gap <= slept < timeout + gap && !Ended(seenAt)
        invariant polls > 0 ==> now == seenAt + lag(polls - 1) + gap + overshoot(polls - 1)
        invariant polls > 0 ==> seenAt + lag(polls - 1) < deadline
        decreases timeout - (if polls == 0 then -1 else slept - gap)
      {
        PollBound(polls, interval, slept, gap, timeout);
        var seen := TryWait();
        if seen.Exited? {
          return Some(seen.status);
        }
        if seen.PollFailed? {
          KillAndReap();
          return None;
        }
        now := now + lag(polls - 1);
        if now >= deadline {
          KillAndReap();
          return None;
        }
        now := now + interval + overshoot(polls - 1);
        slept, gap := slept + interval, interval;
        interval := if interval * 2 <= POLL_CAP then interval * 2 else POLL_CAP;
      }
    }
  }
}
