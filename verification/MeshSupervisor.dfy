/**
  The waits of the mesh supervisor: a fixed interval while there is nothing to
  do, and a capped doubling one over a streak of failed reconnects.
*/
module MeshSupervisor {
  import opened Modes
  import opened Legs
  import M = DaemonModel

  /** What one wake-up found and did. */
  datatype Tick =
    /** The mesh is not wanted, not in the mode, not there, or has no bundle. */
    | Idle
    /** Wanted, and up. */
    | Up
    /** Wanted, and neither up nor in an error: left alone. */
    | Unsettled
    /** Wanted and in an error: reconnected, or not. */
    | Retried(ok: bool)

  const DEFAULT_BASE: int := 15
  const DEFAULT_MAX: int := 120

  function Base(configured: int): (b: int)
    ensures b > 0 && (configured > 0 ==> b == configured)
  {
    if configured <= 0 then DEFAULT_BASE else configured
  }

  function Max(configured: int): (m: int)
    ensures m > 0 && (configured > 0 ==> m == configured)
  {
    if configured <= 0 then DEFAULT_MAX else configured
  }

  function Pow2(n: nat): nat
  {
    if n == 0 then 1 else 2 * Pow2(n - 1)
  }

  /** Failed reconnects since the mesh was last idle, up or recovered; unsettled ticks neither count nor reset. */
  function Streak(ticks: seq<Tick>): nat
  {
    if ticks == [] then 0
    else
      var before := Streak(ticks[..|ticks| - 1]);
      match ticks[|ticks| - 1]
      case Unsettled => before
      case Retried(ok) => if ok then 0 else before + 1
      case _ => 0
  }

  /** The wait after the failure that follows k others: doubled k times, capped once doubled. */
  function Backoff(base: int, max: int, k: nat): int
  {
    if k == 0 || base * Pow2(k) <= max then base * Pow2(k) else max
  }

  /** The wait after the last tick. */
  function WaitAfter(base: int, max: int, ticks: seq<Tick>): int
  {
    if ticks != [] && ticks[|ticks| - 1] == Retried(false)
    then Backoff(base, max, Streak(ticks[..|ticks| - 1])) else base
  }

  lemma DoublingIsBackoff(base: int, max: int, k: nat)
    requires base > 0 && max > 0
    ensures var d := 2 * Backoff(base, max, k); (if d > max then max else d) == Backoff(base, max, k + 1)
  {
    assert base * Pow2(k + 1) == 2 * (base * Pow2(k));
    PowPositive(k);
  }

  lemma {:induction false} PowPositive(k: nat)
    ensures Pow2(k) >= 1
  {
    if k > 0 {
      PowPositive(k - 1);
    }
  }

  /** The tick ends a streak: the mesh was not to be up, or is. */
  predicate Ends(t: Tick)
  {
    t == Idle || t == Tick.Up || t == Retried(true)
  }

  /** The failed reconnects from the k-th tick on. */
  function FailuresFrom(ticks: seq<Tick>, k: nat): set<nat>
  {
    set i: nat | k <= i < |ticks| && ticks[i] == Retried(false)
  }

  /** The streak is the number of failed reconnects since the last tick that ends one. */
  lemma {:induction false} StreakIsCounted(ticks: seq<Tick>) returns (k: nat)
    ensures k <= |ticks| && (k > 0 ==> Ends(ticks[k - 1]))
    ensures forall i :: k <= i < |ticks| ==> !Ends(ticks[i])
    ensures Streak(ticks) == |FailuresFrom(ticks, k)|
  {
    if ticks == [] {
      k := 0;
      assert FailuresFrom(ticks, k) == {};
    } else {
      var n := |ticks| - 1;
      k := StreakIsCounted(ticks[..n]);
      if Ends(ticks[n]) {
        k := n + 1;
        assert FailuresFrom(ticks, k) == {};
      } else if ticks[n] == Retried(false) {
        assert FailuresFrom(ticks, k) == FailuresFrom(ticks[..n], k) + {n};
      } else {
        assert FailuresFrom(ticks, k) == FailuresFrom(ticks[..n], k);
      }
    }
  }

  /**
    What a wake-up does: nothing, unless a wanted mesh of a mesh mode with a
    bundle is in an error; then it brings that very handle up again, and reports
    whether it came up.
  */
  lemma TickIsWhatHappens(s: M.State, f: M.LegFaults)
    ensures var n, t := M.SuperviseMesh(s, f).s, TickOf(s, f);
            var broken := s.mesh.Some? && s.mesh.value.state == Error;
            var due := s.meshWanted && (s.mode == NetbirdOnly || s.mode == Combined) && s.bundle.Some? && broken;
            && (t.Retried? <==> due)
            && (!due ==> n == s)
            && (due ==>
                  && n == s.(mesh := n.mesh) && n.mesh.Some?
                  && (t.ok <==> n.mesh.value.state == LegState.Up)
                  && (t.ok <==> !s.mesh.value.closed && f.mesh.Succeeds?))
  {
  }

  lemma NoTicks(base: int, max: int)
    ensures WaitAfter(base, max, []) == base == Backoff(base, max, Streak([]))
  {
    assert base * Pow2(0) == base;
  }

  /** A wake-up without a failure is followed by the plain interval, and so is the first failure of a streak. */
  lemma CalmWaits(base: int, max: int, ticks: seq<Tick>, t: Tick)
    ensures t != Retried(false) ==> WaitAfter(base, max, ticks + [t]) == base
    ensures Ends(t) ==> WaitAfter(base, max, ticks + [t, Retried(false)]) == base
  {
    var all := ticks + [t, Retried(false)];
    assert all[..|all| - 1] == ticks + [t];
    assert (ticks + [t])[|ticks|] == t;
    assert base * Pow2(0) == base;
  }

  // ---- the daemon's ticks ----

  /** What is served before a wake-up, and how a bring-up then ends. */
  datatype Round = Round(calls: seq<M.Call>, f: M.LegFaults)

  /** The state after rounds of calls, each followed by a wake-up of the supervisor. */
  function After(c: M.Config, s: M.State, rounds: seq<Round>): M.State
    decreases |rounds|, 1
  {
    if rounds == [] then s
    else M.SuperviseMesh(Woken(c, s, rounds), rounds[|rounds| - 1].f).s
  }

  /** The state the last wake-up finds. */
  function Woken(c: M.Config, s: M.State, rounds: seq<Round>): M.State
    requires rounds != []
    decreases |rounds|, 0
  {
    M.Served(c, After(c, s, rounds[..|rounds| - 1]), rounds[|rounds| - 1].calls)
  }

  /** What a wake-up finds in a state, and does. */
  function TickOf(s: M.State, f: M.LegFaults): Tick
  {
    if !s.meshWanted || !IncludesNetbird(s.mode) || s.mesh.None? || s.bundle.None? then Idle
    else if s.mesh.value.state == LegState.Up then Tick.Up
    else if s.mesh.value.state != Error then Unsettled
    else Retried(M.MeshComesUp(s, f))
  }

  function TicksOf(c: M.Config, s: M.State, rounds: seq<Round>): seq<Tick>
  {
    if rounds == [] then []
    else TicksOf(c, s, rounds[..|rounds| - 1]) + [TickOf(Woken(c, s, rounds), rounds[|rounds| - 1].f)]
  }

  /** The wait a tick arms, and the delay it leaves for the next failure. */
  method NextWait(base: int, max: int, delay: int, t: Tick, ghost before: seq<Tick>) returns (wait: int, next: int)
    requires base > 0 && max > 0 && delay == Backoff(base, max, Streak(before))
    ensures wait == WaitAfter(base, max, before + [t])
    ensures next == Backoff(base, max, Streak(before + [t]))
  {
    assert (before + [t])[..|before|] == before;
    assert base * Pow2(0) == base;
    wait, next := base, delay;
    match t
    case Idle => next := base;
    case Up => next := base;
    case Unsettled =>
    case Retried(ok) =>
      if ok {
        next := base;
      } else {
        DoublingIsBackoff(base, max, Streak(before));
        wait, next := delay, delay * 2;
        if next > max {
          next := max;
        }
      }
  }

  /** While nothing else is called and every reconnect fails, the waits double up to the cap. */
  lemma {:induction false} FailingRun(c: M.Config, s: M.State, rounds: seq<Round>, base: int, max: int)
    requires s.meshWanted && IncludesNetbird(s.mode) && s.bundle.Some?
    requires s.mesh.Some? && s.mesh.value.state == Error && !s.mesh.value.closed
    requires forall i :: 0 <= i < |rounds| ==> rounds[i].calls == [] && rounds[i].f.mesh.Fails?
    ensures var n := After(c, s, rounds);
            n == s.(mesh := n.mesh) && n.mesh.Some? && n.mesh.value.state == Error && !n.mesh.value.closed
    ensures Streak(TicksOf(c, s, rounds)) == |rounds|
    ensures rounds != [] ==> WaitAfter(base, max, TicksOf(c, s, rounds)) == Backoff(base, max, |rounds| - 1)
  {
    if rounds != [] {
      var front := rounds[..|rounds| - 1];
      FailingRun(c, s, front, base, max);
      var ticks := TicksOf(c, s, rounds);
      assert ticks == TicksOf(c, s, front) + [Retried(false)];
      assert ticks[..|ticks| - 1] == TicksOf(c, s, front);
    }
  }

  /** With the interval within the limit, waits never leave the two and never shrink along a streak. */
  lemma {:induction false} BackoffIsBounded(base: int, max: int, j: nat, k: nat)
    requires 0 < base <= max && j <= k
    ensures base <= Backoff(base, max, j) <= Backoff(base, max, k) <= max
    ensures Backoff(base, max, 0) == base
    ensures Backoff(base, max, k + 1) == if 2 * Backoff(base, max, k) < max then 2 * Backoff(base, max, k) else max
    decreases k - j
  {
    DoublingIsBackoff(base, max, k);
    if j < k {
      BackoffIsBounded(base, max, j, k - 1);
      DoublingIsBackoff(base, max, k - 1);
    } else {
      PowPositive(k);
      BaseTimes(base, Pow2(k));
    }
  }

  lemma BaseTimes(base: int, n: nat)
    requires base > 0 && n >= 1
    ensures base * n >= base
  {
  }
}
