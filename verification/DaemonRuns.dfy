/** Whole lives of a daemon object: started on a disk, then driven by any calls. */
module DaemonRuns {
  import opened Results
  import opened Legs
  import opened DaemonProfiles
  import opened DaemonSync
  import opened DaemonHistories
  import opened DaemonLegs
  import opened DaemonDns
  import PS = ProfileStore
  import M = DaemonModel
  import opened Daemon

  /** No call of the run parts memory and disk in the given sense. */
  predicate Unparted(c: M.Config, d: PS.Disk, bound: Option<Endpoint>, now: int, w: PS.Faults, calls: seq<M.Call>,
                     parts: (M.Config, M.State, M.Call) -> bool)
  {
    forall i :: 0 <= i < |calls| ==> !parts(c, RunOf(c, d, bound, now, w, calls[..i]), calls[i])
  }

  lemma Shorter(c: M.Config, d: PS.Disk, bound: Option<Endpoint>, now: int, w: PS.Faults, calls: seq<M.Call>,
                parts: (M.Config, M.State, M.Call) -> bool)
    requires calls != [] && Unparted(c, d, bound, now, w, calls, parts)
    ensures var front := calls[..|calls| - 1];
            && Unparted(c, d, bound, now, w, front, parts)
            && !parts(c, RunOf(c, d, bound, now, w, front), calls[|calls| - 1])
  {
    var front := calls[..|calls| - 1];
    assert forall i :: 0 <= i < |front| ==> front[..i] == calls[..i] && front[i] == calls[i];
  }

  /** Over a run memory holds exactly the marked profile as long as neither the start nor a call separates the two. */
  lemma {:induction false} RunInStep(c: M.Config, d: PS.Disk, bound: Option<Endpoint>, now: int, w: PS.Faults,
                                     calls: seq<M.Call>)
    requires Bootable(c, d) && !BootSeparates(c, d, w) && Unparted(c, d, bound, now, w, calls, Separates)
    ensures InStep(c, RunOf(c, d, bound, now, w, calls))
  {
    hide M.Handle, M.LoadPersisted, Separates, Diverges, Exact, Marked, Mirrored, Sane, Unparted;
    if calls == [] {
      BootIsExact(c, d, bound, now, w);
    } else {
      var front, call := calls[..|calls| - 1], calls[|calls| - 1];
      Shorter(c, d, bound, now, w, calls, Separates);
      RunInStep(c, d, bound, now, w, front);
      HandleIsExact(c, RunOf(c, d, bound, now, w, front), call);
      ExactKeeps(c, RunOf(c, d, bound, now, w, front), call);
    }
  }

  /** And bundle, override and mode are the stored ones as long as none diverges. */
  lemma {:induction false} RunIsFaithful(c: M.Config, d: PS.Disk, bound: Option<Endpoint>, now: int, w: PS.Faults,
                                         calls: seq<M.Call>)
    requires Bootable(c, d) && !BootSeparates(c, d, w) && Unparted(c, d, bound, now, w, calls, Diverges)
    ensures Faithful(c, RunOf(c, d, bound, now, w, calls))
  {
    hide M.Handle, M.LoadPersisted, Separates, Diverges, Exact, Marked, Mirrored, Sane, Unparted;
    if calls == [] {
      BootIsExact(c, d, bound, now, w);
    } else {
      var front, call := calls[..|calls| - 1], calls[|calls| - 1];
      Shorter(c, d, bound, now, w, calls, Diverges);
      RunIsFaithful(c, d, bound, now, w, front);
      HandleIsExact(c, RunOf(c, d, bound, now, w, front), call);
      ExactKeeps(c, RunOf(c, d, bound, now, w, front), call);
    }
  }

  /**
    The object ends where the run of the model ends.  There the legs fit the
    mode and the resolver fits the forwarder, whatever failed; and memory agrees
    with the disk unless the start or some call parted the two.
  */
  method Live(c: M.Config, disk: PS.Disk, bound: Option<Endpoint>, now: int, w: PS.Faults, calls: seq<M.Call>)
    returns (d: Daemon)
    requires Bootable(c, disk)
    ensures d.Value() == RunOf(c, disk, bound, now, w, calls)
    ensures Sane(c, d.Value()) && LegsFit(d.Value()) && DnsFits(c, d.Value())
    ensures !BootSeparates(c, disk, w) && Unparted(c, disk, bound, now, w, calls, Separates) ==> InStep(c, d.Value())
    ensures !BootSeparates(c, disk, w) && Unparted(c, disk, bound, now, w, calls, Diverges) ==> Faithful(c, d.Value())
  {
    hide M.LoadPersisted, InStep, Faithful, Sane, LegsFit, DnsFits, Bootable, M.Served, Unparted, BootSeparates;
    var store := new PS.Store(c.lower, c.trust, disk);
    d := new Daemon(c, store, bound);
    d.LoadPersistedBundle(now, w);
    d.Serve(calls);
    RunSane(c, disk, bound, now, w, calls);
    RunLegsFit(c, disk, bound, now, w, calls);
    RunDnsFits(c, disk, bound, now, w, calls);
    if !BootSeparates(c, disk, w) && Unparted(c, disk, bound, now, w, calls, Separates) {
      RunInStep(c, disk, bound, now, w, calls);
    }
    if !BootSeparates(c, disk, w) && Unparted(c, disk, bound, now, w, calls, Diverges) {
      RunIsFaithful(c, disk, bound, now, w, calls);
    }
  }
}
