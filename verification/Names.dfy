/**
  The pure part of internal/names: grading a snapshot, looking a name up in it,
  and choosing between the snapshot and an observation.  Times are nanoseconds,
  Unix times whole seconds; 64-bit durations wrap and saturate as Go's do.
*/
module Names {
  import opened Results
  import opened Text

  const SECOND: int := 1_000_000_000

  const FRESH_BOUND: int := 7 * 24 * 3600 * SECOND

  const MAX_DURATION: int := 0x7FFF_FFFF_FFFF_FFFF

  const MIN_DURATION: int := -0x8000_0000_0000_0000

  type uint64 = x: int | 0 <= x < 0x1_0000_0000_0000_0000

  /** time.Duration(n) * time.Second, as 64-bit machine arithmetic does it. */
  function WrapSeconds(n: uint64): int
  {
    (n * SECOND + 0x8000_0000_0000_0000) % 0x1_0000_0000_0000_0000 - 0x8000_0000_0000_0000
  }

  /** Time.Sub saturates at the ends of the 64-bit range. */
  function Since(now: int, unix: int): int
  {
    var d := now - unix * SECOND;
    if d > MAX_DURATION then MAX_DURATION else if d < MIN_DURATION then MIN_DURATION else d
  }

  /** Time.Unix: whole seconds, rounded down. */
  function Unix(now: int): int
  {
    now / SECOND
  }

  datatype Record = Record(name: string, ip: string)

  datatype PeerBinding = PeerBinding(name: string, anchor: string)

  datatype Snapshot = Snapshot(
    serial: uint64, generatedAt: int, ttl: uint64,
    records: seq<Record>, bindings: seq<PeerBinding>)

  datatype Observation = Observation(name: string, ip: string, observedAt: int)

  datatype Grade = Fresh | Aging | Expired

  function GradeAt(snap: Snapshot, now: int): Grade
  {
    var age := Since(now, snap.generatedAt);
    if snap.generatedAt <= 0 || age >= WrapSeconds(snap.ttl) then Expired
    else if age >= FRESH_BOUND then Aging
    else Fresh
  }

  lemma WrapIsFailClosed(n: uint64)
    ensures WrapSeconds(n) <= n * SECOND
    ensures n * SECOND <= MAX_DURATION ==> WrapSeconds(n) == n * SECOND
    ensures MIN_DURATION <= WrapSeconds(n) <= MAX_DURATION
  {
    var m := n * SECOND;
    if m <= MAX_DURATION {
      assert (m + 0x8000_0000_0000_0000) % 0x1_0000_0000_0000_0000 == m + 0x8000_0000_0000_0000;
    }
  }

  lemma RestIsMultiple(w: int, m: int)
    requires m > 0
    ensures (w - w % m) % m == 0
  {
    var q := w / m;
    assert w - w % m == q * m;
    assert (q * m) % m == 0 by {
      var d := q * m / m - q;
      assert d * m == -((q * m) % m);
      assert d >= 1 ==> d * m >= m;
      assert d <= -1 ==> d * m <= -m;
    }
  }

  /** Nothing but multiples of 2^64 is ever lost. */
  lemma WrapIsCongruent(n: uint64)
    ensures (n * SECOND - WrapSeconds(n)) % 0x1_0000_0000_0000_0000 == 0
  {
    RestIsMultiple(n * SECOND + 0x8000_0000_0000_0000, 0x1_0000_0000_0000_0000);
  }

  /** The elapsed time, unless it lies outside the 64-bit range: then its nearer end. */
  lemma SinceIsClamped(now: int, unix: int)
    ensures var d := now - unix * SECOND;
            && (-0x8000_0000_0000_0000 <= d <= 0x7FFF_FFFF_FFFF_FFFF ==> Since(now, unix) == d)
            && -0x8000_0000_0000_0000 <= Since(now, unix) <= 0x7FFF_FFFF_FFFF_FFFF
            && (Since(now, unix) < d ==> Since(now, unix) == 0x7FFF_FFFF_FFFF_FFFF)
            && (Since(now, unix) > d ==> Since(now, unix) == -0x8000_0000_0000_0000)
  {
  }

  /** A served snapshot is fresh for its first seven days and aging from then on. */
  lemma FreshForAWeek(snap: Snapshot, now: int)
    ensures GradeAt(snap, now) != Expired <==>
              snap.generatedAt > 0 && Since(now, snap.generatedAt) < WrapSeconds(snap.ttl)
    ensures GradeAt(snap, now) != Expired ==>
              (GradeAt(snap, now) == Fresh <==> now - snap.generatedAt * 1_000_000_000 < 604_800 * 1_000_000_000)
  {
    SinceIsClamped(now, snap.generatedAt);
  }

  /**
    A snapshot that is served is inside its declared TTL, for every 64-bit TTL:
    overflow can only refuse.  For a TTL that does not overflow a 64-bit
    duration (292 years) it is served exactly then.
  */
  lemma ServedIsInsideTtl(snap: Snapshot, now: int)
    ensures GradeAt(snap, now) != Expired ==>
              snap.generatedAt > 0 && now - snap.generatedAt * SECOND < snap.ttl * SECOND
    ensures snap.ttl * SECOND <= MAX_DURATION ==>
              (GradeAt(snap, now) != Expired <==>
               snap.generatedAt > 0 && now - snap.generatedAt * SECOND < snap.ttl * SECOND)
  {
    WrapIsFailClosed(snap.ttl);
  }

  /**
    A snapshot is served throughout its declared TTL if and only if that fits a
    64-bit duration; otherwise it is refused at some time inside it.
  */
  lemma TtlIsHonoured(snap: Snapshot)
    requires snap.generatedAt > 0
    ensures (forall now :: now >= snap.generatedAt * SECOND ==>
               (GradeAt(snap, now) != Expired <==> now - snap.generatedAt * SECOND < snap.ttl * SECOND))
            <==> snap.ttl * SECOND <= MAX_DURATION
  {
    if snap.ttl * SECOND <= MAX_DURATION {
      forall now | now >= snap.generatedAt * SECOND
        ensures GradeAt(snap, now) != Expired <==> now - snap.generatedAt * SECOND < snap.ttl * SECOND
      {
        ServedIsInsideTtl(snap, now);
      }
    } else {
      WrapIsFailClosed(snap.ttl);
      var age := if WrapSeconds(snap.ttl) > 0 then WrapSeconds(snap.ttl) else 0;
      var now := snap.generatedAt * SECOND + age;
      assert GradeAt(snap, now) == Expired && age < snap.ttl * SECOND;
    }
  }

  /** Names compare case-insensitively and without one trailing dot. */
  function Normalize(lower: char -> char, name: string): string
  {
    Map(lower, if name != "" && name[|name| - 1] == '.' then name[..|name| - 1] else name)
  }

  /** One trailing dot does not count, nor does anything the map takes to the same character. */
  lemma NormalizeIsUndotted(lower: char -> char, name: string)
    ensures Normalize(lower, name + ".") == Map(lower, name)
    ensures (name == "" || name[|name| - 1] != '.') ==> Normalize(lower, name) == Map(lower, name)
  {
    hide Map;
    assert (name + ".")[..|name|] == name;
  }

  function Lookup(lower: char -> char, records: seq<Record>, want: string): Option<Record>
  {
    if records == [] then None
    else if Map(lower, records[0].name) == want then Some(records[0])
    else Lookup(lower, records[1..], want)
  }

  /** Lookup finds a record iff the snapshot has one, and then the first. */
  lemma {:induction false} LookupIsFirst(lower: char -> char, records: seq<Record>, want: string)
    ensures Lookup(lower, records, want).None? <==>
            forall i :: 0 <= i < |records| ==> Map(lower, records[i].name) != want
    ensures Lookup(lower, records, want).Some? ==>
            exists i :: 0 <= i < |records| && records[i] == Lookup(lower, records, want).value
              && Map(lower, records[i].name) == want
              && forall j :: 0 <= j < i ==> Map(lower, records[j].name) != want
  {
    if records != [] && Map(lower, records[0].name) != want {
      LookupIsFirst(lower, records[1..], want);
      var rest := records[1..];
      assert forall i :: 1 <= i < |records| ==> records[i] == rest[i - 1];
      if Lookup(lower, rest, want).Some? {
        var i :| 0 <= i < |rest| && rest[i] == Lookup(lower, rest, want).value
          && Map(lower, rest[i].name) == want
          && forall j :: 0 <= j < i ==> Map(lower, rest[j].name) != want;
        assert records[i + 1] == rest[i];
        forall j | 0 <= j < i + 1 ensures Map(lower, records[j].name) != want {
          assert j > 0 ==> records[j] == rest[j - 1];
        }
      }
    } else if records != [] {
      assert records[0].name == records[0].name;
    }
  }

  // ---- the fallback choice ----

  datatype Addr = Addr(v6: bool, bits: nat)

  /** What is used of netip: parsing, and rendering that parses back. */
  datatype Netip = Netip(parse: string -> Option<Addr>, show: Addr -> string)

  datatype Answer =
    | FromSnapshot(ip: Addr, serial: uint64, grade: Grade)
    | FromObserved(ip: Addr, age: int)

  datatype Refusal =
    | SnapshotUnavailable | SnapshotExpired | NotInSnapshot
    | MalformedSnapshotIp | MalformedObservedIp

  function ObservedAnswer(net: Netip, obs: Observation, now: int): Result<Answer, Refusal>
  {
    match net.parse(obs.ip)
    case None => Err(MalformedObservedIp)
    case Some(ip) =>
      var age := Since(now, obs.observedAt);
      Ok(FromObserved(ip, if age < 0 then 0 else age))
  }

  /** `snap` is None when the snapshot tier could not be consulted. */
  function PickFallback(lower: char -> char, net: Netip, snap: Option<Snapshot>, obs: Option<Observation>,
                        name: string, now: int): Result<Answer, Refusal>
  {
    match snap
    case None =>
      if obs.Some? then ObservedAnswer(net, obs.value, now) else Err(SnapshotUnavailable)
    case Some(s) =>
      if GradeAt(s, now) == Expired then
        if obs.Some? then ObservedAnswer(net, obs.value, now) else Err(SnapshotExpired)
      else
        match Lookup(lower, s.records, Normalize(lower, name))
        case None =>
          if obs.Some? then ObservedAnswer(net, obs.value, now) else Err(NotInSnapshot)
        case Some(rec) =>
          if obs.Some? && obs.value.ip != rec.ip && obs.value.observedAt > s.generatedAt then
            ObservedAnswer(net, obs.value, now)
          else
            match net.parse(rec.ip)
            case None => Err(MalformedSnapshotIp)
            case Some(ip) => Ok(FromSnapshot(ip, s.serial, GradeAt(s, now)))
  }

  /** The record an unexpired snapshot holds for the name, if it can be consulted and has one. */
  function Canonical(lower: char -> char, snap: Option<Snapshot>, name: string, now: int): Option<Record>
  {
    if snap.Some? && GradeAt(snap.value, now) != Expired
    then Lookup(lower, snap.value.records, Normalize(lower, name)) else None
  }

  /** It is the first record of the undotted, lowered name, when there is one and the snapshot is not expired. */
  lemma CanonicalIsFirst(lower: char -> char, snap: Snapshot, name: string, now: int)
    ensures var found := Canonical(lower, Some(snap), name, now);
            var named := i => 0 <= i < |snap.records| && Map(lower, snap.records[i].name) == Normalize(lower, name);
            && (found.None? <==> GradeAt(snap, now) == Expired || forall i :: !named(i))
            && (found.Some? ==>
                  exists i :: named(i) && snap.records[i] == found.value && forall j :: j < i ==> !named(j))
            && Canonical(lower, None, name, now).None?
  {
    hide GradeAt;
    var want := Normalize(lower, name);
    LookupIsFirst(lower, snap.records, want);
    if Canonical(lower, Some(snap), name, now).Some? {
      var i :| 0 <= i < |snap.records| && snap.records[i] == Lookup(lower, snap.records, want).value
        && Map(lower, snap.records[i].name) == want
        && forall j :: 0 <= j < i ==> Map(lower, snap.records[j].name) != want;
      var named := k => 0 <= k < |snap.records| && Map(lower, snap.records[k].name) == want;
      assert named(i) && snap.records[i] == Canonical(lower, Some(snap), name, now).value;
    }
  }

  /**
    Canonical wins unless a conflicting observation is newer than the snapshot;
    the observation answers otherwise, with its age, none being negative; a
    refusal means neither tier had a well-formed address to give.
  */
  lemma FallbackChoice(lower: char -> char, net: Netip, snap: Option<Snapshot>, obs: Option<Observation>,
                       name: string, now: int)
    ensures var r := PickFallback(lower, net, snap, obs, name, now);
            var rec := Canonical(lower, snap, name, now);
            var observedWins :=
              obs.Some? && (rec.Some? ==> obs.value.ip != rec.value.ip
                                          && obs.value.observedAt > snap.value.generatedAt);
            && (forall ip, serial, g :: r == Ok(FromSnapshot(ip, serial, g)) <==>
                  rec.Some? && !observedWins && net.parse(rec.value.ip) == Some(ip)
                  && serial == snap.value.serial && g == GradeAt(snap.value, now))
            && ((r.Ok? && r.value.FromObserved?) <==> observedWins && net.parse(obs.value.ip).Some?)
            && (r.Ok? && r.value.FromObserved? ==>
                  net.parse(obs.value.ip) == Some(r.value.ip)
                  && r.value.age == if now <= obs.value.observedAt * SECOND then 0
                                    else Since(now, obs.value.observedAt))
            && (r.Err? <==> if observedWins then net.parse(obs.value.ip).None?
                            else rec.None? || net.parse(rec.value.ip).None?)
            && (r == Err(SnapshotUnavailable) <==> obs.None? && snap.None?)
            && (r == Err(SnapshotExpired) <==> obs.None? && snap.Some? && GradeAt(snap.value, now) == Expired)
            && (r == Err(MalformedSnapshotIp) <==> r.Err? && rec.Some? && !observedWins)
            && (r == Err(MalformedObservedIp) <==> r.Err? && observedWins)
  {
    hide GradeAt, Normalize, Lookup;
    if obs.Some? {
      SinceIsClamped(now, obs.value.observedAt);
    }
  }
}
