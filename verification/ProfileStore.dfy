/**
  The multi-profile store of internal/profile.  The disk is two maps of files
  and the active marker; every operation is a plan of atomic file steps, and
  the Store class executes exactly those plans step by step.
*/
module ProfileStore {
  import opened Results
  import opened Text
  import opened Slug
  import opened Modes

  type Bytes = string

  datatype Meta = Meta(
    name: string, mode: Mode, createdAt: int, updatedAt: int,
    rosenpassEnabled: Option<bool>, rosenpassPermissive: Option<bool>)

  /**
    `<slug>.meta.json` and `<slug>.cbor` by slug, and the slug in active.json
    ("" both when the file is absent and when it says so).
  */
  datatype Disk = Disk(metas: map<string, Meta>, bundles: map<string, Bytes>, marker: string)

  /** The profile a migration or a first import creates. */
  const DEFAULT_NAME: string := "default"

  const EMPTY_DISK: Disk := Disk(map[], map[], "")

  /** One file step: a temp-file-and-rename write, or an unlink. */
  datatype Step =
    | WriteBundle(slug: string, bytes: Bytes)
    | WriteMeta(slug: string, m: Meta)
    | RemoveBundle(slug: string)
    | RemoveMeta(slug: string)
    | WriteMarker(slug: string)

  function Do(d: Disk, s: Step): Disk
  {
    match s
    case WriteBundle(slug, bytes) => d.(bundles := d.bundles[slug := bytes])
    case WriteMeta(slug, m) => d.(metas := d.metas[slug := m])
    case RemoveBundle(slug) => d.(bundles := d.bundles - {slug})
    case RemoveMeta(slug) => d.(metas := d.metas - {slug})
    case WriteMarker(slug) => d.(marker := slug)
  }

  function Replay(d: Disk, steps: seq<Step>): Disk
  {
    if steps == [] then d else Do(Replay(d, steps[..|steps| - 1]), steps[|steps| - 1])
  }

  lemma ReplayNothing(d: Disk)
    ensures Replay(d, []) == d
  {
  }

  lemma {:induction false} ReplayAppend(d: Disk, a: seq<Step>, b: seq<Step>)
    ensures Replay(d, a + b) == Replay(Replay(d, a), b)
  {
    if b == [] {
      assert a + b == a;
    } else {
      assert (a + b)[..|a + b| - 1] == a + b[..|b| - 1];
      ReplayAppend(d, a, b[..|b| - 1]);
    }
  }

  lemma ReplaySnoc(d: Disk, a: seq<Step>, s: Step)
    ensures Replay(d, a + [s]) == Do(Replay(d, a), s)
  {
    assert (a + [s])[..|a|] == a;
  }

  /** Which kinds of file step fail during an operation. */
  datatype Faults = Faults(
    writeBundle: bool, writeMeta: bool, removeBundle: bool, removeMeta: bool, writeMarker: bool)

  const NO_FAULTS: Faults := Faults(false, false, false, false, false)

  /** The bundle checks, each a predicate on the bytes. */
  datatype Trust = Trust(
    rootsEmpty: bool, parses: Bytes -> bool, trusted: Bytes -> bool, paired: Bytes -> bool)

  datatype StoreError =
    | BadName(cause: NameError) | InvalidMode | EmptyBundle | BadBundle | NoTrustRoots | Untrusted | Unpaired
    | AlreadyExists | NotFound | IOError

  /** Add's checks of the bundle, in order. */
  function CheckBundle(t: Trust, b: Bytes): Option<StoreError>
  {
    if b == "" then Some(EmptyBundle)
    else if !t.parses(b) then Some(BadBundle)
    else if t.rootsEmpty then Some(NoTrustRoots)
    else if !t.trusted(b) then Some(Untrusted)
    else if !t.paired(b) then Some(Unpaired)
    else None
  }

  predicate Accepts(t: Trust, b: Bytes)
  {
    CheckBundle(t, b).None?
  }

  datatype Info = Info(slug: string, m: Meta, active: bool)

  datatype AddRequest = AddRequest(name: string, mode: Mode, bytes: Bytes, replace: bool)

  /** The file steps an operation takes and what it returns. */
  datatype Outcome<R> = Outcome(steps: seq<Step>, result: Result<R, StoreError>)

  /** The meta Add writes: a replaced profile keeps its creation time. */
  function AddedMeta(d: Disk, slug: string, req: AddRequest, now: int): Meta
  {
    Meta(TrimSpace(req.name), req.mode,
         if req.replace && slug in d.metas then d.metas[slug].createdAt else now, now, None, None)
  }

  /** Bundle, then meta; a failed meta write takes the bundle out again. */
  function PlanInstall(slug: string, bytes: Bytes, m: Meta, f: Faults): seq<Step>
  {
    if f.writeBundle then []
    else if f.writeMeta then [WriteBundle(slug, bytes)] + (if f.removeBundle then [] else [RemoveBundle(slug)])
    else [WriteBundle(slug, bytes), WriteMeta(slug, m)]
  }

  function PlanAdd(lower: char -> char, t: Trust, d: Disk, req: AddRequest, now: int, f: Faults): Outcome<Info>
  {
    var v := ValidateName(lower, req.name);
    if v.Err? then Outcome([], Err(BadName(v.error)))
    else if !Modes.Valid(req.mode) then Outcome([], Err(InvalidMode))
    else if !Accepts(t, req.bytes) then Outcome([], Err(CheckBundle(t, req.bytes).value))
    else
      var slug := v.value;
      if !req.replace && slug in d.metas then Outcome([], Err(AlreadyExists))
      else
        var m := AddedMeta(d, slug, req, now);
        Outcome(PlanInstall(slug, req.bytes, m, f),
                if f.writeBundle || f.writeMeta then Err(IOError) else Ok(Info(slug, m, slug == d.marker)))
  }

  function PlanRemove(d: Disk, slug: string, f: Faults): Outcome<()>
  {
    if slug !in d.metas then Outcome([], Err(NotFound))
    else if f.removeMeta then Outcome([], Err(IOError))
    else if f.removeBundle then Outcome([RemoveMeta(slug)], Err(IOError))
    else if slug != d.marker then Outcome([RemoveMeta(slug), RemoveBundle(slug)], Ok(()))
    else if f.writeMarker then Outcome([RemoveMeta(slug), RemoveBundle(slug)], Err(IOError))
    else Outcome([RemoveMeta(slug), RemoveBundle(slug), WriteMarker("")], Ok(()))
  }

  function RenamedMeta(m: Meta, newName: string, now: int): Meta
  {
    m.(name := TrimSpace(newName), updatedAt := now)
  }

  /** The unlinks of the old files; their failures are ignored. */
  function CleanUp(oldSlug: string, f: Faults): seq<Step>
  {
    (if f.removeBundle then [] else [RemoveBundle(oldSlug)])
    + (if f.removeMeta then [] else [RemoveMeta(oldSlug)])
  }

  /** New files first, then the old ones go, then the marker follows. */
  function PlanMove(oldSlug: string, newSlug: string, data: Bytes, m: Meta, active: bool, f: Faults): seq<Step>
  {
    if f.writeBundle || f.writeMeta then PlanInstall(newSlug, data, m, f)
    else
      var last := if active && !f.writeMarker then [WriteMarker(newSlug)] else [];
      PlanInstall(newSlug, data, m, f) + CleanUp(oldSlug, f) + last
  }

  function PlanRename(lower: char -> char, d: Disk, oldSlug: string, newName: string, now: int,
                      f: Faults): Outcome<Info>
  {
    var v := ValidateName(lower, newName);
    if v.Err? then Outcome([], Err(BadName(v.error)))
    else
      var newSlug := v.value;
      if newSlug == oldSlug then
        if oldSlug !in d.metas then Outcome([], Err(NotFound))
        else
          var m := RenamedMeta(d.metas[oldSlug], newName, now);
          if f.writeMeta then Outcome([], Err(IOError))
          else Outcome([WriteMeta(oldSlug, m)], Ok(Info(oldSlug, m, false)))
      else if newSlug in d.metas then Outcome([], Err(AlreadyExists))
      else if oldSlug !in d.metas || oldSlug !in d.bundles then Outcome([], Err(NotFound))
      else
        var m := RenamedMeta(d.metas[oldSlug], newName, now);
        var active := d.marker == oldSlug;
        Outcome(PlanMove(oldSlug, newSlug, d.bundles[oldSlug], m, active, f),
                if f.writeBundle || f.writeMeta || (active && f.writeMarker) then Err(IOError)
                else Ok(Info(newSlug, m, false)))
  }

  function PlanSetActive(d: Disk, slug: string, f: Faults): Outcome<string>
  {
    if slug != "" && slug !in d.metas then Outcome([], Err(NotFound))
    else if f.writeMarker then Outcome([], Err(IOError))
    else Outcome([WriteMarker(slug)], Ok(d.marker))
  }

  function PlanEdit(d: Disk, slug: string, edit: Meta -> Meta, f: Faults): Outcome<()>
  {
    if slug !in d.metas then Outcome([], Err(NotFound))
    else if f.writeMeta then Outcome([], Err(IOError))
    else Outcome([WriteMeta(slug, edit(d.metas[slug]))], Ok(()))
  }

  function WithMode(mode: Mode, now: int): Meta -> Meta
  {
    (m: Meta) => m.(mode := mode, updatedAt := now)
  }

  function WithRosenpass(enabled: Option<bool>, permissive: Option<bool>, now: int): Meta -> Meta
  {
    (m: Meta) => m.(rosenpassEnabled := enabled, rosenpassPermissive := permissive, updatedAt := now)
  }

  function PlanUpdateMode(d: Disk, slug: string, mode: Mode, now: int, f: Faults): Outcome<()>
  {
    if !Modes.Valid(mode) then Outcome([], Err(InvalidMode))
    else PlanEdit(d, slug, WithMode(mode, now), f)
  }

  function PlanUpdateRosenpass(d: Disk, slug: string, enabled: Option<bool>, permissive: Option<bool>, now: int,
                               f: Faults)
    : Outcome<()>
  {
    PlanEdit(d, slug, WithRosenpass(enabled, permissive, now), f)
  }

  /** Add, then mark active. */
  function PlanAddActive(lower: char -> char, t: Trust, d: Disk, req: AddRequest, now: int, f: Faults)
    : Outcome<Option<string>>
  {
    var added := PlanAdd(lower, t, d, req, now, f);
    match added.result
    case Err(e) => Outcome(added.steps, Err(e))
    case Ok(info) =>
      var marked := PlanSetActive(Replay(d, added.steps), info.slug, f);
      Outcome(added.steps + marked.steps, if marked.result.Ok? then Ok(Some(info.slug)) else Err(IOError))
  }

  /** Import of a legacy single-bundle file as profile "default", into an empty store only. */
  function PlanMigrate(lower: char -> char, t: Trust, d: Disk, legacy: Option<Bytes>, initial: Mode, now: int,
                       f: Faults)
    : Outcome<Option<string>>
  {
    if d.metas != map[] || legacy.None? then Outcome([], Ok(None))
    else if !t.parses(legacy.value) then Outcome([], Err(BadBundle))
    else
      var mode := if Modes.Valid(initial) then initial else DEFAULT;
      PlanAddActive(lower, t, d, AddRequest(DEFAULT_NAME, mode, legacy.value, false), now, f)
  }

  /** Load: meta and bundle; the bundle is parsed but not verified again. */
  function Load(t: Trust, d: Disk, slug: string): Result<(Meta, Bytes), StoreError>
  {
    if slug !in d.metas || slug !in d.bundles then Err(NotFound)
    else if !t.parses(d.bundles[slug]) then Err(BadBundle)
    else Ok((d.metas[slug], d.bundles[slug]))
  }

  /** What a successful Add leaves and answers: a replaced profile keeps its creation time alone. */
  predicate WroteAdded(was: Disk, d: Disk, req: AddRequest, now: int, info: Info)
  {
    && info.slug in d.metas && info.m == d.metas[info.slug] && (info.active <==> info.slug == was.marker)
    && d.marker == was.marker
    && info.m.name == TrimSpace(req.name) && info.m.mode == req.mode && info.m.updatedAt == now
    && info.m.createdAt == (if info.slug in was.metas then was.metas[info.slug].createdAt else now)
    && info.m.rosenpassEnabled.None? && info.m.rosenpassPermissive.None?
  }

  /** What a successful Rename leaves and answers: name and update time are new, the rest is the old profile's. */
  predicate WroteRenamed(was: Disk, d: Disk, oldSlug: string, newName: string, now: int, info: Info)
  {
    && oldSlug in was.metas && info.slug in d.metas && info.m == d.metas[info.slug] && !info.active
    && info.m.name == TrimSpace(newName) && info.m.updatedAt == now
    && info.m.createdAt == was.metas[oldSlug].createdAt && info.m.mode == was.metas[oldSlug].mode
    && info.m.rosenpassEnabled == was.metas[oldSlug].rosenpassEnabled
    && info.m.rosenpassPermissive == was.metas[oldSlug].rosenpassPermissive
  }

  class Store {
    const lower: char -> char
    const trust: Trust
    var disk: Disk
    /** Every file step taken, in order, since `origin`. */
    ghost var steps: seq<Step>
    ghost const origin: Disk

    ghost predicate Valid()
      reads this
    {
      disk == Replay(origin, steps)
    }

    constructor (lower: char -> char, trust: Trust, disk: Disk)
      ensures Valid() && steps == [] && this.disk == disk && origin == disk
      ensures this.lower == lower && this.trust == trust
    {
      this.lower, this.trust, this.disk := lower, trust, disk;
      steps, origin := [], disk;
    }

    /** The operation took exactly the plan's steps, one after the other. */
    twostate predicate Took(plan: seq<Step>)
      reads this
    {
      Valid() && steps == old(steps) + plan && disk == Replay(old(disk), plan)
    }

    /** One atomic file step, unless it fails. */
    method Attempt(s: Step, fails: bool) returns (ok: bool)
      requires Valid()
      modifies this
      ensures ok <==> !fails
      ensures Valid() && steps == old(steps) + (if fails then [] else [s])
      ensures disk == if fails then old(disk) else Do(old(disk), s)
    {
      if fails {
        return false;
      }
      ReplaySnoc(origin, steps, s);
      disk := Do(disk, s);
      steps := steps + [s];
      return true;
    }

    method Add(req: AddRequest, now: int, f: Faults) returns (r: Result<Info, StoreError>)
      requires Valid()
      modifies this
      ensures Took(PlanAdd(lower, trust, old(disk), req, now, f).steps)
      ensures r == PlanAdd(lower, trust, old(disk), req, now, f).result
      ensures r.Ok? ==> WroteAdded(old(disk), disk, req, now, r.value)
    {
      ghost var before := steps;
      ReplayAppend(origin, before, PlanAdd(lower, trust, disk, req, now, f).steps);
      var v := ValidateName(lower, req.name);
      if v.Err? {
        return Err(BadName(v.error));
      }
      if !Modes.Valid(req.mode) {
        return Err(InvalidMode);
      }
      var bad := CheckBundle(trust, req.bytes);
      if bad.Some? {
        return Err(bad.value);
      }
      var slug := v.value;
      if !req.replace && slug in disk.metas {
        return Err(AlreadyExists);
      }
      var m := Meta(TrimSpace(req.name), req.mode, now, now, None, None);
      if req.replace && slug in disk.metas {
        m := m.(createdAt := disk.metas[slug].createdAt);
      }
      r := Install(slug, req.bytes, m, f);
    }

    /** Bundle, then meta; a failed meta write takes the bundle out again. */
    method Install(slug: string, bytes: Bytes, m: Meta, f: Faults) returns (r: Result<Info, StoreError>)
      requires Valid()
      modifies this
      ensures Valid() && steps == old(steps) + PlanInstall(slug, bytes, m, f)
      ensures disk.marker == old(disk.marker)
      ensures r.Ok? ==> slug in disk.metas && disk.metas[slug] == m
      ensures r == if f.writeBundle || f.writeMeta then Err(IOError) else Ok(Info(slug, m, slug == old(disk.marker)))
    {
      var ok := Attempt(WriteBundle(slug, bytes), f.writeBundle);
      if !ok {
        return Err(IOError);
      }
      ok := Attempt(WriteMeta(slug, m), f.writeMeta);
      if !ok {
        var _ := Attempt(RemoveBundle(slug), f.removeBundle);
        return Err(IOError);
      }
      return Ok(Info(slug, m, slug == disk.marker));
    }

    method Remove(slug: string, f: Faults) returns (r: Result<(), StoreError>)
      requires Valid()
      modifies this
      ensures Took(PlanRemove(old(disk), slug, f).steps)
      ensures r == PlanRemove(old(disk), slug, f).result
    {
      ReplayAppend(origin, steps, PlanRemove(disk, slug, f).steps);
      if slug !in disk.metas {
        return Err(NotFound);
      }
      var active := disk.marker;
      var ok := Attempt(RemoveMeta(slug), f.removeMeta);
      if !ok {
        return Err(IOError);
      }
      ok := Attempt(RemoveBundle(slug), f.removeBundle);
      if !ok {
        return Err(IOError);
      }
      if slug == active {
        ok := Attempt(WriteMarker(""), f.writeMarker);
        if !ok {
          return Err(IOError);
        }
      }
      return Ok(());
    }

    method Rename(oldSlug: string, newName: string, now: int, f: Faults) returns (r: Result<Info, StoreError>)
      requires Valid()
      modifies this
      ensures Took(PlanRename(lower, old(disk), oldSlug, newName, now, f).steps)
      ensures r == PlanRename(lower, old(disk), oldSlug, newName, now, f).result
      ensures r.Ok? ==> WroteRenamed(old(disk), disk, oldSlug, newName, now, r.value)
    {
      ghost var plan := PlanRename(lower, disk, oldSlug, newName, now, f);
      ReplayAppend(origin, steps, plan.steps);
      var v := ValidateName(lower, newName);
      if v.Err? {
        return Err(BadName(v.error));
      }
      var newSlug := v.value;
      if newSlug == oldSlug {
        if oldSlug !in disk.metas {
          return Err(NotFound);
        }
        var m := disk.metas[oldSlug].(name := TrimSpace(newName), updatedAt := now);
        var ok := Attempt(WriteMeta(oldSlug, m), f.writeMeta);
        if !ok {
          return Err(IOError);
        }
        return Ok(Info(oldSlug, m, false));
      }
      if newSlug in disk.metas {
        return Err(AlreadyExists);
      }
      if oldSlug !in disk.metas || oldSlug !in disk.bundles {
        return Err(NotFound);
      }
      var data := disk.bundles[oldSlug];
      var m := disk.metas[oldSlug].(name := TrimSpace(newName), updatedAt := now);
      r := Move(oldSlug, newSlug, data, m, f);
    }

    method Move(oldSlug: string, newSlug: string, data: Bytes, m: Meta, f: Faults) returns (r: Result<Info, StoreError>)
      requires Valid() && oldSlug != newSlug
      modifies this
      ensures Valid()
      ensures r.Ok? ==> newSlug in disk.metas && disk.metas[newSlug] == m
      ensures var active := old(disk.marker) == oldSlug;
              && steps == old(steps) + PlanMove(oldSlug, newSlug, data, m, active, f)
              && r == if f.writeBundle || f.writeMeta || (active && f.writeMarker) then Err(IOError)
                      else Ok(Info(newSlug, m, false))
    {
      hide PlanInstall, Replay;
      var installed := Install(newSlug, data, m, f);
      if installed.Err? {
        return Err(IOError);
      }
      var _ := Attempt(RemoveBundle(oldSlug), f.removeBundle);
      var _ := Attempt(RemoveMeta(oldSlug), f.removeMeta);
      var active := disk.marker;
      if active == oldSlug {
        var ok := Attempt(WriteMarker(newSlug), f.writeMarker);
        if !ok {
          return Err(IOError);
        }
      }
      return Ok(Info(newSlug, m, false));
    }

    method SetActive(slug: string, f: Faults) returns (r: Result<string, StoreError>)
      requires Valid()
      modifies this
      ensures Took(PlanSetActive(old(disk), slug, f).steps)
      ensures r == PlanSetActive(old(disk), slug, f).result
      ensures r.Ok? ==> r.value == old(disk.marker) && disk == old(disk).(marker := slug)
    {
      ReplayAppend(origin, steps, PlanSetActive(disk, slug, f).steps);
      if slug != "" && slug !in disk.metas {
        return Err(NotFound);
      }
      var previous := disk.marker;
      var ok := Attempt(WriteMarker(slug), f.writeMarker);
      if !ok {
        return Err(IOError);
      }
      return Ok(previous);
    }

    method UpdateMode(slug: string, mode: Mode, now: int, f: Faults) returns (r: Result<(), StoreError>)
      requires Valid()
      modifies this
      ensures Took(PlanUpdateMode(old(disk), slug, mode, now, f).steps)
      ensures r == PlanUpdateMode(old(disk), slug, mode, now, f).result
      ensures r.Ok? ==>
                && slug in old(disk.metas) && slug in disk.metas
                && var was := old(disk.metas)[slug];
                   disk.metas[slug] == Meta(was.name, mode, was.createdAt, now, was.rosenpassEnabled,
                                            was.rosenpassPermissive)
    {
      ReplayAppend(origin, steps, PlanUpdateMode(disk, slug, mode, now, f).steps);
      if !Modes.Valid(mode) {
        return Err(InvalidMode);
      }
      if slug !in disk.metas {
        return Err(NotFound);
      }
      var cur := disk.metas[slug].(mode := mode, updatedAt := now);
      var ok := Attempt(WriteMeta(slug, cur), f.writeMeta);
      return if ok then Ok(()) else Err(IOError);
    }

    method UpdateRosenpass(slug: string, enabled: Option<bool>, permissive: Option<bool>, now: int, f: Faults)
      returns (r: Result<(), StoreError>)
      requires Valid()
      modifies this
      ensures Took(PlanUpdateRosenpass(old(disk), slug, enabled, permissive, now, f).steps)
      ensures r == PlanUpdateRosenpass(old(disk), slug, enabled, permissive, now, f).result
      ensures r.Ok? ==>
                && slug in old(disk.metas) && slug in disk.metas
                && var was := old(disk.metas)[slug];
                   disk.metas[slug] == Meta(was.name, was.mode, was.createdAt, now, enabled, permissive)
    {
      ReplayAppend(origin, steps, PlanUpdateRosenpass(disk, slug, enabled, permissive, now, f).steps);
      if slug !in disk.metas {
        return Err(NotFound);
      }
      var cur := disk.metas[slug].(rosenpassEnabled := enabled, rosenpassPermissive := permissive, updatedAt := now);
      var ok := Attempt(WriteMeta(slug, cur), f.writeMeta);
      return if ok then Ok(()) else Err(IOError);
    }

    method MigrateLegacyBundle(legacy: Option<Bytes>, initialMode: Mode, now: int, f: Faults)
      returns (r: Result<Option<string>, StoreError>)
      requires Valid()
      modifies this
      ensures Took(PlanMigrate(lower, trust, old(disk), legacy, initialMode, now, f).steps)
      ensures r == PlanMigrate(lower, trust, old(disk), legacy, initialMode, now, f).result
    {
      if disk.metas != map[] {
        return Ok(None);
      }
      if legacy.None? {
        return Ok(None);
      }
      if !trust.parses(legacy.value) {
        return Err(BadBundle);
      }
      var mode := if Modes.Valid(initialMode) then initialMode else DEFAULT;
      r := AddActive(AddRequest(DEFAULT_NAME, mode, legacy.value, false), now, f);
    }

    method AddActive(req: AddRequest, now: int, f: Faults) returns (r: Result<Option<string>, StoreError>)
      requires Valid()
      modifies this
      ensures Took(PlanAddActive(lower, trust, old(disk), req, now, f).steps)
      ensures r == PlanAddActive(lower, trust, old(disk), req, now, f).result
    {
      hide PlanAdd, PlanSetActive, Replay;
      ghost var d0 := disk;
      var added := Add(req, now, f);
      if added.Err? {
        return Err(added.error);
      }
      ReplayAppend(d0, PlanAdd(lower, trust, d0, req, now, f).steps, PlanSetActive(disk, added.value.slug, f).steps);
      var marked := SetActive(added.value.slug, f);
      if marked.Err? {
        return Err(IOError);
      }
      return Ok(Some(added.value.slug));
    }
  }
}
