/**
  The agreement of the profile in memory with the one on disk, exactly: which
  calls, with which failing writes, part the two, and what an import achieves.
*/
module DaemonSync {
  import opened Results
  import opened Modes
  import opened Text
  import opened Slug
  import PS = ProfileStore
  import opened ProfileSafety
  import opened DaemonModel
  import opened DaemonProfiles

  /** The profile's two files are there and its bundle parses. */
  predicate Loads(parses: Bytes -> bool, d: PS.Disk, slug: string)
  {
    slug in d.metas && slug in d.bundles && parses(d.bundles[slug])
  }

  /** The profile a start on this disk adopts: the marked one, if it loads; "" for none. */
  function MarkedProfile(parses: Bytes -> bool, d: PS.Disk): string
  {
    if d.marker != "" && Loads(parses, d, d.marker) then d.marker else ""
  }

  /** Memory holds exactly the marked profile: that one, or none if none is marked or it does not load. */
  predicate Marked(c: Config, s: State)
  {
    s.slug == MarkedProfile(c.trust.parses, s.disk)
  }

  /** One half of that: a profile in memory is the marked one. */
  predicate Backed(c: Config, s: State)
  {
    s.slug != "" ==> s.disk.marker == s.slug && Loads(c.trust.parses, s.disk, s.slug)
  }

  /** Bundle, Rosenpass override and, unless one was forced, mode in memory are those the profile's files hold. */
  predicate Mirrored(c: Config, s: State)
  {
    s.slug != "" ==>
      && s.slug in s.disk.metas && s.slug in s.disk.bundles
      && s.bundle == Some(s.disk.bundles[s.slug]) && s.rosenpass == OverrideOf(s.disk.metas[s.slug])
      && (!c.explicitMode ==> s.mode == s.disk.metas[s.slug].mode)
  }

  ghost predicate InStep(c: Config, s: State)
  {
    Sane(c, s) && Marked(c, s)
  }

  ghost predicate Faithful(c: Config, s: State)
  {
    InStep(c, s) && Mirrored(c, s)
  }

  // ---- what failing writes do to a replaced profile ----

  predicate BothWritten(w: PS.Faults)
  {
    !w.writeBundle && !w.writeMeta
  }

  /** The meta write fails and the rollback takes the old bundle away. */
  predicate Wrecks(w: PS.Faults)
  {
    !w.writeBundle && w.writeMeta && !w.removeBundle
  }

  /** The meta write fails and so does the rollback: new bundle, old meta. */
  predicate HalfReplaces(w: PS.Faults)
  {
    !w.writeBundle && w.writeMeta && w.removeBundle
  }

  lemma ReplacedProfile(d: PS.Disk, slug: string, bytes: Bytes, m: PS.Meta, w: PS.Faults)
    requires slug in d.metas && slug in d.bundles
    ensures var n := Installed(d, slug, bytes, m, w);
            && n.marker == d.marker && slug in n.metas && n.metas.Keys == d.metas.Keys
            && n.metas[slug] == (if BothWritten(w) then m else d.metas[slug])
            && (slug in n.bundles <==> !Wrecks(w))
            && (slug in n.bundles ==> n.bundles[slug] == if w.writeBundle then d.bundles[slug] else bytes)
            && (forall t :: t != slug ==> SameFiles(d, n, t))
  {
    assert d.metas[slug := m].Keys == d.metas.Keys;
  }

  lemma LoadIs(t: PS.Trust, d: PS.Disk, slug: string)
    ensures PS.Load(t, d, slug).Ok? <==> Loads(t.parses, d, slug)
    ensures Loads(t.parses, d, slug) ==> PS.Load(t, d, slug) == Ok((d.metas[slug], d.bundles[slug]))
  {
  }

  /** What loads after an install of bytes that parse, whichever of its steps fail. */
  lemma InstalledLoads(parses: Bytes -> bool, d: PS.Disk, slug: string, bytes: Bytes, m: PS.Meta, w: PS.Faults)
    requires parses(bytes)
    ensures var n := Installed(d, slug, bytes, m, w);
            && n.marker == d.marker
            && (Loads(parses, n, slug) <==>
                  if w.writeBundle then Loads(parses, d, slug)
                  else BothWritten(w) || (HalfReplaces(w) && slug in d.metas))
            && (forall other :: other != slug ==> (Loads(parses, n, other) <==> Loads(parses, d, other)))
  {
  }

  // ---- which calls part memory and disk ----

  predicate Passes(c: Config, bytes: Bytes, now: int)
  {
    PS.Accepts(c.trust, bytes) && !c.expired(bytes, now)
  }

  /** The store request behind an AddProfile, if its mode is one. */
  function AddRequestOf(c: Config, s: State, req: AddProfileRequest): Option<PS.AddRequest>
  {
    var mode := if req.mode == "" then Some(s.mode) else Modes.Parse(c.lower, req.mode);
    if mode.None? then None else Some(PS.AddRequest(req.name, mode.value, req.bytes, req.replace))
  }

  predicate Addable(c: Config, s: State, req: AddProfileRequest)
  {
    var add := AddRequestOf(c, s, req);
    add.Some? && CanAdd(c.lower, c.trust, s.disk, add.value)
  }

  /** The switch goes through but its marker does not follow. */
  predicate LeavesMarker(d: PS.Disk, slug: string, w: PS.Faults)
  {
    w.writeMarker && d.marker != slug
  }

  /** The install makes a slug load that the marker already names. */
  predicate FillsMarked(d: PS.Disk, slug: string, w: PS.Faults)
  {
    d.marker == slug && (BothWritten(w) || (HalfReplaces(w) && slug in d.metas))
  }

  /** What an add that does not switch does to the agreement. */
  predicate AddParts(s: State, slug: string, w: PS.Faults)
  {
    if slug == s.slug then Wrecks(w) else FillsMarked(s.disk, slug, w)
  }

  predicate ImportParts(s: State, w: PS.Faults)
  {
    if s.slug != "" then Wrecks(w)
    else FillsMarked(s.disk, PS.DEFAULT_NAME, w) && (BothWritten(w) ==> w.writeMarker)
  }

  /**
    A move of the active profile whose old files go, at least one of them, and
    whose marker does not follow; or of another one onto the slug a marker names
    that no profile has.
  */
  predicate RenameParts(c: Config, s: State, slug: string, newName: string, w: PS.Faults)
  {
    && CanRename(c.lower, s.disk, slug, newName) && BothWritten(w)
    && var newSlug := ValidateName(c.lower, newName).value;
       && newSlug != slug
       && (if slug == s.slug then w.writeMarker && !(w.removeBundle && w.removeMeta)
           else s.disk.marker == newSlug && c.trust.parses(s.disk.bundles[slug]))
  }

  /** The calls after which memory does not hold exactly the marked profile. */
  predicate Separates(c: Config, s: State, call: Call)
  {
    match call
    case ImportCall(bytes, now, w) => Passes(c, bytes, now) && ImportParts(s, w)
    case AddProfileCall(req, _, _, w) =>
      && Addable(c, s, req)
      && var slug := ValidateName(c.lower, req.name).value;
         if BothWritten(w) && req.setActive then LeavesMarker(s.disk, slug, w) else AddParts(s, slug, w)
    case SetActiveProfileCall(slug, _, w) =>
      slug != "" && Loads(c.trust.parses, s.disk, slug) && LeavesMarker(s.disk, slug, w)
    case RemoveProfileCall(slug, _, w) => slug != "" && slug == s.slug && w.removeMeta
    case RenameProfileCall(slug, newName, _, w) => RenameParts(c, s, slug, newName, w)
    case _ => false
  }

  /** Those of them after which memory holds a profile that is not the marked one. */
  predicate Unbacks(c: Config, s: State, call: Call)
  {
    match call
    case ImportCall(bytes, now, w) => s.slug != "" && Passes(c, bytes, now) && Wrecks(w)
    case AddProfileCall(req, _, _, w) =>
      && Addable(c, s, req)
      && var slug := ValidateName(c.lower, req.name).value;
         if BothWritten(w) then req.setActive && LeavesMarker(s.disk, slug, w) else slug == s.slug && Wrecks(w)
    case SetActiveProfileCall(slug, _, w) =>
      slug != "" && Loads(c.trust.parses, s.disk, slug) && LeavesMarker(s.disk, slug, w)
    case RenameProfileCall(slug, newName, _, w) => slug == s.slug && RenameParts(c, s, slug, newName, w)
    case _ => false
  }

  /** An add that does not switch replaces the active profile by one with another bundle, mode or override. */
  predicate AddDiverges(c: Config, s: State, add: PS.AddRequest, w: PS.Faults)
  {
    if BothWritten(w)
    then s.bundle != Some(add.bytes) || s.rosenpass.Some? || (!c.explicitMode && s.mode != add.mode)
    else HalfReplaces(w) && s.bundle != Some(add.bytes)
  }

  /** The calls after which bundle, override or mode in memory is not what the files hold. */
  predicate Diverges(c: Config, s: State, call: Call)
  {
    || Separates(c, s, call)
    || match call
       case ImportCall(bytes, now, w) =>
         && Passes(c, bytes, now)
         && (if s.slug == "" then BothWritten(w) && !w.writeMarker && s.rosenpass.Some?
             else (BothWritten(w) && s.rosenpass.Some?) || (HalfReplaces(w) && s.bundle != Some(bytes)))
       case AddProfileCall(req, _, _, w) =>
         && Addable(c, s, req) && ValidateName(c.lower, req.name).value == s.slug
         && !(BothWritten(w) && req.setActive) && AddDiverges(c, s, AddRequestOf(c, s, req).value, w)
       case SetModeCall(text, _, _, w) =>
         && s.slug != "" && w.writeMeta && !c.explicitMode
         && var m := Modes.Parse(c.lower, text); m.Some? && m.value != s.mode
       case SetRosenpassCall(r, _, _, w) => s.slug != "" && w.writeMeta && s.rosenpass != Some(r)
       case _ => false
  }

  /** What one call owes: it keeps each agreement exactly when it is not one of those calls. */
  predicate Exact(c: Config, s: State, call: Call)
  {
    var n := Handle(c, s, call).s;
    && (Marked(c, n) <==> !Separates(c, s, call))
    && (Mirrored(c, s) ==> (Marked(c, n) && Mirrored(c, n) <==> !Diverges(c, s, call)))
  }

  // ---- one handler at a time ----

  function DefaultRequest(s: State, bytes: Bytes, replace: bool): PS.AddRequest
  {
    PS.AddRequest(PS.DEFAULT_NAME, s.mode, bytes, replace)
  }

  /** The import into an empty daemon: "default" is installed, replaced if it is there, and then marked. */
  lemma DefaultOutcome(c: Config, s: State, bytes: Bytes, now: int, w: PS.Faults)
    requires IsLowerMap(c.lower) && Modes.Valid(s.mode) && PS.Accepts(c.trust, bytes)
    ensures var p, slug := PlanDefault(c, s, bytes, now, w), PS.DEFAULT_NAME;
            var m := PS.AddedMeta(s.disk, slug, DefaultRequest(s, bytes, slug in s.disk.metas), now);
            var installed := Installed(s.disk, slug, bytes, m, w);
            && (p.result.Ok? <==> BothWritten(w) && !w.writeMarker)
            && (p.result.Ok? ==> p.result.value == Some(slug))
            && PS.Replay(s.disk, p.steps) == if p.result.Ok? then installed.(marker := slug) else installed
  {
    hide ValidateName, PS.PlanAddActive, PS.Replay, PS.CheckBundle, IsLowerMap, PS.AddedMeta, Installed;
    DefaultSlug(c.lower);
    AddActiveOutcome(c.lower, c.trust, s.disk, DefaultRequest(s, bytes, false), now, w);
    AddActiveOutcome(c.lower, c.trust, s.disk, DefaultRequest(s, bytes, true), now, w);
    DefaultRefusal(c, s, bytes, now, w);
  }

  lemma DefaultRefusal(c: Config, s: State, bytes: Bytes, now: int, w: PS.Faults)
    requires ValidateName(c.lower, PS.DEFAULT_NAME) == Ok(PS.DEFAULT_NAME)
    requires Modes.Valid(s.mode) && PS.Accepts(c.trust, bytes)
    ensures var p := PS.PlanAddActive(c.lower, c.trust, s.disk, DefaultRequest(s, bytes, false), now, w);
            p.result == Err(PS.AlreadyExists) <==> PS.DEFAULT_NAME in s.disk.metas
  {
    hide ValidateName, PS.PlanAdd, PS.Replay, PS.CheckBundle;
    AddRefusal(c.lower, c.trust, s.disk, DefaultRequest(s, bytes, false), now, w);
  }

  lemma ImportExact(c: Config, s: State, bytes: Bytes, now: int, w: PS.Faults)
    requires IsLowerMap(c.lower) && InStep(c, s)
    ensures Exact(c, s, ImportCall(bytes, now, w))
  {
    hide StoreReachable, IsLowerMap, ImportBundle;
    if Passes(c, bytes, now) {
      if s.slug != "" {
        ReplaceExact(c, s, bytes, now, w);
      } else {
        DefaultExact(c, s, bytes, now, w);
      }
    } else {
      ImportRefused(c, s, bytes, now, w);
    }
  }

  lemma ReplaceExact(c: Config, s: State, bytes: Bytes, now: int, w: PS.Faults)
    requires InStep(c, s) && s.slug != "" && Passes(c, bytes, now)
    ensures Exact(c, s, ImportCall(bytes, now, w))
  {
    hide PS.PlanAdd, PlanDefault, PS.Replay, PS.CheckBundle, StoreReachable, SameFiles, ReplaceRequest, OverrideOf;
    AcceptedParses(c.trust, bytes);
    ReplaceOutcome(c, s, bytes, now, w);
    assert ConfigureFrom(c, s, bytes) == s.(outer := ConfigureFrom(c, s, bytes).outer);
  }

  lemma DefaultExact(c: Config, s: State, bytes: Bytes, now: int, w: PS.Faults)
    requires IsLowerMap(c.lower) && InStep(c, s) && s.slug == "" && Passes(c, bytes, now)
    ensures Exact(c, s, ImportCall(bytes, now, w))
  {
    hide PS.PlanAdd, PlanDefault, PS.Replay, PS.CheckBundle, StoreReachable, Installed, IsLowerMap, SameFiles,
      PS.AddedMeta, OverrideOf, PS.DEFAULT_NAME;
    var req := DefaultRequest(s, bytes, PS.DEFAULT_NAME in s.disk.metas);
    AcceptedParses(c.trust, bytes);
    DefaultIsAName();
    DefaultOutcome(c, s, bytes, now, w);
    DefaultInstalled(s.disk, req, now, w);
    InstalledLoads(c.trust.parses, s.disk, PS.DEFAULT_NAME, bytes, PS.AddedMeta(s.disk, PS.DEFAULT_NAME, req, now), w);
  }

  lemma DefaultIsAName()
    ensures PS.DEFAULT_NAME != ""
  {
  }

  /** A re-import replaces the active profile's files under its own slug. */
  lemma ReplaceOutcome(c: Config, s: State, bytes: Bytes, now: int, w: PS.Faults)
    requires Sane(c, s) && Backed(c, s) && s.slug != "" && PS.Accepts(c.trust, bytes)
    ensures var req := ReplaceRequest(s, bytes);
            var p := PS.PlanAdd(c.lower, c.trust, s.disk, req, now, w);
            var n := PS.Replay(s.disk, p.steps);
            && (p.result.Ok? <==> BothWritten(w))
            && n.marker == s.disk.marker && s.slug in n.metas && n.metas.Keys == s.disk.metas.Keys
            && (BothWritten(w) ==>
                  OverrideOf(n.metas[s.slug]) == None && n.metas[s.slug].mode == s.disk.metas[s.slug].mode)
            && (!BothWritten(w) ==> n.metas[s.slug] == s.disk.metas[s.slug])
            && (s.slug in n.bundles <==> !Wrecks(w))
            && (s.slug in n.bundles ==> n.bundles[s.slug] == if w.writeBundle then s.disk.bundles[s.slug] else bytes)
            && (forall t :: t != s.slug ==> SameFiles(s.disk, n, t))
  {
    hide PS.PlanAdd, PS.Replay, PS.CheckBundle, ValidateName, StoreReachable, Installed, SameFiles;
    ReachableIsSound(c.lower, s.disk);
    assert SoundMeta(c.lower, s.slug, s.disk.metas[s.slug]);
    var req := ReplaceRequest(s, bytes);
    AddOutcome(c.lower, c.trust, s.disk, req, now, w);
    ReplacedProfile(s.disk, s.slug, bytes, PS.AddedMeta(s.disk, s.slug, req, now), w);
  }

  lemma DefaultInstalled(d: PS.Disk, req: PS.AddRequest, now: int, w: PS.Faults)
    ensures var slug := PS.DEFAULT_NAME;
            var n := Installed(d, slug, req.bytes, PS.AddedMeta(d, slug, req, now), w);
            && (BothWritten(w) ==>
                  && slug in n.metas && slug in n.bundles && n.bundles[slug] == req.bytes
                  && OverrideOf(n.metas[slug]) == None && n.metas[slug].mode == req.mode
                  && n.metas.Keys == d.metas.Keys + {slug})
            && (!BothWritten(w) ==> n.metas == d.metas)
            && n.marker == d.marker
            && (forall t :: t != slug ==> SameFiles(d, n, t))
  {
  }

  lemma SwitchOutcome(c: Config, s: State, slug: string, f: LegFaults, w: PS.Faults)
    requires PS.Load(c.trust, s.disk, slug).Ok?
    ensures var n := SwitchTo(c, s, slug, f, w).s;
            && n.slug == slug && n.disk == (if w.writeMarker then s.disk else s.disk.(marker := slug))
            && n.bundle == Some(s.disk.bundles[slug]) && n.rosenpass == OverrideOf(s.disk.metas[slug])
            && n.mode == TargetMode(s.disk.metas[slug])
  {
    hide PS.PlanSetActive, PS.Replay, BringUp, TearDownMode, SwapIn;
    var target := PS.Load(c.trust, s.disk, slug).value;
    var down := if s.slug != "" then TearDownMode(s, s.mode, f) else s;
    TearDownKeepsDisk(s, s.mode, f);
    SwappedIn(down, slug, target.0, target.1);
    BringUpKeepsMemory(c, SwapIn(down, slug, target.0, target.1), target.1, f);
    BringUpKeepsOverride(c, SwapIn(down, slug, target.0, target.1), target.1, f);
    SetActiveOutcome(s.disk, slug, w);
  }

  lemma SwappedIn(s: State, slug: string, m: PS.Meta, bundle: Bytes)
    ensures var n := SwapIn(s, slug, m, bundle);
            && n.slug == slug && n.bundle == Some(bundle) && n.mode == TargetMode(m)
            && n.rosenpass == OverrideOf(m) && n.disk == s.disk
  {
  }

  lemma BringUpKeepsOverride(c: Config, s: State, bundle: Bytes, f: LegFaults)
    ensures BringUp(c, s, bundle, f).rosenpass == s.rosenpass
  {
  }

  lemma SetActiveExact(c: Config, s: State, slug: string, f: LegFaults, w: PS.Faults)
    requires InStep(c, s)
    ensures Exact(c, s, SetActiveProfileCall(slug, f, w))
  {
    hide SwitchTo, StoreReachable, PS.Load;
    LoadIs(c.trust, s.disk, slug);
    if slug != "" {
      if Loads(c.trust.parses, s.disk, slug) {
        StoredModeIsKnown(c, s.disk, slug);
        SwitchOutcome(c, s, slug, f, w);
      } else {
        SwitchRefused(c, s, slug, f, w);
      }
    }
  }

  lemma StoredModeIsKnown(c: Config, d: PS.Disk, slug: string)
    requires StoreReachable(c.lower, d) && slug in d.metas
    ensures TargetMode(d.metas[slug]) == d.metas[slug].mode
  {
    hide StoreReachable, ValidateName;
    ReachableIsSound(c.lower, d);
    assert SoundMeta(c.lower, slug, d.metas[slug]);
  }

  lemma SwitchRefused(c: Config, s: State, slug: string, f: LegFaults, w: PS.Faults)
    requires PS.Load(c.trust, s.disk, slug).Err?
    ensures SwitchTo(c, s, slug, f, w) == Stay(s, false)
  {
  }

  lemma AcceptedParses(t: PS.Trust, bytes: Bytes)
    requires PS.Accepts(t, bytes)
    ensures t.parses(bytes)
  {
  }

  /** What an AddProfile does before a switch, and the state a switch then starts from. */
  lemma AddProfileIs(c: Config, s: State, req: AddProfileRequest, now: int, f: LegFaults, w: PS.Faults)
    ensures var n := AddProfile(c, s, req, now, f, w).s;
            if !Addable(c, s, req) then n == s
            else
              var slug, add := ValidateName(c.lower, req.name).value, AddRequestOf(c, s, req).value;
              var m := PS.AddedMeta(s.disk, slug, add, now);
              var s1 := s.(disk := Installed(s.disk, slug, req.bytes, m, w));
              n == if BothWritten(w) && req.setActive then SwitchTo(c, s1, slug, f, w).s else s1
  {
    hide SwitchTo, PS.PlanAdd, PS.Replay, Modes.Parse, ValidateName, PS.CheckBundle, Installed;
    var add := AddRequestOf(c, s, req);
    if add.Some? {
      AddOutcome(c.lower, c.trust, s.disk, add.value, now, w);
      if !Addable(c, s, req) {
        assert s.(disk := s.disk) == s;
      }
    }
  }

  lemma AddProfileExact(c: Config, s: State, req: AddProfileRequest, now: int, f: LegFaults, w: PS.Faults)
    requires InStep(c, s)
    ensures Exact(c, s, AddProfileCall(req, now, f, w))
  {
    hide AddProfile, SwitchTo, StoreReachable, ValidateName, PS.CheckBundle, Installed, Modes.Parse, SameFiles;
    AddProfileIs(c, s, req, now, f, w);
    if Addable(c, s, req) {
      if BothWritten(w) && req.setActive {
        AddAndSwitchExact(c, s, req, now, f, w);
      } else {
        AddOnlyExact(c, s, req, now, f, w);
      }
    }
  }

  lemma AddAndSwitchExact(c: Config, s: State, req: AddProfileRequest, now: int, f: LegFaults, w: PS.Faults)
    requires InStep(c, s) && Addable(c, s, req) && BothWritten(w) && req.setActive
    ensures Exact(c, s, AddProfileCall(req, now, f, w))
  {
    hide AddProfile, SwitchTo, StoreReachable, ValidateName, PS.CheckBundle, Installed, Modes.Parse, SameFiles, PS.Load,
      PS.AddedMeta;
    var slug, add := ValidateName(c.lower, req.name).value, AddRequestOf(c, s, req).value;
    var m := PS.AddedMeta(s.disk, slug, add, now);
    var s1 := s.(disk := Installed(s.disk, slug, req.bytes, m, w));
    AddProfileIs(c, s, req, now, f, w);
    AddedMetaIsPlain(s.disk, slug, add, now);
    AddedLoads(c, s, req, now, w);
    LoadIs(c.trust, s1.disk, slug);
    SwitchOutcome(c, s1, slug, f, w);
  }

  lemma AddOnlyExact(c: Config, s: State, req: AddProfileRequest, now: int, f: LegFaults, w: PS.Faults)
    requires InStep(c, s) && Addable(c, s, req) && !(BothWritten(w) && req.setActive)
    ensures Exact(c, s, AddProfileCall(req, now, f, w))
  {
    hide AddProfile, SwitchTo, StoreReachable, ValidateName, PS.CheckBundle, Installed, Modes.Parse, SameFiles,
      PS.AddedMeta;
    var slug, add := ValidateName(c.lower, req.name).value, AddRequestOf(c, s, req).value;
    var m := PS.AddedMeta(s.disk, slug, add, now);
    AddProfileIs(c, s, req, now, f, w);
    AddedMetaIsPlain(s.disk, slug, add, now);
    NamedSlug(c, s, req);
    AddableParses(c, s, req);
    InstalledLoads(c.trust.parses, s.disk, slug, req.bytes, m, w);
    if slug == s.slug {
      ReplacedProfile(s.disk, slug, req.bytes, m, w);
    } else {
      InstalledElsewhere(s.disk, slug, req.bytes, m, w, s.slug);
    }
  }

  lemma AddableParses(c: Config, s: State, req: AddProfileRequest)
    requires Addable(c, s, req)
    ensures c.trust.parses(req.bytes) && AddRequestOf(c, s, req).value.bytes == req.bytes
  {
    hide PS.CheckBundle;
    AcceptedParses(c.trust, req.bytes);
  }

  lemma AddedMetaIsPlain(d: PS.Disk, slug: string, req: PS.AddRequest, now: int)
    ensures OverrideOf(PS.AddedMeta(d, slug, req, now)) == None && PS.AddedMeta(d, slug, req, now).mode == req.mode
  {
  }

  lemma NamedSlug(c: Config, s: State, req: AddProfileRequest)
    requires Addable(c, s, req)
    ensures ValidateName(c.lower, req.name).value != ""
  {
    ValidNameIsNotEmpty(c.lower, req.name);
  }

  lemma InstalledElsewhere(d: PS.Disk, slug: string, bytes: Bytes, m: PS.Meta, w: PS.Faults, t: string)
    requires t != slug
    ensures var n := Installed(d, slug, bytes, m, w); SameFiles(d, n, t) && n.marker == d.marker
    ensures var n := Installed(d, slug, bytes, m, w);
            (t in n.metas <==> t in d.metas) && (t in d.metas ==> n.metas[t] == d.metas[t])
            && (t in n.bundles <==> t in d.bundles) && (t in d.bundles ==> n.bundles[t] == d.bundles[t])
  {
  }

  /** A profile just added loads. */
  lemma AddedLoads(c: Config, s: State, req: AddProfileRequest, now: int, w: PS.Faults)
    requires Addable(c, s, req) && BothWritten(w)
    ensures var slug, add := ValidateName(c.lower, req.name).value, AddRequestOf(c, s, req).value;
            var m := PS.AddedMeta(s.disk, slug, add, now);
            var d := Installed(s.disk, slug, req.bytes, m, w);
            && PS.Load(c.trust, d, slug) == Ok((m, req.bytes))
            && slug in d.metas && slug in d.bundles && slug != "" && d.marker == s.disk.marker
            && add.bytes == req.bytes && TargetMode(m) == add.mode
  {
    hide ValidateName, PS.CheckBundle, PS.AddedMeta;
    ValidNameIsNotEmpty(c.lower, req.name);
    assert PS.Accepts(c.trust, req.bytes);
    AddedMetaIsPlain(s.disk, ValidateName(c.lower, req.name).value, AddRequestOf(c, s, req).value, now);
    AcceptedParses(c.trust, req.bytes);
  }

  lemma RemoveIs(c: Config, s: State, slug: string, f: LegFaults, w: PS.Faults)
    ensures var n := RemoveProfile(c, s, slug, f, w).s;
            && n.disk == Removed(s.disk, slug, w) && n.mode == s.mode
            && n.slug == (if slug == s.slug then "" else s.slug)
            && n.bundle == (if slug == s.slug then None else s.bundle)
            && n.rosenpass == s.rosenpass
  {
    hide PS.PlanRemove, PS.Replay, Removed;
    RemoveOutcome(s.disk, slug, w);
    TearDownKeepsDisk(s, s.mode, f);
  }

  lemma RemoveExact(c: Config, s: State, slug: string, f: LegFaults, w: PS.Faults)
    requires InStep(c, s)
    ensures Exact(c, s, RemoveProfileCall(slug, f, w))
  {
    hide RemoveProfile, StoreReachable, OverrideOf;
    assert "" !in s.disk.metas by { ReachableIsSound(c.lower, s.disk); }
    RemoveIs(c, s, slug, f, w);
  }

  /** Whether a rename that can go through does. */
  predicate RenameOk(s: State, slug: string, newSlug: string, w: PS.Faults)
  {
    !w.writeMeta && (newSlug != slug ==> !w.writeBundle && !(s.disk.marker == slug && w.writeMarker))
  }

  lemma RenameIs(c: Config, s: State, slug: string, newName: string, now: int, w: PS.Faults)
    ensures var n := RenameProfile(c, s, slug, newName, now, w).s;
            if !CanRename(c.lower, s.disk, slug, newName) then n == s
            else
              var newSlug, m := ValidateName(c.lower, newName).value, PS.RenamedMeta(s.disk.metas[slug], newName, now);
              var d := if newSlug != slug then Moved(s.disk, slug, newSlug, s.disk.bundles[slug], m, w)
                       else if w.writeMeta then s.disk
                       else s.disk.(metas := s.disk.metas[slug := m]);
              n == s.(disk := d, slug := if RenameOk(s, slug, newSlug, w) && s.slug == slug then newSlug else s.slug)
  {
    hide PS.PlanRename, PS.Replay, ValidateName, PS.RenamedMeta, Moved;
    RenameOutcome(c.lower, s.disk, slug, newName, now, w);
    assert s.(disk := s.disk) == s;
  }

  lemma RenameExact(c: Config, s: State, slug: string, newName: string, now: int, w: PS.Faults)
    requires InStep(c, s)
    ensures Exact(c, s, RenameProfileCall(slug, newName, now, w))
  {
    hide RenameProfile, ValidateName, PS.RenamedMeta, StoreReachable, Moved;
    assert "" !in s.disk.metas by { ReachableIsSound(c.lower, s.disk); }
    RenameIs(c, s, slug, newName, now, w);
    ValidNameIsNotEmpty(c.lower, newName);
    if CanRename(c.lower, s.disk, slug, newName) {
      RenamedKeepsOverride(s.disk.metas[slug], newName, now);
      if ValidateName(c.lower, newName).value != slug {
        if slug == s.slug {
          MoveActiveExact(c, s, newName, now, w);
        } else {
          MoveOtherExact(c, s, slug, newName, now, w);
        }
      }
    }
  }

  lemma MoveActiveExact(c: Config, s: State, newName: string, now: int, w: PS.Faults)
    requires InStep(c, s) && s.slug != "" && CanRename(c.lower, s.disk, s.slug, newName)
    requires ValidateName(c.lower, newName).value != s.slug
    ensures Exact(c, s, RenameProfileCall(s.slug, newName, now, w))
  {
    hide RenameProfile, ValidateName, PS.RenamedMeta, StoreReachable, Moved, OverrideOf;
    RenameIs(c, s, s.slug, newName, now, w);
    ValidNameIsNotEmpty(c.lower, newName);
    RenamedKeepsOverride(s.disk.metas[s.slug], newName, now);
    MovedActive(s.disk, s.slug, ValidateName(c.lower, newName).value, s.disk.bundles[s.slug],
                PS.RenamedMeta(s.disk.metas[s.slug], newName, now), w);
  }

  lemma MoveOtherExact(c: Config, s: State, slug: string, newName: string, now: int, w: PS.Faults)
    requires InStep(c, s) && slug != s.slug && slug != "" && CanRename(c.lower, s.disk, slug, newName)
    requires ValidateName(c.lower, newName).value != slug
    ensures Exact(c, s, RenameProfileCall(slug, newName, now, w))
  {
    hide RenameProfile, ValidateName, PS.RenamedMeta, StoreReachable, Moved, OverrideOf;
    var newSlug, m := ValidateName(c.lower, newName).value, PS.RenamedMeta(s.disk.metas[slug], newName, now);
    RenameIs(c, s, slug, newName, now, w);
    ValidNameIsNotEmpty(c.lower, newName);
    MovedActive(s.disk, slug, newSlug, s.disk.bundles[slug], m, w);
    MovedOther(s.disk, slug, newSlug, s.disk.bundles[slug], m, w, s.slug);
    MovedOther(s.disk, slug, newSlug, s.disk.bundles[slug], m, w, s.disk.marker);
  }

  lemma RenamedKeepsOverride(m: PS.Meta, newName: string, now: int)
    ensures OverrideOf(PS.RenamedMeta(m, newName, now)) == OverrideOf(m)
    ensures PS.RenamedMeta(m, newName, now).mode == m.mode
  {
  }

  /** Where a moved profile is found, under its old and its new slug. */
  lemma MovedActive(d: PS.Disk, oldSlug: string, newSlug: string, data: Bytes, m: PS.Meta, w: PS.Faults)
    requires oldSlug in d.metas && oldSlug in d.bundles && newSlug !in d.metas && oldSlug != newSlug
    ensures var n := Moved(d, oldSlug, newSlug, data, m, w);
            var gone := BothWritten(w);
            && (newSlug in n.metas <==> BothWritten(w))
            && (BothWritten(w) ==> newSlug in n.bundles && n.metas[newSlug] == m && n.bundles[newSlug] == data)
            && (oldSlug in n.metas <==> !(gone && !w.removeMeta))
            && (oldSlug in n.bundles <==> !(gone && !w.removeBundle))
            && (oldSlug in n.metas ==> n.metas[oldSlug] == d.metas[oldSlug])
            && (oldSlug in n.bundles ==> n.bundles[oldSlug] == d.bundles[oldSlug])
            && n.marker == if gone && d.marker == oldSlug && !w.writeMarker then newSlug else d.marker
  {
  }

  lemma MovedOther(d: PS.Disk, oldSlug: string, newSlug: string, data: Bytes, m: PS.Meta, w: PS.Faults, t: string)
    ensures var n := Moved(d, oldSlug, newSlug, data, m, w);
            t != oldSlug && t != newSlug ==>
              (t in n.metas <==> t in d.metas) && (t in d.metas ==> n.metas[t] == d.metas[t])
              && (t in n.bundles <==> t in d.bundles) && (t in d.bundles ==> n.bundles[t] == d.bundles[t])
  {
  }

  lemma ChangeModeExact(c: Config, s: State, m: Mode, now: int, f: LegFaults, w: PS.Faults)
    requires InStep(c, s) && Modes.Valid(m)
    ensures var n := ChangeMode(c, s, m, now, f, w).s;
            && Marked(c, n)
            && (Mirrored(c, s) ==>
                  (Mirrored(c, n) <==> !(s.slug != "" && w.writeMeta && !c.explicitMode && m != s.mode)))
  {
    hide PS.Replay, PS.PlanEdit, EnterMode, LeaveMode, StoreReachable;
    ModeChangeKeepsMemory(c, s, m, f);
    EditOutcome(s.disk, s.slug, PS.WithMode(m, now), w);
  }

  lemma SetRosenpassIs(c: Config, s: State, r: Rosenpass, now: int, f: LegFaults, w: PS.Faults)
    ensures var n := SetRosenpass(c, s, r, now, f, w).s;
            var p := PS.PlanUpdateRosenpass(s.disk, s.slug, Some(r.enabled), Some(r.permissive), now, w);
            && n.slug == s.slug && n.bundle == s.bundle && n.rosenpass == Some(r) && n.mode == s.mode
            && n.disk == if s.slug == "" then s.disk else PS.Replay(s.disk, p.steps)
  {
    hide PS.Replay, PS.PlanUpdateRosenpass;
  }

  lemma SetRosenpassExact(c: Config, s: State, r: Rosenpass, now: int, f: LegFaults, w: PS.Faults)
    requires InStep(c, s)
    ensures Exact(c, s, SetRosenpassCall(r, now, f, w))
  {
    hide PS.Replay, PS.PlanEdit, StoreReachable, SetRosenpass;
    SetRosenpassIs(c, s, r, now, f, w);
    EditOutcome(s.disk, s.slug, PS.WithRosenpass(Some(r.enabled), Some(r.permissive), now), w);
  }

  /**
    From a state in step, a call leaves memory and disk in step exactly when it
    does not separate them; and from one whose bundle, override and mode are
    also the stored ones, it keeps all of that exactly when it does not diverge.
  */
  lemma HandleIsExact(c: Config, s: State, call: Call)
    requires IsLowerMap(c.lower) && InStep(c, s)
    ensures Sane(c, Handle(c, s, call).s)
    ensures Exact(c, s, call)
  {
    hide ImportBundle, AddProfile, RemoveProfile, RenameProfile, SwitchTo, ChangeMode, SetRosenpass, Connect,
      Disconnect, EnableInnerMesh, DisableInnerMesh, SuperviseMesh, Shutdown, HealthChange, HealthCallback,
      StoreReachable, Modes.Parse, Addable, RenameParts, ValidateName, PS.Load, PS.CheckBundle, Loads, AddRequestOf,
      CanRename, CanAdd;
    HandleKeepsSane(c, s, call);
    match call
    case ImportCall(bytes, now, w) => ImportExact(c, s, bytes, now, w);
    case AddProfileCall(req, now, f, w) => AddProfileExact(c, s, req, now, f, w);
    case RemoveProfileCall(slug, f, w) => RemoveExact(c, s, slug, f, w);
    case RenameProfileCall(slug, newName, now, w) => RenameExact(c, s, slug, newName, now, w);
    case SetActiveProfileCall(slug, f, w) => SetActiveExact(c, s, slug, f, w);
    case SetModeCall(text, now, f, w) =>
      var m := Modes.Parse(c.lower, text);
      if m.Some? {
        ParseIsValid(c.lower, text);
        ChangeModeExact(c, s, m.value, now, f, w);
      }
    case SetRosenpassCall(r, now, f, w) => SetRosenpassExact(c, s, r, now, f, w);
    case _ => LegCallsSameProfile(c, s, call);
  }

  // ---- holding no profile but the marked one ----

  /**
    From a state that holds the marked profile or none, a call leaves one that
    does exactly when it is not one of those that put another there.
  */
  lemma HandleKeepsBacked(c: Config, s: State, call: Call)
    requires IsLowerMap(c.lower) && Sane(c, s) && Backed(c, s)
    ensures Backed(c, Handle(c, s, call).s) <==> !Unbacks(c, s, call)
  {
    hide ImportBundle, AddProfile, RemoveProfile, RenameProfile, SwitchTo, ChangeMode, SetRosenpass, Connect,
      Disconnect, EnableInnerMesh, DisableInnerMesh, SuperviseMesh, Shutdown, HealthChange, HealthCallback,
      StoreReachable, Modes.Parse, Addable, ValidateName, PS.Load, PS.CheckBundle, AddRequestOf, CanRename, CanAdd,
      IsLowerMap;
    if s.slug != "" {
      HandleIsExact(c, s, call);
      HeldAfter(c, s, call);
      UnbacksIs(c, s, call);
    } else {
      match call
      case ImportCall(bytes, now, w) => ImportToNone(c, s, bytes, now, w);
      case AddProfileCall(req, now, f, w) => AddToNone(c, s, req, now, f, w);
      case RemoveProfileCall(slug, f, w) => RemoveIs(c, s, slug, f, w);
      case RenameProfileCall(slug, newName, now, w) => RenameOfNone(c, s, slug, newName, now, w);
      case SetActiveProfileCall(slug, f, w) => SwitchFromNone(c, s, slug, f, w);
      case SetModeCall(text, now, f, w) =>
        var m := Modes.Parse(c.lower, text);
        if m.Some? {
          ChangeModeKeepsSlug(c, s, m.value, now, f, w);
        }
      case SetRosenpassCall(r, now, f, w) => SetRosenpassIs(c, s, r, now, f, w);
      case _ => LegCallsSameProfile(c, s, call);
    }
  }

  /** With a profile in memory, a call that separates puts another there, or is a remove that leaves it marked. */
  lemma UnbacksIs(c: Config, s: State, call: Call)
    requires InStep(c, s) && s.slug != ""
    ensures Separates(c, s, call) <==>
              || Unbacks(c, s, call)
              || (call.RemoveProfileCall? && call.slug == s.slug && call.w.removeMeta)
  {
    hide StoreReachable, Modes.Parse, ValidateName, PS.CheckBundle, AddRequestOf;
  }

  /** Which calls leave memory without a profile, from a state with one. */
  lemma HeldAfter(c: Config, s: State, call: Call)
    requires IsLowerMap(c.lower) && InStep(c, s) && s.slug != ""
    ensures Handle(c, s, call).s.slug == "" <==> call.RemoveProfileCall? && call.slug == s.slug
  {
    hide ImportBundle, AddProfile, RemoveProfile, RenameProfile, SwitchTo, ChangeMode, SetRosenpass, Connect,
      Disconnect, EnableInnerMesh, DisableInnerMesh, SuperviseMesh, Shutdown, HealthChange, HealthCallback,
      StoreReachable, Modes.Parse, Addable, ValidateName, PS.Load, PS.CheckBundle, AddRequestOf, CanRename, CanAdd,
      IsLowerMap, Removed;
    match call
    case ImportCall(bytes, now, w) => ImportWorks(c, s, bytes, now, w);
    case AddProfileCall(req, now, f, w) => AddedSlugIs(c, s, req, now, f, w);
    case RemoveProfileCall(slug, f, w) => RemoveIs(c, s, slug, f, w);
    case RenameProfileCall(slug, newName, now, w) =>
      RenameIs(c, s, slug, newName, now, w);
      ValidNameIsNotEmpty(c.lower, newName);
      CanRenameIsValid(c, s.disk, slug, newName);
    case SetActiveProfileCall(slug, f, w) => SwitchedSlug(c, s, slug, f, w);
    case SetModeCall(text, now, f, w) =>
      var m := Modes.Parse(c.lower, text);
      if m.Some? {
        ChangeModeKeepsSlug(c, s, m.value, now, f, w);
      }
    case SetRosenpassCall(r, now, f, w) => SetRosenpassIs(c, s, r, now, f, w);
    case _ => LegCallsSameProfile(c, s, call);
  }

  lemma CanRenameIsValid(c: Config, d: PS.Disk, slug: string, newName: string)
    ensures CanRename(c.lower, d, slug, newName) ==> ValidateName(c.lower, newName).Ok?
  {
    hide ValidateName;
  }

  lemma ChangeModeKeepsSlug(c: Config, s: State, m: Mode, now: int, f: LegFaults, w: PS.Faults)
    ensures ChangeMode(c, s, m, now, f, w).s.slug == s.slug
  {
    hide EnterMode, LeaveMode, PS.PlanUpdateMode, PS.Replay;
    ModeChangeKeepsMemory(c, s, m, f);
  }

  lemma SwitchedSlug(c: Config, s: State, slug: string, f: LegFaults, w: PS.Faults)
    ensures SwitchTo(c, s, slug, f, w).s.slug == if Loads(c.trust.parses, s.disk, slug) then slug else s.slug
  {
    hide SwitchTo, PS.Load;
    LoadIs(c.trust, s.disk, slug);
    if Loads(c.trust.parses, s.disk, slug) {
      SwitchOutcome(c, s, slug, f, w);
    } else {
      SwitchRefused(c, s, slug, f, w);
    }
  }

  lemma AddedSlugIs(c: Config, s: State, req: AddProfileRequest, now: int, f: LegFaults, w: PS.Faults)
    ensures s.slug != "" ==> AddProfile(c, s, req, now, f, w).s.slug != ""
  {
    hide AddProfile, SwitchTo, ValidateName, PS.CheckBundle, Installed, Modes.Parse, PS.AddedMeta;
    AddProfileIs(c, s, req, now, f, w);
    if Addable(c, s, req) {
      var slug, add := ValidateName(c.lower, req.name).value, AddRequestOf(c, s, req).value;
      NamedSlug(c, s, req);
      var d := Installed(s.disk, slug, req.bytes, PS.AddedMeta(s.disk, slug, add, now), w);
      SwitchedSlug(c, s.(disk := d), slug, f, w);
    }
  }

  lemma SwitchFromNone(c: Config, s: State, slug: string, f: LegFaults, w: PS.Faults)
    requires Sane(c, s) && s.slug == ""
    ensures Backed(c, SetActiveProfile(c, s, slug, f, w).s) <==> !Unbacks(c, s, SetActiveProfileCall(slug, f, w))
  {
    hide SwitchTo, PS.Load, StoreReachable;
    LoadIs(c.trust, s.disk, slug);
    if Loads(c.trust.parses, s.disk, slug) {
      SwitchOutcome(c, s, slug, f, w);
    } else {
      SwitchRefused(c, s, slug, f, w);
    }
  }

  lemma AddToNone(c: Config, s: State, req: AddProfileRequest, now: int, f: LegFaults, w: PS.Faults)
    requires Sane(c, s) && s.slug == ""
    ensures Backed(c, AddProfile(c, s, req, now, f, w).s) <==> !Unbacks(c, s, AddProfileCall(req, now, f, w))
  {
    hide AddProfile, SwitchTo, StoreReachable, ValidateName, PS.CheckBundle, Installed, Modes.Parse, PS.Load,
      PS.AddedMeta;
    AddProfileIs(c, s, req, now, f, w);
    if Addable(c, s, req) {
      var slug, add := ValidateName(c.lower, req.name).value, AddRequestOf(c, s, req).value;
      NamedSlug(c, s, req);
      if BothWritten(w) && req.setActive {
        var s1 := s.(disk := Installed(s.disk, slug, req.bytes, PS.AddedMeta(s.disk, slug, add, now), w));
        AddedLoads(c, s, req, now, w);
        LoadIs(c.trust, s1.disk, slug);
        SwitchOutcome(c, s1, slug, f, w);
      }
    }
  }

  lemma ImportToNone(c: Config, s: State, bytes: Bytes, now: int, w: PS.Faults)
    requires IsLowerMap(c.lower) && Sane(c, s) && s.slug == ""
    ensures Backed(c, ImportBundle(c, s, bytes, now, w).s)
  {
    hide ImportBundle, StoreReachable, IsLowerMap, PS.CheckBundle, SameFiles;
    ImportWorks(c, s, bytes, now, w);
    if ImportBundle(c, s, bytes, now, w).ok {
      AcceptedParses(c.trust, bytes);
      assert ImportSlug(s) in ImportBundle(c, s, bytes, now, w).s.disk.metas.Keys;
    }
  }

  lemma RenameOfNone(c: Config, s: State, slug: string, newName: string, now: int, w: PS.Faults)
    requires Sane(c, s) && s.slug == ""
    ensures RenameProfile(c, s, slug, newName, now, w).s.slug == ""
    ensures !(slug == s.slug && RenameParts(c, s, slug, newName, w))
  {
    hide RenameProfile, ValidateName, StoreReachable, Moved, PS.RenamedMeta;
    assert "" !in s.disk.metas by { ReachableIsSound(c.lower, s.disk); }
    RenameIs(c, s, slug, newName, now, w);
  }

  // ---- importing ----

  /** What an import leaves: the slug's profile with the imported bytes, active in memory and on disk. */
  ghost predicate Imported(s: State, n: State, slug: string, bytes: Bytes)
  {
    && n.slug == slug == n.disk.marker && n.bundle == Some(bytes) && n.mode == s.mode
    && slug in n.disk.bundles && n.disk.bundles[slug] == bytes
    && n.disk.metas.Keys == s.disk.metas.Keys + {slug}
  }

  /** The slug an import goes to. */
  function ImportSlug(s: State): string
  {
    if s.slug == "" then PS.DEFAULT_NAME else s.slug
  }

  /** All that ImportBundle promises, for whatever file writes fail. */
  ghost predicate ImportPromise(c: Config, s: State, bytes: Bytes, now: int, w: PS.Faults)
  {
    var n := ImportBundle(c, s, bytes, now, w);
    && (n.ok <==> Passes(c, bytes, now) && BothWritten(w) && (s.slug == "" ==> !w.writeMarker))
    && (n.ok ==> Imported(s, n.s, ImportSlug(s), bytes))
    && (!n.ok ==> n.s == s.(disk := n.s.disk))
    && (!Passes(c, bytes, now) ==> n.s == s)
    && (forall t :: t != ImportSlug(s) ==> SameFiles(s.disk, n.s.disk, t))
    && (n.s.disk.metas.Keys != s.disk.metas.Keys ==> s.slug == "" && PS.DEFAULT_NAME !in s.disk.metas)
  }

  /**
    ImportBundle from any state that holds the marked profile or none succeeds exactly when the bundle passes
    the checks and the writes it needs go through.  Then memory, marker and disk
    name one profile with the imported bytes; a refused import leaves memory
    alone.  No other profile's files change, and a profile is added only when
    none was active and no "default" existed.
  */
  lemma ImportWorks(c: Config, s: State, bytes: Bytes, now: int, w: PS.Faults)
    requires IsLowerMap(c.lower) && Sane(c, s) && Backed(c, s)
    ensures ImportPromise(c, s, bytes, now, w)
  {
    hide StoreReachable, PS.CheckBundle, IsLowerMap;
    if Passes(c, bytes, now) {
      if s.slug != "" {
        ImportIntoActive(c, s, bytes, now, w);
      } else {
        ImportAsDefault(c, s, bytes, now, w);
      }
    } else {
      ImportRefused(c, s, bytes, now, w);
    }
  }

  lemma ImportRefused(c: Config, s: State, bytes: Bytes, now: int, w: PS.Faults)
    requires !Passes(c, bytes, now)
    ensures ImportPromise(c, s, bytes, now, w)
  {
    hide PS.PlanAdd, PlanDefault, PS.Replay, PS.CheckBundle;
    assert s.(disk := s.disk) == s;
  }

  lemma ImportIntoActive(c: Config, s: State, bytes: Bytes, now: int, w: PS.Faults)
    requires Sane(c, s) && Backed(c, s) && s.slug != "" && Passes(c, bytes, now)
    ensures ImportPromise(c, s, bytes, now, w)
  {
    hide PS.PlanAdd, PS.Replay, PS.CheckBundle, StoreReachable, ReplaceRequest, SameFiles, PlanDefault;
    ReplaceOutcome(c, s, bytes, now, w);
    assert s.disk.metas.Keys + {s.slug} == s.disk.metas.Keys;
  }

  lemma ImportAsDefault(c: Config, s: State, bytes: Bytes, now: int, w: PS.Faults)
    requires IsLowerMap(c.lower) && Modes.Valid(s.mode) && s.slug == "" && Passes(c, bytes, now)
    ensures ImportPromise(c, s, bytes, now, w)
  {
    hide PlanDefault, PS.Replay, PS.CheckBundle, IsLowerMap, Installed, PS.AddedMeta, SameFiles;
    DefaultOutcome(c, s, bytes, now, w);
    DefaultInstalled(s.disk, DefaultRequest(s, bytes, PS.DEFAULT_NAME in s.disk.metas), now, w);
    assert PS.DEFAULT_NAME in s.disk.metas ==> s.disk.metas.Keys + {PS.DEFAULT_NAME} == s.disk.metas.Keys;
    var d := PS.Replay(s.disk, PlanDefault(c, s, bytes, now, w).steps);
    forall t | t != PS.DEFAULT_NAME ensures SameFiles(s.disk, d, t) {
      MarkerAside(s.disk, Installed(s.disk, PS.DEFAULT_NAME, bytes, PS.AddedMeta(s.disk, PS.DEFAULT_NAME,
        DefaultRequest(s, bytes, PS.DEFAULT_NAME in s.disk.metas), now), w), t);
    }
  }

  lemma MarkerAside(a: PS.Disk, b: PS.Disk, t: string)
    requires SameFiles(a, b, t)
    ensures forall m :: SameFiles(a, b.(marker := m), t)
  {
  }
}
