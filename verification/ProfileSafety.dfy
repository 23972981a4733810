/**
  What the profile store keeps: across every stop between two file steps of an
  operation, across failing steps, and over every run of operations.
*/
module ProfileSafety {
  import opened Results
  import opened Text
  import opened Slug
  import opened Modes
  import opened ProfileStore

  // ---- frames ----

  predicate SameFiles(a: Disk, b: Disk, slug: string)
  {
    && (slug in a.metas <==> slug in b.metas) && (slug in a.metas ==> a.metas[slug] == b.metas[slug])
    && (slug in a.bundles <==> slug in b.bundles) && (slug in a.bundles ==> a.bundles[slug] == b.bundles[slug])
  }

  predicate SameBundle(a: Disk, b: Disk, slug: string)
  {
    (slug in a.bundles <==> slug in b.bundles) && (slug in a.bundles ==> a.bundles[slug] == b.bundles[slug])
  }

  /** No step of the plan writes or removes a file of the slug. */
  predicate Spares(steps: seq<Step>, slug: string)
  {
    forall i :: 0 <= i < |steps| ==> steps[i].WriteMarker? || steps[i].slug != slug
  }

  predicate SparesBundle(steps: seq<Step>, slug: string)
  {
    forall i :: 0 <= i < |steps| ==> steps[i].WriteBundle? || steps[i].RemoveBundle? ==> steps[i].slug != slug
  }

  lemma {:induction false} ReplayFrame(d: Disk, steps: seq<Step>, slug: string)
    ensures Spares(steps, slug) ==> SameFiles(d, Replay(d, steps), slug)
    ensures SparesBundle(steps, slug) ==> SameBundle(d, Replay(d, steps), slug)
  {
    if steps != [] {
      ReplayFrame(d, steps[..|steps| - 1], slug);
    }
  }

  lemma Replay1(d: Disk, a: Step)
    ensures Replay(d, [a]) == Do(d, a)
  {
    assert [a][..0] == [];
  }

  lemma Replay2(d: Disk, a: Step, b: Step)
    ensures Replay(d, [a, b]) == Do(Do(d, a), b)
  {
    assert [a, b][..1] == [a];
    Replay1(d, a);
  }

  lemma Replay4(d: Disk, a: Step, b: Step, c: Step, e: Step)
    ensures Replay(d, [a, b, c, e]) == Do(Do(Do(Do(d, a), b), c), e)
  {
    assert [a, b, c, e] == [a, b] + [c, e];
    ReplayAppend(d, [a, b], [c, e]);
    Replay2(d, a, b);
    Replay2(Do(Do(d, a), b), c, e);
  }

  /** The part of a plan done before a stop. */
  function Upto(steps: seq<Step>, stop: nat): seq<Step>
  {
    if stop < |steps| then steps[..stop] else steps
  }

  // ---- renaming ----

  /** Both files of the slug are there and the bundle holds the bytes. */
  predicate Whole(d: Disk, slug: string, bytes: Bytes)
  {
    slug in d.metas && slug in d.bundles && d.bundles[slug] == bytes
  }

  /** The shape of a move: the new files, then unlinks of the old ones and the marker. */
  predicate IsMove(steps: seq<Step>, oldSlug: string, newSlug: string, data: Bytes, m: Meta)
  {
    && |steps| >= 2 && steps[0] == WriteBundle(newSlug, data) && steps[1] == WriteMeta(newSlug, m)
    && forall i :: 2 <= i < |steps| ==>
         steps[i] == RemoveBundle(oldSlug) || steps[i] == RemoveMeta(oldSlug) || steps[i] == WriteMarker(newSlug)
  }

  /** At every point of a move one of the two slugs is whole, and the marker moves only onto a whole profile. */
  lemma {:induction false} MoveUpto(d: Disk, steps: seq<Step>, oldSlug: string, newSlug: string, data: Bytes,
                                    m: Meta, k: nat)
    requires IsMove(steps, oldSlug, newSlug, data, m) && k <= |steps|
    requires oldSlug != newSlug && Whole(d, oldSlug, data)
    ensures var d' := Replay(d, steps[..k]);
            && Whole(d', if k < 2 then oldSlug else newSlug, data)
            && (d'.marker == d.marker || (k > 2 && d'.marker == newSlug))
  {
    hide Replay;
    ReplayNothing(d);
    if k > 0 {
      MoveUpto(d, steps, oldSlug, newSlug, data, m, k - 1);
      assert steps[..k] == steps[..k - 1] + [steps[k - 1]];
      ReplaySnoc(d, steps[..k - 1], steps[k - 1]);
      if k == 2 {
        assert steps[..1] == [] + [steps[0]];
        ReplaySnoc(d, [], steps[0]);
      }
    } else {
      assert steps[..0] == [];
    }
  }

  lemma PlanMoveIsMove(oldSlug: string, newSlug: string, data: Bytes, m: Meta, active: bool, f: Faults)
    requires !f.writeBundle && !f.writeMeta
    ensures IsMove(PlanMove(oldSlug, newSlug, data, m, active, f), oldSlug, newSlug, data, m)
  {
  }

  lemma InstallSpares(newSlug: string, data: Bytes, m: Meta, f: Faults, slug: string)
    requires slug != newSlug
    ensures Spares(PlanInstall(newSlug, data, m, f), slug)
  {
  }

  lemma SparesUpto(steps: seq<Step>, k: nat, slug: string)
    requires Spares(steps, slug)
    ensures Spares(Upto(steps, k), slug)
  {
  }

  lemma {:induction false} MarkerKept(d: Disk, steps: seq<Step>)
    requires forall i :: 0 <= i < |steps| ==> !steps[i].WriteMarker?
    ensures Replay(d, steps).marker == d.marker
  {
    if steps != [] {
      MarkerKept(d, steps[..|steps| - 1]);
    }
  }

  lemma RenameSpares(lower: char -> char, d: Disk, oldSlug: string, newName: string, now: int, f: Faults, s: string)
    requires s != oldSlug && (ValidateName(lower, newName).Ok? ==> s != ValidateName(lower, newName).value)
    ensures Spares(PlanRename(lower, d, oldSlug, newName, now, f).steps, s)
  {
    hide ValidateName, PlanMove;
    var v := ValidateName(lower, newName);
    if v.Ok? && oldSlug in d.metas && oldSlug in d.bundles {
      MoveSpares(oldSlug, v.value, d.bundles[oldSlug], RenamedMeta(d.metas[oldSlug], newName, now),
                 d.marker == oldSlug, f, s);
    }
  }

  lemma MoveSpares(oldSlug: string, newSlug: string, data: Bytes, m: Meta, active: bool, f: Faults, slug: string)
    requires slug != oldSlug && slug != newSlug
    ensures Spares(PlanMove(oldSlug, newSlug, data, m, active, f), slug)
  {
  }

  lemma MoveSurvivesStops(d: Disk, oldSlug: string, newSlug: string, data: Bytes, m: Meta, active: bool, f: Faults,
                          stop: nat)
    requires oldSlug != newSlug && Whole(d, oldSlug, data) && active == (d.marker == oldSlug)
    ensures var d' := Replay(d, Upto(PlanMove(oldSlug, newSlug, data, m, active, f), stop));
            && (Whole(d', oldSlug, data) || Whole(d', newSlug, data))
            && (d'.marker == d.marker || (active && d'.marker == newSlug && Whole(d', newSlug, data)))
  {
    var steps := PlanMove(oldSlug, newSlug, data, m, active, f);
    if f.writeBundle || f.writeMeta {
      InstallSpares(newSlug, data, m, f, oldSlug);
      SparesUpto(steps, stop, oldSlug);
      ReplayFrame(d, Upto(steps, stop), oldSlug);
      MarkerKept(d, Upto(steps, stop));
    } else {
      PlanMoveIsMove(oldSlug, newSlug, data, m, active, f);
      var k := if stop < |steps| then stop else |steps|;
      assert Upto(steps, stop) == steps[..k];
      MoveUpto(d, steps, oldSlug, newSlug, data, m, k);
      if !active {
        MarkerKept(d, Upto(steps, stop));
      }
    }
  }

  /** The two shapes of a rename's plan. */
  lemma RenameShape(lower: char -> char, d: Disk, oldSlug: string, newName: string, now: int, f: Faults)
    requires oldSlug in d.metas && oldSlug in d.bundles
    ensures var steps, v := PlanRename(lower, d, oldSlug, newName, now, f).steps, ValidateName(lower, newName);
            var m := RenamedMeta(d.metas[oldSlug], newName, now);
            || steps == []
            || steps == [WriteMeta(oldSlug, m)]
            || (v.Ok? && v.value != oldSlug
                && steps == PlanMove(oldSlug, v.value, d.bundles[oldSlug], m, d.marker == oldSlug, f))
  {
  }

  /**
    However a rename is stopped, and whichever of its steps fail, the old or the
    new slug still has both files with exactly the bundle bytes held before, no
    other profile's files change, and the marker moves only from the old slug to
    a whole new one.
  */
  lemma RenameSurvivesStops(lower: char -> char, d: Disk, oldSlug: string, newName: string, now: int, f: Faults,
                            stop: nat)
    requires oldSlug in d.metas && oldSlug in d.bundles
    ensures var d' := Replay(d, Upto(PlanRename(lower, d, oldSlug, newName, now, f).steps, stop));
            var bytes, v := d.bundles[oldSlug], ValidateName(lower, newName);
            && (Whole(d', oldSlug, bytes) || (v.Ok? && Whole(d', v.value, bytes)))
            && (forall s :: s != oldSlug && (v.Ok? ==> s != v.value) ==> SameFiles(d, d', s))
            && (d'.marker == d.marker
                || (v.Ok? && d.marker == oldSlug && d'.marker == v.value && Whole(d', v.value, bytes)))
  {
    var steps := PlanRename(lower, d, oldSlug, newName, now, f).steps;
    var v, m := ValidateName(lower, newName), RenamedMeta(d.metas[oldSlug], newName, now);
    forall s | s != oldSlug && (v.Ok? ==> s != v.value)
      ensures SameFiles(d, Replay(d, Upto(steps, stop)), s)
    {
      RenameSpares(lower, d, oldSlug, newName, now, f, s);
      SparesUpto(steps, stop, s);
      ReplayFrame(d, Upto(steps, stop), s);
    }
    RenameShape(lower, d, oldSlug, newName, now, f);
    if steps == [] || steps == [WriteMeta(oldSlug, m)] {
      assert Upto(steps, stop) == [] || Upto(steps, stop) == [WriteMeta(oldSlug, m)];
      Replay1(d, WriteMeta(oldSlug, m));
    } else {
      MoveSurvivesStops(d, oldSlug, v.value, d.bundles[oldSlug], m, d.marker == oldSlug, f, stop);
    }
  }

  // ---- operations as map updates, whichever of their steps fail ----

  /** The two files of an install: a failed meta write takes the new bundle out again, if it can. */
  function Installed(d: Disk, slug: string, bytes: Bytes, m: Meta, f: Faults): Disk
  {
    if f.writeBundle then d
    else if !f.writeMeta then d.(bundles := d.bundles[slug := bytes], metas := d.metas[slug := m])
    else d.(bundles := if f.removeBundle then d.bundles[slug := bytes] else d.bundles - {slug})
  }

  lemma InstallOutcome(d: Disk, slug: string, bytes: Bytes, m: Meta, f: Faults)
    ensures Replay(d, PlanInstall(slug, bytes, m, f)) == Installed(d, slug, bytes, m, f)
  {
    hide Replay;
    ReplayNothing(d);
    Replay1(d, WriteBundle(slug, bytes));
    Replay2(d, WriteBundle(slug, bytes), RemoveBundle(slug));
    Replay2(d, WriteBundle(slug, bytes), WriteMeta(slug, m));
    assert [WriteBundle(slug, bytes)] + [] == [WriteBundle(slug, bytes)];
    assert [WriteBundle(slug, bytes)] + [RemoveBundle(slug)] == [WriteBundle(slug, bytes), RemoveBundle(slug)];
    assert d.bundles[slug := bytes] - {slug} == d.bundles - {slug};
  }

  /** What the bundle checks amount to, and the meta an add writes, field by field. */
  lemma AddMeans(t: Trust, d: Disk, slug: string, req: AddRequest, now: int)
    ensures Accepts(t, req.bytes) <==>
              req.bytes != "" && t.parses(req.bytes) && !t.rootsEmpty && t.trusted(req.bytes) && t.paired(req.bytes)
    ensures (slug in d.metas ==> req.replace) ==>
              AddedMeta(d, slug, req, now) ==
              Meta(TrimSpace(req.name), req.mode, if slug in d.metas then d.metas[slug].createdAt else now, now,
                   None, None)
  {
  }

  /** The meta a rename writes: the name and the time of the update are new, the rest is the old profile's. */
  lemma RenameMeans(m: Meta, newName: string, now: int)
    ensures RenamedMeta(m, newName, now) ==
            Meta(TrimSpace(newName), m.mode, m.createdAt, now, m.rosenpassEnabled, m.rosenpassPermissive)
  {
  }

  predicate CanAdd(lower: char -> char, t: Trust, d: Disk, req: AddRequest)
  {
    var v := ValidateName(lower, req.name);
    v.Ok? && Modes.Valid(req.mode) && Accepts(t, req.bytes) && (req.replace || v.value !in d.metas)
  }

  /** An add succeeds exactly when the request passes and both writes go through; a refused one does nothing. */
  lemma AddOutcome(lower: char -> char, t: Trust, d: Disk, req: AddRequest, now: int, f: Faults)
    ensures var p, v := PlanAdd(lower, t, d, req, now, f), ValidateName(lower, req.name);
            && (p.result.Ok? <==> CanAdd(lower, t, d, req) && !f.writeBundle && !f.writeMeta)
            && (p.result.Ok? ==>
                  p.result.value == Info(v.value, AddedMeta(d, v.value, req, now), v.value == d.marker))
            && Replay(d, p.steps) ==
               if CanAdd(lower, t, d, req)
               then Installed(d, v.value, req.bytes, AddedMeta(d, v.value, req, now), f) else d
  {
    hide ValidateName, Replay, PlanInstall, CheckBundle;
    ReplayNothing(d);
    if CanAdd(lower, t, d, req) {
      var slug := ValidateName(lower, req.name).value;
      InstallOutcome(d, slug, req.bytes, AddedMeta(d, slug, req, now), f);
    }
  }

  /** A request that passes the checks is refused only because the profile is there and is not to be replaced. */
  lemma AddRefusal(lower: char -> char, t: Trust, d: Disk, req: AddRequest, now: int, f: Faults)
    requires ValidateName(lower, req.name).Ok? && Modes.Valid(req.mode) && Accepts(t, req.bytes)
    ensures PlanAdd(lower, t, d, req, now, f).result == Err(AlreadyExists) <==> !CanAdd(lower, t, d, req)
  {
  }

  /**
    An add whose meta write fails leaves the disk as it was if and only if the
    bundle write failed before it, or the rollback puts back what was there:
    nothing, or, when the rollback fails too, the very same bytes.
  */
  lemma FailedAddRestores(lower: char -> char, t: Trust, d: Disk, req: AddRequest, now: int, f: Faults)
    requires CanAdd(lower, t, d, req) && f.writeMeta
    ensures var p, slug := PlanAdd(lower, t, d, req, now, f), ValidateName(lower, req.name).value;
            && p.result == Err(IOError)
            && (Replay(d, p.steps) == d <==>
                  || f.writeBundle
                  || (!f.removeBundle && slug !in d.bundles)
                  || (f.removeBundle && slug in d.bundles && d.bundles[slug] == req.bytes))
  {
    hide Replay, ValidateName;
    AddOutcome(lower, t, d, req, now, f);
    var slug := ValidateName(lower, req.name).value;
    if slug in d.bundles {
      assert slug !in d.bundles - {slug};
      assert d.bundles[slug] == req.bytes ==> d.bundles[slug := req.bytes] == d.bundles;
    } else {
      assert d.bundles - {slug} == d.bundles;
      assert slug in d.bundles[slug := req.bytes];
    }
  }

  function Removed(d: Disk, slug: string, f: Faults): Disk
  {
    if slug !in d.metas || f.removeMeta then d
    else if f.removeBundle then d.(metas := d.metas - {slug})
    else Disk(d.metas - {slug}, d.bundles - {slug}, if d.marker == slug && !f.writeMarker then "" else d.marker)
  }

  lemma RemoveOutcome(d: Disk, slug: string, f: Faults)
    ensures var p := PlanRemove(d, slug, f);
            && (p.result.Ok? <==>
                  slug in d.metas && !f.removeMeta && !f.removeBundle && !(d.marker == slug && f.writeMarker))
            && Replay(d, p.steps) == Removed(d, slug, f)
  {
    hide Replay;
    ReplayNothing(d);
    Replay1(d, RemoveMeta(slug));
    Replay2(d, RemoveMeta(slug), RemoveBundle(slug));
    var two := [RemoveMeta(slug), RemoveBundle(slug)];
    assert two + [WriteMarker("")] == [RemoveMeta(slug), RemoveBundle(slug), WriteMarker("")];
    ReplaySnoc(d, two, WriteMarker(""));
  }

  lemma SetActiveOutcome(d: Disk, slug: string, f: Faults)
    ensures var p := PlanSetActive(d, slug, f);
            && (p.result.Ok? <==> (slug == "" || slug in d.metas) && !f.writeMarker)
            && Replay(d, p.steps) == if p.result.Ok? then d.(marker := slug) else d
  {
    hide Replay;
    ReplayNothing(d);
    Replay1(d, WriteMarker(slug));
  }

  lemma EditOutcome(d: Disk, slug: string, edit: Meta -> Meta, f: Faults)
    ensures var p := PlanEdit(d, slug, edit, f);
            && (p.result.Ok? <==> slug in d.metas && !f.writeMeta)
            && Replay(d, p.steps) == if p.result.Ok? then d.(metas := d.metas[slug := edit(d.metas[slug])]) else d
  {
    hide Replay;
    ReplayNothing(d);
    if slug in d.metas {
      Replay1(d, WriteMeta(slug, edit(d.metas[slug])));
    }
  }

  lemma AddActiveOutcome(lower: char -> char, t: Trust, d: Disk, req: AddRequest, now: int, f: Faults)
    ensures var p, v := PlanAddActive(lower, t, d, req, now, f), ValidateName(lower, req.name);
            var added := CanAdd(lower, t, d, req) && !f.writeBundle && !f.writeMeta;
            && (p.result.Ok? <==> added && !f.writeMarker)
            && (p.result.Ok? ==> p.result.value == Some(v.value))
            && Replay(d, p.steps) ==
               if !CanAdd(lower, t, d, req) then d
               else
                 var d1 := Installed(d, v.value, req.bytes, AddedMeta(d, v.value, req, now), f);
                 if p.result.Ok? then d1.(marker := v.value) else d1
  {
    hide ValidateName, Replay, PlanAdd, PlanSetActive, AddedMeta;
    AddOutcome(lower, t, d, req, now, f);
    var added := PlanAdd(lower, t, d, req, now, f);
    if added.result.Ok? {
      var slug := added.result.value.slug;
      SetActiveOutcome(Replay(d, added.steps), slug, f);
      ReplayAppend(d, added.steps, PlanSetActive(Replay(d, added.steps), slug, f).steps);
    }
  }

  /** When a rename goes through. */
  predicate CanRename(lower: char -> char, d: Disk, oldSlug: string, newName: string)
  {
    var v := ValidateName(lower, newName);
    v.Ok? && oldSlug in d.metas && (v.value != oldSlug ==> v.value !in d.metas && oldSlug in d.bundles)
  }

  /** Old files whose unlink fails stay behind. */
  function CleanedUp(d: Disk, slug: string, f: Faults): Disk
  {
    d.(metas := if f.removeMeta then d.metas else d.metas - {slug},
       bundles := if f.removeBundle then d.bundles else d.bundles - {slug})
  }

  function Moved(d: Disk, oldSlug: string, newSlug: string, data: Bytes, m: Meta, f: Faults): Disk
  {
    var d1 := Installed(d, newSlug, data, m, f);
    if f.writeBundle || f.writeMeta then d1
    else
      var d2 := CleanedUp(d1, oldSlug, f);
      if d.marker == oldSlug && !f.writeMarker then d2.(marker := newSlug) else d2
  }

  lemma CleanUpOutcome(d: Disk, slug: string, f: Faults)
    ensures Replay(d, CleanUp(slug, f)) == CleanedUp(d, slug, f)
  {
    hide Replay;
    ReplayNothing(d);
    Replay1(d, RemoveBundle(slug));
    Replay1(d, RemoveMeta(slug));
    Replay2(d, RemoveBundle(slug), RemoveMeta(slug));
    assert [RemoveBundle(slug)] + [RemoveMeta(slug)] == [RemoveBundle(slug), RemoveMeta(slug)];
    assert [RemoveBundle(slug)] + [] == [RemoveBundle(slug)];
    assert [] + [RemoveMeta(slug)] == [RemoveMeta(slug)];
    assert CleanUp(slug, f) == if f.removeBundle && f.removeMeta then []
                               else if f.removeBundle then [RemoveMeta(slug)]
                               else if f.removeMeta then [RemoveBundle(slug)]
                               else [RemoveBundle(slug), RemoveMeta(slug)];
  }

  lemma MoveOutcome(d: Disk, oldSlug: string, newSlug: string, data: Bytes, m: Meta, f: Faults)
    ensures Replay(d, PlanMove(oldSlug, newSlug, data, m, d.marker == oldSlug, f)) ==
            Moved(d, oldSlug, newSlug, data, m, f)
  {
    hide Replay, PlanInstall, CleanUp, CleanedUp;
    InstallOutcome(d, newSlug, data, m, f);
    if !f.writeBundle && !f.writeMeta {
      var install, clean := PlanInstall(newSlug, data, m, f), CleanUp(oldSlug, f);
      var d1 := Installed(d, newSlug, data, m, f);
      CleanUpOutcome(d1, oldSlug, f);
      ReplayAppend(d, install, clean);
      ReplaySnoc(d, install + clean, WriteMarker(newSlug));
      assert install + clean + [] == install + clean;
      assert CleanedUp(d1, oldSlug, f).marker == d.marker by { CleanedMarker(d1, oldSlug, f); }
    }
  }

  lemma CleanedMarker(d: Disk, slug: string, f: Faults)
    ensures CleanedUp(d, slug, f).marker == d.marker
  {
  }

  /** A rename that can go through succeeds exactly when no step but an unlink of an old file fails. */
  lemma RenameOutcome(lower: char -> char, d: Disk, oldSlug: string, newName: string, now: int, f: Faults)
    ensures var p, v := PlanRename(lower, d, oldSlug, newName, now, f), ValidateName(lower, newName);
            if !CanRename(lower, d, oldSlug, newName) then p.result.Err? && Replay(d, p.steps) == d
            else
              var m := RenamedMeta(d.metas[oldSlug], newName, now);
              var was := d.metas[oldSlug];
              && m == Meta(TrimSpace(newName), was.mode, was.createdAt, now, was.rosenpassEnabled,
                           was.rosenpassPermissive)
              && (p.result.Ok? ==> p.result.value == Info(v.value, m, false))
              && (p.result.Ok? <==>
                    !f.writeMeta && (v.value != oldSlug ==> !f.writeBundle && !(d.marker == oldSlug && f.writeMarker)))
              && Replay(d, p.steps) ==
                 if v.value != oldSlug then Moved(d, oldSlug, v.value, d.bundles[oldSlug], m, f)
                 else if f.writeMeta then d
                 else d.(metas := d.metas[oldSlug := m])
  {
    hide ValidateName, Replay, PlanMove, Moved, RenamedMeta;
    ReplayNothing(d);
    if CanRename(lower, d, oldSlug, newName) {
      var newSlug := ValidateName(lower, newName).value;
      var m := RenamedMeta(d.metas[oldSlug], newName, now);
      Replay1(d, WriteMeta(oldSlug, m));
      RenameMeans(d.metas[oldSlug], newName, now);
      if newSlug != oldSlug {
        MoveOutcome(d, oldSlug, newSlug, d.bundles[oldSlug], m, f);
      }
    }
  }

  // ---- finished operations are one update ----

  /** The profile under its new slug, as one update of each map. */
  function Renamed(d: Disk, oldSlug: string, newSlug: string, m: Meta): Disk
    requires newSlug != oldSlug ==> oldSlug in d.bundles
  {
    if newSlug == oldSlug then d.(metas := d.metas[oldSlug := m])
    else
      Disk((d.metas - {oldSlug})[newSlug := m],
           (d.bundles - {oldSlug})[newSlug := d.bundles[oldSlug]],
           if d.marker == oldSlug then newSlug else d.marker)
  }

  /** A rename without failing steps either changes nothing or is one map update, the marker following the profile. */
  lemma RenameIsOneUpdate(lower: char -> char, d: Disk, oldSlug: string, newName: string, now: int)
    ensures var p := PlanRename(lower, d, oldSlug, newName, now, NO_FAULTS);
            var v := ValidateName(lower, newName);
            && (p.result.Ok? <==> CanRename(lower, d, oldSlug, newName))
            && (p.result.Err? ==> Replay(d, p.steps) == d)
            && (p.result.Ok? ==>
                  var was := d.metas[oldSlug];
                  var m := Meta(TrimSpace(newName), was.mode, was.createdAt, now, was.rosenpassEnabled,
                                was.rosenpassPermissive);
                  p.result.value == Info(v.value, m, false) && Replay(d, p.steps) == Renamed(d, oldSlug, v.value, m))
  {
    hide ValidateName, Replay, PlanRename, RenamedMeta;
    RenameOutcome(lower, d, oldSlug, newName, now, NO_FAULTS);
    var v := ValidateName(lower, newName);
    if CanRename(lower, d, oldSlug, newName) && v.value != oldSlug {
      var m, bytes := RenamedMeta(d.metas[oldSlug], newName, now), d.bundles[oldSlug];
      assert d.metas[v.value := m] - {oldSlug} == (d.metas - {oldSlug})[v.value := m];
      assert d.bundles[v.value := bytes] - {oldSlug} == (d.bundles - {oldSlug})[v.value := bytes];
    }
  }

  lemma AddIsOneUpdate(lower: char -> char, t: Trust, d: Disk, req: AddRequest, now: int)
    ensures var p := PlanAdd(lower, t, d, req, now, NO_FAULTS);
            var v, b := ValidateName(lower, req.name), req.bytes;
            && (p.result.Ok? <==>
                  && v.Ok? && Modes.Valid(req.mode) && (v.value in d.metas ==> req.replace)
                  && b != "" && t.parses(b) && !t.rootsEmpty && t.trusted(b) && t.paired(b))
            && (p.result.Err? ==> Replay(d, p.steps) == d)
            && (p.result.Ok? ==>
                  var m := Meta(TrimSpace(req.name), req.mode,
                                if v.value in d.metas then d.metas[v.value].createdAt else now, now, None, None);
                  && p.result.value == Info(v.value, m, v.value == d.marker)
                  && Replay(d, p.steps) == d.(bundles := d.bundles[v.value := b], metas := d.metas[v.value := m]))
  {
    hide ValidateName, Replay, PlanAdd, CheckBundle, AddedMeta, TrimSpace;
    AddOutcome(lower, t, d, req, now, NO_FAULTS);
    AddMeans(t, d, if ValidateName(lower, req.name).Ok? then ValidateName(lower, req.name).value else "", req, now);
  }

  lemma RemoveIsOneUpdate(d: Disk, slug: string)
    ensures var p := PlanRemove(d, slug, NO_FAULTS);
            && (p.result.Ok? <==> slug in d.metas)
            && Replay(d, p.steps) ==
               if slug !in d.metas then d
               else Disk(d.metas - {slug}, d.bundles - {slug}, if d.marker == slug then "" else d.marker)
  {
    RemoveOutcome(d, slug, NO_FAULTS);
  }

  lemma AddActiveIsOneUpdate(lower: char -> char, t: Trust, d: Disk, req: AddRequest, now: int)
    ensures var p := PlanAddActive(lower, t, d, req, now, NO_FAULTS);
            var v := ValidateName(lower, req.name);
            if CanAdd(lower, t, d, req)
            then p.result == Ok(Some(v.value))
              && Replay(d, p.steps) ==
                 Disk(d.metas[v.value := AddedMeta(d, v.value, req, now)], d.bundles[v.value := req.bytes], v.value)
            else p.result.Err? && Replay(d, p.steps) == d
  {
    hide ValidateName, Replay, PlanAddActive;
    AddActiveOutcome(lower, t, d, req, now, NO_FAULTS);
  }

  lemma DefaultIsSlug()
    ensures IsSlug(DEFAULT_NAME) && DEFAULT_NAME != "" && DEFAULT_NAME != "active"
  {
    assert DEFAULT_NAME == "default";
  }

  lemma DefaultSlug(lower: char -> char)
    requires IsLowerMap(lower)
    ensures ValidateName(lower, DEFAULT_NAME) == Ok(DEFAULT_NAME)
  {
    hide DEFAULT_NAME, Slugify, IsSlug, IsLowerMap;
    DefaultIsSlug();
    SlugifyFixed(lower, DEFAULT_NAME);
    ValidNames(lower, DEFAULT_NAME);
  }

  lemma DefaultIsTrimmed()
    ensures TrimSpace(DEFAULT_NAME) == DEFAULT_NAME == "default"
  {
    var s := DEFAULT_NAME;
    assert s[0] == 'd' && s[|s| - 1] == 't';
    TrimFixed(s, IsSpace);
  }

  /**
    A migration does nothing unless the store is empty and there is a legacy
    bundle; then the bundle becomes the marked profile "default" exactly when it
    passes an import's checks and its three writes go through.
  */
  lemma MigrationIs(lower: char -> char, t: Trust, d: Disk, legacy: Option<Bytes>, initial: Mode, now: int, f: Faults)
    requires IsLowerMap(lower)
    ensures var p := PlanMigrate(lower, t, d, legacy, initial, now, f);
            if d.metas != map[] || legacy.None? then p.steps == [] && p.result == Ok(None)
            else if !t.parses(legacy.value) then p.steps == [] && p.result == Err(BadBundle)
            else
              var b, mode := legacy.value, if Modes.Valid(initial) then initial else Combined;
              && (p.result.Ok? <==>
                    && b != "" && !t.rootsEmpty && t.trusted(b) && t.paired(b)
                    && !f.writeBundle && !f.writeMeta && !f.writeMarker)
              && (p.result.Ok? ==>
                    && p.result.value == Some("default")
                    && Replay(d, p.steps) ==
                       Disk(map["default" := Meta("default", mode, now, now, None, None)],
                            d.bundles["default" := b], "default"))
  {
    hide ValidateName, Replay, PlanAddActive, CheckBundle, AddedMeta, TrimSpace, DEFAULT_NAME, IsLowerMap;
    if legacy.Some? {
      var mode := if Modes.Valid(initial) then initial else DEFAULT;
      var req := AddRequest(DEFAULT_NAME, mode, legacy.value, false);
      DefaultSlug(lower);
      DefaultIsTrimmed();
      AddMeans(t, d, DEFAULT_NAME, req, now);
      AddActiveOutcome(lower, t, d, req, now, f);
    }
  }

  // ---- what does not hold at a stop ----

  /** Every meta has its bundle and the marker names a profile: true between operations, not during them. */
  predicate Consistent(d: Disk)
  {
    d.metas.Keys == d.bundles.Keys && (d.marker == "" || d.marker in d.metas)
  }

  /**
    A move stopped between the removals leaves the old meta without a bundle,
    and one stopped before the marker write a marker without a profile; it is
    consistent at every other stop.
  */
  lemma RenameGaps(d: Disk, oldSlug: string, newSlug: string, m: Meta, stop: nat)
    requires Consistent(d) && oldSlug in d.metas && newSlug !in d.metas && newSlug != "" && oldSlug != ""
    ensures var active := d.marker == oldSlug;
            var d' := Replay(d, Upto(PlanMove(oldSlug, newSlug, d.bundles[oldSlug], m, active, NO_FAULTS), stop));
            && ((exists s :: s in d'.metas && s !in d'.bundles) <==> stop == 3)
            && ((d'.marker != "" && d'.marker !in d'.metas) <==> active && stop == 4)
  {
    var active, bytes := d.marker == oldSlug, d.bundles[oldSlug];
    var steps := PlanMove(oldSlug, newSlug, bytes, m, active, NO_FAULTS);
    var s0, s1 := WriteBundle(newSlug, bytes), WriteMeta(newSlug, m);
    var s2, s3 := RemoveBundle(oldSlug), RemoveMeta(oldSlug);
    assert steps[..0] == [] && steps[..1] == [s0] && steps[..2] == [s0, s1];
    assert steps[..3] == [s0, s1] + [s2] && steps[..4] == [s0, s1, s2, s3];
    Replay1(d, s0);
    Replay2(d, s0, s1);
    ReplaySnoc(d, [s0, s1], s2);
    Replay4(d, s0, s1, s2, s3);
    var d' := Replay(d, Upto(steps, stop));
    if stop == 3 {
      assert oldSlug in d'.metas && oldSlug !in d'.bundles;
    } else if stop > 4 && active {
      assert steps == [s0, s1, s2, s3] + [WriteMarker(newSlug)];
      ReplaySnoc(d, [s0, s1, s2, s3], WriteMarker(newSlug));
    } else if stop >= 4 {
      assert Upto(steps, stop) == [s0, s1, s2, s3];
    }
  }

  /** A removal of the active profile stopped before its last step leaves the marker dangling. */
  lemma RemoveGaps(d: Disk, slug: string, stop: nat)
    requires Consistent(d) && slug in d.metas && slug != ""
    ensures var d' := Replay(d, Upto(PlanRemove(d, slug, NO_FAULTS).steps, stop));
            && ((d'.marker != "" && d'.marker !in d'.metas) <==> d.marker == slug && 0 < stop < 3)
            && (forall s :: s in d'.metas ==> s in d'.bundles)
  {
    var steps := PlanRemove(d, slug, NO_FAULTS).steps;
    assert steps[..0] == [] && steps[..1] == [RemoveMeta(slug)];
    assert steps[..2] == [RemoveMeta(slug), RemoveBundle(slug)];
    Replay1(d, RemoveMeta(slug));
    Replay2(d, RemoveMeta(slug), RemoveBundle(slug));
    if d.marker == slug {
      assert steps == steps[..2] + [WriteMarker("")];
      ReplaySnoc(d, steps[..2], WriteMarker(""));
    }
  }

  // ---- runs with stops ----

  datatype Op =
    | AddOp(t: Trust, req: AddRequest, now: int, f: Faults)
    | RemoveOp(slug: string, f: Faults)
    | RenameOp(slug: string, newName: string, now: int, f: Faults)
    | SetActiveOp(slug: string, f: Faults)
    | UpdateModeOp(slug: string, mode: Mode, now: int, f: Faults)
    | UpdateRosenpassOp(slug: string, enabled: Option<bool>, permissive: Option<bool>, now: int, f: Faults)
    | MigrateOp(t: Trust, legacy: Option<Bytes>, initial: Mode, now: int, f: Faults)

  function StepsOf(lower: char -> char, d: Disk, op: Op): seq<Step>
  {
    match op
    case AddOp(t, req, now, f) => PlanAdd(lower, t, d, req, now, f).steps
    case RemoveOp(slug, f) => PlanRemove(d, slug, f).steps
    case RenameOp(slug, newName, now, f) => PlanRename(lower, d, slug, newName, now, f).steps
    case SetActiveOp(slug, f) => PlanSetActive(d, slug, f).steps
    case UpdateModeOp(slug, mode, now, f) => PlanUpdateMode(d, slug, mode, now, f).steps
    case UpdateRosenpassOp(slug, en, pm, now, f) => PlanUpdateRosenpass(d, slug, en, pm, now, f).steps
    case MigrateOp(t, legacy, initial, now, f) => PlanMigrate(lower, t, d, legacy, initial, now, f).steps
  }

  /** An operation, stopped after `stop` file steps (not at all if it has no more). */
  datatype Event = Event(op: Op, stop: nat)

  function After(lower: char -> char, d: Disk, ev: Event): Disk
  {
    Replay(d, Upto(StepsOf(lower, d, ev.op), ev.stop))
  }

  function Run(lower: char -> char, evs: seq<Event>): Disk
  {
    if evs == [] then EMPTY_DISK else After(lower, Run(lower, evs[..|evs| - 1]), evs[|evs| - 1])
  }

  /** The operation was handed these bytes and its trust roots accepted them. */
  predicate Imports(op: Op, bytes: Bytes)
  {
    || (op.AddOp? && op.req.bytes == bytes && Accepts(op.t, bytes))
    || (op.MigrateOp? && op.legacy == Some(bytes) && Accepts(op.t, bytes))
  }

  /** The operation may write or remove the slug's bundle: an Add of it, or a Remove or Rename naming it. */
  predicate Names(lower: char -> char, op: Op, slug: string)
  {
    match op
    case AddOp(_, req, _, _) => Slugify(lower, req.name) == slug
    case RemoveOp(s, _) => s == slug
    case RenameOp(s, newName, _, _) => s == slug || Slugify(lower, newName) == slug
    case MigrateOp(_, _, _, _, _) => Slugify(lower, DEFAULT_NAME) == slug
    case _ => false
  }

  /** The stored name slugifies to the file's slug, and the stored mode is a known one. */
  predicate SoundMeta(lower: char -> char, slug: string, m: Meta)
  {
    ValidateName(lower, m.name) == Ok(slug) && Modes.Valid(m.mode)
  }

  predicate Sound(lower: char -> char, d: Disk)
  {
    forall s :: s in d.metas ==> SoundMeta(lower, s, d.metas[s])
  }

  /** What Add writes: accepted bytes and a sound meta, under the slug of the name. */
  lemma AddSteps(lower: char -> char, t: Trust, d: Disk, req: AddRequest, now: int, f: Faults, i: nat)
    requires i < |PlanAdd(lower, t, d, req, now, f).steps|
    ensures var s := PlanAdd(lower, t, d, req, now, f).steps[i];
            && !s.WriteMarker? && s.slug == Slugify(lower, req.name)
            && (s.WriteBundle? ==> s.bytes == req.bytes && Accepts(t, req.bytes))
            && (s.WriteMeta? ==> SoundMeta(lower, s.slug, s.m))
  {
    hide Slugify, TrimSpace;
    SlugifyTrimmed(lower, req.name);
  }

  lemma MoveSteps(oldSlug: string, newSlug: string, data: Bytes, m: Meta, active: bool, f: Faults, i: nat)
    requires i < |PlanMove(oldSlug, newSlug, data, m, active, f)|
    ensures var s := PlanMove(oldSlug, newSlug, data, m, active, f)[i];
            && (s.WriteBundle? ==> s.slug == newSlug && s.bytes == data)
            && (s.WriteMeta? ==> s.slug == newSlug && s.m == m)
            && (s.RemoveBundle? ==> s.slug == oldSlug || s.slug == newSlug)
  {
  }

  lemma RenameSteps(lower: char -> char, d: Disk, oldSlug: string, newName: string, now: int, f: Faults, i: nat)
    requires i < |PlanRename(lower, d, oldSlug, newName, now, f).steps|
    ensures var s := PlanRename(lower, d, oldSlug, newName, now, f).steps[i];
            && (s.WriteBundle? ==> s.bytes in d.bundles.Values)
            && (s.WriteBundle? || s.RemoveBundle? ==> s.slug == oldSlug || s.slug == Slugify(lower, newName))
            && (s.WriteMeta? && Sound(lower, d) ==> SoundMeta(lower, s.slug, s.m))
  {
    SlugifyTrimmed(lower, newName);
    var v := ValidateName(lower, newName);
    if v.value != oldSlug {
      MoveSteps(oldSlug, v.value, d.bundles[oldSlug], RenamedMeta(d.metas[oldSlug], newName, now),
                d.marker == oldSlug, f, i);
    }
  }

  lemma MigrateSteps(lower: char -> char, t: Trust, d: Disk, legacy: Option<Bytes>, initial: Mode, now: int,
                     f: Faults, i: nat)
    requires i < |PlanMigrate(lower, t, d, legacy, initial, now, f).steps|
    ensures var s := PlanMigrate(lower, t, d, legacy, initial, now, f).steps[i];
            || s.WriteMarker?
            || (s.slug == Slugify(lower, DEFAULT_NAME) && legacy.Some?
                && (s.WriteBundle? ==> s.bytes == legacy.value && Accepts(t, legacy.value))
                && (s.WriteMeta? ==> SoundMeta(lower, s.slug, s.m)))
  {
    var req := AddRequest(DEFAULT_NAME, if Modes.Valid(initial) then initial else DEFAULT, legacy.value, false);
    var added := PlanAdd(lower, t, d, req, now, f).steps;
    if i < |added| {
      AddSteps(lower, t, d, req, now, f, i);
    }
  }

  /** Where the bytes of each bundle write come from, and which slugs are written. */
  lemma BundleSteps(lower: char -> char, d: Disk, op: Op, i: nat)
    requires i < |StepsOf(lower, d, op)|
    ensures var s := StepsOf(lower, d, op)[i];
            && (s.WriteBundle? ==> Imports(op, s.bytes) || s.bytes in d.bundles.Values)
            && (s.WriteBundle? || s.RemoveBundle? ==> Names(lower, op, s.slug))
  {
    match op
    case AddOp(t, req, now, f) => AddSteps(lower, t, d, req, now, f, i);
    case RenameOp(slug, newName, now, f) => RenameSteps(lower, d, slug, newName, now, f, i);
    case MigrateOp(t, legacy, initial, now, f) => MigrateSteps(lower, t, d, legacy, initial, now, f, i);
    case _ =>
  }

  lemma {:induction false} ReplayBytes(d: Disk, steps: seq<Step>, slug: string)
    requires slug in Replay(d, steps).bundles
    ensures var b := Replay(d, steps).bundles[slug];
            b in d.bundles.Values || exists i :: 0 <= i < |steps| && steps[i].WriteBundle? && steps[i].bytes == b
  {
    if steps == [] {
      assert d.bundles[slug] in d.bundles.Values;
    } else {
      var front, s := steps[..|steps| - 1], steps[|steps| - 1];
      if !(s.WriteBundle? && s.slug == slug) {
        ReplayBytes(d, front, slug);
        var b := Replay(d, front).bundles[slug];
        if i :| 0 <= i < |front| && front[i].WriteBundle? && front[i].bytes == b {
          assert steps[i] == front[i];
        }
      }
    }
  }

  /**
    In every run, with stops between file steps, failing steps, and whatever
    trust roots were configured at the time, each .cbor file holds bytes that
    some earlier Add or migration was given and accepted.
  */
  lemma {:induction false} EveryBundleWasVerified(lower: char -> char, evs: seq<Event>, slug: string)
    requires slug in Run(lower, evs).bundles
    ensures exists i :: 0 <= i < |evs| && Imports(evs[i].op, Run(lower, evs).bundles[slug])
  {
    if evs != [] {
      var front, ev := evs[..|evs| - 1], evs[|evs| - 1];
      var d, b := Run(lower, front), Run(lower, evs).bundles[slug];
      var steps := StepsOf(lower, d, ev.op);
      var done := Upto(steps, ev.stop);
      ReplayBytes(d, done, slug);
      if i :| 0 <= i < |done| && done[i].WriteBundle? && done[i].bytes == b {
        assert steps[i] == done[i];
        BundleSteps(lower, d, ev.op, i);
      }
      if Imports(ev.op, b) {
        assert Imports(evs[|front|].op, b);
      } else {
        assert b in d.bundles.Values;
        var s :| s in d.bundles && d.bundles[s] == b;
        EveryBundleWasVerified(lower, front, s);
        var i :| 0 <= i < |front| && Imports(front[i].op, b);
        assert evs[i] == front[i];
      }
    }
  }

  /** So Load, which does not verify, only returns verified bundles. */
  lemma LoadedIsVerified(lower: char -> char, evs: seq<Event>, t: Trust, slug: string)
    requires Load(t, Run(lower, evs), slug).Ok?
    ensures exists i :: 0 <= i < |evs| && Imports(evs[i].op, Load(t, Run(lower, evs), slug).value.1)
  {
    hide Run;
    EveryBundleWasVerified(lower, evs, slug);
  }

  /** One operation, stopped anywhere, changes no bundle it does not name. */
  lemma BundleChangesAreNamed(lower: char -> char, d: Disk, ev: Event, slug: string)
    requires !Names(lower, ev.op, slug)
    ensures SameBundle(d, After(lower, d, ev), slug)
  {
    var steps := StepsOf(lower, d, ev.op);
    forall i | 0 <= i < |Upto(steps, ev.stop)|
      ensures var s := Upto(steps, ev.stop)[i]; s.WriteBundle? || s.RemoveBundle? ==> s.slug != slug
    {
      BundleSteps(lower, d, ev.op, i);
    }
    ReplayFrame(d, Upto(steps, ev.stop), slug);
  }

  // ---- stored names and slugs agree ----

  lemma UpdateModeSteps(lower: char -> char, d: Disk, slug: string, mode: Mode, now: int, f: Faults, i: nat)
    requires Sound(lower, d) && i < |PlanUpdateMode(d, slug, mode, now, f).steps|
    ensures var s := PlanUpdateMode(d, slug, mode, now, f).steps[i]; s.WriteMeta? && SoundMeta(lower, s.slug, s.m)
  {
  }

  lemma UpdateRosenpassSteps(lower: char -> char, d: Disk, slug: string, en: Option<bool>, pm: Option<bool>, now: int,
                             f: Faults, i: nat)
    requires Sound(lower, d) && i < |PlanUpdateRosenpass(d, slug, en, pm, now, f).steps|
    ensures var s := PlanUpdateRosenpass(d, slug, en, pm, now, f).steps[i];
            s.WriteMeta? && SoundMeta(lower, s.slug, s.m)
  {
  }

  lemma RemoveSteps(d: Disk, slug: string, f: Faults, i: nat)
    requires i < |PlanRemove(d, slug, f).steps|
    ensures !PlanRemove(d, slug, f).steps[i].WriteMeta?
  {
  }

  lemma MetaSteps(lower: char -> char, d: Disk, op: Op, i: nat)
    requires Sound(lower, d) && i < |StepsOf(lower, d, op)|
    ensures var s := StepsOf(lower, d, op)[i]; s.WriteMeta? ==> SoundMeta(lower, s.slug, s.m)
  {
    match op
    case AddOp(t, req, now, f) => AddSteps(lower, t, d, req, now, f, i);
    case RemoveOp(slug, f) => RemoveSteps(d, slug, f, i);
    case RenameOp(slug, newName, now, f) => RenameSteps(lower, d, slug, newName, now, f, i);
    case SetActiveOp(slug, f) =>
    case UpdateModeOp(slug, mode, now, f) => UpdateModeSteps(lower, d, slug, mode, now, f, i);
    case UpdateRosenpassOp(slug, en, pm, now, f) => UpdateRosenpassSteps(lower, d, slug, en, pm, now, f, i);
    case MigrateOp(t, legacy, initial, now, f) => MigrateSteps(lower, t, d, legacy, initial, now, f, i);
  }

  lemma {:induction false} SoundReplay(lower: char -> char, d: Disk, steps: seq<Step>)
    requires Sound(lower, d)
    requires forall i :: 0 <= i < |steps| && steps[i].WriteMeta? ==> SoundMeta(lower, steps[i].slug, steps[i].m)
    ensures Sound(lower, Replay(d, steps))
  {
    if steps != [] {
      SoundReplay(lower, d, steps[..|steps| - 1]);
    }
  }

  lemma SoundAfter(lower: char -> char, d: Disk, op: Op, stop: nat)
    requires Sound(lower, d)
    ensures Sound(lower, Replay(d, Upto(StepsOf(lower, d, op), stop)))
  {
    var steps := Upto(StepsOf(lower, d, op), stop);
    forall i | 0 <= i < |steps| && steps[i].WriteMeta? ensures SoundMeta(lower, steps[i].slug, steps[i].m) {
      MetaSteps(lower, d, op, i);
    }
    SoundReplay(lower, d, steps);
  }

  /** In every run, at every stop, each profile's slug is the slug of its stored name. */
  lemma {:induction false} EveryMetaIsSound(lower: char -> char, evs: seq<Event>)
    ensures Sound(lower, Run(lower, evs))
  {
    if evs != [] {
      EveryMetaIsSound(lower, evs[..|evs| - 1]);
      SoundAfter(lower, Run(lower, evs[..|evs| - 1]), evs[|evs| - 1].op, evs[|evs| - 1].stop);
    }
  }

  /** Installing, moving and deleting whole profiles keeps the two maps in step. */
  lemma InstalledIsConsistent(d: Disk, slug: string, m: Meta, bytes: Bytes, marker: string)
    requires Consistent(d) && (marker == d.marker || marker == slug)
    ensures Consistent(Disk(d.metas[slug := m], d.bundles[slug := bytes], marker))
  {
    assert d.metas[slug := m].Keys == d.metas.Keys + {slug};
    assert d.bundles[slug := bytes].Keys == d.bundles.Keys + {slug};
  }

  lemma RenamedIsConsistent(d: Disk, oldSlug: string, newSlug: string, m: Meta)
    requires Consistent(d) && oldSlug in d.metas
    ensures Consistent(Renamed(d, oldSlug, newSlug, m))
  {
    if newSlug != oldSlug {
      assert (d.metas - {oldSlug})[newSlug := m].Keys == d.metas.Keys - {oldSlug} + {newSlug};
      assert (d.bundles - {oldSlug})[newSlug := d.bundles[oldSlug]].Keys == d.bundles.Keys - {oldSlug} + {newSlug};
    } else {
      assert d.metas[oldSlug := m].Keys == d.metas.Keys;
    }
  }

  lemma EditedIsConsistent(d: Disk, slug: string, edit: Meta -> Meta)
    requires Consistent(d)
    ensures Consistent(Replay(d, PlanEdit(d, slug, edit, NO_FAULTS).steps))
  {
    EditOutcome(d, slug, edit, NO_FAULTS);
    if slug in d.metas {
      assert d.metas[slug := edit(d.metas[slug])].Keys == d.metas.Keys;
    }
  }

  lemma AddedActiveIsConsistent(lower: char -> char, t: Trust, d: Disk, req: AddRequest, now: int)
    requires Consistent(d)
    ensures Consistent(Replay(d, PlanAdd(lower, t, d, req, now, NO_FAULTS).steps))
    ensures Consistent(Replay(d, PlanAddActive(lower, t, d, req, now, NO_FAULTS).steps))
  {
    AddIsOneUpdate(lower, t, d, req, now);
    AddActiveIsOneUpdate(lower, t, d, req, now);
    if CanAdd(lower, t, d, req) {
      var slug := ValidateName(lower, req.name).value;
      InstalledIsConsistent(d, slug, AddedMeta(d, slug, req, now), req.bytes, d.marker);
      InstalledIsConsistent(d, slug, AddedMeta(d, slug, req, now), req.bytes, slug);
    }
  }

  lemma RemovedIsConsistent(d: Disk, slug: string)
    requires Consistent(d)
    ensures Consistent(Replay(d, PlanRemove(d, slug, NO_FAULTS).steps))
    ensures slug == "" || slug in d.metas ==> Consistent(Replay(d, PlanSetActive(d, slug, NO_FAULTS).steps))
    ensures slug != "" && slug !in d.metas ==> PlanSetActive(d, slug, NO_FAULTS).steps == []
  {
    RemoveIsOneUpdate(d, slug);
    SetActiveOutcome(d, slug, NO_FAULTS);
  }

  lemma RenameKeepsConsistent(lower: char -> char, d: Disk, slug: string, newName: string, now: int)
    requires Consistent(d)
    ensures Consistent(Replay(d, PlanRename(lower, d, slug, newName, now, NO_FAULTS).steps))
  {
    RenameIsOneUpdate(lower, d, slug, newName, now);
    if CanRename(lower, d, slug, newName) {
      RenamedIsConsistent(d, slug, ValidateName(lower, newName).value, RenamedMeta(d.metas[slug], newName, now));
    }
  }

  /** Without failing steps and without stops, every operation keeps the disk consistent. */
  lemma FinishedKeepsConsistent(lower: char -> char, d: Disk, op: Op)
    requires Consistent(d) && FaultsOf(op) == NO_FAULTS
    ensures Consistent(Replay(d, StepsOf(lower, d, op)))
  {
    assert Replay(d, []) == d;
    hide PlanAdd, PlanAddActive, PlanRemove, PlanRename, PlanSetActive, PlanEdit, ValidateName, Replay, Consistent;
    match op
    case AddOp(t, req, now, f) => AddedActiveIsConsistent(lower, t, d, req, now);
    case RemoveOp(slug, f) => RemovedIsConsistent(d, slug);
    case RenameOp(slug, newName, now, f) => RenameKeepsConsistent(lower, d, slug, newName, now);
    case SetActiveOp(slug, f) => RemovedIsConsistent(d, slug);
    case UpdateModeOp(slug, mode, now, f) => EditOpIsConsistent(lower, d, op);
    case UpdateRosenpassOp(slug, en, pm, now, f) => EditOpIsConsistent(lower, d, op);
    case MigrateOp(t, legacy, initial, now, f) => MigrationIsConsistent(lower, d, op);
  }

  lemma EditOpIsConsistent(lower: char -> char, d: Disk, op: Op)
    requires Consistent(d) && FaultsOf(op) == NO_FAULTS && (op.UpdateModeOp? || op.UpdateRosenpassOp?)
    ensures Consistent(Replay(d, StepsOf(lower, d, op)))
  {
    assert Replay(d, []) == d;
    hide PlanEdit, Replay, Consistent;
    match op
    case UpdateModeOp(slug, mode, now, f) =>
      EditedIsConsistent(d, slug, WithMode(mode, now));
    case UpdateRosenpassOp(slug, en, pm, now, f) =>
      EditedIsConsistent(d, slug, WithRosenpass(en, pm, now));
  }

  lemma MigrationIsConsistent(lower: char -> char, d: Disk, op: Op)
    requires Consistent(d) && FaultsOf(op) == NO_FAULTS && op.MigrateOp?
    ensures Consistent(Replay(d, StepsOf(lower, d, op)))
  {
    hide PlanMigrate, Replay, Consistent;
    MigratePlanIsConsistent(lower, op.t, d, op.legacy, op.initial, op.now);
  }

  lemma MigratePlanIsConsistent(lower: char -> char, t: Trust, d: Disk, legacy: Option<Bytes>, initial: Mode, now: int)
    requires Consistent(d)
    ensures Consistent(Replay(d, PlanMigrate(lower, t, d, legacy, initial, now, NO_FAULTS).steps))
  {
    hide PlanAddActive, PlanAdd, Replay, Consistent, DEFAULT_NAME;
    ReplayNothing(d);
    if legacy.Some? {
      var mode := if Modes.Valid(initial) then initial else DEFAULT;
      AddedActiveIsConsistent(lower, t, d, AddRequest(DEFAULT_NAME, mode, legacy.value, false), now);
    }
  }

  function FaultsOf(op: Op): Faults
  {
    op.f
  }

  /** A run of operations none of which is stopped. */
  function FinishedRun(lower: char -> char, ops: seq<Op>): Disk
  {
    if ops == [] then EMPTY_DISK
    else
      var d := FinishedRun(lower, ops[..|ops| - 1]);
      Replay(d, StepsOf(lower, d, ops[|ops| - 1]))
  }

  /** Over every run of finished operations each profile has both files and the marker names one, or none. */
  lemma {:induction false} FinishedRunsAreConsistent(lower: char -> char, ops: seq<Op>)
    requires forall i :: 0 <= i < |ops| ==> FaultsOf(ops[i]) == NO_FAULTS
    ensures Consistent(FinishedRun(lower, ops))
  {
    if ops != [] {
      var front, op := ops[..|ops| - 1], ops[|ops| - 1];
      FinishedRunsAreConsistent(lower, front);
      FinishedKeepsConsistent(lower, FinishedRun(lower, front), op);
    }
  }
}
