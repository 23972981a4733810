/**
  The signed-snapshot half of the names store: two files on disk, the
  verified-snapshot cache keyed on their stat identity, and PutSnapshot's
  monotone-serial rule.
*/
module SnapshotStore {
  import opened Results
  import opened Names

  type Bytes = string

  /** VerifyAndParse against the store's trust roots. */
  type Verifier = (Bytes, Bytes) -> Option<Snapshot>

  /** Size and modification time of a file: what stat reports. */
  type Stamp = nat

  datatype File = File(bytes: Bytes, stamp: Stamp)

  datatype Files = Files(artifact: Option<File>, sig: Option<File>)

  datatype LoadError = NoArtifact | NoSignature | Refused

  type Loaded = Result<Snapshot, LoadError>

  /** A fresh read, verify and parse of the two files. */
  function Read(verify: Verifier, fs: Files): Loaded
  {
    if fs.artifact.None? then Err(NoArtifact)
    else if fs.sig.None? then Err(NoSignature)
    else match verify(fs.artifact.value.bytes, fs.sig.value.bytes)
      case None => Err(Refused)
      case Some(s) => Ok(s)
  }

  /** An offered pair with the stat identities its files would get. */
  datatype Offer = Offer(artifact: Bytes, sig: Bytes, artifactStamp: Stamp, sigStamp: Stamp)

  /** Which of the two writes goes through; the signature is written first. */
  datatype Writes = BothWritten | ArtifactFails | SigFails

  datatype PutError = BadOffer | NotNewer | WriteFailed

  /** The offer verifies and no readable snapshot is as new. */
  predicate Acceptable(verify: Verifier, fs: Files, offer: Offer)
  {
    && verify(offer.artifact, offer.sig).Some?
    && (Read(verify, fs).Ok? ==>
          Read(verify, fs).value.serial < verify(offer.artifact, offer.sig).value.serial)
  }

  /** The two files after PutSnapshot. */
  function FilesAfterPut(verify: Verifier, fs: Files, offer: Offer, w: Writes): Files
  {
    if !Acceptable(verify, fs, offer) || w.SigFails? then fs
    else
      var torn := fs.(sig := Some(File(offer.sig, offer.sigStamp)));
      if w.ArtifactFails? then torn
      else torn.(artifact := Some(File(offer.artifact, offer.artifactStamp)))
  }

  /** The hypothesis on stat: a file's stamp determines its bytes. */
  datatype StatIdentity = StatIdentity(artifactOf: Stamp -> Bytes, sigOf: Stamp -> Bytes)

  ghost predicate Respects(id: StatIdentity, fs: Files)
  {
    && (fs.artifact.Some? ==> id.artifactOf(fs.artifact.value.stamp) == fs.artifact.value.bytes)
    && (fs.sig.Some? ==> id.sigOf(fs.sig.value.stamp) == fs.sig.value.bytes)
  }

  class Store {
    const verify: Verifier
    ghost const id: StatIdentity
    var disk: Files
    var snapCache: Option<Snapshot>
    var snapCacheKey: Option<(Stamp, Stamp)>

    /** Whatever is cached is what verifying the bytes behind its key yields. */
    ghost predicate Valid()
      reads this
    {
      && Respects(id, disk)
      && (snapCache.Some? && snapCacheKey.Some? ==>
            verify(id.artifactOf(snapCacheKey.value.0), id.sigOf(snapCacheKey.value.1)) == snapCache)
    }

    constructor (verify: Verifier, ghost id: StatIdentity, disk: Files)
      requires Respects(id, disk)
      ensures Valid() && this.verify == verify && this.id == id && this.disk == disk
    {
      this.verify := verify;
      this.id := id;
      this.disk := disk;
      snapCache, snapCacheKey := None, None;
    }

    /** snapStatKey: None when either file cannot be stat'ed. */
    function SnapStatKey(): Option<(Stamp, Stamp)>
      reads this
    {
      if disk.artifact.None? || disk.sig.None? then None
      else Some((disk.artifact.value.stamp, disk.sig.value.stamp))
    }

    /** The cache is transparent: the answer is that of a fresh read. */
    method LoadSnapshot() returns (r: Loaded)
      requires Valid()
      modifies this`snapCache, this`snapCacheKey
      ensures Valid() && r == Read(verify, disk)
    {
      var key := SnapStatKey();
      if snapCache.Some? && key.Some? && key == snapCacheKey {
        return Ok(snapCache.value);
      }
      if disk.artifact.None? {
        return Err(NoArtifact);
      }
      if disk.sig.None? {
        return Err(NoSignature);
      }
      var snap := verify(disk.artifact.value.bytes, disk.sig.value.bytes);
      if snap.None? {
        snapCache, snapCacheKey := None, None;
        return Err(Refused);
      }
      snapCache, snapCacheKey := snap, key;
      return Ok(snap.value);
    }

    /** Accepts exactly the offers a cacheless store would, with the same two files after. */
    method PutSnapshot(offer: Offer, w: Writes) returns (r: Result<Snapshot, PutError>)
      requires Valid()
      requires id.artifactOf(offer.artifactStamp) == offer.artifact && id.sigOf(offer.sigStamp) == offer.sig
      modifies this
      ensures Valid()
      ensures disk == FilesAfterPut(verify, old(disk), offer, w)
      ensures r.Ok? <==> Acceptable(verify, old(disk), offer) && w.BothWritten?
      ensures r.Ok? ==> Read(verify, disk) == Ok(r.value)
      ensures r == Err(BadOffer) <==> verify(offer.artifact, offer.sig).None?
      ensures r == Err(NotNewer) <==>
                verify(offer.artifact, offer.sig).Some? && !Acceptable(verify, old(disk), offer)
    {
      var cand := verify(offer.artifact, offer.sig);
      if cand.None? {
        return Err(BadOffer);
      }
      var cached := LoadSnapshot();
      if cached.Ok? && cand.value.serial <= cached.value.serial {
        return Err(NotNewer);
      }
      if w.SigFails? {
        return Err(WriteFailed);
      }
      disk := disk.(sig := Some(File(offer.sig, offer.sigStamp)));
      if w.ArtifactFails? {
        return Err(WriteFailed);
      }
      disk := disk.(artifact := Some(File(offer.artifact, offer.artifactStamp)));
      snapCache, snapCacheKey := cand, SnapStatKey();
      return Ok(cand.value);
    }

    /** Another program replaces or deletes the files between calls. */
    method OutsideChange(fs: Files)
      requires Valid() && Respects(id, fs)
      modifies this`disk
      ensures Valid() && disk == fs
    {
      disk := fs;
    }
  }

  // ---- a run of offers is a max-register ----

  function Offered(verify: Verifier, fs: Files, offers: seq<Offer>): Files
  {
    if offers == [] then fs
    else FilesAfterPut(verify, Offered(verify, fs, offers[..|offers| - 1]), offers[|offers| - 1], BothWritten)
  }

  /** Offer i is the first among the verified offers with the greatest serial. */
  ghost predicate IsWinner(verify: Verifier, offers: seq<Offer>, i: nat)
    requires i < |offers|
  {
    && Verified(verify, offers[i])
    && (forall j :: 0 <= j < |offers| && Verified(verify, offers[j]) ==>
          Serial(verify, offers[j]) <= Serial(verify, offers[i]))
    && (forall j :: 0 <= j < i && Verified(verify, offers[j]) ==>
          Serial(verify, offers[j]) < Serial(verify, offers[i]))
  }

  predicate Verified(verify: Verifier, o: Offer)
  {
    verify(o.artifact, o.sig).Some?
  }

  function Serial(verify: Verifier, o: Offer): uint64
    requires Verified(verify, o)
  {
    verify(o.artifact, o.sig).value.serial
  }

  predicate Holds(fs: Files, o: Offer)
  {
    fs == Files(Some(File(o.artifact, o.artifactStamp)), Some(File(o.sig, o.sigStamp)))
  }

  /**
    Without stops or outside changes a fresh store ends up holding the first of
    the verified offers with the greatest serial, or nothing if none verified.
  */
  lemma {:induction false} MaxRegister(verify: Verifier, offers: seq<Offer>) returns (i: nat)
    ensures var fs := Offered(verify, Files(None, None), offers);
            if exists j :: 0 <= j < |offers| && Verified(verify, offers[j])
            then i < |offers| && IsWinner(verify, offers, i) && Holds(fs, offers[i])
            else fs == Files(None, None)
  {
    i := 0;
    if offers != [] {
      var front, o := offers[..|offers| - 1], offers[|offers| - 1];
      var k := MaxRegister(verify, front);
      assert forall j :: 0 <= j < |front| ==> offers[j] == front[j];
      if j :| 0 <= j < |front| && Verified(verify, front[j]) {
        assert Verified(verify, offers[j]);
        assert Read(verify, Offered(verify, Files(None, None), front))
          == Ok(verify(front[k].artifact, front[k].sig).value);
        i := if Verified(verify, o) && Serial(verify, o) > Serial(verify, front[k]) then |front| else k;
      } else {
        assert forall j :: 0 <= j < |offers| && Verified(verify, offers[j]) ==> j == |front|;
        i := |front|;
      }
    }
  }

  /** Verified offers with equal serials are the same offer. */
  ghost predicate DistinctSerials(verify: Verifier, offers: seq<Offer>)
  {
    forall i, j ::
      (0 <= i < |offers| && 0 <= j < |offers|
       && Verified(verify, offers[i]) && Verified(verify, offers[j])
       && Serial(verify, offers[i]) == Serial(verify, offers[j])) ==> offers[i] == offers[j]
  }

  /** For distinct serials only which offers were made matters, not their order or repetition. */
  lemma OrderIsIrrelevant(verify: Verifier, a: seq<Offer>, b: seq<Offer>)
    requires DistinctSerials(verify, a)
    requires forall o :: o in a <==> o in b
    ensures Offered(verify, Files(None, None), a) == Offered(verify, Files(None, None), b)
  {
    var i := MaxRegister(verify, a);
    var j := MaxRegister(verify, b);
    if k :| 0 <= k < |a| && Verified(verify, a[k]) {
      assert a[k] in b;
      var k' :| 0 <= k' < |b| && b[k'] == a[k];
      assert Verified(verify, b[k']);
      assert a[i] in b && b[j] in a;
      var p :| 0 <= p < |b| && b[p] == a[i];
      var q :| 0 <= q < |a| && a[q] == b[j];
      assert Serial(verify, b[p]) <= Serial(verify, b[j]);
      assert Serial(verify, a[q]) <= Serial(verify, a[i]);
      assert a[q] == a[i];
    } else {
      forall k | 0 <= k < |b| ensures !Verified(verify, b[k]) {
        assert b[k] in a;
        var k' :| 0 <= k' < |a| && a[k'] == b[k];
      }
    }
  }

  // ---- a stop between the two writes ----

  /** A signature fits at most one artifact. */
  ghost predicate SignatureBinds(verify: Verifier)
  {
    forall a, b, s :: verify(a, s).Some? && verify(b, s).Some? ==> a == b
  }

  /** What is parsed is the artifact alone. */
  ghost predicate ArtifactDecides(verify: Verifier)
  {
    forall a, s, s' :: verify(a, s).Some? && verify(a, s').Some? ==> verify(a, s) == verify(a, s')
  }

  /**
    After a stop between the signature and the artifact write the store refuses
    to load, unless the artifact already on disk is the candidate itself; it
    never serves anything but the candidate, and if a snapshot was readable
    before, it refuses.
  */
  lemma TornWriteFailsClosed(verify: Verifier, fs: Files, offer: Offer)
    requires SignatureBinds(verify) && Acceptable(verify, fs, offer)
    ensures var torn := Read(verify, FilesAfterPut(verify, fs, offer, ArtifactFails));
            var cand := verify(offer.artifact, offer.sig).value;
            && (torn.Ok? ==> torn.value == cand)
            && (torn.Err? <==> fs.artifact.None? || fs.artifact.value.bytes != offer.artifact)
  {
  }

  /** In particular a store that could be read cannot be read after the stop, if serials match artifacts. */
  lemma TornAfterReadable(verify: Verifier, fs: Files, offer: Offer)
    requires SignatureBinds(verify) && Acceptable(verify, fs, offer) && Read(verify, fs).Ok?
    requires ArtifactDecides(verify)
    ensures Read(verify, FilesAfterPut(verify, fs, offer, ArtifactFails)).Err?
  {
    TornWriteFailsClosed(verify, fs, offer);
    assert fs.artifact.value.bytes != offer.artifact;
  }

  /** The store stays refused through offers that do not verify, and the next one that does is stored. */
  lemma {:induction false} RefusedUntilAccepted(verify: Verifier, fs: Files, offers: seq<Offer>, next: Offer)
    requires Read(verify, fs).Err?
    requires forall i :: 0 <= i < |offers| ==> !Verified(verify, offers[i])
    ensures Offered(verify, fs, offers) == fs
    ensures Verified(verify, next) ==> Holds(Offered(verify, fs, offers + [next]), next)
  {
    if offers != [] {
      RefusedUntilAccepted(verify, fs, offers[..|offers| - 1], next);
    }
    assert (offers + [next])[..|offers|] == offers;
  }

  /**
    So the replay bound does not survive a torn write: an offer older than the
    snapshot that was readable before it is then accepted.
  */
  lemma TearLosesReplayBound(verify: Verifier, fs: Files, offer: Offer, older: Offer)
    requires SignatureBinds(verify) && ArtifactDecides(verify)
    requires Read(verify, fs).Ok? && Acceptable(verify, fs, offer)
    requires Verified(verify, older) && Serial(verify, older) < Read(verify, fs).value.serial
    ensures !Acceptable(verify, fs, older)
    ensures Holds(FilesAfterPut(verify, FilesAfterPut(verify, fs, offer, ArtifactFails), older, BothWritten), older)
  {
    TornAfterReadable(verify, fs, offer);
    RefusedUntilAccepted(verify, FilesAfterPut(verify, fs, offer, ArtifactFails), [], older);
  }

  /** The bound itself: while the store stays readable its serial never goes down. */
  lemma {:induction false} SerialNeverDecreases(verify: Verifier, fs: Files, offers: seq<Offer>)
    requires Read(verify, fs).Ok?
    ensures Read(verify, Offered(verify, fs, offers)).Ok?
    ensures Read(verify, Offered(verify, fs, offers)).value.serial >= Read(verify, fs).value.serial
  {
    if offers != [] {
      SerialNeverDecreases(verify, fs, offers[..|offers| - 1]);
    }
  }

  // ---- the replay bound over runs with failing writes ----

  datatype Put = Put(offer: Offer, w: Writes)

  function AfterPuts(verify: Verifier, fs: Files, puts: seq<Put>): Files
  {
    if puts == [] then fs
    else
      var last := puts[|puts| - 1];
      FilesAfterPut(verify, AfterPuts(verify, fs, puts[..|puts| - 1]), last.offer, last.w)
  }

  /** An accepted offer of the run is stopped between its two writes. */
  predicate TornAt(verify: Verifier, fs: Files, puts: seq<Put>, i: nat)
    requires i < |puts|
  {
    Acceptable(verify, AfterPuts(verify, fs, puts[..i]), puts[i].offer) && puts[i].w.ArtifactFails?
  }

  /** At no point of the run is an offer accepted that is no newer than what could be read at its start. */
  ghost predicate ReplayBoundKept(verify: Verifier, fs: Files, puts: seq<Put>)
    requires Read(verify, fs).Ok?
  {
    forall i, o :: 0 <= i <= |puts| && Verified(verify, o) && Serial(verify, o) <= Read(verify, fs).value.serial ==>
      !Acceptable(verify, AfterPuts(verify, fs, puts[..i]), o)
  }

  /** Without a torn put the store stays readable and its serial never goes down. */
  lemma {:induction false} UntornStaysReadable(verify: Verifier, fs: Files, puts: seq<Put>, n: nat)
    requires Read(verify, fs).Ok? && n <= |puts| && forall i :: 0 <= i < n ==> !TornAt(verify, fs, puts, i)
    ensures var r := Read(verify, AfterPuts(verify, fs, puts[..n]));
            r.Ok? && r.value.serial >= Read(verify, fs).value.serial
  {
    if n > 0 {
      UntornStaysReadable(verify, fs, puts, n - 1);
      assert puts[..n][..n - 1] == puts[..n - 1];
      assert !TornAt(verify, fs, puts, n - 1);
    } else {
      assert puts[..0] == [];
    }
  }

  /** The pair on disk, offered again. */
  function Again(fs: Files): Offer
    requires fs.artifact.Some? && fs.sig.Some?
  {
    Offer(fs.artifact.value.bytes, fs.sig.value.bytes, fs.artifact.value.stamp, fs.sig.value.stamp)
  }

  /**
    From a readable store, whatever writes fail, the replay bound is kept
    throughout a run if and only if no accepted offer has its artifact write
    fail.
  */
  lemma ReplayBoundIsExact(verify: Verifier, fs: Files, puts: seq<Put>)
    requires SignatureBinds(verify) && ArtifactDecides(verify) && Read(verify, fs).Ok?
    ensures ReplayBoundKept(verify, fs, puts) <==> forall i :: 0 <= i < |puts| ==> !TornAt(verify, fs, puts, i)
  {
    if i :| 0 <= i < |puts| && TornAt(verify, fs, puts, i) {
      var j := UnreadableNear(verify, fs, puts, i);
      var o := Again(fs);
      assert Verified(verify, o) && Serial(verify, o) == Read(verify, fs).value.serial;
      assert Acceptable(verify, AfterPuts(verify, fs, puts[..j]), o);
    } else {
      forall i, o | 0 <= i <= |puts| && Verified(verify, o) && Serial(verify, o) <= Read(verify, fs).value.serial
        ensures !Acceptable(verify, AfterPuts(verify, fs, puts[..i]), o)
      {
        UntornStaysReadable(verify, fs, puts, i);
      }
    }
  }

  /** Before or after a torn put the store cannot be read. */
  lemma UnreadableNear(verify: Verifier, fs: Files, puts: seq<Put>, i: nat) returns (j: nat)
    requires SignatureBinds(verify) && ArtifactDecides(verify)
    requires i < |puts| && TornAt(verify, fs, puts, i)
    ensures j <= |puts| && Read(verify, AfterPuts(verify, fs, puts[..j])).Err?
  {
    var before := AfterPuts(verify, fs, puts[..i]);
    if Read(verify, before).Err? {
      j := i;
    } else {
      TornAfterReadable(verify, before, puts[i].offer);
      assert puts[..i + 1][..i] == puts[..i];
      j := i + 1;
    }
  }
}
