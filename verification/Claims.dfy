/**
  Self-claims of internal/names: a peer asserts its own name under its own leaf
  certificate, checked against the verified snapshot's binding table.
*/
module Claims {
  import opened Results
  import opened Text
  import opened Names

  type Bytes = string

  type Key = nat

  /** A parsed leaf certificate; `key` is None when it is not ECDSA, `identity` "" when it names none. */
  datatype Leaf = Leaf(notBefore: int, notAfter: int, key: Option<Key>, identity: string)

  /** What decodes: the PEM certificate, and the two base64 fields. */
  datatype Envelope = Envelope(leaf: Option<Leaf>, artifact: Option<Bytes>, sig: Option<Bytes>)

  datatype Claim = Claim(format: string, name: string, ip: string, anchor: string, issuedAt: int, ttl: uint64)

  const CLAIM_FORMAT: string := "goat-name-claim-v1"

  /** Signatures under the trust roots and under leaf keys, and JSON parsing. */
  datatype Trust = Trust(
    rooted: Leaf -> bool,
    signed: (Key, Bytes, Bytes) -> bool,
    parse: Bytes -> Option<Claim>)

  datatype ValidClaim = ValidClaim(name: string, ip: Addr, age: int)

  datatype ClaimError =
    | NotCertificate | NotRooted | OutsideValidity
    | ArtifactNotBase64 | SigNotBase64 | KeyNotEcdsa | BadSignature
    | MalformedClaim | WrongFormat | NoIdentity | WrongIdentity
    | NoBinding | CrossClaim | ClaimExpired | MalformedIp

  /** The anchor of the first binding of the name. */
  function BoundAnchor(lower: char -> char, bindings: seq<PeerBinding>, want: string): Option<string>
  {
    if bindings == [] then None
    else if Map(lower, bindings[0].name) == want then Some(bindings[0].anchor)
    else BoundAnchor(lower, bindings[1..], want)
  }

  function VerifyClaim(lower: char -> char, net: Netip, trust: Trust, env: Envelope, snap: Snapshot, now: int)
    : Result<ValidClaim, ClaimError>
  {
    if env.leaf.None? then Err(NotCertificate)
    else if !trust.rooted(env.leaf.value) then Err(NotRooted)
    else if now < env.leaf.value.notBefore || now > env.leaf.value.notAfter then Err(OutsideValidity)
    else if env.artifact.None? then Err(ArtifactNotBase64)
    else if env.sig.None? then Err(SigNotBase64)
    else if env.leaf.value.key.None? then Err(KeyNotEcdsa)
    else if !trust.signed(env.leaf.value.key.value, env.artifact.value, env.sig.value) then Err(BadSignature)
    else match trust.parse(env.artifact.value)
      case None => Err(MalformedClaim)
      case Some(claim) =>
        if claim.format != CLAIM_FORMAT then Err(WrongFormat)
        else if env.leaf.value.identity == "" then Err(NoIdentity)
        else if env.leaf.value.identity != claim.anchor then Err(WrongIdentity)
        else
          var want := Normalize(lower, claim.name);
          var bound := BoundAnchor(lower, snap.bindings, want);
          var age := Since(now, claim.issuedAt);
          if bound.None? then Err(NoBinding)
          else if bound.value != claim.anchor then Err(CrossClaim)
          else if claim.issuedAt <= 0 || age >= WrapSeconds(claim.ttl) then Err(ClaimExpired)
          else match net.parse(claim.ip)
            case None => Err(MalformedIp)
            case Some(ip) => Ok(ValidClaim(want, ip, if age < 0 then 0 else age))
  }

  /** The i-th binding is the first of the name, and it binds the name to the anchor. */
  predicate Binds(lower: char -> char, bindings: seq<PeerBinding>, i: int, name: string, anchor: string)
  {
    && 0 <= i < |bindings| && Map(lower, bindings[i].name) == name && bindings[i].anchor == anchor
    && forall j :: 0 <= j < i ==> Map(lower, bindings[j].name) != name
  }

  lemma {:induction false} BoundIsFirst(lower: char -> char, bindings: seq<PeerBinding>, want: string, anchor: string)
    ensures BoundAnchor(lower, bindings, want) == Some(anchor) <==>
            exists i :: Binds(lower, bindings, i, want, anchor)
  {
    if bindings != [] && Map(lower, bindings[0].name) != want {
      var rest := bindings[1..];
      BoundIsFirst(lower, rest, want, anchor);
      if i :| Binds(lower, rest, i, want, anchor) {
        assert Binds(lower, bindings, i + 1, want, anchor) by {
          assert forall j :: 1 <= j < i + 1 ==> bindings[j] == rest[j - 1];
        }
      }
      if i :| Binds(lower, bindings, i, want, anchor) {
        assert Binds(lower, rest, i - 1, want, anchor) by {
          assert forall j :: 0 <= j < i - 1 ==> rest[j] == bindings[j + 1];
        }
      }
    } else if bindings != [] {
      assert BoundAnchor(lower, bindings, want) == Some(anchor) ==> Binds(lower, bindings, 0, want, anchor);
    }
  }

  /** The certificate and both signatures hold, and the signed text says `claim`. */
  predicate Authentic(trust: Trust, env: Envelope, now: int, claim: Claim)
  {
    && env.leaf.Some? && env.artifact.Some? && env.sig.Some?
    && var leaf := env.leaf.value;
    && trust.rooted(leaf) && leaf.notBefore <= now <= leaf.notAfter
    && leaf.key.Some? && trust.signed(leaf.key.value, env.artifact.value, env.sig.value)
    && trust.parse(env.artifact.value) == Some(claim)
    && claim.format == "goat-name-claim-v1" && leaf.identity != "" && leaf.identity == claim.anchor
  }

  /**
    When a claim is valid: exactly when its certificate is rooted and current
    and signed it, the first binding of the claimed name in the snapshot is to
    the very identity of that certificate, the claim is inside its declared TTL,
    and its address is well formed.
  */
  lemma ClaimIsOwnName(lower: char -> char, net: Netip, trust: Trust, env: Envelope, snap: Snapshot, now: int,
                       claim: Claim, vc: ValidClaim)
    ensures var says := env.artifact.Some? && trust.parse(env.artifact.value) == Some(claim);
            says && VerifyClaim(lower, net, trust, env, snap, now) == Ok(vc) <==>
              && Authentic(trust, env, now, claim)
              && (exists i :: Binds(lower, snap.bindings, i, Normalize(lower, claim.name), env.leaf.value.identity))
              && claim.issuedAt > 0 && Since(now, claim.issuedAt) < WrapSeconds(claim.ttl)
              && net.parse(claim.ip) == Some(vc.ip) && vc.name == Normalize(lower, claim.name)
              && vc.age == if now < claim.issuedAt * SECOND then 0 else now - claim.issuedAt * SECOND
    ensures VerifyClaim(lower, net, trust, env, snap, now).Ok? ==>
              env.artifact.Some? && trust.parse(env.artifact.value).Some?
    ensures Authentic(trust, env, now, claim) && VerifyClaim(lower, net, trust, env, snap, now).Ok? ==>
              now - claim.issuedAt * SECOND < claim.ttl * SECOND
  {
    hide WrapSeconds, Normalize, BoundAnchor;
    WrapIsFailClosed(claim.ttl);
    if env.leaf.Some? {
      BoundIsFirst(lower, snap.bindings, Normalize(lower, claim.name), claim.anchor);
    }
  }

  /** A name without a binding, a service name, can never be claimed, by anyone. */
  lemma UnboundNamesCannotBeClaimed(lower: char -> char, net: Netip, trust: Trust, env: Envelope, snap: Snapshot,
                                    now: int, name: string)
    requires forall i :: 0 <= i < |snap.bindings| ==> Map(lower, snap.bindings[i].name) != name
    ensures var r := VerifyClaim(lower, net, trust, env, snap, now); r.Ok? ==> r.value.name != name
  {
    var r := VerifyClaim(lower, net, trust, env, snap, now);
    if r.Ok? {
      var bound := BoundAnchor(lower, snap.bindings, r.value.name);
      BoundIsFirst(lower, snap.bindings, r.value.name, bound.value);
    }
  }

  /** VerifyClaim with everything but the envelope fixed. */
  type Check = Envelope -> Result<ValidClaim, ClaimError>

  function Checker(lower: char -> char, net: Netip, trust: Trust, snap: Snapshot, now: int): Check
  {
    env => VerifyClaim(lower, net, trust, env, snap, now)
  }

  predicate Answers(check: Check, env: Envelope, want: string)
  {
    check(env).Ok? && check(env).value.name == want
  }

  /** The freshest valid claim for the name; the earliest among equally fresh ones. */
  method LookupClaim(check: Check, envs: seq<Envelope>, want: string) returns (best: Option<ValidClaim>)
    ensures best == Freshest(check, envs, want)
  {
    best := None;
    for i := 0 to |envs|
      invariant best == Freshest(check, envs[..i], want)
    {
      assert envs[..i + 1][..i] == envs[..i];
      var vc := check(envs[i]);
      if vc.Err? || vc.value.name != want {
        continue;
      }
      if best.None? || vc.value.age < best.value.age {
        best := Some(vc.value);
      }
    }
    assert envs[..|envs|] == envs;
  }

  function Freshest(check: Check, envs: seq<Envelope>, want: string): Option<ValidClaim>
  {
    if envs == [] then None
    else
      var b, env := Freshest(check, envs[..|envs| - 1], want), envs[|envs| - 1];
      if Answers(check, env, want) && (b.None? || check(env).value.age < b.value.age)
      then Some(check(env).value) else b
  }

  /** vc is a valid claim for the name that some envelope carries. */
  ghost predicate Carried(check: Check, envs: seq<Envelope>, want: string, vc: ValidClaim)
  {
    exists i :: 0 <= i < |envs| && check(envs[i]) == Ok(vc) && vc.name == want
  }

  /** The i-th envelope carries vc; every other valid claim for the name is older, or as old and later. */
  ghost predicate LeastAt(check: Check, envs: seq<Envelope>, want: string, vc: ValidClaim, i: int)
  {
    && 0 <= i < |envs| && check(envs[i]) == Ok(vc) && vc.name == want
    && forall j :: 0 <= j < |envs| && check(envs[j]).Ok? && check(envs[j]).value.name == want ==>
         if j < i then vc.age < check(envs[j]).value.age else vc.age <= check(envs[j]).value.age
  }

  /** None exactly when no envelope carries a valid claim for the name; else the first of the freshest. */
  lemma {:induction false} FreshestIsLeast(check: Check, envs: seq<Envelope>, want: string)
    ensures var b := Freshest(check, envs, want);
            && (b.None? <==> forall vc :: !Carried(check, envs, want, vc))
            && (b.Some? ==> exists i :: LeastAt(check, envs, want, b.value, i))
  {
    if envs != [] {
      var front, k := envs[..|envs| - 1], |envs| - 1;
      FreshestIsLeast(check, front, want);
      var b, last := Freshest(check, front, want), check(envs[k]);
      assert forall j :: 0 <= j < k ==> front[j] == envs[j];
      forall vc | Carried(check, envs, want, vc)
        ensures Carried(check, front, want, vc) || Answers(check, envs[k], want)
      {
        var i :| 0 <= i < |envs| && check(envs[i]) == Ok(vc) && vc.name == want;
        assert i < k ==> check(front[i]) == Ok(vc);
      }
      if Answers(check, envs[k], want) {
        assert Carried(check, envs, want, last.value);
      }
      if b.Some? {
        var i :| LeastAt(check, front, want, b.value, i);
        assert Carried(check, envs, want, b.value) by {
          assert check(envs[i]) == Ok(b.value);
        }
        if Answers(check, envs[k], want) && last.value.age < b.value.age {
          assert LeastAt(check, envs, want, last.value, k);
        } else {
          assert LeastAt(check, envs, want, b.value, i);
        }
      } else if Answers(check, envs[k], want) {
        forall j | 0 <= j < k && check(envs[j]).Ok? && check(envs[j]).value.name == want
          ensures false
        {
          assert check(front[j]) == Ok(check(envs[j]).value);
          assert Carried(check, front, want, check(envs[j]).value);
        }
        assert LeastAt(check, envs, want, last.value, k);
      }
    }
  }

  /** No valid claim for the name is fresher than the answer. */
  lemma FreshestBelow(check: Check, envs: seq<Envelope>, want: string)
    ensures var b := Freshest(check, envs, want);
            && (b.Some? ==> Carried(check, envs, want, b.value))
            && (forall vc :: Carried(check, envs, want, vc) ==> b.Some? && b.value.age <= vc.age)
  {
    FreshestIsLeast(check, envs, want);
    var b := Freshest(check, envs, want);
    if b.Some? {
      var i :| LeastAt(check, envs, want, b.value, i);
    }
  }

  /** The freshest among the valid claims of one address family. */
  function FreshestOfFamily(check: Check, envs: seq<Envelope>, want: string, v6: bool): Option<ValidClaim>
  {
    if envs == [] then None
    else
      var b, env := FreshestOfFamily(check, envs[..|envs| - 1], want, v6), envs[|envs| - 1];
      if Answers(check, env, want) && check(env).value.ip.v6 == v6 && (b.None? || check(env).value.age < b.value.age)
      then Some(check(env).value) else b
  }

  lemma {:induction false} FamilyBounds(check: Check, envs: seq<Envelope>, want: string, v6: bool)
    ensures var f, b := FreshestOfFamily(check, envs, want, v6), Freshest(check, envs, want);
            && (f.Some? ==> f.value.ip.v6 == v6 && b.Some? && b.value.age <= f.value.age)
            && (b.Some? && b.value.ip.v6 == v6 ==> f == b)
  {
    if envs != [] {
      FamilyBounds(check, envs[..|envs| - 1], want, v6);
    }
  }

  /**
    The forwarder takes the freshest claim of any family and drops it when the
    family is wrong.  That equals taking the freshest of the right family unless
    a claim of the wrong family is the freshest of all while one of the right
    family exists.
  */
  lemma FamilyIsCheckedLate(check: Check, envs: seq<Envelope>, want: string, v6: bool)
    ensures var b, f := Freshest(check, envs, want), FreshestOfFamily(check, envs, want, v6);
            var taken := if b.Some? && b.value.ip.v6 == v6 then b else None;
            taken == f <==> b.None? || b.value.ip.v6 == v6 || f.None?
  {
    FamilyBounds(check, envs, want, v6);
  }
}
