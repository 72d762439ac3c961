/** What the cache identity of an asset is bound to (internal/profile/profile.go and internal/profile/hash.go):
enhancing a profile puts the digest of the base installer into it, and cleaning it for its hash leaves the digest
there. */
module AssetIdentity {
  import opened Strings
  import Enhance
  import opened ProfileHash

  /** What an enhanced profile has beside its images: the encoder's view of its options, and its secure boot assets. */
  datatype Beside = Beside(platform: string, keys: Option<Keys>, other: string)

  /** An enhanced profile as the value that is cleaned and hashed; its other inputs are the imager's own. */
  function Input(p: Enhance.Profile, beside: Beside): ProfileValue
    reads p
  {
    ProfileValue(
      p.baseInstaller, p.systemExtensions, beside.keys, "", "", "", "",
      match p.overlay
      case None => None
      case Some(o) => Some(OverlayImages(o.image, p.overlayInstaller)),
      Rest(p.kind, beside.platform, p.arch, p.secureBoot, beside.other))
  }

  predicate BoundTo(ref: string, repository: string, digest: string) {
    ref == repository + "@" + digest && '/' !in digest && '@' !in digest
  }

  /** Enhances an installer profile and hashes it. Its hash is of a cleaned profile that names the digest which the base
  installer was resolved to, and of no other base installer's. */
  method EnhanceAndHash(p: Enhance.Profile, w: Enhance.World, s: Enhance.Schematic, fakeRef: string, versionTag: string,
                        beside: Beside, encode: ProfileValue -> Option<string>, ghost repository: string,
                            ghost digest: string)
    returns (err: Option<Enhance.Error>, preimage: Option<string>, ghost cleaned: ProfileValue)
    requires p.kind.Installer?
    requires w.installer(p.arch).Some? ==> BoundTo(w.installer(p.arch).value.ref, repository, digest)
    modifies p
    ensures err == Enhance.EnhanceError(w, p.kind, p.arch, old(p.secureBoot), s, old(p.options))
    ensures err != None ==> preimage == None
    ensures err == None ==>
      && cleaned == Cleaned(Input(p, beside))
      && cleaned.baseInstaller.imageRef == AfterLastSlash(repository) + "@" + digest
      && preimage == match encode(cleaned)
                     case None => None
                     case Some(text) => Some(text + Errata(cleaned.rest, cleaned.overlay.Some?))
    ensures err == None ==> forall other: ProfileValue, r, d ::
      BoundTo(other.baseInstaller.imageRef, r, d) && d != digest ==> Cleaned(other) != cleaned
  {
    hide Cleaned, Errata, AfterLastSlash, Enhance.EnhanceError;
    var dependencies;
    preimage := None;
    err, dependencies := p.EnhanceWithDependencies(w, s, fakeRef, versionTag);
    cleaned := Cleaned(Input(p, beside));
    if err != None { return; }
    var input := new Profile(Input(p, beside));
    preimage := Hash(input, encode);
    CleanedRest(Input(p, beside));
    DigestSurvives(Input(p, beside), repository, digest);
    forall other: ProfileValue, r, d | BoundTo(other.baseInstaller.imageRef, r, d) && d != digest
      ensures Cleaned(other) != cleaned
    {
      DigestsTellApart(other, Input(p, beside), r, repository, d, digest);
    }
  }
}
