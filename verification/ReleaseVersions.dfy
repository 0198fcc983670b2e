/** Version numbers, caret requirements and the planner's bumps. */
module ReleaseVersions {

  datatype Version = Version(major: nat, minor: nat, patch: nat)

  predicate Less(a: Version, b: Version) {
    a.major < b.major
    || (a.major == b.major && (a.minor < b.minor || (a.minor == b.minor && a.patch < b.patch)))
  }

  /** `Other` is a requirement the scripts cannot parse; they never flag it. */
  datatype Requirement = Caret(base: Version) | Other

  function CaretAllows(req: Requirement, v: Version): bool {
    match req
    case Other => true
    case Caret(r) =>
      if Less(v, r) then false
      else if r.major != 0 then v.major == r.major
      else if r.minor != 0 then v.major == 0 && v.minor == r.minor
      else v.major == 0 && v.minor == 0 && v.patch == r.patch
  }

  datatype Level = Breaking | Additive

  function Bump(v: Version, level: Level): Version {
    match level
    case Breaking => Version(v.major, v.minor + 1, 0)
    case Additive => Version(v.major, v.minor, v.patch + 1)
  }

  /** The first version the caret excludes: the leftmost non-zero component goes up by one. */
  function Upper(r: Version): Version {
    if r.major != 0 then Version(r.major + 1, 0, 0)
    else if r.minor != 0 then Version(0, r.minor + 1, 0)
    else Version(0, 0, r.patch + 1)
  }

  /** Both scripts' caret test is Cargo's half-open range. */
  lemma CaretIsRange(r: Version, v: Version)
    ensures CaretAllows(Caret(r), v) <==> !Less(v, r) && Less(v, Upper(r))
  {
  }

  /** An additive bump stays inside every pin that admitted the old version, except on the 0.0.z line. */
  lemma AdditiveBumpStrandsNobody(req: Requirement, v: Version)
    requires CaretAllows(req, v)
    ensures CaretAllows(req, Bump(v, Additive)) <==> req.Other? || req.base.major != 0 || req.base.minor != 0
  {
  }

  /** The breaking bump leaves every pin on the old version exactly on the 0.y.z lines. */
  lemma BreakingBumpStrandsAll(req: Requirement, v: Version)
    requires CaretAllows(req, v) && req.Caret?
    ensures !CaretAllows(req, Bump(v, Breaking)) <==> v.major == 0
  {
  }

  /** An additive bump is the next version, a breaking one the next whose patch is zero. */
  lemma BumpIsLeast(v: Version, w: Version)
    ensures Less(v, Bump(v, Additive)) && Less(v, Bump(v, Breaking)) && Bump(v, Breaking).patch == 0
    ensures w.major == v.major && Less(v, w) ==> !Less(w, Bump(v, Additive))
    ensures w.major == v.major && Less(v, w) && w.patch == 0 ==> !Less(w, Bump(v, Breaking))
    ensures w.major > v.major ==> Less(Bump(v, Additive), w) && Less(Bump(v, Breaking), w)
  {
  }
}
