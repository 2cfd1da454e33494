// Publishing a collected release under the hash of its manifest, and verifying it again.
module ReleasePublication {
  import opened Common
  import opened JsonlReader
  import opened SourceRelease

  datatype File = ManifestFile | ControlFile(control: Control)

  type Bundle = map<File, Bytes>

  datatype Place = Place(source: string, manifestSha: Digest)

  function Expected(f: Format, controls: Controls, payload: Payload): Bundle {
    (map name | name in controls :: ControlFile(name) := controls[name])[ManifestFile := f.pretty(payload)]
  }

  function ControlsOf(bundle: Bundle): Controls {
    map file | file in bundle && file.ControlFile? :: file.control := bundle[file]
  }

  predicate HasAllFiles(bundle: Bundle) {
    bundle.Keys == {ManifestFile} + set name | name in CONTROLS :: ControlFile(name)
  }

  predicate ManifestReads<J>(c: Checks<J>, f: Format, bundle: Bundle, directory: Digest, pin: Digest) {
    && ManifestFile in bundle
    && |bundle[ManifestFile]| <= MAX_CONTROL_BYTES
    && c.sha(bundle[ManifestFile]) == pin && directory == pin
    && f.parse(bundle[ManifestFile]).Some?
    && f.hashBody(f.parse(bundle[ManifestFile]).value.body) == f.parse(bundle[ManifestFile]).value.contentSha
  }

  // Verification reads the manifest under its pinned hash, collects the evidence of the bundle
  // again and compares.
  function Verify<J>(c: Checks<J>, f: Format, bundle: Bundle, directory: Digest, pin: Digest,
                     x: External, currentRegistry: Bytes, trustPin: Digest, now: nat): Option<Payload> {
    if !ManifestReads(c, f, bundle, directory, pin) || !HasAllFiles(bundle) then None
    else
      var payload := f.parse(bundle[ManifestFile]).value;
      if Collect(c, f, ControlsOf(bundle), x, currentRegistry, trustPin,
                 now) == Some(payload) then Some(payload) else None
  }

  // ---------------------------------------------------------------- the release root

  function PlaceOf<J>(c: Checks<J>, f: Format, payload: Payload): Place {
    Place(payload.body.policy.sourceName, c.sha(f.pretty(payload)))
  }

  // Publishing collects against the registry of the evidence itself.
  function Collected<J>(c: Checks<J>, f: Format, controls: Controls, x: External, trustPin: Digest,
                        now: nat): Option<Payload> {
    if Registry !in controls then None
    else
      match Collect(c, f, controls, x, controls[Registry], trustPin, now)
      case None => None
      case Some(payload) => if f.safeName(payload.body.policy.sourceName) then Some(payload) else None
  }

  // Existing files are read as control files, each within the limit for one.
  predicate FitsControls(bundle: Bundle) {
    forall file | file in bundle :: |bundle[file]| <= MAX_CONTROL_BYTES
  }

  predicate Adoptable(found: Bundle, expected: Bundle) {
    found == expected && FitsControls(found)
  }

  // Collected control files fit already, so it is the manifest that decides.
  lemma FitsExactly(f: Format, controls: Controls, payload: Payload)
    requires ControlsFit(controls)
    ensures FitsControls(Expected(f, controls, payload)) <==> |f.pretty(payload)| <= MAX_CONTROL_BYTES
  {
    var expected := Expected(f, controls, payload);
    assert expected[ManifestFile] == f.pretty(payload);
  }

  class ReleaseRoot {
    var directories: map<Place, Bundle>

    constructor ()
      ensures directories == map[]
    {
      directories := map[];
    }

    // An existing directory is adopted when it holds exactly the expected files, each within the
    // limit, and refused otherwise; it is never rewritten.
    method Settle(place: Place, expected: Bundle) returns (ok: bool, reused: bool)
      modifies this
      ensures reused <==> place in old(directories)
      ensures ok <==> (reused ==> Adoptable(old(directories)[place], expected))
      ensures directories == if reused then old(directories) else old(directories)[place := expected]
    {
      reused := place in directories;
      if reused {
        ok := Adoptable(directories[place], expected);
      } else {
        directories := directories[place := expected];
        ok := true;
      }
    }

    // What is published is in place, is exactly the collected evidence, and has been verified.
    method Publish<J>(c: Checks<J>, f: Format, controls: Controls, x: External, trustPin: Digest, now: nat)
      returns (r: Option<Payload>, reused: bool)
      modifies this
      ensures Collected(c, f, controls, x, trustPin, now).None? ==> r == None && directories == old(directories)
      ensures Collected(c, f, controls, x, trustPin, now).Some? ==>
                var payload := Collected(c, f, controls, x, trustPin, now).value;
                var place, expected := PlaceOf(c, f, payload), Expected(f, controls, payload);
                && (reused <==> place in old(directories))
                && directories == (if reused then old(directories) else old(directories)[place := expected])
                && (reused && !Adoptable(old(directories)[place], expected) ==> r == None)
                && ((reused ==> Adoptable(old(directories)[place], expected)) ==>
                      r == Verify(c, f, expected, place.manifestSha, place.manifestSha, x, controls[Registry],
                                  trustPin, now))
    {
      var collected := Collected(c, f, controls, x, trustPin, now);
      if collected.None? {
        return None, false;
      }
      var place, expected := PlaceOf(c, f, collected.value), Expected(f, controls, collected.value);
      var ok;
      ok, reused := Settle(place, expected);
      if !ok {
        return None, reused;
      }
      r := Verify(c, f, expected, place.manifestSha, place.manifestSha, x, controls[Registry], trustPin, now);
    }
  }

  // ---------------------------------------------------------------- what publication promises

  lemma ExpectedControls(f: Format, controls: Controls, payload: Payload)
    requires controls.Keys == CONTROLS
    ensures ControlsOf(Expected(f, controls, payload)) == controls && HasAllFiles(Expected(f, controls, payload))
  {
    var bundle := Expected(f, controls, payload);
    forall name
      ensures name in ControlsOf(bundle) <==> name in controls
    {
      assert name in controls ==> ControlFile(name) in bundle;
    }
    forall file
      ensures file in bundle <==> file == ManifestFile || (file.ControlFile? && file.control in CONTROLS)
    {
    }
  }

  // With the external bytes and the registry unchanged, a published release verifies exactly
  // during the window of its evidence, and then gives the manifest it was published with.  The
  // manifest must not be longer than a control file may be.
  lemma PublishedVerifies<J>(c: Checks<J>, f: Format, controls: Controls, x: External, registry: Bytes,
                             trustPin: Digest, published: nat, now: nat)
    requires PrintsAll(f) && Registry in controls && registry == controls[Registry] && now <= LAST_MOMENT
    requires Collect(c, f, controls, x, registry, trustPin, published).Some?
    ensures
      var payload := Collect(c, f, controls, x, registry, trustPin, published).value;
      var r := Read(c, controls, x, registry, trustPin).value;
      var sha := c.sha(f.pretty(payload));
      Verify(c, f, Expected(f, controls, payload), sha, sha, x, registry, trustPin, now)
      == if |f.pretty(payload)| <= MAX_CONTROL_BYTES && Opens(r) <= now < Closes(r) then Some(payload) else None
  {
    var payload := Collect(c, f, controls, x, registry, trustPin, published).value;
    var r := Read(c, controls, x, registry, trustPin).value;
    CollectFactors(c, f, controls, x, registry, trustPin, published);
    CollectFactors(c, f, controls, x, registry, trustPin, now);
    ReadIsConsistent(c, controls, x, registry, trustPin);
    AcceptedTimesAreAnInterval(r, now);
    ExpectedControls(f, controls, payload);
    assert Prints(f, payload);
  }

  lemma CollectedRefs<J>(c: Checks<J>, f: Format, controls: Controls, x: External, registry: Bytes, trustPin: Digest,
                         now: nat)
    requires Collect(c, f, controls, x, registry, trustPin, now).Some?
    ensures var body := Collect(c, f, controls, x, registry, trustPin, now).value.body;
            && controls.Keys == CONTROLS && body.bundleFiles == Refs(c, controls)
            && body.rawFile == Ref(c, x.raw) && body.recordsFile == Ref(c, x.records) &&
               body.rejectionsFile == Ref(c, x.rejections)
  {
  }

  lemma RefsPin<J>(c: Checks<J>, a: Controls, b: Controls)
    requires ShaPins(c.sha) && Refs(c, a) == Refs(c, b) && a.Keys == b.Keys
    ensures a == b
  {
    forall name | name in a
      ensures a[name] == b[name]
    {
      assert Refs(c, a)[name] == Refs(c, b)[name];
      assert SameSha(c.sha, a[name], b[name]);
    }
  }

  // A verified manifest pin fixes everything: the manifest, every control file and the contents
  // of the three external files.
  lemma PinFixesRelease<J>(c: Checks<J>, f: Format, a: Bundle, b: Bundle, x: External, y: External, pin: Digest,
                           registryA: Bytes, registryB: Bytes, trustA: Digest, trustB: Digest, nowA: nat, nowB: nat)
    requires ShaPins(c.sha)
    requires Verify(c, f, a, pin, pin, x, registryA, trustA, nowA).Some?
    requires Verify(c, f, b, pin, pin, y, registryB, trustB, nowB).Some?
    ensures a[ManifestFile] == b[ManifestFile] && ControlsOf(a) == ControlsOf(b)
    ensures x.raw == y.raw && x.records == y.records && x.rejections == y.rejections
  {
    assert SameSha(c.sha, a[ManifestFile], b[ManifestFile]);
    CollectedRefs(c, f, ControlsOf(a), x, registryA, trustA, nowA);
    CollectedRefs(c, f, ControlsOf(b), y, registryB, trustB, nowB);
    RefsPin(c, ControlsOf(a), ControlsOf(b));
    assert SameSha(c.sha, x.raw, y.raw) && SameSha(c.sha, x.records, y.records) &&
           SameSha(c.sha, x.rejections, y.rejections);
  }

  // A release that verifies rests on current evidence: the registry in it is the current one, the
  // moment lies in the window, every accepted record passed the validator of the signed policy
  // under its line number, and every rejection line is a record.
  lemma VerifiedIsGrounded<J>(c: Checks<J>, f: Format, bundle: Bundle, directory: Digest, pin: Digest,
                              x: External, currentRegistry: Bytes, trustPin: Digest, now: nat)
    requires ShaPins(c.sha) && now <= LAST_MOMENT
    requires Verify(c, f, bundle, directory, pin, x, currentRegistry, trustPin, now).Some?
    ensures Read(c, ControlsOf(bundle), x, currentRegistry, trustPin).Some?
    ensures var r := Read(c, ControlsOf(bundle), x, currentRegistry, trustPin).value;
            && Registry in ControlsOf(bundle) && ControlsOf(bundle)[Registry] == currentRegistry
            && Opens(r) <= now < Closes(r)
            && WholeOk(c.record(r.policy, c.sha(x.raw), r.retrievedAt), x.records)
            && WholeOk(c.rejection, x.rejections)
  {
    var controls := ControlsOf(bundle);
    CollectFactors(c, f, controls, x, currentRegistry, trustPin, now);
    var r := Read(c, controls, x, currentRegistry, trustPin).value;
    ReadIsConsistent(c, controls, x, currentRegistry, trustPin);
    AcceptedTimesAreAnInterval(r, now);
    assert SameSha(c.sha, controls[Registry], currentRegistry);
  }
}
