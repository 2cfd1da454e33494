// Content-addressed release of a signed retailer batch: what a collection of the evidence
// yields, during which time it can be collected, and publishing and verifying a release.
module SourceRelease {
  import opened Common
  import opened JsonlReader

  // Microseconds since the first day of the calendar; days are counted from the same origin.
  const DAY: nat := 86_400_000_000
  const LAST_DAY: nat := 3_652_058
  const LAST_MOMENT: nat := (LAST_DAY + 1) * DAY - 1
  const MAX_REGISTRY_AGE_DAYS: nat := 30
  const MAX_CONTROL_BYTES: nat := 4 * 1024 * 1024
  const MAX_REGISTRY_BYTES: nat := 1024 * 1024
  const MAX_EXTERNAL_BYTES: nat := 8 * 1024 * 1024 * 1024

  function DayOf(time: nat): nat {
    time / DAY
  }

  // ---------------------------------------------------------------- evidence

  datatype Control =
    | Receipt | Quality | Policy | Signature | ProcessedManifest | RawMetadata | Registry | TrustRoot

  const CONTROLS: set<Control> := {Receipt, Quality, Policy, Signature, ProcessedManifest, RawMetadata, Registry,
                                   TrustRoot}

  type Controls = map<Control, Bytes>

  // The large files, which stay outside the release.
  datatype External = External(rawName: string, raw: Bytes, records: Bytes, rejections: Bytes)

  datatype FileRef = FileRef(sha: Digest, size: nat)

  datatype Rights = Rights(effectiveOn: nat, expiresOn: Option<nat>, retentionDays: Option<nat>)

  // The signed policy after its signature and its pinned trust root were checked.
  datatype SignedPolicy = SignedPolicy(
    sourceName: string,
    policyId: string,
    keyId: string,
    issuedAt: nat,
    expiresAt: nat,
    keyFrom: nat,
    keyUntil: nat,
    rights: Rights,
    terms: nat)

  datatype Admission = Admission(verifiedOn: nat, admittedOn: nat, expiresOn: nat, templateSha: Digest,
                                 admissionSha: Digest)

  datatype Batch = Batch(runSha: Digest, accepted: nat, rejected: nat)

  // What the collection takes from its parsers and validators.  None means that the bytes were
  // refused for a reason that does not involve the time of verification.
  datatype Checks<!J> = Checks(
    sha: Bytes -> Digest,
    policy: (Bytes, Bytes, Bytes, Digest) -> Option<SignedPolicy>,
    registry: (Bytes, SignedPolicy) -> Option<Admission>,
    metadata: (Bytes, SignedPolicy, FileRef, string) -> Option<nat>,
    receipt: (Bytes, SignedPolicy, FileRef) -> bool,
    record: (SignedPolicy, Digest, nat) -> Validator<J>,
    rejection: Validator<J>,
    batch: (Bytes, SignedPolicy, FileRef, Material, Material, FileRef) -> Option<Batch>,
    quality: (Bytes, SignedPolicy, Digest, Batch) -> bool,
    reparse: (Controls, External) -> bool)

  // ---------------------------------------------------------------- the manifest

  datatype Body = Body(
    policy: SignedPolicy,
    authorityExpiresAt: nat,
    registry: FileRef,
    admission: Admission,
    raw: FileRef,
    retrievedAt: nat,
    retentionExpiresAt: Option<nat>,
    batch: Batch,
    bundleFiles: map<Control, FileRef>,
    rawFile: FileRef,
    recordsFile: FileRef,
    rejectionsFile: FileRef)

  datatype Payload = Payload(body: Body, contentSha: Digest)

  // ---------------------------------------------------------------- deadlines

  function ConsentExpiresAt(rights: Rights): Option<nat> {
    match rights.expiresOn
    case None => None
    case Some(day) => if day == LAST_DAY then Some(LAST_MOMENT) else Some((day + 1) * DAY)
  }

  function RetentionExpiresAt(rights: Rights, retrievedAt: nat): Option<nat> {
    match rights.retentionDays
    case None => None
    case Some(days) => Some(retrievedAt + days * DAY)
  }

  function Earlier(a: nat, b: Option<nat>): nat {
    match b
    case None => a
    case Some(t) => if t < a then t else a
  }

  // min(policy expiry, key expiry, consent expiry, retention expiry), leaving out what is not set.
  function AuthorityExpiresAt(p: SignedPolicy, retrievedAt: nat): nat {
    Earlier(Earlier(if p.keyUntil < p.expiresAt then p.keyUntil else p.expiresAt, ConsentExpiresAt(p.rights)),
            RetentionExpiresAt(p.rights, retrievedAt))
  }

  // The checks of the signed policy, the rights, the registry and the raw snapshot that look at
  // the clock, each as it stands in its own place.
  predicate PolicyOpen(p: SignedPolicy, now: nat) {
    && p.keyFrom <= now < p.keyUntil
    && p.issuedAt <= now < p.expiresAt
    && p.rights.effectiveOn <= DayOf(now)
    && (p.rights.expiresOn.Some? ==> DayOf(now) <= p.rights.expiresOn.value)
  }

  predicate RegistryOpen(a: Admission, now: nat) {
    && a.verifiedOn <= DayOf(now)
    && DayOf(now) - a.verifiedOn <= MAX_REGISTRY_AGE_DAYS
    && a.admittedOn <= DayOf(now)
    && DayOf(now) <= a.expiresOn
  }

  predicate SnapshotOpen(p: SignedPolicy, retrievedAt: nat, now: nat) {
    && retrievedAt <= now
    && (RetentionExpiresAt(p.rights, retrievedAt).Some? ==> now < RetentionExpiresAt(p.rights, retrievedAt).value)
    && now < AuthorityExpiresAt(p, retrievedAt)
  }

  // ---------------------------------------------------------------- collecting

  function Ref<J>(c: Checks<J>, file: Bytes): FileRef {
    FileRef(c.sha(file), |file|)
  }

  predicate ControlsFit(controls: Controls) {
    && controls.Keys == CONTROLS
    && (forall name | name in controls :: |controls[name]| <= MAX_CONTROL_BYTES)
    && |controls[Registry]| <= MAX_REGISTRY_BYTES
  }

  function Refs<J>(c: Checks<J>, controls: Controls): map<Control, FileRef> {
    map name | name in controls :: Ref(c, controls[name])
  }

  // What the bytes say, before any look at the clock.
  datatype Reading = Reading(policy: SignedPolicy, admission: Admission, retrievedAt: nat, batch: Batch)

  function ReadPolicy<J>(c: Checks<J>, controls: Controls, pin: Digest): Option<SignedPolicy>
    requires ControlsFit(controls)
  {
    c.policy(controls[Policy], controls[Signature], controls[TrustRoot], pin)
  }

  predicate DatesConsistent(p: SignedPolicy, a: Admission, retrievedAt: nat) {
    && p.issuedAt <= retrievedAt < p.expiresAt
    && a.admittedOn <= a.verifiedOn && a.admittedOn <= a.expiresOn
    && retrievedAt <= LAST_MOMENT && p.rights.effectiveOn <= LAST_DAY
    && (p.rights.expiresOn.Some? ==> p.rights.expiresOn.value <= LAST_DAY)
    // a retention deadline after the end of the calendar is an overflow error
    && (RetentionExpiresAt(p.rights, retrievedAt).Some? ==>
          RetentionExpiresAt(p.rights, retrievedAt).value <= LAST_MOMENT)
  }

  predicate ExternalsOk<J>(c: Checks<J>, p: SignedPolicy, retrievedAt: nat, x: External) {
    && |x.raw| <= MAX_EXTERNAL_BYTES
    && Acceptable(x.records, MAX_EXTERNAL_BYTES, Some(c.record(p, c.sha(x.raw), retrievedAt)))
    && Acceptable(x.rejections, MAX_EXTERNAL_BYTES, Some(c.rejection))
  }

  function ReadBatch<J>(c: Checks<J>, controls: Controls, p: SignedPolicy, x: External): Option<Batch>
    requires ControlsFit(controls)
  {
    c.batch(controls[ProcessedManifest], p, Ref(c, controls[Receipt]),
            MaterialOf(x.records, false, true, c.sha), MaterialOf(x.rejections, false, true, c.sha),
            Ref(c, controls[Quality]))
  }

  function Read<J>(c: Checks<J>, controls: Controls, x: External, currentRegistry: Bytes,
                   pin: Digest): Option<Reading> {
    if !ControlsFit(controls) || |currentRegistry| > MAX_REGISTRY_BYTES ||
       c.sha(controls[Registry]) != c.sha(currentRegistry) then None
    else
      var p := ReadPolicy(c, controls, pin);
      if p.None? then None
      else
        var a := c.registry(controls[Registry], p.value);
        var t := c.metadata(controls[RawMetadata], p.value, Ref(c, x.raw), x.rawName);
        if a.None? || t.None? then None
        else
          var b := ReadBatch(c, controls, p.value, x);
          if DatesConsistent(p.value, a.value, t.value) && c.receipt(controls[Receipt], p.value, Ref(c, x.raw))
             && ExternalsOk(c, p.value, t.value, x)
             && b.Some? && c.quality(controls[Quality], p.value, c.sha(x.raw), b.value) && c.reparse(controls, x)
          then Some(Reading(p.value, a.value, t.value, b.value)) else None
  }

  predicate Open(r: Reading, now: nat) {
    PolicyOpen(r.policy, now) && RegistryOpen(r.admission, now) && SnapshotOpen(r.policy, r.retrievedAt, now)
  }

  function BodyOf<J>(c: Checks<J>, controls: Controls, x: External, r: Reading): Body
    requires ControlsFit(controls)
  {
    Body(r.policy, AuthorityExpiresAt(r.policy, r.retrievedAt), Ref(c, controls[Registry]), r.admission,
         Ref(c, x.raw), r.retrievedAt, RetentionExpiresAt(r.policy.rights, r.retrievedAt), r.batch,
         Refs(c, controls), Ref(c, x.raw), Ref(c, x.records), Ref(c, x.rejections))
  }

  // JSON texts: the canonical form that is hashed into the manifest, and its pretty form.
  datatype Format = Format(hashBody: Body -> Digest, pretty: Payload -> Bytes, parse: Bytes -> Option<Payload>,
                           safeName: string -> bool)

  predicate Prints(f: Format, p: Payload) {
    f.parse(f.pretty(p)) == Some(p)
  }

  ghost predicate PrintsAll(f: Format) {
    forall p :: Prints(f, p)
  }

  // The steps of a collection in the order of the code, each with its own look at the clock.
  function PolicyAt<J>(c: Checks<J>, controls: Controls, pin: Digest, now: nat): Option<SignedPolicy>
    requires ControlsFit(controls)
  {
    match ReadPolicy(c, controls, pin)
    case None => None
    case Some(p) =>
      if PolicyOpen(p, now) && p.rights.effectiveOn <= LAST_DAY
         && (p.rights.expiresOn.Some? ==> p.rights.expiresOn.value <= LAST_DAY)
      then Some(p) else None
  }

  function AdmissionAt<J>(c: Checks<J>, registry: Bytes, currentRegistry: Bytes, p: SignedPolicy,
                          now: nat): Option<Admission> {
    if |currentRegistry| > MAX_REGISTRY_BYTES || c.sha(registry) != c.sha(currentRegistry) then None
    else
      match c.registry(registry, p)
      case None => None
      case Some(a) =>
        if a.verifiedOn > DayOf(now) || DayOf(now) - a.verifiedOn > MAX_REGISTRY_AGE_DAYS then None
        else if a.admittedOn > a.verifiedOn || a.admittedOn > DayOf(now) || a.expiresOn < a.admittedOn then None
        else if DayOf(now) > a.expiresOn then None else Some(a)
  }

  function RetrievalAt<J>(c: Checks<J>, metadata: Bytes, p: SignedPolicy, x: External, now: nat): Option<nat> {
    if |x.raw| > MAX_EXTERNAL_BYTES then None
    else
      match c.metadata(metadata, p, Ref(c, x.raw), x.rawName)
      case None => None
      case Some(t) => if t <= LAST_MOMENT && t <= now && p.issuedAt <= t < p.expiresAt then Some(t) else None
  }

  function DeadlineAt(p: SignedPolicy, retrievedAt: nat, now: nat): Option<nat> {
    var retention := RetentionExpiresAt(p.rights, retrievedAt);
    if retention.Some? && (retention.value > LAST_MOMENT || now >= retention.value) then None
    else
      var deadline := AuthorityExpiresAt(p, retrievedAt);
      if now >= deadline then None else Some(deadline)
  }

  function BatchOf<J>(c: Checks<J>, controls: Controls, p: SignedPolicy, retrievedAt: nat, x: External): Option<Batch>
    requires ControlsFit(controls) && |x.raw| <= MAX_EXTERNAL_BYTES
  {
    if !c.receipt(controls[Receipt], p, Ref(c, x.raw)) then None
    else if !Acceptable(x.records, MAX_EXTERNAL_BYTES, Some(c.record(p, c.sha(x.raw), retrievedAt))) then None
    else if !Acceptable(x.rejections, MAX_EXTERNAL_BYTES, Some(c.rejection)) then None
    else
      match ReadBatch(c, controls, p, x)
      case None => None
      case Some(b) =>
        if c.quality(controls[Quality], p, c.sha(x.raw), b) && c.reparse(controls, x) then Some(b) else None
  }

  function Collect<J>(c: Checks<J>, f: Format, controls: Controls, x: External, currentRegistry: Bytes, pin: Digest,
                      now: nat): Option<Payload> {
    if !ControlsFit(controls) then None
    else
      var p := PolicyAt(c, controls, pin, now);
      if p.None? then None
      else
        var a := AdmissionAt(c, controls[Registry], currentRegistry, p.value, now);
        var t := RetrievalAt(c, controls[RawMetadata], p.value, x, now);
        if a.None? || t.None? then None
        else
          var deadline := DeadlineAt(p.value, t.value, now);
          if deadline.None? then None
          else
            var b := BatchOf(c, controls, p.value, t.value, x);
            if b.None? then None
            else
              var body := Body(p.value, deadline.value, Ref(c, controls[Registry]), a.value, Ref(c, x.raw), t.value,
                               RetentionExpiresAt(p.value.rights, t.value), b.value, Refs(c, controls), Ref(c, x.raw),
                               Ref(c, x.records), Ref(c, x.rejections));
              Some(Payload(body, f.hashBody(body)))
  }

  // Although every step looks at the clock, the clock only decides whether there is a payload: a
  // collection is what the bytes say, accepted while its evidence is open.
  lemma CollectFactors<J>(c: Checks<J>, f: Format, controls: Controls, x: External, currentRegistry: Bytes, pin: Digest,
                          now: nat)
    ensures var r := Read(c, controls, x, currentRegistry, pin);
            Collect(c, f, controls, x, currentRegistry, pin, now)
            == (if r.Some? && Open(r.value, now)
                then Some(Payload(BodyOf(c, controls, x, r.value), f.hashBody(BodyOf(c, controls, x, r.value))))
                else None)
  {
  }

  // ---------------------------------------------------------------- the window

  function Later(a: nat, b: nat): nat {
    if a < b then b else a
  }

  function Opens(r: Reading): nat {
    var p, a := r.policy, r.admission;
    Later(Later(Later(p.keyFrom, p.issuedAt), Later(p.rights.effectiveOn * DAY, r.retrievedAt)),
          Later(a.verifiedOn * DAY, a.admittedOn * DAY))
  }

  function Closes(r: Reading): nat {
    var a := r.admission;
    Earlier(Earlier(AuthorityExpiresAt(r.policy, r.retrievedAt),
                    Some((a.verifiedOn + MAX_REGISTRY_AGE_DAYS + 1) * DAY)),
            Some((a.expiresOn + 1) * DAY))
  }

  lemma DayBounds(time: nat, day: nat)
    ensures day <= DayOf(time) <==> day * DAY <= time
    ensures DayOf(time) <= day <==> time < (day + 1) * DAY
  {
  }

  // The checks that wait for a moment, and those that a moment ends.
  predicate Begun(r: Reading, now: nat) {
    var p, a := r.policy, r.admission;
    && p.keyFrom <= now && p.issuedAt <= now && p.rights.effectiveOn <= DayOf(now)
    && a.verifiedOn <= DayOf(now) && a.admittedOn <= DayOf(now) && r.retrievedAt <= now
  }

  predicate Lasting(r: Reading, now: nat) {
    var p, a := r.policy, r.admission;
    && now < p.keyUntil && now < p.expiresAt
    && (p.rights.expiresOn.Some? ==> DayOf(now) <= p.rights.expiresOn.value)
    && DayOf(now) <= a.verifiedOn + MAX_REGISTRY_AGE_DAYS && DayOf(now) <= a.expiresOn
    && (RetentionExpiresAt(p.rights, r.retrievedAt).Some? ==> now < RetentionExpiresAt(p.rights, r.retrievedAt).value)
    && now < AuthorityExpiresAt(p, r.retrievedAt)
  }

  lemma BegunIsOpening(r: Reading, now: nat)
    ensures Begun(r, now) <==> Opens(r) <= now
  {
    DayBounds(now, r.policy.rights.effectiveOn);
    DayBounds(now, r.admission.verifiedOn);
    DayBounds(now, r.admission.admittedOn);
  }

  lemma LastingIsClosing(r: Reading, now: nat)
    requires DatesConsistent(r.policy, r.admission, r.retrievedAt) && now <= LAST_MOMENT
    ensures Lasting(r, now) <==> now < Closes(r)
  {
    var p, a := r.policy, r.admission;
    DayBounds(now, a.verifiedOn + MAX_REGISTRY_AGE_DAYS);
    DayBounds(now, a.expiresOn);
    if p.rights.expiresOn.Some? {
      DayBounds(now, p.rights.expiresOn.value);
      DayBounds(now, LAST_DAY);
    }
  }

  // The times at which the evidence is accepted form one interval: it ends at the authority
  // deadline unless the registry or the admission runs out before.
  lemma AcceptedTimesAreAnInterval(r: Reading, now: nat)
    requires DatesConsistent(r.policy, r.admission, r.retrievedAt) && now <= LAST_MOMENT
    ensures Open(r, now) <==> Opens(r) <= now < Closes(r)
  {
    assert Open(r, now) <==> Begun(r, now) && Lasting(r, now);
    BegunIsOpening(r, now);
    LastingIsClosing(r, now);
  }

  // The interval ends no later than any of the four deadlines that are set.
  lemma ClosesByEveryDeadline(r: Reading)
    ensures Closes(r) <= r.policy.expiresAt && Closes(r) <= r.policy.keyUntil
    ensures ConsentExpiresAt(r.policy.rights).Some? ==> Closes(r) <= ConsentExpiresAt(r.policy.rights).value
    ensures RetentionExpiresAt(r.policy.rights, r.retrievedAt).Some? ==>
              Closes(r) <= RetentionExpiresAt(r.policy.rights, r.retrievedAt).value
  {
  }

  lemma ReadIsConsistent<J>(c: Checks<J>, controls: Controls, x: External, currentRegistry: Bytes, pin: Digest)
    requires Read(c, controls, x, currentRegistry, pin).Some?
    ensures var r := Read(c, controls, x, currentRegistry, pin).value;
            DatesConsistent(r.policy, r.admission, r.retrievedAt)
  {
  }

  // Over the same bytes, two accepted collections give the same manifest whenever they run, and
  // every moment between two accepted ones is accepted.
  lemma CollectionIgnoresClock<J>(c: Checks<J>, f: Format, controls: Controls, x: External, currentRegistry: Bytes,
                                  pin: Digest,
                                  early: nat, between: nat, late: nat)
    requires early <= between <= late <= LAST_MOMENT
    requires Collect(c, f, controls, x, currentRegistry, pin, early).Some?
    requires Collect(c, f, controls, x, currentRegistry, pin, late).Some?
    ensures Collect(c, f, controls, x, currentRegistry, pin, between)
         == Collect(c, f, controls, x, currentRegistry, pin, early)
         == Collect(c, f, controls, x, currentRegistry, pin, late)
  {
    CollectFactors(c, f, controls, x, currentRegistry, pin, early);
    CollectFactors(c, f, controls, x, currentRegistry, pin, between);
    CollectFactors(c, f, controls, x, currentRegistry, pin, late);
    var r := Read(c, controls, x, currentRegistry, pin).value;
    ReadIsConsistent(c, controls, x, currentRegistry, pin);
    AcceptedTimesAreAnInterval(r, early);
    AcceptedTimesAreAnInterval(r, between);
    AcceptedTimesAreAnInterval(r, late);
  }
}
