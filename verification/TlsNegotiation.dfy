/** Choosing a TLS profile for an endpoint (src/msgate/tls/negotiate.py). */
module TlsNegotiation {
  import opened Options
  import opened Text
  import opened TlsProfiles
  import opened TlsCaching

  datatype Result<+T> = Ok(value: T) | Err(error: Error)

  /** The exceptions of the send path. */
  datatype Error =
    | SslError(text: string)                              // an ssl.SSLError
    | BadMode(tlsMode: string)                            // TlsMode(...) raises ValueError
    | CorruptEntry(entry: string)                         // TlsProfileId(...) raises ValueError
    | NoWorkingProfile(cfg: EwsConfig, mode: TlsMode, last: string)
    | WriteError                                          // the cache file cannot be written
    | OtherError(text: string)

  /** `str(exc)` */
  function ErrorText(e: Error): string {
    match e
    case SslError(text) => text
    case BadMode(tlsMode) => "'" + tlsMode + "' is not a valid " + ("Tls" + "Mode")
    case CorruptEntry(entry) => "'" + entry + "' is not a valid " + ("Tls" + "ProfileId")
    case NoWorkingProfile(cfg, mode, last) =>
      "no working " + ("TLS" + (" profile for " + cfg.host + ":" + Dec(cfg.port) + " (mode=" + ModeText(mode) + "): " + last))
    case WriteError => "cannot write the cache file"
    case OtherError(text) => text
  }

  const MARKERS: seq<string> :=
    ["ssl", "tls", "unsupported protocol", "certificate", "handshake", "wrong version number"]

  predicate MentionsTls(text: string) {
    exists i :: 0 <= i < |MARKERS| && Contains(Lower(text), MARKERS[i])
  }

  predicate IsTlsFailure(e: Error) {
    e.SslError? || MentionsTls(ErrorText(e))
  }

  /** The same, word for word. */
  lemma TlsFailuresInWords(e: Error)
    ensures IsTlsFailure(e) <==>
              var text := Lower(ErrorText(e));
              || e.SslError? || Contains(text, "ssl") || Contains(text, "tls") || Contains(text, "unsupported protocol")
              || Contains(text, "certificate") || Contains(text, "handshake") || Contains(text, "wrong version number")
  {
    assert MARKERS[0] == "ssl" && MARKERS[1] == "tls" && MARKERS[2] == "unsupported protocol";
    assert MARKERS[3] == "certificate" && MARKERS[4] == "handshake" && MARKERS[5] == "wrong version number";
  }

  /** The configuration of an EWS backend; the mode is free text there. */
  datatype EwsConfig = EwsConfig(
    url: string, host: string, port: nat, tlsMode: string, caFile: Option<string>, trustSelfSigned: bool, authType: string)

  function EndpointOf(cfg: EwsConfig, mode: TlsMode): Endpoint {
    Endpoint(cfg.host, cfg.port, mode, cfg.caFile, cfg.trustSelfSigned)
  }

  lemma MentionIsFound(before: string, tls: string, after: string)
    requires Lower(tls) == "tls"
    ensures MentionsTls(before + (tls + after))
  {
    var text := before + (tls + after);
    LowerAppend(before, tls + after);
    LowerAppend(tls, after);
    assert |tls| == |Lower(tls)| == 3;
    assert Lower(text)[|before|..|before| + 3] == "tls";
    assert MARKERS[1] == "tls" && OccursAt(Lower(text), MARKERS[1], |before|);
  }

  /** An unknown mode, a corrupt cache entry and a failed negotiation all read as TLS failures, so they are tried again. */
  lemma NegotiationErrorsAreTlsFailures(e: Error)
    requires e.BadMode? || e.CorruptEntry? || e.NoWorkingProfile?
    ensures IsTlsFailure(e)
  {
    assert Lower("Tls") == "tls" && Lower("TLS") == "tls";
    match e {
      case BadMode(tlsMode) => MentionIsFound("'" + tlsMode + "' is not a valid ", "Tls", "Mode");
      case CorruptEntry(entry) => MentionIsFound("'" + entry + "' is not a valid ", "Tls", "ProfileId");
      case NoWorkingProfile(cfg, mode, last) =>
        MentionIsFound("no working ", "TLS", " profile for " + cfg.host + ":" + Dec(cfg.port) + " (mode=" + ModeText(mode) + "): " + last);
    }
  }

  // ----- what the outside does -----

  /** One attempt to send: which of its outside steps raise. */
  datatype Attempt = Attempt(
    dropSaved: bool,           // writing the cache file without the endpoint's entry works
    context: Option<Error>,    // building the SSL context
    primary: Result<string>,   // resolving the primary SMTP address
    connect: Option<Error>,    // building the account
    message: Option<Error>,    // building the message
    send: Option<Error>)       // send_and_save

  /** The k-th probe, the cache write after it, and the k-th attempt. */
  datatype World = World(probes: nat -> bool, probeErrors: nat -> string, writes: nat -> bool, attempts: nat -> Attempt)

  /** How many of the next `n` probes fail before the first one that works. */
  function FailedProbes(world: World, start: nat, n: nat): (i: nat)
    ensures i <= n
    ensures i < n ==> world.probes(start + i)
    ensures forall k :: start <= k < start + i ==> !world.probes(k)
    decreases n
  {
    if n == 0 || world.probes(start) then 0 else 1 + FailedProbes(world, start + 1, n - 1)
  }

  /** Probes that failed up to the end or up to one that worked are all that `FailedProbes` counts. */
  lemma {:induction false} FailedProbesAre(world: World, start: nat, n: nat, i: nat)
    requires i <= n && (forall k :: start <= k < start + i ==> !world.probes(k)) && (i < n ==> world.probes(start + i))
    ensures FailedProbes(world, start, n) == i
    decreases n
  {
    if i > 0 {
      FailedProbesAre(world, start + 1, n - 1, i - 1);
    }
  }

  // ----- mode soundness -----

  /** An entry may be corrupt, but a profile it names belongs to the ladder of the endpoint's mode. */
  predicate FitsMode(mode: TlsMode, text: string) {
    ParseProfile(text).Some? ==> ParseProfile(text).value in Ladder(mode)
  }

  /** Under this key the text would serve no endpoint a profile outside its ladder. */
  ghost predicate EntryFits(key: string, text: string) {
    forall e :: PlainHost(e) && CacheKey(e) == key ==> FitsMode(e.mode, text)
  }

  ghost predicate SoundEntries(entries: map<string, string>) {
    forall k :: k in entries ==> EntryFits(k, entries[k])
  }

  ghost predicate Sound(l: Levels) {
    SoundEntries(l.memory) && SoundEntries(l.disk)
  }

  /** Storing a profile of one's own ladder does no harm to anybody else: keys identify endpoints, modes included. */
  lemma OwnLadderFits(e: Endpoint, p: ProfileId)
    requires PlainHost(e) && p in Ladder(e.mode)
    ensures EntryFits(CacheKey(e), ProfileText(p))
  {
    forall d | PlainHost(d) && CacheKey(d) == CacheKey(e) ensures FitsMode(d.mode, ProfileText(p)) {
      KeysIdentifyEndpoints(d, e);
      ProfileReadsBack(p);
    }
  }

  /** What configurations of any modes do to the shared cache; stores put a profile of the configuration's own ladder. */
  datatype EndpointOp =
    | Remember(e: Endpoint, profile: ProfileId, saved: bool)
    | Ask(e: Endpoint)
    | Forget(e: Endpoint, saved: bool)
    | Restart

  predicate Proper(op: EndpointOp) {
    match op
    case Remember(e, profile, _) => PlainHost(e) && profile in Ladder(e.mode)
    case Ask(e) => PlainHost(e)
    case Forget(e, _) => PlainHost(e)
    case Restart => true
  }

  function AsOp(op: EndpointOp): Op {
    match op
    case Remember(e, profile, saved) => Put(CacheKey(e), profile, saved)
    case Ask(e) => Get(CacheKey(e))
    case Forget(e, saved) => Invalidate(CacheKey(e), saved)
    case Restart => ClearMemory
  }

  function AfterAll(l: Levels, ops: seq<EndpointOp>): Levels {
    if ops == [] then l else Step(AfterAll(l, ops[..|ops| - 1]), AsOp(ops[|ops| - 1]))
  }

  lemma {:induction false} RunsStaySound(l: Levels, ops: seq<EndpointOp>)
    requires Sound(l) && forall i :: 0 <= i < |ops| ==> Proper(ops[i])
    ensures Sound(AfterAll(l, ops))
  {
    if ops != [] {
      var n := |ops| - 1;
      RunsStaySound(l, ops[..n]);
      StepStaysSound(AfterAll(l, ops[..n]), ops[n]);
    }
  }

  lemma StepStaysSound(l: Levels, op: EndpointOp)
    requires Sound(l) && Proper(op)
    ensures Sound(Step(l, AsOp(op)))
  {
    if op.Remember? {
      OwnLadderFits(op.e, op.profile);
    }
  }

  /**
   Mode soundness. After any sequence of stores, lookups, invalidations and restarts by endpoints of mixed modes, failed
   writes included, a profile found for an endpoint lies in the ladder of its own mode: a modern-only endpoint is never
   served a legacy profile.
   */
  lemma {:induction false} ModeSoundness(ops: seq<EndpointOp>, e: Endpoint)
    requires PlainHost(e) && forall i :: 0 <= i < |ops| ==> Proper(ops[i])
    ensures var found := GetResult(AfterAll(Levels(map[], map[]), ops), CacheKey(e));
            found.Hit? ==> found.profile in Ladder(e.mode) && (e.mode == Modern ==> found.profile == ModernTls)
  {
    RunsStaySound(Levels(map[], map[]), ops);
    var l, key := AfterAll(Levels(map[], map[]), ops), CacheKey(e);
    if key in l.memory {
      assert EntryFits(key, l.memory[key]);
    } else if key in l.disk {
      assert EntryFits(key, l.disk[key]);
    }
  }
}
