/** Negotiation modes, client profiles and the key of an endpoint (src/msgate/tls/profiles.py, src/msgate/tls/cache.py). */
module TlsProfiles {
  import opened Options
  import opened Text

  datatype TlsMode = Auto | Modern | Legacy

  datatype ProfileId = ModernTls | LegacyTls11 | LegacyTls10

  function ModeText(mode: TlsMode): string {
    match mode
    case Auto => "auto"
    case Modern => "modern"
    case Legacy => "legacy"
  }

  /** `TlsMode(text)`; None stands for the ValueError. */
  function ParseMode(text: string): Option<TlsMode> {
    if text == "auto" then Some(Auto)
    else if text == "modern" then Some(Modern)
    else if text == "legacy" then Some(Legacy)
    else None
  }

  function ProfileText(p: ProfileId): string {
    match p
    case ModernTls => "modern"
    case LegacyTls11 => "legacy_tls1_1"
    case LegacyTls10 => "legacy_tls1"
  }

  /** `TlsProfileId(text)`; None stands for the ValueError. */
  function ParseProfile(text: string): Option<ProfileId> {
    if text == "modern" then Some(ModernTls)
    else if text == "legacy_tls1_1" then Some(LegacyTls11)
    else if text == "legacy_tls1" then Some(LegacyTls10)
    else None
  }

  lemma ProfileReadsBack(p: ProfileId)
    ensures ParseProfile(ProfileText(p)) == Some(p) && ProfileText(p) != ""
  {
  }

  /** `ladder_for_mode` */
  function Ladder(mode: TlsMode): (ladder: seq<ProfileId>)
    ensures 1 <= |ladder| <= 3
    ensures mode == Modern ==> forall p :: p in ladder ==> p == ModernTls
    ensures mode == Legacy ==> ModernTls !in ladder
  {
    match mode
    case Modern => [ModernTls]
    case Legacy => [LegacyTls11, LegacyTls10]
    case Auto => [ModernTls, LegacyTls11, LegacyTls10]
  }

  /** The modes and the profiles in words: what the configuration says, what the cache file holds, and what is tried. */
  lemma ModesInWords(text: string)
    ensures ParseMode(text) == Some(Modern) <==> text == "modern"
    ensures ParseMode(text) == Some(Legacy) <==> text == "legacy"
    ensures ParseMode(text) == Some(Auto) <==> text == "auto"
    ensures Ladder(Modern) == [ModernTls] && Ladder(Legacy) == [LegacyTls11, LegacyTls10]
    ensures Ladder(Auto) == [ModernTls, LegacyTls11, LegacyTls10]
  {
  }

  lemma ProfilesInWords(text: string)
    ensures ParseProfile(text) == Some(ModernTls) <==> text == "modern"
    ensures ParseProfile(text) == Some(LegacyTls11) <==> text == "legacy_tls1_1"
    ensures ParseProfile(text) == Some(LegacyTls10) <==> text == "legacy_tls1"
  {
  }

  /** Texts and modes name each other. */
  lemma ModeReadsBack(mode: TlsMode, text: string)
    ensures ParseMode(text) == Some(mode) <==> text == ModeText(mode)
  {
  }

  /** The part of an EWS configuration that decides about TLS. */
  datatype Endpoint = Endpoint(host: string, port: nat, mode: TlsMode, caFile: Option<string>, trustSelfSigned: bool)

  function CaText(e: Endpoint): string {
    if e.caFile.Some? then e.caFile.value else ""
  }

  function Flag(b: bool): char {
    if b then '1' else '0'
  }

  function CacheKey(e: Endpoint): string {
    Lower(e.host) + ":" + Dec(e.port) + "|mode=" + ModeText(e.mode)
    + "|ca=" + CaText(e) + "|insecure=" + [Flag(e.trustSelfSigned)]
  }

  /**
   A host that a URL can have. Only an address in brackets keeps a colon when the URL is taken apart, and such an address
   has no bar.
   */
  predicate PlainHost(e: Endpoint) {
    '|' !in e.host || ':' !in e.host
  }

  /** The same endpoint as far as a TLS handshake is concerned. */
  predicate SameEndpoint(a: Endpoint, b: Endpoint) {
    && Lower(a.host) == Lower(b.host) && a.port == b.port && a.mode == b.mode
    && CaText(a) == CaText(b) && a.trustSelfSigned == b.trustSelfSigned
  }

  function HostPart(e: Endpoint): string {
    Lower(e.host) + [':'] + Dec(e.port)
  }

  function CaPart(e: Endpoint): string {
    "ca=" + CaText(e) + "|insecure=" + [Flag(e.trustSelfSigned)]
  }

  lemma KeyInThreeParts(e: Endpoint)
    ensures CacheKey(e) == HostPart(e) + ['|'] + (("mode=" + ModeText(e.mode)) + ['|'] + CaPart(e))
  {
  }

  /** Lower case neither adds nor removes a bar or a colon. */
  lemma LowerKeepsMarks(s: string)
    ensures ('|' in Lower(s) <==> '|' in s) && (':' in Lower(s) <==> ':' in s)
  {
    forall i | 0 <= i < |s| ensures (Lower(s)[i] == '|' <==> s[i] == '|') && (Lower(s)[i] == ':' <==> s[i] == ':') {
    }
  }

  lemma HostPartHasNoBar(e: Endpoint)
    requires '|' !in e.host
    ensures '|' !in HostPart(e)
  {
    DecReadsBack(e.port);
    LowerKeepsMarks(e.host);
  }

  lemma CaPartInjective(a: Endpoint, b: Endpoint)
    requires CaPart(a) == CaPart(b)
    ensures CaText(a) == CaText(b) && a.trustSelfSigned == b.trustSelfSigned
  {
    var n := |CaText(a)|;
    assert |CaPart(a)| == n + 14;
    assert CaText(a) == CaPart(a)[3..3 + n] && CaText(b) == CaPart(b)[3..3 + n];
    assert CaPart(a)[n + 13] == Flag(a.trustSelfSigned) && CaPart(b)[n + 13] == Flag(b.trustSelfSigned);
  }

  /** Behind equal host parts, equal keys have equal rests. */
  lemma RestIdentifies(a: Endpoint, b: Endpoint)
    requires ("mode=" + ModeText(a.mode)) + ['|'] + CaPart(a) == ("mode=" + ModeText(b.mode)) + ['|'] + CaPart(b)
    ensures a.mode == b.mode && CaText(a) == CaText(b) && a.trustSelfSigned == b.trustSelfSigned
  {
    var modeA, modeB := "mode=" + ModeText(a.mode), "mode=" + ModeText(b.mode);
    CutAtFirst(modeA, CaPart(a), modeB, CaPart(b), '|');
    assert ModeText(a.mode) == modeA[5..] && ModeText(b.mode) == modeB[5..];
    CaPartInjective(a, b);
  }

  /** Without bars in the hosts the host part ends at the first bar, and in it the port begins after the last colon. */
  lemma KeysWithoutBars(a: Endpoint, b: Endpoint)
    requires '|' !in a.host && '|' !in b.host && CacheKey(a) == CacheKey(b)
    ensures SameEndpoint(a, b)
  {
    KeyInThreeParts(a);
    KeyInThreeParts(b);
    HostPartHasNoBar(a);
    HostPartHasNoBar(b);
    var restA, restB := ("mode=" + ModeText(a.mode)) + ['|'] + CaPart(a), ("mode=" + ModeText(b.mode)) + ['|'] + CaPart(b);
    CutAtFirst(HostPart(a), restA, HostPart(b), restB, '|');
    RestIdentifies(a, b);
    DecReadsBack(a.port);
    DecReadsBack(b.port);
    CutAtLast(Lower(a.host), Dec(a.port), Lower(b.host), Dec(b.port), ':');
    DecInjective(a.port, b.port);
  }

  /** What stands behind the first colon of a key whose host has none. */
  function AfterHost(e: Endpoint): string {
    Dec(e.port) + ['|'] + (("mode=" + ModeText(e.mode)) + ['|'] + CaPart(e))
  }

  lemma KeyBehindHost(e: Endpoint)
    ensures CacheKey(e) == Lower(e.host) + [':'] + AfterHost(e)
  {
    KeyInThreeParts(e);
  }

  /** Without colons in the hosts the host ends at the first colon, and the port at the first bar after it. */
  lemma KeysWithoutColons(a: Endpoint, b: Endpoint)
    requires ':' !in a.host && ':' !in b.host && CacheKey(a) == CacheKey(b)
    ensures SameEndpoint(a, b)
  {
    KeyBehindHost(a);
    KeyBehindHost(b);
    LowerKeepsMarks(a.host);
    LowerKeepsMarks(b.host);
    CutAtFirst(Lower(a.host), AfterHost(a), Lower(b.host), AfterHost(b), ':');
    DecReadsBack(a.port);
    DecReadsBack(b.port);
    var restA, restB := ("mode=" + ModeText(a.mode)) + ['|'] + CaPart(a), ("mode=" + ModeText(b.mode)) + ['|'] + CaPart(b);
    CutAtFirst(Dec(a.port), restA, Dec(b.port), restB, '|');
    DecInjective(a.port, b.port);
    RestIdentifies(a, b);
  }

  /** A host without a colon that shares its key with a host without a bar has no bar either, or both have no colon. */
  lemma MixedHosts(a: Endpoint, b: Endpoint)
    requires '|' !in a.host && ':' !in b.host && CacheKey(a) == CacheKey(b)
    ensures ':' !in a.host || '|' !in b.host
  {
    KeyBehindHost(a);
    KeyBehindHost(b);
    LowerKeepsMarks(a.host);
    LowerKeepsMarks(b.host);
    var key, h, g := CacheKey(a), Lower(a.host), Lower(b.host);
    if ':' in h {
      var i :| 0 <= i < |h| && h[i] == ':';
      assert key[i] == ':' && forall j :: 0 <= j < |g| ==> key[j] == g[j];
      assert |g| <= i;
      assert forall j :: 0 <= j < |g| ==> g[j] == h[j];
    }
  }

  /**
   Two endpoints share a cache entry exactly when they are the same endpoint, whatever bars and equal signs the path of
   the CA file contains, for all hosts a URL can have.
   */
  lemma KeysIdentifyEndpoints(a: Endpoint, b: Endpoint)
    requires PlainHost(a) && PlainHost(b)
    ensures CacheKey(a) == CacheKey(b) <==> SameEndpoint(a, b)
  {
    if CacheKey(a) == CacheKey(b) {
      if '|' !in a.host && ':' !in b.host {
        MixedHosts(a, b);
      }
      if '|' !in b.host && ':' !in a.host {
        MixedHosts(b, a);
      }
      if '|' !in a.host && '|' !in b.host {
        KeysWithoutBars(a, b);
      } else {
        KeysWithoutColons(a, b);
      }
    }
  }

  lemma Regroup(h: string, one: string, modern: string, x: string, two: string, auto: string, end: string)
    ensures h + ":" + one + "|mode=" + modern + "|ca=" + (x + ":" + two + "|mode=" + auto + "|ca=") + "|insecure=" + end
            == (h + ":" + one + "|mode=" + modern + "|ca=" + x) + ":" + two + "|mode=" + auto + "|ca=" + "" + "|insecure=" + end
  {
    var left := h + ":" + one + "|mode=" + modern + "|ca=";
    assert left + (x + ":" + two + "|mode=" + auto + "|ca=") == (left + x) + ":" + two + "|mode=" + auto + "|ca=" + "";
  }

  /** Lower case leaves what has no capitals alone. */
  lemma LowerIdentity(s: string)
    requires forall i :: 0 <= i < |s| ==> !('A' <= s[i] <= 'Z')
    ensures Lower(s) == s
  {
  }

  /**
   The text of the key alone would not do: for a host with both marks, which no URL has, a modern-only endpoint and an
   automatic one would share an entry.
   */
  lemma BarsInHostsCollide()
    ensures exists a, b :: CacheKey(a) == CacheKey(b) && a.mode == Modern && b.mode == Auto
  {
    var ca := "x" + ":" + "2" + "|mode=" + "auto" + "|ca=";
    var host := "h" + ":" + "1" + "|mode=" + "modern" + "|ca=" + "x";
    var a := Endpoint("h", 1, Modern, Some(ca), false);
    var b := Endpoint(host, 2, Auto, None, false);
    assert Dec(1) == "1" && Dec(2) == "2" && [Flag(false)] == "0";
    LowerIdentity("h");
    LowerIdentity(host);
    Regroup("h", "1", "modern", "x", "2", "auto", "0");
    assert CacheKey(a) == CacheKey(b);
  }
}
