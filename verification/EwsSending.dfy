/** Sending through Exchange (src/msgate/ews/client.py, src/msgate/ews/account_cache.py, src/msgate/drivers/ews.py). */
module EwsSending {
  import opened Options
  import opened TlsProfiles
  import opened TlsCaching
  import opened TlsNegotiation

  /** The key of a cached account: everything that identifies the mailbox and the login. */
  datatype AccountKey = AccountKey(url: string, user: string, password: string, primary: string, authType: string)

  datatype Login = Login(user: string, password: string)

  /** A send call that was made: for whom, with which profile installed, through which account, after a forced re-probe or not. */
  datatype SendCall = SendCall(cfg: EwsConfig, user: string, profile: ProfileId, account: nat, forced: bool)

  function ModeLadder(cfg: EwsConfig): seq<ProfileId> {
    if ParseMode(cfg.tlsMode).Some? then Ladder(ParseMode(cfg.tlsMode).value) else []
  }

  predicate HostIsPlain(cfg: EwsConfig) {
    '|' !in cfg.host || ':' !in cfg.host
  }

  /** An attempt that was made, what it met outside, the send call if it got that far, and how it ended. */
  datatype Try = Try(cfg: EwsConfig, user: string, forced: bool, attempt: Attempt, call: Option<SendCall>, outcome: Result<()>)

  /** How the send call itself ends. */
  function SendOutcome(attempt: Attempt): Result<()> {
    if attempt.send.Some? then Err(attempt.send.value) else Ok(())
  }

  /** An attempt that makes the call ends as the call does, and one that does not make it fails. */
  predicate EndsAsItsCall(t: Try) {
    if t.call.Some? then t.outcome == SendOutcome(t.attempt) else t.outcome.Err?
  }

  /** An attempt on this endpoint for this user, whose call, if it makes one, is what the configured mode allows. */
  predicate IsTry(t: Try, cfg: EwsConfig, user: string, forced: bool) {
    && t.cfg == cfg && t.user == user && t.forced == forced && EndsAsItsCall(t)
    && (t.call.Some? ==>
          && t.call.value.cfg == cfg && t.call.value.user == user && t.call.value.forced == forced
          && KeepsItsWord(t.call.value))
  }

  /**
   What `send_mime` is allowed to do: one attempt without force, and after a TLS failure, and only then, one with force,
   whose call goes through a later account.
   */
  predicate IsRound(tries: seq<Try>, cfg: EwsConfig, user: string) {
    && 1 <= |tries| <= 2
    && (forall i :: 0 <= i < |tries| ==> IsTry(tries[i], cfg, user, i == 1))
    && (|tries| == 2 <==> IsTlsCase(tries[0].outcome))
    && (|tries| == 2 && tries[0].call.Some? && tries[1].call.Some? ==>
          tries[0].call.value.account < tries[1].call.value.account)
  }

  /** Whether `send_mime` tries again. */
  predicate IsTlsCase(outcome: Result<()>) {
    outcome.Err? && IsTlsFailure(outcome.error)
  }

  lemma RoundOfOne(only: Try, cfg: EwsConfig, user: string)
    requires IsTry(only, cfg, user, false) && !IsTlsCase(only.outcome)
    ensures IsRound([only], cfg, user) && CallsOf([only]) == CallOf(only)
  {
    assert [only][..0] == [];
  }

  lemma RoundOfTwo(first: Try, second: Try, cfg: EwsConfig, user: string)
    requires IsTry(first, cfg, user, false) && IsTlsCase(first.outcome) && IsTry(second, cfg, user, true)
    requires first.call.Some? && second.call.Some? ==> first.call.value.account < second.call.value.account
    ensures IsRound([first, second], cfg, user) && CallsOf([first, second]) == CallOf(first) + CallOf(second)
  {
    assert [first][..0] == [] && [first, second][..1] == [first];
  }

  function CallOf(t: Try): seq<SendCall> {
    if t.call.Some? then [t.call.value] else []
  }

  /** The calls that some attempts made, in their order. */
  function CallsOf(tries: seq<Try>): (calls: seq<SendCall>)
    ensures |calls| <= |tries|
    ensures tries != [] && tries[|tries| - 1].outcome.Ok? && EndsAsItsCall(tries[|tries| - 1]) ==> calls != []
  {
    if tries == [] then [] else CallsOf(tries[..|tries| - 1]) + CallOf(tries[|tries| - 1])
  }

  /** What a walk down the ladder finds, when the probes so far are `start` and the cache file can be written. */
  function FirstWorking(ladder: seq<ProfileId>, world: World, start: nat): Option<ProfileId> {
    var failed := FailedProbes(world, start, |ladder|);
    if failed < |ladder| && world.writes(start + failed) then Some(ladder[failed]) else None
  }

  /** The text of the last of some failed probes, as the error of `negotiate` quotes it. */
  function LastText(world: World, start: nat, failed: nat): string {
    if failed == 0 then "None" else world.probeErrors(start + failed - 1)
  }

  /** What `negotiate` gives: the cached profile, or what a walk finds if none is cached. */
  function Negotiated(l: Levels, route: Route, world: World, start: nat): Option<ProfileId> {
    match GetResult(l, route.key)
    case Hit(profile) => Some(profile)
    case Corrupt => None
    case Miss => FirstWorking(Ladder(route.mode), world, start)
  }

  /** The profile an attempt prepares; with force, nothing cached is used, and the old entry must go first. */
  function Prepared(l: Levels, route: Route, forced: bool, attempt: Attempt, world: World, start: nat): Option<ProfileId> {
    if attempt.context.Some? then None
    else if !forced then Negotiated(l, route, world, start)
    else if attempt.dropSaved || route.key !in l.disk then FirstWorking(Ladder(route.mode), world, start)
    else None
  }

  /** The same from the configuration on, whose mode must be a known one. */
  function ProfileFor(l: Levels, cfg: EwsConfig, forced: bool, attempt: Attempt, world: World, start: nat): Option<ProfileId> {
    if ParseMode(cfg.tlsMode).None? then None
    else Prepared(l, RouteOf(cfg, ParseMode(cfg.tlsMode).value), forced, attempt, world, start)
  }

  /** An account for the login can be had: a cached one, unless the attempt is forced, or a new one. */
  predicate HasAccount(accounts: map<AccountKey, nat>, cfg: EwsConfig, login: Login, forced: bool, attempt: Attempt) {
    && attempt.primary.Ok?
    && (attempt.connect.None?
        || (!forced && AccountKey(cfg.url, login.user, login.password, attempt.primary.value, cfg.authType) in accounts))
  }

  /** An attempt gets to the send call exactly if everything before the call works. */
  predicate GetsToTheCall(l: Levels, accounts: map<AccountKey, nat>, cfg: EwsConfig, login: Login, forced: bool,
                          attempt: Attempt, world: World, start: nat)
  {
    && ProfileFor(l, cfg, forced, attempt, world, start).Some?
    && HasAccount(accounts, cfg, login, forced, attempt) && attempt.message.None?
  }

  function LastOutcome(tries: seq<Try>): Result<()>
    requires tries != []
  {
    tries[|tries| - 1].outcome
  }

  /**
   The mode in the words of the configuration: "modern" gets the modern profile only, "legacy" never gets it, and any word
   but these and "auto" gets no call.
   */
  predicate KeepsItsWord(call: SendCall) {
    if call.cfg.tlsMode == "modern" then call.profile == ModernTls
    else if call.cfg.tlsMode == "legacy" then call.profile == LegacyTls11 || call.profile == LegacyTls10
    else call.cfg.tlsMode == "auto"
  }

  /** The profile installed for the call belongs to the mode of the endpoint called. */
  predicate ProperCall(call: SendCall) {
    call.profile in ModeLadder(call.cfg)
  }

  /** The law of the modes, from the configured word on. */
  lemma ProfileKeepsTheWord(call: SendCall)
    requires ProperCall(call)
    ensures KeepsItsWord(call)
  {
    ModesInWords(call.cfg.tlsMode);
  }

  /** A configuration with a known mode and its cache key, as every step of the send path works them out again. */
  datatype Route = Route(cfg: EwsConfig, mode: TlsMode, key: string)

  ghost predicate RouteFits(route: Route) {
    && ParseMode(route.cfg.tlsMode) == Some(route.mode)
    && (forall p :: p in Ladder(route.mode) ==> EntryFits(route.key, ProfileText(p)))
    && (forall text :: EntryFits(route.key, text) ==> FitsMode(route.mode, text))
  }

  /** One worker thread's view of the outside: the shared TLS cache, its own account cache, and what it has asked for. */
  class EwsClient {
    const cache: TlsCache
    var accounts: map<AccountKey, nat>
    var built: nat
    var probes: nat
    var attempts: nat
    var adapter: Option<ProfileId>
    ghost var calls: seq<SendCall>
    ghost var tries: seq<Try>

    ghost predicate Valid()
      reads this, cache
    {
      && Sound(cache.View())
      && (forall k :: k in accounts ==> accounts[k] < built)
      && (forall i {:trigger ProperCall(calls[i])} :: 0 <= i < |calls| ==> ProperCall(calls[i]))
      && (forall i {:trigger KeepsItsWord(calls[i])} :: 0 <= i < |calls| ==> KeepsItsWord(calls[i]))
      && (forall i :: 0 <= i < |calls| ==> calls[i].account < built)
    }

    constructor (cache: TlsCache)
      requires Sound(cache.View())
      ensures Valid() && this.cache == cache && calls == [] && tries == [] && probes == 0 && attempts == 0
    {
      this.cache := cache;
      accounts, built, probes, attempts, adapter, calls, tries := map[], 0, 0, 0, None, [], [];
    }

    /** The loop of `negotiate`: the ladder from the top; the first profile that works is stored, and only that one. */
    method WalkLadder(route: Route, ladder: seq<ProfileId>, world: World) returns (r: Result<ProfileId>)
      modifies this`probes, cache
      ensures var failed := FailedProbes(world, old(probes), |ladder|);
              if failed < |ladder| then
                && probes == old(probes) + failed + 1
                && cache.View() == PutLevels(old(cache.View()), route.key, ladder[failed], world.writes(old(probes) + failed))
                && r == (if world.writes(old(probes) + failed) then Ok(ladder[failed]) else Err(WriteError))
              else
                && probes == old(probes) + |ladder| && cache.View() == old(cache.View())
                && r == Err(NoWorkingProfile(route.cfg, route.mode, LastText(world, old(probes), |ladder|)))
    {
      var lastError := "None";
      var i, start := 0, probes;
      while i < |ladder|
        invariant 0 <= i <= |ladder| && probes == start + i
        invariant cache.memory == old(cache.memory) && cache.disk == old(cache.disk)
        invariant forall k :: start <= k < start + i ==> !world.probes(k)
        invariant lastError == LastText(world, start, i)
      {
        probes := probes + 1;
        if world.probes(start + i) {
          FailedProbesAre(world, start, |ladder|, i);
          cache.PutCached(route.key, ladder[i], world.writes(start + i));
          return if world.writes(start + i) then Ok(ladder[i]) else Err(WriteError);
        }
        lastError := world.probeErrors(start + i);
        i := i + 1;
      }
      FailedProbesAre(world, start, |ladder|, i);
      return Err(NoWorkingProfile(route.cfg, route.mode, lastError));
    }

    /** `negotiate` without a cached profile, or with `force_reprobe`. */
    method NegotiateAfresh(route: Route, world: World) returns (r: Result<ProfileId>)
      requires Valid() && RouteFits(route)
      modifies this`probes, cache
      ensures Valid()
      ensures old(probes) <= probes <= old(probes) + |Ladder(route.mode)|
      ensures var found := FirstWorking(Ladder(route.mode), world, old(probes));
              if found.Some? then r == Ok(found.value) else r.Err?
      ensures var failed := FailedProbes(world, old(probes), |Ladder(route.mode)|);
              probes == old(probes) + (if failed < |Ladder(route.mode)| then failed + 1 else failed)
      ensures r.Ok? ==>
                && r.value in Ladder(route.mode)
                && cache.View() == PutLevels(old(cache.View()), route.key, r.value, true)
                && GetResult(cache.View(), route.key) == Hit(r.value)
      ensures r.Err? ==> r.error.NoWorkingProfile? || r.error == WriteError
    {
      ghost var before := cache.View();
      r := WalkLadder(route, Ladder(route.mode), world);
      StoreStaysSound(before, cache.View(), route);
      if r.Ok? {
        ProfileReadsBack(r.value);
      }
    }

    /** `negotiate` */
    method Negotiate(route: Route, force: bool, world: World) returns (r: Result<ProfileId>)
      requires Valid() && RouteFits(route)
      modifies this`probes, cache
      ensures Valid()
      ensures old(probes) <= probes <= old(probes) + |Ladder(route.mode)|
      ensures r.Ok? ==> r.value in Ladder(route.mode) && GetResult(cache.View(), route.key) == Hit(r.value)
      ensures r.Err? ==> r.error.NoWorkingProfile? || r.error.CorruptEntry? || r.error == WriteError
      ensures !force && GetResult(old(cache.View()), route.key).Hit? ==>
                && probes == old(probes) && r == Ok(GetResult(old(cache.View()), route.key).profile)
      ensures var found := if force then FirstWorking(Ladder(route.mode), world, old(probes))
                           else Negotiated(old(cache.View()), route, world, old(probes));
              if found.Some? then r == Ok(found.value) else r.Err?
    {
      if !force {
        var cached := cache.GetCached(route.key);
        match cached {
          case Hit(profile) =>
            HitFits(cache.View(), route, profile);
            return Ok(profile);
          case Corrupt =>
            return Err(CorruptEntry(cache.memory[route.key]));
          case Miss =>
        }
      }
      r := NegotiateAfresh(route, world);
    }

    /** `prepare_ews_tls`: negotiate, and install the adapter of the profile. */
    method PrepareTls(route: Route, force: bool, attempt: Attempt, world: World) returns (r: Result<ProfileId>)
      requires Valid() && RouteFits(route)
      modifies this`probes, this`adapter, cache
      ensures Valid()
      ensures old(probes) <= probes <= old(probes) + |Ladder(route.mode)|
      ensures r.Ok? ==> r.value in Ladder(route.mode) && adapter == Some(r.value)
                        && GetResult(cache.View(), route.key) == Hit(r.value)
      ensures !force && GetResult(old(cache.View()), route.key).Hit? ==> probes == old(probes)
      ensures var found := if force then FirstWorking(Ladder(route.mode), world, old(probes))
                           else Negotiated(old(cache.View()), route, world, old(probes));
              if found.Some? && attempt.context.None? then r == Ok(found.value) else r.Err?
    {
      r := Negotiate(route, force, world);
      if r.Ok? {
        if attempt.context.Some? {
          return Err(attempt.context.value);
        }
        adapter := Some(r.value);
      }
    }

    /** `cache_invalidate(username=...)`: every account of the user is dropped, and no other. */
    method DropAccounts(user: string)
      requires Valid()
      modifies this`accounts
      ensures Valid()
      ensures accounts == map k | k in old(accounts) && k.user != user :: old(accounts)[k]
    {
      var todo := accounts.Keys;
      while todo != {}
        invariant todo <= accounts.Keys <= old(accounts.Keys)
        invariant forall k :: k in accounts ==> accounts[k] == old(accounts)[k]
        invariant forall k :: k in old(accounts) && k !in todo ==> (k in accounts <==> k.user != user)
        decreases todo
      {
        var k :| k in todo;
        todo := todo - {k};
        if k.user == user {
          accounts := accounts - {k};
        }
      }
    }

    /** `build_account` after the TLS preparation: a cached account for this login and address, or a new one. */
    method FindOrBuildAccount(cfg: EwsConfig, login: Login, attempt: Attempt) returns (r: Result<nat>)
      requires Valid()
      modifies this`accounts, this`built
      ensures Valid() && built >= old(built)
      ensures r.Ok? ==> r.value < built
      ensures r.Ok? && (forall k :: k in old(accounts) ==> k.user != login.user) ==> r.value >= old(built)
      ensures attempt.primary.Ok? ==>
                var key := AccountKey(cfg.url, login.user, login.password, attempt.primary.value, cfg.authType);
                && (key in old(accounts) ==> r == Ok(old(accounts)[key]) && accounts == old(accounts) && built == old(built))
                && (key !in old(accounts) && r.Ok? ==> r.value == old(built) && accounts == old(accounts)[key := old(built)])
      ensures r.Ok? <==> HasAccount(old(accounts), cfg, login, false, attempt)
      ensures r.Err? ==> accounts == old(accounts) && built == old(built)
    {
      if attempt.primary.Err? {
        return Err(attempt.primary.error);
      }
      var key := AccountKey(cfg.url, login.user, login.password, attempt.primary.value, cfg.authType);
      if key in accounts {
        return Ok(accounts[key]);
      }
      if attempt.connect.Some? {
        return Err(attempt.connect.value);
      }
      accounts := accounts[key := built];
      built := built + 1;
      return Ok(built - 1);
    }

    /** Building the message and sending it through the account. */
    method SendThrough(cfg: EwsConfig, login: Login, account: nat, forced: bool, attempt: Attempt)
      returns (r: Result<()>, ghost call: Option<SendCall>)
      requires Valid() && account < built && adapter.Some? && adapter.value in ModeLadder(cfg)
      modifies this`calls
      ensures Valid()
      ensures if attempt.message.Some? then call == None && calls == old(calls) && r.Err?
              else
                && call == Some(SendCall(cfg, login.user, adapter.value, account, forced))
                && calls == old(calls) + [call.value] && r == SendOutcome(attempt)
    {
      if attempt.message.Some? {
        return Err(attempt.message.value), None;
      }
      call := Some(SendCall(cfg, login.user, adapter.value, account, forced));
      ProfileKeepsTheWord(call.value);
      calls := calls + [call.value];
      r := if attempt.send.Some? then Err(attempt.send.value) else Ok(());
    }

    /**
     What one attempt has added to the calls: nothing, or one through this profile and through an account there is, which,
     if the attempt is forced, has been built since.
     */
    twostate predicate Added(new call: Option<SendCall>, cfg: EwsConfig, user: string, forced: bool, profile: Option<ProfileId>)
      reads this
    {
      if call.None? then calls == old(calls)
      else
        && calls == old(calls) + [call.value] && profile.Some?
        && call.value.cfg == cfg && call.value.user == user && call.value.forced == forced
        && call.value.profile == profile.value
        && call.value.account < built && (forced ==> call.value.account >= old(built))
    }

    /** What `_attempt(force_reprobe=True)` does first. */
    method Reprobe(route: Route, login: Login, attempt: Attempt, world: World) returns (r: Result<ProfileId>)
      requires Valid() && RouteFits(route)
      modifies this`probes, this`adapter, this`accounts, cache
      ensures Valid()
      ensures old(probes) <= probes <= old(probes) + |Ladder(route.mode)|
      ensures r.Ok? ==> GetResult(cache.View(), route.key) == Hit(r.value) && forall k :: k in accounts ==> k.user != login.user
      ensures var found := Prepared(old(cache.View()), route, true, attempt, world, old(probes));
              if found.Some? then r == Ok(found.value) else r.Err?
    {
      var dropped := cache.Forget(route.key, attempt.dropSaved);
      if !dropped {
        return Err(WriteError);
      }
      DropAccounts(login.user);
      r := PrepareTls(route, true, attempt, world);
    }

    /** `_attempt` once the mode is known. It gets to the send call exactly if everything before it works. */
    method AttemptOn(route: Route, login: Login, forced: bool, attempt: Attempt, world: World)
      returns (r: Result<()>, ghost call: Option<SendCall>)
      requires Valid() && RouteFits(route)
      modifies this`probes, this`adapter, this`accounts, this`built, this`calls, cache
      ensures Valid() && built >= old(built)
      ensures old(probes) <= probes <= old(probes) + |Ladder(route.mode)|
      ensures var profile := Prepared(old(cache.View()), route, forced, attempt, world, old(probes));
              && Added(call, route.cfg, login.user, forced, profile)
              && (call.Some? <==>
                    profile.Some? && HasAccount(old(accounts), route.cfg, login, forced, attempt) && attempt.message.None?)
              && (if call.Some? then r == SendOutcome(attempt) else r.Err?)
    {
      if forced {
        var first := Reprobe(route, login, attempt, world);
        if first.Err? {
          return Err(first.error), None;
        }
      }
      var prepared := PrepareTls(route, false, attempt, world);
      if prepared.Err? {
        return Err(prepared.error), None;
      }
      r, call := SendPrepared(route, login, forced, attempt);
    }

    /** The rest of it, with the adapter installed. */
    method SendPrepared(route: Route, login: Login, forced: bool, attempt: Attempt)
      returns (r: Result<()>, ghost call: Option<SendCall>)
      requires Valid() && adapter.Some? && adapter.value in ModeLadder(route.cfg)
      requires forced ==> forall k :: k in accounts ==> k.user != login.user
      modifies this`accounts, this`built, this`calls
      ensures Valid() && built >= old(built)
      ensures Added(call, route.cfg, login.user, forced, adapter)
      ensures call.Some? <==> HasAccount(old(accounts), route.cfg, login, forced, attempt) && attempt.message.None?
      ensures if call.Some? then r == SendOutcome(attempt) else r.Err?
    {
      var account := FindOrBuildAccount(route.cfg, login, attempt);
      if account.Err? {
        return Err(account.error), None;
      }
      r, call := SendThrough(route.cfg, login, account.value, forced, attempt);
    }

    /** `_attempt`: an unknown mode raises before anything is asked of the outside. */
    method TryToSend(cfg: EwsConfig, login: Login, forced: bool, world: World) returns (r: Result<()>, ghost t: Try)
      requires Valid() && HostIsPlain(cfg)
      modifies this, cache
      ensures Valid() && built >= old(built) && attempts == old(attempts) + 1
      ensures t == Try(cfg, login.user, forced, world.attempts(old(attempts)), t.call, r) && tries == old(tries) + [t]
      ensures var profile := ProfileFor(old(cache.View()), cfg, forced, t.attempt, world, old(probes));
              && Added(t.call, cfg, login.user, forced, profile)
              && (t.call.Some? <==>
                    profile.Some? && HasAccount(old(accounts), cfg, login, forced, t.attempt) && t.attempt.message.None?)
              && (if t.call.Some? then r == SendOutcome(t.attempt) else r.Err?)
      ensures old(probes) <= probes <= old(probes) + |ModeLadder(cfg)|
    {
      var attempt := world.attempts(attempts);
      ghost var call := None;
      attempts := attempts + 1;
      var mode := ParseMode(cfg.tlsMode);
      if mode.None? {
        r := Err(BadMode(cfg.tlsMode));
      } else {
        RouteOfFits(cfg, mode.value);
        r, call := AttemptOn(RouteOf(cfg, mode.value), login, forced, attempt, world);
      }
      t := Try(cfg, login.user, forced, attempt, call, r);
      tries := tries + [t];
    }

    /** An attempt and its entry in the log. */
    method LoggedTry(cfg: EwsConfig, login: Login, forced: bool, world: World) returns (r: Result<()>, ghost t: Try)
      requires Valid() && HostIsPlain(cfg)
      modifies this, cache
      ensures Valid() && built >= old(built) && attempts == old(attempts) + 1
      ensures tries == old(tries) + [t] && calls == old(calls) + CallOf(t)
      ensures IsTry(t, cfg, login.user, forced) && t.outcome == r && t.attempt == world.attempts(old(attempts))
      ensures t.call.Some? <==>
                GetsToTheCall(old(cache.View()), old(accounts), cfg, login, forced, t.attempt, world, old(probes))
      ensures t.call.Some? ==> t.call.value.account < built && (forced ==> t.call.value.account >= old(built))
      ensures old(probes) <= probes <= old(probes) + |ModeLadder(cfg)| <= old(probes) + 3
    {
      ghost var before := |calls|;
      r, t := TryToSend(cfg, login, forced, world);
      assert t.call.Some? ==> t.call.value == calls[before];
    }

    /** The forced attempt, as far as the first one's result is concerned. */
    method TryAgain(cfg: EwsConfig, login: Login, world: World) returns (r: Result<()>, ghost t: Try)
      requires Valid() && HostIsPlain(cfg)
      modifies this, cache
      ensures Valid() && built >= old(built) && attempts == old(attempts) + 1
      ensures tries == old(tries) + [t] && calls == old(calls) + CallOf(t)
      ensures IsTry(t, cfg, login.user, true) && t.outcome == r && t.attempt == world.attempts(old(attempts))
      ensures t.call.Some? ==> old(built) <= t.call.value.account < built
      ensures old(probes) <= probes <= old(probes) + |ModeLadder(cfg)| <= old(probes) + 3
    {
      r, t := LoggedTry(cfg, login, true, world);
    }

    /**
     `send_mime`: at most two send calls and at most two walks down the ladder. Exactly a TLS failure is tried again, and
     the second attempt goes through an account built after everything the first one could have used. `round` are the
     attempts made here, the calls in it the calls made here.
     */
    method SendMime(cfg: EwsConfig, login: Login, world: World) returns (r: Result<()>, ghost round: seq<Try>)
      requires Valid() && HostIsPlain(cfg)
      modifies this, cache
      ensures Valid() && built >= old(built) && attempts == old(attempts) + |round|
      ensures tries == old(tries) + round && IsRound(round, cfg, login.user) && r == LastOutcome(round)
      ensures calls == old(calls) + CallsOf(round)
      ensures forall i :: 0 <= i < |round| ==> round[i].attempt == world.attempts(old(attempts) + i)
      ensures round[0].call.Some? <==>
                GetsToTheCall(old(cache.View()), old(accounts), cfg, login, false, round[0].attempt, world, old(probes))
      ensures |round| == 2 && round[1].call.Some? ==> round[1].call.value.account >= old(built)
      ensures old(probes) <= probes <= old(probes) + |round| * |ModeLadder(cfg)| <= old(probes) + 3 * |round|
    {
      ghost var first, second;
      r, first := LoggedTry(cfg, login, false, world);
      round := [first];
      if IsTlsCase(r) {
        r, second := TryAgain(cfg, login, world);
        round := [first, second];
        RoundOfTwo(first, second, cfg, login.user);
      } else {
        RoundOfOne(first, cfg, login.user);
      }
    }

    /**
     `EwsDriver.send`: the primary endpoint, and if and only if that raises and there is a failover endpoint, the failover
     endpoint. `first` and `second` are the attempts on the two, in this order; the caller gets what the last one gave.
     */
    method SendWithFailover(primary: EwsConfig, failover: Option<EwsConfig>, login: Login, world: World)
      returns (r: Result<string>, ghost first: seq<Try>, ghost second: seq<Try>)
      requires Valid() && HostIsPlain(primary) && (failover.Some? ==> HostIsPlain(failover.value))
      modifies this, cache
      ensures Valid()
      ensures tries == old(tries) + first + second && IsRound(first, primary, login.user)
      ensures second != [] <==> LastOutcome(first).Err? && failover.Some?
      ensures second != [] ==> IsRound(second, failover.value, login.user)
      ensures r == if LastOutcome(first).Ok? then Ok("ews")
                   else if second == [] then Err(LastOutcome(first).error)
                   else if LastOutcome(second).Ok? then Ok("ews+failover")
                   else Err(LastOutcome(second).error)
      ensures calls == old(calls) + CallsOf(first) + CallsOf(second) && |calls| <= |old(calls)| + CALLS_PER_DRIVER_CALL
      ensures r == Ok("ews") ==> CallsOf(first) != []
      ensures r == Ok("ews+failover") ==> CallsOf(second) != []
      ensures old(probes) <= probes <= old(probes) + (if second != [] then 12 else 6)
    {
      var sent;
      sent, first := SendMime(primary, login, world);
      second := [];
      if sent.Ok? {
        r := Ok("ews");
        return;
      }
      if failover.None? {
        r := Err(sent.error);
        return;
      }
      sent, second := SendMime(failover.value, login, world);
      r := if sent.Ok? then Ok("ews+failover") else Err(sent.error);
    }
  }

  /** How many send calls one call of the driver makes at most. */
  const CALLS_PER_DRIVER_CALL: nat := 4

  function RouteOf(cfg: EwsConfig, mode: TlsMode): Route {
    Route(cfg, mode, CacheKey(EndpointOf(cfg, mode)))
  }

  lemma RouteOfFits(cfg: EwsConfig, mode: TlsMode)
    requires HostIsPlain(cfg) && ParseMode(cfg.tlsMode) == Some(mode)
    ensures RouteFits(RouteOf(cfg, mode))
  {
    var e := EndpointOf(cfg, mode);
    forall p | p in Ladder(mode) ensures EntryFits(CacheKey(e), ProfileText(p)) {
      OwnLadderFits(e, p);
    }
    assert PlainHost(e);
  }

  /** What is found under the key of a route lies in the route's ladder. */
  lemma HitFits(l: Levels, route: Route, profile: ProfileId)
    requires Sound(l) && RouteFits(route) && route.key in l.memory && AsProfile(l.memory[route.key]) == Hit(profile)
    ensures profile in Ladder(route.mode)
  {
    assert EntryFits(route.key, l.memory[route.key]);
  }

  lemma StoreStaysSound(before: Levels, after: Levels, route: Route)
    requires Sound(before) && RouteFits(route)
    requires after == before || exists p, saved :: p in Ladder(route.mode) && after == PutLevels(before, route.key, p, saved)
    ensures Sound(after)
  {
  }
}
