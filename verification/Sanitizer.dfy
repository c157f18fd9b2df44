/** The sanitizer of SMTP login names (src/msgate/auth/sanitize.py). */
module Sanitizer {
  import opened Options
  import opened Text

  // ----- Python's strip and partition -----

  /** The characters Python's `str.strip` takes off. */
  predicate IsSpace(c: char) {
    || '\t' <= c <= '\r' || '\U{1C}' <= c <= ' ' || c == '\U{85}' || c == '\U{A0}' || c == '\U{1680}'
    || '\U{2000}' <= c <= '\U{200A}' || c == '\U{2028}' || c == '\U{2029}' || c == '\U{202F}' || c == '\U{205F}'
    || c == '\U{3000}'
  }

  /** The same by code points. */
  lemma SpacesInNumbers(c: char)
    ensures IsSpace(c) <==>
              var n := c as int;
              || 9 <= n <= 13 || 28 <= n <= 32 || n == 133 || n == 160 || n == 5760 || 8192 <= n <= 8202
              || n == 8232 || n == 8233 || n == 8239 || n == 8287 || n == 12288
  {
  }

  function StripLeft(s: string): string {
    if s != [] && IsSpace(s[0]) then StripLeft(s[1..]) else s
  }

  function StripRight(s: string): string {
    if s != [] && IsSpace(s[|s| - 1]) then StripRight(s[..|s| - 1]) else s
  }

  function Strip(s: string): string {
    StripRight(StripLeft(s))
  }

  predicate IsTrimmed(s: string) {
    s == [] || (!IsSpace(s[0]) && !IsSpace(s[|s| - 1]))
  }

  lemma {:induction false} StripLeftShape(s: string, c: char)
    requires !IsSpace(c)
    ensures StripLeft(s) == [] || !IsSpace(StripLeft(s)[0])
    ensures c in StripLeft(s) <==> c in s
  {
    if s != [] && IsSpace(s[0]) {
      assert s == [s[0]] + s[1..];
      StripLeftShape(s[1..], c);
    }
  }

  lemma {:induction false} StripRightShape(s: string, c: char)
    requires !IsSpace(c) && (s == [] || !IsSpace(s[0]))
    ensures IsTrimmed(StripRight(s))
    ensures c in StripRight(s) <==> c in s
  {
    if s != [] && IsSpace(s[|s| - 1]) {
      assert s == s[..|s| - 1] + [s[|s| - 1]];
      StripRightShape(s[..|s| - 1], c);
    }
  }

  /** What is left has no blanks around it, and every other character stays. */
  lemma StripShape(s: string, c: char)
    requires !IsSpace(c)
    ensures IsTrimmed(Strip(s)) && (c in Strip(s) <==> c in s)
  {
    StripLeftShape(s, c);
    StripRightShape(StripLeft(s), c);
  }

  /** A trimmed string is left alone. */
  lemma StripTrimmed(s: string)
    requires IsTrimmed(s)
    ensures Strip(s) == s
  {
  }

  /** The three special characters are not blanks, so stripping neither adds nor removes them. */
  lemma StripKeeps(s: string)
    ensures IsTrimmed(Strip(s)) && ('\\' in Strip(s) <==> '\\' in s)
    ensures ('/' in Strip(s) <==> '/' in s) && ('@' in Strip(s) <==> '@' in s)
  {
    StripShape(s, '\\');
    StripShape(s, '/');
    StripShape(s, '@');
  }

  /** The part of `s` before the first `c`. */
  function Head(s: string, c: char): (h: string)
    requires c in s
    ensures |h| < |s| && c !in h && h == s[..|h|] && s[|h|] == c
  {
    if s[0] == c then [] else [s[0]] + Head(s[1..], c)
  }

  /** The part after it. */
  function Tail(s: string, c: char): string
    requires c in s
  {
    s[|Head(s, c)| + 1..]
  }

  lemma PartitionOf(h: string, c: char, t: string)
    requires c !in h
    ensures Head(h + [c] + t, c) == h && Tail(h + [c] + t, c) == t
  {
    var s := h + [c] + t;
    assert s[|h|] == c;
    assert s == Head(s, c) + [c] + Tail(s, c);
    CutAtFirst(Head(s, c), Tail(s, c), h, t, c);
  }

  // ----- the sanitizer -----

  datatype Auth = Auth(username: string, domain: Option<string>, ews: string)

  datatype Sanitized = Accepted(auth: Auth) | Empty | InvalidUpn

  /** One round of the loop over the two separators. */
  function DownLevel(value: string, sep: char): Option<Auth> {
    if sep !in value || '@' in value then None
    else
      var domain, user := Strip(Head(value, sep)), Strip(Tail(value, sep));
      if domain != [] && user != [] && '\\' !in user && '/' !in user
      then Some(Auth(user, Some(domain), domain + ['\\'] + user))
      else None
  }

  function Upn(value: string): Sanitized
    requires '@' in value
  {
    var user, domain := Strip(Head(value, '@')), Strip(Tail(value, '@'));
    if user == [] || domain == [] then InvalidUpn else Accepted(Auth(user, Some(domain), value))
  }

  /** A default domain that is neither absent nor empty. */
  predicate HasDefault(defaultDomain: Option<string>) {
    defaultDomain.Some? && defaultDomain.value != []
  }

  function Plain(value: string, defaultDomain: Option<string>): Auth {
    if HasDefault(defaultDomain) then Auth(value, defaultDomain, defaultDomain.value + ['\\'] + value)
    else Auth(value, None, value)
  }

  function OfTrimmed(value: string, defaultDomain: Option<string>): Sanitized {
    if value == [] then Empty
    else if DownLevel(value, '\\').Some? then Accepted(DownLevel(value, '\\').value)
    else if DownLevel(value, '/').Some? then Accepted(DownLevel(value, '/').value)
    else if '@' in value then Upn(value)
    else Accepted(Plain(value, defaultDomain))
  }

  function SanitizeUsername(raw: string, defaultDomain: Option<string>): Sanitized {
    OfTrimmed(Strip(raw), defaultDomain)
  }

  // ----- what the branches leave -----

  /** No separator of either kind. */
  predicate IsBare(s: string) {
    '\\' !in s && '/' !in s
  }

  lemma InJoin(a: string, sep: char, b: string, c: char)
    ensures c in a + [sep] + b <==> c in a || c == sep || c in b
  {
    assert (a + [sep] + b)[|a|] == sep;
    if c in a {
      var i :| 0 <= i < |a| && a[i] == c;
      assert (a + [sep] + b)[i] == c;
    }
    if c in b {
      var i :| 0 <= i < |b| && b[i] == c;
      assert (a + [sep] + b)[|a| + 1 + i] == c;
    }
  }

  /** One round on a value whose first separator is known. */
  lemma DownLevelOf(h: string, sep: char, t: string)
    requires sep !in h && '@' !in h && '@' != sep && '@' !in t
    ensures DownLevel(h + [sep] + t, sep)
            == if Strip(h) != [] && Strip(t) != [] && IsBare(t) then Some(Auth(Strip(t), Some(Strip(h)), Strip(h) + ['\\'] + Strip(t)))
               else None
  {
    InJoin(h, sep, t, '@');
    InJoin(h, sep, t, sep);
    PartitionOf(h, sep, t);
    StripKeeps(t);
  }

  /** A down-level name that was taken apart: both parts are trimmed and not empty, and the user part is bare. */
  lemma DownLevelShape(value: string, sep: char)
    requires sep in ['\\', '/'] && DownLevel(value, sep).Some?
    ensures IsJoined(DownLevel(value, sep).value)
    ensures sep !in DownLevel(value, sep).value.domain.value
  {
    var h, t := Head(value, sep), Tail(value, sep);
    assert value == h + [sep] + t;
    InJoin(h, sep, t, '@');
    StripKeeps(h);
    StripKeeps(t);
  }

  /** The form in which a name leaves the loop. */
  predicate IsJoined(a: Auth) {
    && a.domain.Some? && a.ews == a.domain.value + ['\\'] + a.username
    && a.domain.value != [] && IsTrimmed(a.domain.value) && '@' !in a.domain.value
    && a.username != [] && IsTrimmed(a.username) && '@' !in a.username && IsBare(a.username)
  }

  lemma TrimmedJoin(a: string, sep: char, b: string)
    requires a != [] && b != [] && IsTrimmed(a) && IsTrimmed(b)
    ensures IsTrimmed(a + [sep] + b)
  {
    assert (a + [sep] + b)[0] == a[0] && (a + [sep] + b)[|a| + |b|] == b[|b| - 1];
  }

  /** `domain\user` with a bare user part is taken apart again exactly when the domain has no backslash. */
  lemma JoinedSplits(a: Auth)
    requires IsJoined(a)
    ensures IsTrimmed(a.ews) && '@' !in a.ews && a.ews != []
    ensures DownLevel(a.ews, '\\') == if '\\' in a.domain.value then None else Some(a)
  {
    var domain, user := a.domain.value, a.username;
    TrimmedJoin(domain, '\\', user);
    InJoin(domain, '\\', user, '@');
    StripTrimmed(domain);
    StripTrimmed(user);
    if '\\' !in domain {
      DownLevelOf(domain, '\\', user);
    } else {
      BackslashBehind(domain, user);
    }
  }

  lemma Regrouped(a: string, sep: char, b: string, c: string)
    ensures a + [sep] + b + [sep] + c == a + [sep] + (b + [sep] + c)
  {
  }

  lemma BackslashBehind(domain: string, user: string)
    requires '\\' in domain && '@' !in domain && '@' !in user
    ensures DownLevel(domain + ['\\'] + user, '\\') == None
  {
    var h := Head(domain, '\\');
    var t := domain[|h| + 1..];
    assert domain == h + ['\\'] + t;
    InJoin(h, '\\', t, '@');
    InJoin(t, '\\', user, '\\');
    InJoin(t, '\\', user, '@');
    DownLevelOf(h, '\\', t + ['\\'] + user);
    Regrouped(h, '\\', t, user);
  }

  lemma NoSlashNoSplit(value: string)
    requires '/' !in value
    ensures DownLevel(value, '/') == None
  {
  }

  /** How a result came about. */
  datatype Form = Joined | AsUpn | Unqualified

  /**
   The three ways in which a name is accepted: taken apart at a separator, kept because it has an '@', or kept because
   nothing could be done with it.
   */
  lemma AcceptedForms(raw: string, d: Option<string>) returns (form: Form)
    requires SanitizeUsername(raw, d).Accepted?
    ensures var value, a := Strip(raw), SanitizeUsername(raw, d).auth;
            && value != [] && IsTrimmed(value)
            && (form.AsUpn? <==> '@' in value) && (form.AsUpn? ==> a.ews == value && a.domain.Some?)
            && (form.Unqualified? ==> a == Plain(value, d) && DownLevel(value, '\\').None? && DownLevel(value, '/').None?)
            && (form.Joined? ==> IsJoined(a) && ('\\' in a.domain.value ==> '/' !in a.domain.value))
  {
    var value := Strip(raw);
    StripKeeps(raw);
    if DownLevel(value, '\\').Some? {
      DownLevelShape(value, '\\');
      form := Joined;
    } else if DownLevel(value, '/').Some? {
      DownLevelShape(value, '/');
      form := Joined;
    } else if '@' in value {
      form := AsUpn;
    } else {
      form := Unqualified;
    }
  }

  // ----- doing it twice -----

  /** A name with '@' is accepted again as it is. */
  lemma UpnTwice(value: string, d: Option<string>)
    requires IsTrimmed(value) && '@' in value && OfTrimmed(value, d).Accepted?
    ensures SanitizeUsername(value, d) == OfTrimmed(value, d)
  {
    StripTrimmed(value);
  }

  /** A name that was taken apart comes apart the same way, unless its domain has a backslash; then nothing is done. */
  lemma {:induction false} JoinedTwice(a: Auth, d: Option<string>)
    requires IsJoined(a)
    requires '\\' in a.domain.value ==> '/' !in a.domain.value
    ensures SanitizeUsername(a.ews, d) == Accepted(if '\\' in a.domain.value then Plain(a.ews, d) else a)
  {
    JoinedSplits(a);
    StripTrimmed(a.ews);
    if '\\' in a.domain.value {
      InJoin(a.domain.value, '\\', a.username, '/');
      NoSlashNoSplit(a.ews);
    }
  }

  /** Without a default domain, told by the result: the two parts are lost exactly if the domain kept a backslash. */
  lemma {:induction false} SettledByResult(raw: string, d: Option<string>)
    requires !HasDefault(d) && SanitizeUsername(raw, d).Accepted?
    ensures var a := SanitizeUsername(raw, d).auth;
            var again := SanitizeUsername(a.ews, d);
            && again.Accepted? && again.auth.ews == a.ews
            && (again.auth == a <==> '@' in a.ews || a.domain.None? || '\\' !in a.domain.value)
  {
    var a := SanitizeUsername(raw, d).auth;
    var form := AcceptedForms(raw, d);
    if form.Joined? {
      JoinedTwice(a, d);
      JoinedSplits(a);
    } else {
      StripTrimmed(a.ews);
    }
  }

  /** A default domain as one would write it: trimmed, and with none of the three special characters. */
  predicate IsPlainDomain(d: string) {
    d != [] && IsTrimmed(d) && '@' !in d && IsBare(d)
  }

  /** A name that only got the default domain in front loses nothing in a second round exactly when it is bare. */
  lemma {:induction false} QualifiedTwice(value: string, d: string)
    requires IsPlainDomain(d) && value != [] && IsTrimmed(value) && '@' !in value
    ensures var a := Plain(value, Some(d));
            && SanitizeUsername(a.ews, Some(d)).Accepted?
            && (IsBare(value) ==> SanitizeUsername(a.ews, Some(d)) == Accepted(a))
            && (!IsBare(value) ==> SanitizeUsername(a.ews, Some(d)).auth.ews != a.ews)
  {
    var ews := d + ['\\'] + value;
    TrimmedJoin(d, '\\', value);
    StripTrimmed(ews);
    StripTrimmed(d);
    StripTrimmed(value);
    InJoin(d, '\\', value, '@');
    DownLevelOf(d, '\\', value);
    if !IsBare(value) && DownLevel(ews, '/').Some? {
      SlashIsGone(ews);
    }
  }

  lemma SlashIsGone(value: string)
    requires DownLevel(value, '/').Some?
    ensures DownLevel(value, '/').value.ews != value
  {
    var a := DownLevel(value, '/').value;
    DownLevelShape(value, '/');
    InJoin(a.domain.value, '\\', a.username, '/');
  }

  /**
   With a plain default domain, told by the result: a name with '@' is settled; any other name is if and only if its
   domain part has no backslash and its user part has no separator left. Then all three fields stay.
   */
  lemma {:induction false} SettledWithDefaultByResult(raw: string, d: string)
    requires IsPlainDomain(d) && SanitizeUsername(raw, Some(d)).Accepted?
    ensures var a := SanitizeUsername(raw, Some(d)).auth;
            var again := SanitizeUsername(a.ews, Some(d));
            && again.Accepted?
            && (again.auth.ews == a.ews <==> '@' in a.ews || (a.domain.Some? && '\\' !in a.domain.value && IsBare(a.username)))
            && (again.auth.ews == a.ews ==> again.auth == a)
  {
    var a := SanitizeUsername(raw, Some(d)).auth;
    var form := AcceptedForms(raw, Some(d));
    match form
    case AsUpn => UpnTwice(a.ews, Some(d));
    case Joined =>
      JoinedTwice(a, Some(d));
      JoinedSplits(a);
    case Unqualified =>
      QualifiedTwice(Strip(raw), d);
  }

  /** The documented forms, taken apart as documented; a plain user part has none of the three special characters. */
  lemma KnownForms(domain: string, user: string, d: Option<string>)
    requires IsPlainDomain(domain) && IsPlainDomain(user)
    ensures SanitizeUsername(domain + ['\\'] + user, d) == Accepted(Auth(user, Some(domain), domain + ['\\'] + user))
    ensures SanitizeUsername(domain + ['/'] + user, d) == Accepted(Auth(user, Some(domain), domain + ['\\'] + user))
    ensures SanitizeUsername(user + ['@'] + domain, d) == Accepted(Auth(user, Some(domain), user + ['@'] + domain))
    ensures SanitizeUsername(user, None) == SanitizeUsername(user, Some("")) == Accepted(Auth(user, None, user))
    ensures SanitizeUsername(user, Some(domain)) == Accepted(Auth(user, Some(domain), domain + ['\\'] + user))
  {
    KnownJoin(domain, '\\', user, d);
    KnownJoin(domain, '/', user, d);
    KnownUpn(user, domain, d);
    StripTrimmed(user);
  }

  lemma KnownJoin(domain: string, sep: char, user: string, d: Option<string>)
    requires IsPlainDomain(domain) && IsPlainDomain(user) && sep in ['\\', '/']
    ensures SanitizeUsername(domain + [sep] + user, d) == Accepted(Auth(user, Some(domain), domain + ['\\'] + user))
  {
    TrimmedJoin(domain, sep, user);
    StripTrimmed(domain + [sep] + user);
    StripTrimmed(domain);
    StripTrimmed(user);
    DownLevelOf(domain, sep, user);
    InJoin(domain, sep, user, '\\');
  }

  lemma KnownUpn(user: string, domain: string, d: Option<string>)
    requires IsPlainDomain(domain) && IsPlainDomain(user)
    ensures SanitizeUsername(user + ['@'] + domain, d) == Accepted(Auth(user, Some(domain), user + ['@'] + domain))
  {
    TrimmedJoin(user, '@', domain);
    StripTrimmed(user + ['@'] + domain);
    StripTrimmed(domain);
    StripTrimmed(user);
    InJoin(user, '@', domain, '@');
    PartitionOf(user, '@', domain);
  }

  // ----- the same, told by the input -----

  /** A name that is not rejected: it is not blank, and if it has an '@', neither side of the first one is. */
  predicate IsAcceptable(value: string) {
    value != [] && ('@' in value ==> Strip(Head(value, '@')) != [] && Strip(Tail(value, '@')) != [])
  }

  lemma AcceptedIff(raw: string, d: Option<string>)
    ensures SanitizeUsername(raw, d).Accepted? <==> IsAcceptable(Strip(raw))
  {
  }

  /** Both sides of the first `c` hold something, and the right one has no further separator. */
  predicate SplitsAt(value: string, c: char) {
    c in value && Strip(Head(value, c)) != [] && Strip(Tail(value, c)) != [] && IsBare(Tail(value, c))
  }

  /** The first backslash, if there is one, and else the first slash is the only separator and stands between two parts. */
  predicate IsStable(value: string) {
    '@' in value || IsBare(value) || SplitsAt(value, if '\\' in value then '\\' else '/')
  }

  /** There are backslashes, one slash behind all of them, and something behind the slash. */
  predicate SlashBehindBackslash(value: string) {
    && '@' !in value && '\\' in value && '/' in value
    && IsBare(Tail(value, '/')) && Strip(Tail(value, '/')) != []
  }

  lemma DownLevelIff(value: string, c: char)
    requires '@' !in value && c in ['\\', '/']
    ensures DownLevel(value, c).Some? <==> SplitsAt(value, c)
  {
    if c in value {
      StripKeeps(Tail(value, c));
    }
  }

  /** Cut at a slash, the domain has a backslash if and only if the name has one. */
  lemma BackslashGoesToDomain(value: string)
    requires DownLevel(value, '/').Some?
    ensures '\\' in DownLevel(value, '/').value.domain.value <==> '\\' in value
  {
    var h, t := Head(value, '/'), Tail(value, '/');
    assert value == h + ['/'] + t;
    InJoin(h, '/', t, '\\');
    StripKeeps(h);
    StripKeeps(t);
  }

  /** A slash behind all backslashes stands in what follows the first of them. */
  lemma SlashSpoilsBackslash(value: string)
    requires '\\' in value && '/' in value && '\\' !in Tail(value, '/')
    ensures !SplitsAt(value, '\\')
  {
    var i, j := |Head(value, '\\')|, |Head(value, '/')|;
    assert i < j by {
      forall k | j < k < |value| ensures value[k] != '\\' {
        assert value[k] == Tail(value, '/')[k - j - 1];
      }
    }
    assert Tail(value, '\\')[j - i - 1] == '/';
  }

  /** The domain keeps a backslash exactly for a slash behind backslashes. */
  lemma KeptBackslashIff(raw: string, d: Option<string>)
    requires !HasDefault(d) && IsAcceptable(Strip(raw)) && '@' !in Strip(raw)
    ensures var a := SanitizeUsername(raw, d).auth;
            (a.domain.Some? && '\\' in a.domain.value) <==> SlashBehindBackslash(Strip(raw))
  {
    var value := Strip(raw);
    DownLevelIff(value, '\\');
    DownLevelIff(value, '/');
    if SplitsAt(value, '\\') {
      DownLevelShape(value, '\\');
      if SlashBehindBackslash(value) {
        SlashSpoilsBackslash(value);
      }
    } else if SplitsAt(value, '/') {
      BackslashGoesToDomain(value);
    } else if SlashBehindBackslash(value) {
      BackslashBefore(value);
    }
  }

  /** A backslash before the slash is something before the slash. */
  lemma BackslashBefore(value: string)
    requires SlashBehindBackslash(value)
    ensures SplitsAt(value, '/')
  {
    var h, t := Head(value, '/'), Tail(value, '/');
    assert value == h + ['/'] + t;
    InJoin(h, '/', t, '\\');
    StripKeeps(h);
  }

  /**
   Without a default domain the name for the mail server is settled after one round: sanitizing it again gives the same
   name, for every input that is accepted. The user and the domain are the same too, if and only if the input did not have
   a slash behind backslashes: its two parts are then no longer recognised.
   */
  lemma {:induction false} SettledWithoutDefault(raw: string, d: Option<string>)
    requires !HasDefault(d) && IsAcceptable(Strip(raw))
    ensures SanitizeUsername(raw, d).Accepted?
    ensures var a := SanitizeUsername(raw, d).auth;
            var again := SanitizeUsername(a.ews, d);
            && again.Accepted? && again.auth.ews == a.ews
            && (again.auth == a <==> !SlashBehindBackslash(Strip(raw)))
  {
    AcceptedIff(raw, d);
    SettledByResult(raw, d);
    var form := AcceptedForms(raw, d);
    if '@' !in Strip(raw) {
      KeptBackslashIff(raw, d);
      NoAtFromNoAt(raw, d);
    }
  }

  /** A name without '@' does not get one, unless the default domain brings it. */
  lemma NoAtFromNoAt(raw: string, d: Option<string>)
    requires IsAcceptable(Strip(raw)) && '@' !in Strip(raw) && (HasDefault(d) ==> '@' !in d.value)
    ensures SanitizeUsername(raw, d).Accepted? && '@' !in SanitizeUsername(raw, d).auth.ews
  {
    AcceptedIff(raw, d);
    var a := SanitizeUsername(raw, d).auth;
    var form := AcceptedForms(raw, d);
    if form.Joined? {
      InJoin(a.domain.value, '\\', a.username, '@');
    } else if HasDefault(d) {
      InJoin(d.value, '\\', Strip(raw), '@');
    }
  }

  /** What the result tells about stability, the input tells as well. */
  lemma StableByInput(raw: string, d: string)
    requires IsPlainDomain(d) && IsAcceptable(Strip(raw)) && '@' !in Strip(raw)
    ensures var a := SanitizeUsername(raw, Some(d)).auth;
            (a.domain.Some? && '\\' !in a.domain.value && IsBare(a.username)) <==> IsStable(Strip(raw))
  {
    var value := Strip(raw);
    DownLevelIff(value, '\\');
    DownLevelIff(value, '/');
    if SplitsAt(value, '\\') {
      DownLevelShape(value, '\\');
    } else if SplitsAt(value, '/') {
      DownLevelShape(value, '/');
      BackslashGoesToDomain(value);
    }
  }

  /**
   With a plain default domain, exactly which inputs are settled after one round: those with an '@', those without any
   separator, and those whose first backslash, or first slash if there is no backslash, is the only separator and has a
   part on either side. Then all three fields stay.
   */
  lemma {:induction false} SettledWithDefaultIff(raw: string, d: string)
    requires IsPlainDomain(d) && IsAcceptable(Strip(raw))
    ensures SanitizeUsername(raw, Some(d)).Accepted?
    ensures var a := SanitizeUsername(raw, Some(d)).auth;
            var again := SanitizeUsername(a.ews, Some(d));
            && again.Accepted?
            && (again.auth.ews == a.ews <==> IsStable(Strip(raw)))
            && (again.auth.ews == a.ews ==> again.auth == a)
  {
    AcceptedIff(raw, Some(d));
    SettledWithDefaultByResult(raw, d);
    var form := AcceptedForms(raw, Some(d));
    if '@' !in Strip(raw) {
      StableByInput(raw, d);
      NoAtFromNoAt(raw, Some(d));
    }
  }

  /** In particular a login name with none of the three characters is settled at once. */
  lemma PlainNamesSettle(raw: string, d: string)
    requires IsPlainDomain(d) && Strip(raw) != [] && '@' !in raw && IsBare(raw)
    ensures SanitizeUsername(raw, Some(d)) == Accepted(Plain(Strip(raw), Some(d)))
    ensures SanitizeUsername(d + ['\\'] + Strip(raw), Some(d)) == SanitizeUsername(raw, Some(d))
  {
    StripKeeps(raw);
    QualifiedTwice(Strip(raw), d);
  }

  /** A name that keeps a backslash does not settle: every round puts the default domain in front once more. */
  lemma DomainsPileUp(value: string, d: string)
    requires IsPlainDomain(d) && value != [] && IsTrimmed(value) && '@' !in value && '/' !in value && '\\' in value
    ensures SanitizeUsername(d + ['\\'] + value, Some(d))
            == Accepted(Plain(d + ['\\'] + value, Some(d)))
  {
    TrimmedJoin(d, '\\', value);
    StripTrimmed(d + ['\\'] + value);
    InJoin(d, '\\', value, '@');
    InJoin(d, '\\', value, '/');
    DownLevelOf(d, '\\', value);
    NoSlashNoSplit(d + ['\\'] + value);
  }

  /** Two backslashes are enough for that. */
  lemma {:induction false} TwoBackslashes(d: string)
    requires IsPlainDomain(d)
    ensures SanitizeUsername("a\\b\\c", Some(d)) == Accepted(Plain("a\\b\\c", Some(d)))
    ensures SanitizeUsername(d + ['\\'] + "a\\b\\c", Some(d)) == Accepted(Plain(d + ['\\'] + "a\\b\\c", Some(d)))
  {
    var value, rest := "a\\b\\c", "b\\c";
    assert value == "a" + ['\\'] + rest && rest[1] == '\\';
    StripTrimmed(value);
    DownLevelOf("a", '\\', rest);
    NoSlashNoSplit(value);
    DomainsPileUp(value, d);
  }
}
