/** Session tokens that slide forward while they are used. Times are nanoseconds since the
    start of 1970; a token carries whole seconds. */
module Sessions {
  import opened Strings
  import opened Wrappers

  const SECOND: nat := 1_000_000_000

  /** `Unix()`. */
  function Unix(t: nat): nat {
    t / SECOND
  }

  lemma UnixMonotone(s: nat, t: nat)
    requires s <= t
    ensures Unix(s) <= Unix(t)
  {
  }

  lemma UnixShift(t: nat, seconds: nat)
    ensures Unix(t + seconds * SECOND) == Unix(t) + seconds
  {
  }

  // ----- Claims -----

  datatype Value = Num(n: nat) | Text(s: string)
  type Claims = map<string, Value>

  const EXPIRES: string := "exp"
  const NOT_BEFORE: string := "nbf"
  const CSRF: string := "csrf"
  const USER: string := "uid"
  const GROUPS: string := "grp"
  const ISSUED_AT: string := "iat"

  /** A claim that holds a number of seconds; 0 where there is none. */
  function Seconds(claims: Claims, name: string): nat {
    if name in claims && claims[name].Num? then claims[name].n else 0
  }

  /** The check of the claims when a token is parsed; a claim of 0 is as good as none. */
  predicate ValidAt(claims: Claims, now: nat) {
    && (Seconds(claims, EXPIRES) == 0 || now <= Seconds(claims, EXPIRES))
    && (Seconds(claims, ISSUED_AT) == 0 || now >= Seconds(claims, ISSUED_AT))
    && (Seconds(claims, NOT_BEFORE) == 0 || now >= Seconds(claims, NOT_BEFORE))
  }

  /** The claims that `NewSessionToken` starts from. */
  function Fresh(user: string, groups: seq<string>, notBefore: nat, expires: nat, csrf: string): Claims {
    map[NOT_BEFORE := Num(notBefore), EXPIRES := Num(expires), CSRF := Text(csrf), USER := Text(user),
        GROUPS := Text(if groups == [] then "" else Join(groups, ','))]
  }

  /** Additional claims replace those of the same name, except the two times. */
  function WithAdditional(claims: Claims, additional: Claims): Claims {
    claims + (additional - {EXPIRES, NOT_BEFORE})
  }

  /** The times at which `NewSessionToken` reads the clock. */
  datatype Issue = Issue(notBeforeAt: nat, expiresAt: nat, csrf: string)

  /** What a manager is set up with. */
  datatype Setup = Setup(timeout: nat, authenticatedGroups: seq<string>)

  function Issued(setup: Setup, user: string, groups: seq<string>, additional: Claims, issue: Issue): Claims {
    WithAdditional(
      Fresh(user, groups + setup.authenticatedGroups, Unix(issue.notBeforeAt),
            Unix(issue.expiresAt + setup.timeout), issue.csrf),
      additional)
  }

  /** The loop over the additional claims, in whatever order the map yields them. */
  method NewSessionToken(setup: Setup, user: string, groups: seq<string>, additional: Claims, issue: Issue)
    returns (claims: Claims)
    ensures claims == Issued(setup, user, groups, additional, issue)
  {
    var all := groups + setup.authenticatedGroups;
    claims := Fresh(user, all, Unix(issue.notBeforeAt), Unix(issue.expiresAt + setup.timeout), issue.csrf);
    claims := CopyClaims(claims, additional);
  }

  method CopyClaims(start: Claims, additional: Claims) returns (claims: Claims)
    ensures claims == WithAdditional(start, additional)
  {
    claims := AddEntries(start, additional, {EXPIRES, NOT_BEFORE});
  }

  predicate Copied<K(==), V>(additional: map<K, V>, without: set<K>, k: K) {
    k in additional && k !in without
  }

  /** All but the keys of `without` have been copied over those at the start. */
  ghost predicate CopiedBut<K(!new), V>(entries: map<K, V>, start: map<K, V>, additional: map<K, V>, without: set<K>) {
    && (forall k :: k in entries <==> k in start || Copied(additional, without, k))
    && (forall k :: k in entries ==> entries[k] == if Copied(additional, without, k) then additional[k] else start[k])
  }

  lemma CopiedButIsSum<K(!new), V>(entries: map<K, V>, start: map<K, V>, additional: map<K, V>, without: set<K>)
    requires CopiedBut(entries, start, additional, without)
    ensures entries == start + (additional - without)
  {
  }

  lemma CopyOne<K(!new), V>(
    entries: map<K, V>, start: map<K, V>, additional: map<K, V>, except: set<K>, rest: set<K>, k: K)
    requires CopiedBut(entries, start, additional, except + rest) && k in rest && k in additional
    ensures CopiedBut(if k in except then entries else entries[k := additional[k]],
                      start, additional, except + (rest - {k}))
  {
    if k in except {
      assert except + (rest - {k}) == except + rest;
    } else {
      assert except + (rest - {k}) == except + rest - {k};
    }
  }

  method AddEntries<K(==, !new), V>(start: map<K, V>, additional: map<K, V>, except: set<K>)
    returns (entries: map<K, V>)
    ensures entries == start + (additional - except)
  {
    entries := start;
    var rest := additional.Keys;
    while rest != {}
      invariant rest <= additional.Keys
      invariant CopiedBut(entries, start, additional, except + rest)
      decreases |rest|
    {
      var k :| k in rest;
      CopyOne(entries, start, additional, except, rest, k);
      if k !in except {
        entries := entries[k := additional[k]];
      }
      rest := rest - {k};
    }
    CopiedButIsSum(entries, start, additional, except + rest);
    assert except + rest == except;
  }

  // ----- One request -----

  /** The times at which a request reads the clock: when the token is parsed, when its age
      is checked, and, if it is renewed, when the new one is issued. */
  datatype Reading = Reading(parsedAt: nat, checkedAt: nat, issue: Issue)

  /** What every token carries. */
  predicate WellFormed(claims: Claims) {
    && USER in claims && claims[USER].Text?
    && GROUPS in claims && claims[GROUPS].Text?
    && EXPIRES in claims && claims[EXPIRES].Num?
    && NOT_BEFORE in claims && claims[NOT_BEFORE].Num?
    && ISSUED_AT !in claims
  }

  function UserOf(claims: Claims): string
    requires WellFormed(claims)
  {
    claims[USER].s
  }

  function GroupsOf(claims: Claims): seq<string>
    requires WellFormed(claims)
  {
    Split(claims[GROUPS].s, ',')
  }

  /** Half the timeout, in whole seconds. */
  function Half(setup: Setup): nat {
    setup.timeout / (2 * SECOND)
  }

  predicate Served(claims: Claims, r: Reading) {
    ValidAt(claims, Unix(r.parsedAt))
  }

  predicate Due(setup: Setup, claims: Claims, r: Reading) {
    Seconds(claims, EXPIRES) < Unix(r.checkedAt) + Half(setup)
  }

  /** The token that the client holds after a request. */
  function Step(setup: Setup, claims: Claims, r: Reading): Claims
    requires WellFormed(claims)
  {
    if Served(claims, r) && Due(setup, claims, r) then Issued(setup, UserOf(claims), [], claims, r.issue) else claims
  }

  lemma NamesDiffer()
    ensures EXPIRES != NOT_BEFORE && EXPIRES != CSRF && EXPIRES != USER && EXPIRES != GROUPS && EXPIRES != ISSUED_AT
    ensures NOT_BEFORE != CSRF && NOT_BEFORE != USER && NOT_BEFORE != GROUPS && NOT_BEFORE != ISSUED_AT
    ensures CSRF != USER && CSRF != GROUPS && USER != GROUPS
    ensures ISSUED_AT != CSRF && ISSUED_AT != USER && ISSUED_AT != GROUPS
  {
    assert EXPIRES[0] == 'e' && NOT_BEFORE[0] == 'n' && CSRF[0] == 'c' && USER[0] == 'u' && GROUPS[0] == 'g'
        && ISSUED_AT[0] == 'i';
  }

  /** What a token says about its two times, and what it keeps. */
  lemma IssuedClaims(setup: Setup, user: string, groups: seq<string>, additional: Claims, issue: Issue)
    ensures var claims := Issued(setup, user, groups, additional, issue);
            && Seconds(claims, EXPIRES) == Unix(issue.expiresAt + setup.timeout)
            && Seconds(claims, NOT_BEFORE) == Unix(issue.notBeforeAt)
            && EXPIRES in claims && claims[EXPIRES].Num? && NOT_BEFORE in claims && claims[NOT_BEFORE].Num?
            && (forall name :: name in additional && name != EXPIRES && name != NOT_BEFORE ==>
                  name in claims && claims[name] == additional[name])
            && (forall name :: name in claims ==>
                  name in additional || name in {NOT_BEFORE, EXPIRES, CSRF, USER, GROUPS})
  {
    NamesDiffer();
  }

  /** A token as it is written: the claims by the names they have in it. */
  lemma FreshMeans(setup: Setup, user: string, groups: seq<string>, issue: Issue)
    ensures var claims := Issued(setup, user, groups, map[], issue);
            && claims.Keys == {"nbf", "exp", "csrf", "uid", "grp"}
            && claims["nbf"] == Num(issue.notBeforeAt / 1_000_000_000)
            && claims["exp"] == Num((issue.expiresAt + setup.timeout) / 1_000_000_000)
            && claims["csrf"] == Text(issue.csrf) && claims["uid"] == Text(user)
            && (groups + setup.authenticatedGroups != [] ==>
                  claims["grp"] == Text(Join(groups + setup.authenticatedGroups, ',')))
  {
    NamesDiffer();
  }

  /** A claim of this name holds a number other than 0. */
  predicate Holds(claims: Claims, name: string) {
    name in claims && claims[name].Num? && claims[name].n != 0
  }

  /** A token is accepted up to the second in which it expires, and from those on in which
      it is issued and becomes valid (sections 4.1.4 to 4.1.6 of RFC 7519). */
  lemma ValidMeans(claims: Claims, now: nat)
    ensures ValidAt(claims, now)
            <==> (Holds(claims, "exp") ==> now <= claims["exp"].n) && (Holds(claims, "iat") ==> claims["iat"].n <= now)
                 && (Holds(claims, "nbf") ==> claims["nbf"].n <= now)
  {
  }

  /** Two tokens that differ in their times alone. */
  ghost predicate SameExceptTimes(a: Claims, b: Claims) {
    && a.Keys == b.Keys
    && forall name :: name in a && name != EXPIRES && name != NOT_BEFORE ==> a[name] == b[name]
  }

  /** Renewing a token keeps everything but the two times. */
  lemma RenewalKeeps(setup: Setup, claims: Claims, issue: Issue)
    requires WellFormed(claims)
    ensures var renewed := Issued(setup, UserOf(claims), [], claims, issue);
            && Seconds(renewed, EXPIRES) == Unix(issue.expiresAt + setup.timeout)
            && (CSRF in claims ==> SameExceptTimes(claims, renewed) && WellFormed(renewed))
  {
    NamesDiffer();
    var renewed := Issued(setup, UserOf(claims), [], claims, issue);
    IssuedClaims(setup, UserOf(claims), [], claims, issue);
    if CSRF in claims {
      assert forall name :: name in renewed ==> name in claims;
      assert forall name :: name in claims ==> name in renewed;
    }
  }

  lemma StepKeeps(setup: Setup, claims: Claims, r: Reading)
    requires WellFormed(claims) && CSRF in claims
    ensures SameExceptTimes(claims, Step(setup, claims, r))
    ensures WellFormed(Step(setup, claims, r)) && CSRF in Step(setup, claims, r)
  {
    RenewalKeeps(setup, claims, r.issue);
  }

  method KeepSessionAlive(setup: Setup, session: Claims, r: Reading) returns (cookie: Option<Claims>)
    requires WellFormed(session)
    ensures cookie.Some? <==> Due(setup, session, r)
    ensures cookie.Some? ==> cookie.value == Issued(setup, UserOf(session), [], session, r.issue)
    ensures cookie.Some? ==> Seconds(cookie.value, EXPIRES) == Unix(r.issue.expiresAt + setup.timeout)
    ensures cookie.Some? && CSRF in session ==> SameExceptTimes(session, cookie.value) && WellFormed(cookie.value)
  {
    cookie := None;
    if Seconds(session, EXPIRES) < Unix(r.checkedAt) + setup.timeout / (2 * SECOND) {
      var renewed := NewSessionToken(setup, UserOf(session), [], session, r.issue);
      RenewalKeeps(setup, session, r.issue);
      cookie := Some(renewed);
    }
  }

  /** A client that sends the latest token it was given. */
  class Client {
    var cookie: Claims

    constructor (login: Claims)
      ensures cookie == login
    {
      cookie := login;
    }

    /** `NewAuthDelegate`: unauthorized, or the session is kept alive and the request served. */
    method Request(setup: Setup, r: Reading) returns (served: bool)
      requires WellFormed(cookie)
      modifies this
      ensures served == Served(old(cookie), r)
      ensures cookie == Step(setup, old(cookie), r)
    {
      served := ValidAt(cookie, Unix(r.parsedAt));
      if served {
        var renewed := KeepSessionAlive(setup, cookie, r);
        if renewed.Some? {
          cookie := renewed.value;
        }
      }
    }
  }

  // ----- Runs -----

  datatype Login = Login(user: string, groups: seq<string>, additional: Claims, issue: Issue)

  /** The claims that authenticators add are not the session's own. */
  predicate Plain(login: Login) {
    ISSUED_AT !in login.additional && USER !in login.additional && GROUPS !in login.additional
  }

  function LoginClaims(setup: Setup, login: Login): (claims: Claims)
  {
    Issued(setup, login.user, login.groups, login.additional, login.issue)
  }

  lemma LoginIsWellFormed(setup: Setup, login: Login)
    requires Plain(login)
    ensures WellFormed(LoginClaims(setup, login)) && CSRF in LoginClaims(setup, login)
  {
    NamesDiffer();
    IssuedClaims(setup, login.user, login.groups, login.additional, login.issue);
  }

  /** The token that the client holds after some requests. */
  ghost function After(setup: Setup, login: Login, rs: seq<Reading>): (claims: Claims)
    requires Plain(login)
    ensures WellFormed(claims) && CSRF in claims
  {
    if rs == [] then
      LoginIsWellFormed(setup, login);
      LoginClaims(setup, login)
    else
      var before := After(setup, login, rs[..|rs| - 1]);
      StepKeeps(setup, before, rs[|rs| - 1]);
      Step(setup, before, rs[|rs| - 1])
  }

  ghost predicate ServedAt(setup: Setup, login: Login, rs: seq<Reading>, k: nat)
    requires Plain(login) && k < |rs|
  {
    Served(After(setup, login, rs[..k]), rs[k])
  }

  /** The clock never runs backwards. */
  predicate InOrder(login: Login, rs: seq<Reading>) {
    && login.issue.notBeforeAt <= login.issue.expiresAt
    && forall k :: 0 <= k < |rs| ==>
         && PreviousEnd(login, rs, k) <= rs[k].parsedAt <= rs[k].checkedAt
         && rs[k].checkedAt <= rs[k].issue.notBeforeAt <= rs[k].issue.expiresAt
  }

  /** The last reading of the clock before request k. */
  function PreviousEnd(login: Login, rs: seq<Reading>, k: nat): nat
    requires k <= |rs|
  {
    if k == 0 then login.issue.expiresAt else rs[k - 1].issue.expiresAt
  }

  /** When the age of the token was last looked at before request k. */
  function PreviousCheck(login: Login, rs: seq<Reading>, k: nat): nat
    requires k <= |rs|
  {
    if k == 0 then login.issue.expiresAt else rs[k - 1].checkedAt
  }

  /** When the token that the client holds was issued. */
  ghost function IssuedAt(setup: Setup, login: Login, rs: seq<Reading>): nat
    requires Plain(login)
  {
    if rs == [] then login.issue.expiresAt
    else
      var before, r := rs[..|rs| - 1], rs[|rs| - 1];
      var claims := After(setup, login, before);
      if Served(claims, r) && Due(setup, claims, r) then r.issue.expiresAt else IssuedAt(setup, login, before)
  }

  lemma ShorterInOrder(login: Login, rs: seq<Reading>)
    requires rs != [] && InOrder(login, rs)
    ensures InOrder(login, rs[..|rs| - 1])
    ensures PreviousEnd(login, rs, |rs| - 1) == PreviousEnd(login, rs[..|rs| - 1], |rs| - 1)
    ensures PreviousEnd(login, rs, |rs| - 1) <= PreviousEnd(login, rs, |rs|)
  {
    var before, last := rs[..|rs| - 1], |rs| - 1;
    forall k | 0 <= k <= last ensures PreviousEnd(login, before, k) == PreviousEnd(login, rs, k) {
    }
    assert PreviousEnd(login, rs, last) <= rs[last].parsedAt;
  }

  /** The times in a token are those of its issue, which lies in the past. */
  ghost predicate Times(setup: Setup, claims: Claims, issuedAt: nat, now: nat) {
    && Seconds(claims, EXPIRES) == Unix(issuedAt + setup.timeout)
    && Seconds(claims, NOT_BEFORE) <= Unix(now)
    && issuedAt <= now
  }

  predicate ReadingInOrder(now: nat, r: Reading) {
    now <= r.parsedAt <= r.checkedAt <= r.issue.notBeforeAt <= r.issue.expiresAt
  }

  lemma StepTimes(setup: Setup, claims: Claims, issuedAt: nat, now: nat, r: Reading)
    requires WellFormed(claims) && Times(setup, claims, issuedAt, now) && ReadingInOrder(now, r)
    ensures Times(setup, Step(setup, claims, r),
                  if Served(claims, r) && Due(setup, claims, r) then r.issue.expiresAt else issuedAt,
                  r.issue.expiresAt)
  {
    if Served(claims, r) && Due(setup, claims, r) {
      IssuedClaims(setup, UserOf(claims), [], claims, r.issue);
      UnixMonotone(r.issue.notBeforeAt, r.issue.expiresAt);
    } else {
      UnixMonotone(now, r.issue.expiresAt);
    }
  }

  lemma {:induction false} TokenTimes(setup: Setup, login: Login, rs: seq<Reading>)
    requires Plain(login) && InOrder(login, rs)
    ensures Times(setup, After(setup, login, rs), IssuedAt(setup, login, rs), PreviousEnd(login, rs, |rs|))
  {
    if rs == [] {
      IssuedClaims(setup, login.user, login.groups, login.additional, login.issue);
      UnixMonotone(login.issue.notBeforeAt, login.issue.expiresAt);
    } else {
      var last := |rs| - 1;
      ShorterInOrder(login, rs);
      TokenTimes(setup, login, rs[..last]);
      StepTimes(setup, After(setup, login, rs[..last]), IssuedAt(setup, login, rs[..last]),
                PreviousEnd(login, rs, last), rs[last]);
    }
  }

  lemma PrefixInOrder(login: Login, rs: seq<Reading>, k: nat)
    requires InOrder(login, rs) && k <= |rs|
    ensures InOrder(login, rs[..k])
    ensures PreviousEnd(login, rs[..k], k) == PreviousEnd(login, rs, k)
  {
    forall j | 0 <= j <= k ensures PreviousEnd(login, rs[..k], j) == PreviousEnd(login, rs, j) {
    }
  }

  /** The token of request k, as it is parsed. */
  lemma TokenAt(setup: Setup, login: Login, rs: seq<Reading>, k: nat)
    requires Plain(login) && InOrder(login, rs) && k < |rs|
    ensures Times(setup, After(setup, login, rs[..k]), IssuedAt(setup, login, rs[..k]), PreviousEnd(login, rs, k))
    ensures login.issue.expiresAt <= IssuedAt(setup, login, rs[..k])
    ensures PreviousEnd(login, rs, k) <= rs[k].parsedAt
  {
    PrefixInOrder(login, rs, k);
    TokenTimes(setup, login, rs[..k]);
    IssuedAfterLogin(setup, login, rs[..k]);
  }

  lemma {:induction false} IssuedAfterLogin(setup: Setup, login: Login, rs: seq<Reading>)
    requires Plain(login) && InOrder(login, rs)
    ensures login.issue.expiresAt <= IssuedAt(setup, login, rs) && login.issue.expiresAt <= PreviousEnd(login, rs, |rs|)
  {
    if rs == [] {
    } else {
      ShorterInOrder(login, rs);
      IssuedAfterLogin(setup, login, rs[..|rs| - 1]);
    }
  }

  // ----- Rejection -----

  /** The second of `t` lies behind the one in which a token issued then expires. */
  predicate Late(setup: Setup, issuedAt: nat, t: nat) {
    Unix(t) > Unix(issuedAt + setup.timeout)
  }

  lemma RejectedIfLate(setup: Setup, claims: Claims, issuedAt: nat, now: nat, r: Reading)
    requires WellFormed(claims) && Times(setup, claims, issuedAt, now)
    requires now <= r.parsedAt && issuedAt >= SECOND
    ensures !Served(claims, r) <==> Late(setup, issuedAt, r.parsedAt)
  {
    UnixMonotone(SECOND, issuedAt + setup.timeout);
    UnixMonotone(now, r.parsedAt);
    assert Seconds(claims, ISSUED_AT) == 0;
  }

  /** A request is rejected exactly when its second lies behind that of the last issue plus
      the timeout. */
  lemma RejectedExactly(setup: Setup, login: Login, rs: seq<Reading>, k: nat)
    requires Plain(login) && InOrder(login, rs) && k < |rs|
    requires login.issue.expiresAt >= SECOND
    ensures !ServedAt(setup, login, rs, k) <==> Late(setup, IssuedAt(setup, login, rs[..k]), rs[k].parsedAt)
  {
    TokenAt(setup, login, rs, k);
    RejectedIfLate(setup, After(setup, login, rs[..k]), IssuedAt(setup, login, rs[..k]),
                   PreviousEnd(login, rs, k), rs[k]);
  }

  /** A session left alone for the timeout and another second is always rejected. */
  lemma IdleIsRejected(setup: Setup, login: Login, rs: seq<Reading>, k: nat)
    requires Plain(login) && InOrder(login, rs) && k < |rs|
    requires login.issue.expiresAt >= SECOND
    requires rs[k].parsedAt >= PreviousEnd(login, rs, k) + setup.timeout + SECOND
    ensures !ServedAt(setup, login, rs, k)
  {
    var issuedAt := IssuedAt(setup, login, rs[..k]);
    TokenAt(setup, login, rs, k);
    RejectedExactly(setup, login, rs, k);
    UnixMonotone(issuedAt + setup.timeout + SECOND, rs[k].parsedAt);
    UnixShift(issuedAt + setup.timeout, 1);
  }

  /** The nanosecond `t` is the last one of its second. */
  predicate EndsSecond(t: nat) {
    (t + 1) % SECOND == 0
  }

  lemma LateAtOnce(setup: Setup, issuedAt: nat)
    ensures EndsSecond(issuedAt + setup.timeout)
            ==> forall t: nat :: t > issuedAt + setup.timeout ==> Late(setup, issuedAt, t)
    ensures !EndsSecond(issuedAt + setup.timeout) ==> !Late(setup, issuedAt, issuedAt + setup.timeout + 1)
  {
    var end := issuedAt + setup.timeout;
    if EndsSecond(end) {
      forall t: nat | t > end ensures Late(setup, issuedAt, t) {
        UnixMonotone(end + 1, t);
      }
    } else {
      assert Unix(end + 1) == Unix(end);
    }
  }

  /** The run goes on with a request. */
  ghost predicate NextRejected(setup: Setup, login: Login, rs: seq<Reading>, r: Reading)
    requires Plain(login)
  {
    !ServedAt(setup, login, rs + [r], |rs|)
  }

  ghost predicate NextAfter(login: Login, rs: seq<Reading>, end: nat, r: Reading) {
    InOrder(login, rs + [r]) && r.parsedAt > end
  }

  lemma NextRejectedIfLate(setup: Setup, login: Login, rs: seq<Reading>, r: Reading)
    requires Plain(login) && InOrder(login, rs + [r]) && login.issue.expiresAt >= SECOND
    ensures NextRejected(setup, login, rs, r) <==> Late(setup, IssuedAt(setup, login, rs), r.parsedAt)
  {
    assert (rs + [r])[..|rs|] == rs;
    RejectedExactly(setup, login, rs + [r], |rs|);
  }

  lemma ExtendInOrder(login: Login, rs: seq<Reading>, t: nat) returns (r: Reading)
    requires InOrder(login, rs) && PreviousEnd(login, rs, |rs|) <= t
    ensures InOrder(login, rs + [r]) && r.parsedAt == t
  {
    r := Reading(t, t, Issue(t, t, ""));
    forall k | 0 <= k <= |rs| ensures PreviousEnd(login, rs + [r], k) == PreviousEnd(login, rs, k) {
    }
  }

  /** The token that the client holds after some requests times out at `end`. */
  ghost predicate TimesOutAt(setup: Setup, login: Login, rs: seq<Reading>, end: nat)
    requires Plain(login)
  {
    end == IssuedAt(setup, login, rs) + setup.timeout
  }

  /** Whatever request comes next, it is rejected if it comes after `end`. */
  ghost predicate RejectedAfter(setup: Setup, login: Login, rs: seq<Reading>, end: nat)
    requires Plain(login)
  {
    forall r :: NextAfter(login, rs, end, r) ==> NextRejected(setup, login, rs, r)
  }

  lemma NextIfLate(setup: Setup, login: Login, rs: seq<Reading>, issuedAt: nat, r: Reading)
    requires Plain(login) && login.issue.expiresAt >= SECOND
    requires NextAfter(login, rs, issuedAt + setup.timeout, r)
    requires TimesOutAt(setup, login, rs, issuedAt + setup.timeout)
    ensures NextRejected(setup, login, rs, r) <==> Late(setup, issuedAt, r.parsedAt)
  {
    NextRejectedIfLate(setup, login, rs, r);
  }

  lemma NextServed(setup: Setup, login: Login, rs: seq<Reading>, issuedAt: nat) returns (r: Reading)
    requires Plain(login) && InOrder(login, rs) && login.issue.expiresAt >= SECOND
    requires TimesOutAt(setup, login, rs, issuedAt + setup.timeout)
    requires PreviousEnd(login, rs, |rs|) <= issuedAt + setup.timeout
    requires !EndsSecond(issuedAt + setup.timeout)
    ensures NextAfter(login, rs, issuedAt + setup.timeout, r) && !NextRejected(setup, login, rs, r)
  {
    LateAtOnce(setup, issuedAt);
    r := ExtendInOrder(login, rs, issuedAt + setup.timeout + 1);
    NextIfLate(setup, login, rs, issuedAt, r);
  }

  lemma RejectedAtOnce(setup: Setup, login: Login, rs: seq<Reading>, issuedAt: nat)
    requires Plain(login) && login.issue.expiresAt >= SECOND
    requires TimesOutAt(setup, login, rs, issuedAt + setup.timeout) && EndsSecond(issuedAt + setup.timeout)
    ensures RejectedAfter(setup, login, rs, issuedAt + setup.timeout)
  {
    LateAtOnce(setup, issuedAt);
    forall r | NextAfter(login, rs, issuedAt + setup.timeout, r) ensures NextRejected(setup, login, rs, r) {
      NextIfLate(setup, login, rs, issuedAt, r);
    }
  }

  /** At any point of any run at which the timeout has not passed: every request that comes
      after it has passed is rejected if and only if it ends with a second. */
  lemma IdleIsRejectedAtOnce(setup: Setup, login: Login, rs: seq<Reading>, end: nat)
    requires Plain(login) && InOrder(login, rs) && login.issue.expiresAt >= SECOND
    requires TimesOutAt(setup, login, rs, end) && PreviousEnd(login, rs, |rs|) <= end
    ensures RejectedAfter(setup, login, rs, end) <==> EndsSecond(end)
  {
    if EndsSecond(end) {
      RejectedAtOnce(setup, login, rs, IssuedAt(setup, login, rs));
    } else {
      var r := NextServed(setup, login, rs, IssuedAt(setup, login, rs));
    }
  }

  /** Ten seconds and a nanosecond after the login, a session of ten seconds is served. */
  lemma IdleWithinTheSecondIsServed() returns (setup: Setup, login: Login, r: Reading)
    ensures Plain(login) && InOrder(login, [r])
    ensures r.parsedAt == login.issue.expiresAt + setup.timeout + 1
    ensures ServedAt(setup, login, [r], 0)
  {
    setup := Setup(10 * SECOND, []);
    login := Login("user", [], map[], Issue(SECOND, SECOND, ""));
    var t := SECOND + setup.timeout + 1;
    r := Reading(t, t, Issue(t, t, ""));
    RejectedExactly(setup, login, [r], 0);
    assert [r][..0] == [];
  }

  lemma RejectionKeeps(setup: Setup, login: Login, rs: seq<Reading>, k: nat)
    requires Plain(login) && k < |rs| && !ServedAt(setup, login, rs, k)
    ensures After(setup, login, rs[..k + 1]) == After(setup, login, rs[..k])
    ensures IssuedAt(setup, login, rs[..k + 1]) == IssuedAt(setup, login, rs[..k])
  {
    assert rs[..k + 1][..k] == rs[..k];
  }

  lemma StaysLate(setup: Setup, issuedAt: nat, t: nat, later: nat)
    requires t <= later && Late(setup, issuedAt, t)
    ensures Late(setup, issuedAt, later)
  {
    UnixMonotone(t, later);
  }

  lemma RejectedNext(setup: Setup, login: Login, rs: seq<Reading>, k: nat)
    requires Plain(login) && InOrder(login, rs) && k + 1 < |rs|
    requires login.issue.expiresAt >= SECOND
    requires !ServedAt(setup, login, rs, k)
    ensures !ServedAt(setup, login, rs, k + 1) && After(setup, login, rs[..k + 1]) == After(setup, login, rs[..k])
  {
    RejectionKeeps(setup, login, rs, k);
    RejectedExactly(setup, login, rs, k);
    NextIsLater(login, rs, k);
    StaysLate(setup, IssuedAt(setup, login, rs[..k]), rs[k].parsedAt, rs[k + 1].parsedAt);
    RejectedExactly(setup, login, rs, k + 1);
  }

  lemma NextIsLater(login: Login, rs: seq<Reading>, k: nat)
    requires InOrder(login, rs) && k + 1 < |rs|
    ensures rs[k].parsedAt <= rs[k + 1].parsedAt
  {
    assert PreviousEnd(login, rs, k + 1) == rs[k].issue.expiresAt;
  }

  /** What is rejected once stays rejected, and the token is never replaced. */
  lemma {:induction false} RejectedForGood(setup: Setup, login: Login, rs: seq<Reading>, k: nat, j: nat)
    requires Plain(login) && InOrder(login, rs) && k <= j < |rs|
    requires login.issue.expiresAt >= SECOND
    requires !ServedAt(setup, login, rs, k)
    ensures !ServedAt(setup, login, rs, j) && After(setup, login, rs[..j]) == After(setup, login, rs[..k])
    decreases j
  {
    if k == j {
    } else {
      RejectedForGood(setup, login, rs, k, j - 1);
      RejectedNext(setup, login, rs, j - 1);
      assert rs[..j - 1 + 1] == rs[..j];
    }
  }

  // ----- Service -----

  /** After a request, a token is good for half the timeout. */
  ghost predicate GoodFor(setup: Setup, claims: Claims, checkedAt: nat) {
    Seconds(claims, EXPIRES) >= Unix(checkedAt) + Half(setup)
  }

  lemma StepIsGood(setup: Setup, claims: Claims, r: Reading)
    requires WellFormed(claims) && Served(claims, r) && r.checkedAt <= r.issue.expiresAt
    ensures GoodFor(setup, Step(setup, claims, r), r.checkedAt)
  {
    if Due(setup, claims, r) {
      IssuedClaims(setup, UserOf(claims), [], claims, r.issue);
      HalfFits(setup, r.checkedAt, r.issue.expiresAt);
    }
  }

  lemma HalfFits(setup: Setup, checkedAt: nat, expiresAt: nat)
    requires checkedAt <= expiresAt
    ensures Unix(expiresAt + setup.timeout) >= Unix(checkedAt) + Half(setup)
  {
    UnixShift(checkedAt, Half(setup));
    UnixMonotone(checkedAt + Half(setup) * SECOND, expiresAt + setup.timeout);
  }

  lemma GoodIsServed(setup: Setup, claims: Claims, issuedAt: nat, now: nat, checkedAt: nat, r: Reading)
    requires WellFormed(claims) && Times(setup, claims, issuedAt, now) && GoodFor(setup, claims, checkedAt)
    requires now <= r.parsedAt <= checkedAt + Half(setup) * SECOND
    ensures Served(claims, r)
  {
    UnixMonotone(r.parsedAt, checkedAt + Half(setup) * SECOND);
    UnixShift(checkedAt, Half(setup));
    UnixMonotone(now, r.parsedAt);
  }

  /** No request comes later than half the timeout after the check before it. */
  predicate Active(setup: Setup, login: Login, rs: seq<Reading>) {
    forall k :: 0 <= k < |rs| ==> rs[k].parsedAt <= PreviousCheck(login, rs, k) + Half(setup) * SECOND
  }

  lemma LoginIsGood(setup: Setup, login: Login)
    requires Plain(login)
    ensures GoodFor(setup, After(setup, login, []), login.issue.expiresAt)
  {
    IssuedClaims(setup, login.user, login.groups, login.additional, login.issue);
    HalfFits(setup, login.issue.expiresAt, login.issue.expiresAt);
  }

  lemma NextIsGood(setup: Setup, login: Login, rs: seq<Reading>, k: nat)
    requires Plain(login) && InOrder(login, rs) && k < |rs| && ServedAt(setup, login, rs, k)
    ensures GoodFor(setup, After(setup, login, rs[..k + 1]), rs[k].checkedAt)
  {
    assert rs[..k + 1][..k] == rs[..k];
    StepIsGood(setup, After(setup, login, rs[..k]), rs[k]);
  }

  lemma GoodIsServedAt(setup: Setup, login: Login, rs: seq<Reading>, k: nat)
    requires Plain(login) && InOrder(login, rs) && Active(setup, login, rs) && k < |rs|
    requires GoodFor(setup, After(setup, login, rs[..k]), PreviousCheck(login, rs, k))
    ensures ServedAt(setup, login, rs, k)
  {
    TokenAt(setup, login, rs, k);
    GoodIsServed(setup, After(setup, login, rs[..k]), IssuedAt(setup, login, rs[..k]),
                 PreviousEnd(login, rs, k), PreviousCheck(login, rs, k), rs[k]);
  }

  /** A session in use is never rejected. */
  lemma {:induction false} ActiveIsServed(setup: Setup, login: Login, rs: seq<Reading>, k: nat)
    requires Plain(login) && InOrder(login, rs) && Active(setup, login, rs) && k < |rs|
    ensures ServedAt(setup, login, rs, k)
    decreases k
  {
    if k == 0 {
      LoginIsGood(setup, login);
      assert rs[..k] == [];
    } else {
      ActiveIsServed(setup, login, rs, k - 1);
      NextIsGood(setup, login, rs, k - 1);
    }
    GoodIsServedAt(setup, login, rs, k);
  }

  // ----- When a token is renewed -----

  /** Half the timeout, rounded down to a second. */
  lemma HalfMeans(setup: Setup)
    ensures 2 * Half(setup) * SECOND <= setup.timeout < 2 * (Half(setup) + 1) * SECOND
  {
  }

  lemma DueIff(setup: Setup, claims: Claims, issuedAt: nat, now: nat, r: Reading)
    requires Times(setup, claims, issuedAt, now)
    ensures Due(setup, claims, r) <==> Unix(issuedAt + setup.timeout) < Unix(r.checkedAt) + Half(setup)
  {
  }

  lemma EarlyIsNotDue(setup: Setup, issuedAt: nat, checkedAt: nat)
    requires 2 * checkedAt <= 2 * issuedAt + setup.timeout
    ensures Unix(issuedAt + setup.timeout) >= Unix(checkedAt) + Half(setup)
  {
    HalfMeans(setup);
    UnixShift(checkedAt, Half(setup));
    UnixMonotone(checkedAt + Half(setup) * SECOND, issuedAt + setup.timeout);
  }

  lemma LateIsDue(setup: Setup, issuedAt: nat, checkedAt: nat)
    requires 2 * checkedAt >= 2 * issuedAt + setup.timeout + 4 * SECOND
    ensures Unix(issuedAt + setup.timeout) < Unix(checkedAt) + Half(setup)
  {
    HalfMeans(setup);
    UnixShift(checkedAt, Half(setup));
    UnixShift(issuedAt + setup.timeout, 1);
    UnixMonotone(issuedAt + setup.timeout + SECOND, checkedAt + Half(setup) * SECOND);
  }

  /** Whether request k finds a token due for renewal. */
  ghost predicate DueAt(setup: Setup, login: Login, rs: seq<Reading>, k: nat)
    requires Plain(login) && k < |rs|
  {
    Due(setup, After(setup, login, rs[..k]), rs[k])
  }

  lemma DueAtIff(setup: Setup, login: Login, rs: seq<Reading>, k: nat)
    requires Plain(login) && InOrder(login, rs) && k < |rs|
    ensures DueAt(setup, login, rs, k)
            <==> Unix(IssuedAt(setup, login, rs[..k]) + setup.timeout) < Unix(rs[k].checkedAt) + Half(setup)
  {
    TokenAt(setup, login, rs, k);
    DueIff(setup, After(setup, login, rs[..k]), IssuedAt(setup, login, rs[..k]), PreviousEnd(login, rs, k), rs[k]);
  }

  lemma NotDueKeeps(setup: Setup, login: Login, rs: seq<Reading>, k: nat)
    requires Plain(login) && k < |rs| && !DueAt(setup, login, rs, k)
    ensures After(setup, login, rs[..k + 1]) == After(setup, login, rs[..k])
  {
    assert rs[..k + 1][..k] == rs[..k];
  }

  lemma DueRenews(setup: Setup, login: Login, rs: seq<Reading>, k: nat)
    requires Plain(login) && k < |rs| && DueAt(setup, login, rs, k) && ServedAt(setup, login, rs, k)
    ensures IssuedAt(setup, login, rs[..k + 1]) == rs[k].issue.expiresAt
    ensures Seconds(After(setup, login, rs[..k + 1]), EXPIRES) == Unix(rs[k].issue.expiresAt + setup.timeout)
  {
    assert rs[..k + 1][..k] == rs[..k];
    RenewalKeeps(setup, After(setup, login, rs[..k]), rs[k].issue);
  }

  /** In every run a request in the first half of a token's life leaves the token alone. */
  lemma FirstHalfKeeps(setup: Setup, login: Login, rs: seq<Reading>, k: nat)
    requires Plain(login) && InOrder(login, rs) && k < |rs|
    requires 2 * rs[k].checkedAt <= 2 * IssuedAt(setup, login, rs[..k]) + setup.timeout
    ensures After(setup, login, rs[..k + 1]) == After(setup, login, rs[..k])
  {
    DueAtIff(setup, login, rs, k);
    EarlyIsNotDue(setup, IssuedAt(setup, login, rs[..k]), rs[k].checkedAt);
    NotDueKeeps(setup, login, rs, k);
  }

  /** A request that is served two seconds after the first half or later gets a new token. */
  lemma SecondHalfRenews(setup: Setup, login: Login, rs: seq<Reading>, k: nat)
    requires Plain(login) && InOrder(login, rs) && k < |rs| && ServedAt(setup, login, rs, k)
    requires 2 * rs[k].checkedAt >= 2 * IssuedAt(setup, login, rs[..k]) + setup.timeout + 4 * SECOND
    ensures IssuedAt(setup, login, rs[..k + 1]) == rs[k].issue.expiresAt
    ensures Seconds(After(setup, login, rs[..k + 1]), EXPIRES) == Unix(rs[k].issue.expiresAt + setup.timeout)
  {
    DueAtIff(setup, login, rs, k);
    LateIsDue(setup, IssuedAt(setup, login, rs[..k]), rs[k].checkedAt);
    DueRenews(setup, login, rs, k);
  }

  /** Over every run, the user, the groups, the anti-forgery token and every added claim
      are those of the login. */
  lemma {:induction false} ClaimsSurvive(setup: Setup, login: Login, rs: seq<Reading>)
    requires Plain(login)
    ensures SameExceptTimes(LoginClaims(setup, login), After(setup, login, rs))
  {
    if rs == [] {
    } else {
      ClaimsSurvive(setup, login, rs[..|rs| - 1]);
      StepKeeps(setup, After(setup, login, rs[..|rs| - 1]), rs[|rs| - 1]);
    }
  }

  /** So the user of a session is the one who logged in; the groups read from the token
      are those of the login and of every authenticated user exactly when there is one
      and none holds a comma. */
  lemma UserAndGroupsSurvive(setup: Setup, login: Login, rs: seq<Reading>)
    requires Plain(login)
    ensures var claims := After(setup, login, rs);
            var groups := login.groups + setup.authenticatedGroups;
            && UserOf(claims) == login.user
            && (GroupsOf(claims) == groups <==> groups != [] && forall g :: g in groups ==> ',' !in g)
  {
    var groups := login.groups + setup.authenticatedGroups;
    ClaimsSurvive(setup, login, rs);
    LoginUserAndGroups(setup, login);
    if groups != [] {
      SplitJoin(groups, ',');
    }
  }

  lemma LoginUserAndGroups(setup: Setup, login: Login)
    requires Plain(login)
    ensures WellFormed(LoginClaims(setup, login))
    ensures var groups := login.groups + setup.authenticatedGroups;
            && LoginClaims(setup, login)[USER] == Text(login.user)
            && LoginClaims(setup, login)[GROUPS] == Text(if groups == [] then "" else Join(groups, ','))
            && USER != EXPIRES && USER != NOT_BEFORE && GROUPS != EXPIRES && GROUPS != NOT_BEFORE
  {
    NamesDiffer();
    LoginIsWellFormed(setup, login);
  }

  lemma GroupsRead(setup: Setup, login: Login, rs: seq<Reading>)
    requires Plain(login)
    ensures var groups := login.groups + setup.authenticatedGroups;
            GroupsOf(After(setup, login, rs)) == Split(if groups == [] then "" else Join(groups, ','), ',')
  {
    ClaimsSurvive(setup, login, rs);
    LoginUserAndGroups(setup, login);
  }

  /** Without any group, one with an empty name is read. */
  lemma NoGroupsReadAsOne(setup: Setup, login: Login, rs: seq<Reading>)
    requires Plain(login) && login.groups == [] && setup.authenticatedGroups == []
    ensures GroupsOf(After(setup, login, rs)) == [""]
  {
    GroupsRead(setup, login, rs);
    SplitWhole("", ',');
  }

  /** A group named `a,b` is read as two. */
  lemma CommaReadAsTwo(setup: Setup, login: Login, rs: seq<Reading>)
    requires Plain(login) && login.groups == ["a,b"] && setup.authenticatedGroups == []
    ensures GroupsOf(After(setup, login, rs)) == ["a", "b"]
  {
    GroupsRead(setup, login, rs);
    assert login.groups + setup.authenticatedGroups == ["a,b"];
    assert "a,b" == "a" + [','] + "b";
    SplitFirst("a", "b", ',');
    SplitWhole("b", ',');
  }
}
