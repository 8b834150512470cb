/** What token rotation and revocation guarantee over whole runs. */
module TokenRuns {
  import opened Runs
  import opened TimedStore
  import opened Tokens
  import opened Wire

  /** `revoked` are the tokens a refresh or logout revoked, `refreshed` which token was refreshed when. */
  datatype State = State(core: Core, revoked: set<nat>, refreshed: seq<(nat, real)>)

  datatype Step =
    | Login(user: nat, published: bool)
    | DoRefresh(token: Presented, published: bool)
    | DoLogout(refresh: Presented, access: Option<Presented>)
    | SetAccount(user: nat, account: Account)
    | Wait(seconds: real)

  predicate Whole(x: real) {
    x.Floor as real == x
  }

  /** A login may go by a cached account status, so any may succeed; `whole` restricts the run to whole
      seconds. */
  predicate Can(whole: bool, s: State, l: Step) {
    match l
    case Wait(d) => d >= 0.0 && (whole ==> Whole(d))
    case _ => true
  }

  /** The tokens a logout revokes. */
  function LoggedOut(c: Core, refresh: Presented, access: Option<Presented>): set<nat> {
    if RefreshRejected(c, refresh) then {}
    else
      (if DecodeToken(c, refresh).Verified? then {refresh.jti} else {}) +
      (if access.Some? && DecodeToken(c, access.value).Verified? && c.issued[access.value.jti].kind == Access
       then {access.value.jti} else {})
  }

  function Do(t: Lifetimes, s: State, l: Step): State {
    var c := s.core;
    match l
    case Login(user, published) => s.(core := Issue(c, t, user, published))
    case DoRefresh(p, published) =>
      if RefreshOutcome(c, p) == Ok then
        State(AfterRefresh(c, t, p, published), s.revoked + {p.jti}, s.refreshed + [(p.jti, c.now)])
      else s
    case DoLogout(refresh, access) =>
      s.(core := AfterLogout(c, refresh, access), revoked := s.revoked + LoggedOut(c, refresh, access))
    case SetAccount(user, account) => s.(core := c.(accounts := c.accounts[user := account]))
    case Wait(d) => s.(core := c.(now := c.now + d))
  }

  ghost function Sessions(t: Lifetimes, whole: bool): Machine<State, Step> {
    Machine((s, l) => Can(whole, s, l), (s, l) => Do(t, s, l))
  }

  function Initial(now: real): State {
    State(Core(now, map[], [], map[]), {}, [])
  }

  /** How long a revocation lasts: to the end of the token's life, less a tail of under one second that is
      empty exactly when the remaining life is a whole number of seconds or less than one. */
  lemma RevocationTail(exp: int, now: real)
    requires now < exp as real
    ensures var until := now + RevocationTtl(exp, now) as real;
            && exp as real - until < 1.0
            && (until >= exp as real <==> Whole(exp as real - now) || exp as real - now < 1.0)
            && (Whole(now) ==> until >= exp as real)
  {
    var left := exp as real - now;
    if Whole(now) {
      assert left == (exp - now.Floor) as real;
    }
  }

  /** A revoked token is on the list past the last second of its life, and for its whole life if the
      clock shows whole seconds. */
  predicate Listed(whole: bool, s: State, jti: nat) {
    && jti < |s.core.issued| && Blacklisted(jti) in s.core.cache
    && s.core.cache[Blacklisted(jti)].expires.Some?
    && var until := s.core.cache[Blacklisted(jti)].expires.value;
       && s.core.issued[jti].exp as real - until < 1.0
       && (whole ==> until >= s.core.issued[jti].exp as real)
  }

  ghost predicate Inv(whole: bool, s: State) {
    && (whole ==> Whole(s.core.now))
    && (forall j | j in s.revoked :: Listed(whole, s, j))
    && (forall j: nat | Blacklisted(j) in s.core.cache :: j in s.revoked)
    && (forall i | 0 <= i < |s.refreshed| ::
          s.refreshed[i].0 in s.revoked && s.refreshed[i].0 < |s.core.issued| && s.refreshed[i].1 <= s.core.now)
    && (forall i, j | 0 <= i < j < |s.refreshed| && s.refreshed[i].0 == s.refreshed[j].0 ::
          !whole && s.core.issued[s.refreshed[j].0].exp as real - s.refreshed[j].1 < 1.0)
  }

  lemma BlacklistLists(whole: bool, s: State, jti: nat, revoked: set<nat>, j: nat)
    requires Verifies(s.core, jti) && (whole ==> Whole(s.core.now))
    requires j == jti || Listed(whole, s, j)
    ensures Listed(whole, State(Blacklist(s.core, jti), revoked, s.refreshed), j)
  {
    RevocationTail(s.core.issued[jti].exp, s.core.now);
  }

  lemma IssueKeepsListed(whole: bool, t: Lifetimes, s: State, user: nat, delivered: bool, j: nat)
    requires Listed(whole, s, j)
    ensures Listed(whole, s.(core := Issue(s.core, t, user, delivered)), j)
  {
  }

  lemma RefreshKeepsListed(whole: bool, t: Lifetimes, s: State, p: Presented, published: bool, j: nat)
    requires Inv(whole, s) && RefreshOutcome(s.core, p) == Ok && (j in s.revoked || j == p.jti)
    ensures Listed(whole, Do(t, s, DoRefresh(p, published)), j)
  {
    var mid := State(Blacklist(s.core, p.jti), s.revoked + {p.jti}, s.refreshed + [(p.jti, s.core.now)]);
    BlacklistLists(whole, s, p.jti, s.revoked, j);
    assert Listed(whole, mid, j);
    IssueKeepsListed(whole, t, mid, s.core.issued[p.jti].user, published, j);
  }

  lemma LogoutKeepsListed(whole: bool, t: Lifetimes, s: State, refresh: Presented, access: Option<Presented>, j: nat)
    requires Inv(whole, s) && j in Do(t, s, DoLogout(refresh, access)).revoked
    ensures Listed(whole, Do(t, s, DoLogout(refresh, access)), j)
  {
    var c := s.core;
    if !RefreshRejected(c, refresh) {
      var first := s.(core := AfterLogoutRefresh(c, refresh));
      if DecodeToken(c, refresh).Verified? {
        if j in s.revoked || j == refresh.jti {
          BlacklistLists(whole, s, refresh.jti, s.revoked, j);
        }
      }
      if access.Some? && DecodeToken(first.core, access.value).Verified?
          && first.core.issued[access.value.jti].kind == Access {
        BlacklistLists(whole, first, access.value.jti, s.revoked, j);
      }
    }
  }

  lemma WholeSum(a: real, b: real)
    requires Whole(a) && Whole(b)
    ensures Whole(a + b)
  {
    assert a + b == (a.Floor + b.Floor) as real;
  }

  /** Only tokens being revoked are put on the list. */
  lemma ListGrows(t: Lifetimes, s: State, l: Step, j: nat)
    requires Blacklisted(j) in Do(t, s, l).core.cache
    ensures Blacklisted(j) in s.core.cache || j in Do(t, s, l).revoked
  {
  }

  lemma DoKeepsListed(whole: bool, t: Lifetimes, s: State, l: Step, j: nat)
    requires Inv(whole, s) && Can(whole, s, l) && j in Do(t, s, l).revoked
    ensures Listed(whole, Do(t, s, l), j)
  {
    if l.DoRefresh? && RefreshOutcome(s.core, l.token) == Ok {
      RefreshKeepsListed(whole, t, s, l.token, l.published, j);
    } else if l.DoLogout? {
      LogoutKeepsListed(whole, t, s, l.refresh, l.access, j);
    } else if l.Login? {
      IssueKeepsListed(whole, t, s, l.user, l.published, j);
    }
  }

  /** A token that was revoked can be refreshed again only within the last second of its life, and not
      at all on a whole-second clock. */
  lemma SecondRefreshIsLate(whole: bool, s: State, p: Presented)
    requires Inv(whole, s) && RefreshOutcome(s.core, p) == Ok && p.jti in s.revoked
    ensures !whole && s.core.issued[p.jti].exp as real - s.core.now < 1.0
  {
    assert Listed(whole, s, p.jti);
  }

  lemma DoKeepsRefreshed(whole: bool, t: Lifetimes, s: State, l: Step)
    requires Inv(whole, s) && Can(whole, s, l)
    ensures var n := Do(t, s, l);
            && (forall i | 0 <= i < |n.refreshed| ::
                  n.refreshed[i].0 in n.revoked && n.refreshed[i].0 < |n.core.issued| && n.refreshed[i].1 <= n.core.now)
            && (forall i, j | 0 <= i < j < |n.refreshed| && n.refreshed[i].0 == n.refreshed[j].0 ::
                  !whole && n.core.issued[n.refreshed[j].0].exp as real - n.refreshed[j].1 < 1.0)
  {
    IssuedGrows(t, s, l);
    if l.DoRefresh? && RefreshOutcome(s.core, l.token) == Ok {
      if l.token.jti in s.revoked {
        SecondRefreshIsLate(whole, s, l.token);
      }
    }
  }

  lemma IssuedGrows(t: Lifetimes, s: State, l: Step)
    ensures |s.core.issued| <= |Do(t, s, l).core.issued|
    ensures forall j | 0 <= j < |s.core.issued| :: Do(t, s, l).core.issued[j] == s.core.issued[j]
  {
  }

  lemma DoKeepsInv(whole: bool, t: Lifetimes, s: State, l: Step)
    requires Inv(whole, s) && Can(whole, s, l)
    ensures Inv(whole, Do(t, s, l))
  {
    hide Listed, Do;
    var n := Do(t, s, l);
    forall j | j in n.revoked ensures Listed(whole, n, j) { DoKeepsListed(whole, t, s, l, j); }
    forall j: nat | Blacklisted(j) in n.core.cache ensures j in n.revoked {
      ListGrows(t, s, l, j);
      RevokedGrows(t, s, l);
    }
    DoKeepsRefreshed(whole, t, s, l);
    ClockStaysWhole(whole, t, s, l);
  }

  lemma RevokedGrows(t: Lifetimes, s: State, l: Step)
    ensures s.revoked <= Do(t, s, l).revoked
  {
  }

  lemma ClockStaysWhole(whole: bool, t: Lifetimes, s: State, l: Step)
    requires Can(whole, s, l) && (whole ==> Whole(s.core.now))
    ensures whole ==> Whole(Do(t, s, l).core.now)
  {
    if l.Wait? && whole {
      WholeSum(s.core.now, l.seconds);
    }
  }

  ghost predicate Attained(t: Lifetimes, whole: bool, s: State) {
    exists now: real :: (whole ==> Whole(now)) && Reaches(Sessions(t, whole), Initial(now), s)
  }

  lemma AttainedInv(t: Lifetimes, whole: bool, s: State)
    requires Attained(t, whole, s)
    ensures Inv(whole, s)
  {
    hide Do, Can;
    forall x, l | Inv(whole, x) && Can(whole, x, l) ensures Inv(whole, Do(t, x, l)) { DoKeepsInv(whole, t, x, l); }
    var now: real :| (whole ==> Whole(now)) && Reaches(Sessions(t, whole), Initial(now), s);
    var steps :| Valid(Sessions(t, whole), Initial(now), steps) && Final(Sessions(t, whole), Initial(now), steps) == s;
    InvariantHolds(Sessions(t, whole), x => Inv(whole, x), Initial(now), steps);
  }

  /** In every run, a revoked token stays on the list for as long as it verifies, but for less than the
      last second of its life; on a whole-second clock for all of it. */
  lemma RevokedStaysOut(t: Lifetimes, whole: bool, s: State)
    requires Attained(t, whole, s)
    ensures forall j | j in s.revoked && Verifies(s.core, j) && !Revoked(s.core, j) ::
              !whole && s.core.issued[j].exp as real - s.core.now < 1.0
  {
    AttainedInv(t, whole, s);
    forall j | j in s.revoked && Verifies(s.core, j) && !Revoked(s.core, j)
      ensures !whole && s.core.issued[j].exp as real - s.core.now < 1.0
    {
      assert Listed(whole, s, j);
    }
  }

  /** In every run each refresh token is refreshed at most once on a whole-second clock; on a real clock
      a further success falls within the last second of the token's life. */
  lemma RefreshedAtMostOnce(t: Lifetimes, whole: bool, s: State)
    requires Attained(t, whole, s)
    ensures forall i, j | 0 <= i < j < |s.refreshed| && s.refreshed[i].0 == s.refreshed[j].0 ::
              !whole && s.refreshed[j].0 < |s.core.issued| &&
              s.core.issued[s.refreshed[j].0].exp as real - s.refreshed[j].1 < 1.0
  {
    AttainedInv(t, whole, s);
  }

  lemma Next(t: Lifetimes, s: State, l: Step)
    requires Attained(t, false, s) && Can(false, s, l)
    ensures Attained(t, false, Do(t, s, l))
  {
    var now: real :| Reaches(Sessions(t, false), Initial(now), s);
    ReachesStep(Sessions(t, false), Initial(now), s, l);
  }

  lemma HalfPast(n: int)
    ensures (0.5 + n as real).Floor == n && (n as real - 0.5).Floor == n - 1
  {
  }

  function LoggedIn(t: Lifetimes): State {
    State(Core(0.5, map[], [Token(0, Access, t.access, true), Token(0, Refresh, t.refresh, true)], map[0 := Active]),
        {}, [])
  }

  /** A login at half past a second. */
  lemma LoggedInHappens(t: Lifetimes)
    ensures Attained(t, false, LoggedIn(t))
  {
    var s := Initial(0.5);
    ReachesRefl(Sessions(t, false), s);
    assert Attained(t, false, s);
    hide Attained;
    HalfPast(t.access);
    HalfPast(t.refresh);
    Next(t, s, SetAccount(0, Active));
    var known := Do(t, s, SetAccount(0, Active));
    Next(t, known, Login(0, true));
    assert Do(t, known, Login(0, true)).core.issued == LoggedIn(t).core.issued;
    assert Do(t, known, Login(0, true)) == LoggedIn(t);
  }

  /** A refresh at once: the revocation ends half a second early. */
  lemma RefreshedOnce(t: Lifetimes) returns (s: State)
    requires ValidLifetimes(t)
    ensures Attained(t, false, s) && s.core.now == 0.5 && AccountOk(s.core, 0)
    ensures |s.core.issued| > 1 && s.core.issued[1] == Token(0, Refresh, t.refresh, true)
    ensures Blacklisted(1) in s.core.cache
    ensures s.core.cache[Blacklisted(1)].expires == Some(t.refresh as real - 0.5)
    ensures |s.refreshed| == 1 && s.refreshed[0].0 == 1
  {
    hide Attained;
    LoggedInHappens(t);
    HalfPast(t.refresh);
    Next(t, LoggedIn(t), DoRefresh(Signed(1), true));
    s := Do(t, LoggedIn(t), DoRefresh(Signed(1), true));
  }

  /** On a real clock a token can be refreshed twice, whatever the lifetimes. */
  lemma SecondRefreshHappens(t: Lifetimes) returns (s: State)
    requires ValidLifetimes(t)
    ensures Attained(t, false, s) && |s.refreshed| == 2 && s.refreshed[0].0 == s.refreshed[1].0
  {
    hide Attained;
    s := RefreshedOnce(t);
    var wait := Wait(t.refresh as real - 0.75);
    Next(t, s, wait);
    s := Do(t, s, wait);
    assert RefreshOutcome(s.core, Signed(1)) == Ok;
    Next(t, s, DoRefresh(Signed(1), true));
    s := Do(t, s, DoRefresh(Signed(1), true));
  }

  ghost predicate CanRefreshAgain(t: Lifetimes, s: State, jti: nat) {
    exists u :: Reaches(Sessions(t, false), s, u) && RefreshOutcome(u.core, Signed(jti)) == Ok
  }

  /** The revocation lasts to the end of the token's life. */
  predicate Covered(c: Core, jti: nat) {
    && jti < |c.issued| && Blacklisted(jti) in c.cache && c.cache[Blacklisted(jti)].expires.Some?
    && c.cache[Blacklisted(jti)].expires.value >= c.issued[jti].exp as real
  }

  /** `d` is no earlier than `c`, and the token is still what it was. */
  predicate Later(c: Core, d: Core, jti: nat)
    requires jti < |c.issued|
  {
    d.now >= c.now && jti < |d.issued| && d.issued[jti] == c.issued[jti]
  }

  lemma DoIsLater(t: Lifetimes, c: Core, s: State, l: Step, jti: nat)
    requires jti < |c.issued| && Later(c, s.core, jti) && Can(false, s, l)
    ensures Later(c, Do(t, s, l).core, jti)
  {
    IssuedGrows(t, s, l);
  }

  /** A revocation in the last second of a token's life lasts to its end. */
  lemma DoKeepsCovered(t: Lifetimes, c: Core, s: State, l: Step, jti: nat)
    requires jti < |c.issued| && Later(c, s.core, jti) && c.issued[jti].exp as real - c.now <= 1.0
    requires Covered(s.core, jti) && Can(false, s, l)
    ensures Covered(Do(t, s, l).core, jti)
  {
    IssuedGrows(t, s, l);
  }

  lemma RunsKeepCovered(t: Lifetimes, s: State, u: State, jti: nat)
    requires jti < |s.core.issued| && Reaches(Sessions(t, false), s, u)
    ensures Later(s.core, u.core, jti)
    ensures s.core.issued[jti].exp as real - s.core.now <= 1.0 && Covered(s.core, jti) ==> Covered(u.core, jti)
  {
    hide Do, Can, Covered;
    var c := s.core;
    var late := c.issued[jti].exp as real - c.now <= 1.0 && Covered(c, jti);
    forall x: State, l: Step | (Later(c, x.core, jti) && (late ==> Covered(x.core, jti))) && Can(false, x, l)
      ensures Later(c, Do(t, x, l).core, jti) && (late ==> Covered(Do(t, x, l).core, jti))
    {
      DoIsLater(t, c, x, l, jti);
      if late {
        DoKeepsCovered(t, c, x, l, jti);
      }
    }
    var steps :| Valid(Sessions(t, false), s, steps) && Final(Sessions(t, false), s, steps) == u;
    var kept := (x: State) => jti < |c.issued| && Later(c, x.core, jti) && (late ==> Covered(x.core, jti));
    InvariantHolds(Sessions(t, false), kept, s, steps);
  }

  /** An uncovered tail lets the token in again. */
  lemma TailLetsIn(t: Lifetimes, s: State, jti: nat) returns (u: State)
    requires jti < |s.core.issued| && s.core.issued[jti].kind == Refresh && Verifies(s.core, jti)
    requires Blacklisted(jti) in s.core.cache && s.core.cache[Blacklisted(jti)].expires.Some? && !Covered(s.core, jti)
    ensures Reaches(Sessions(t, false), s, u) && RefreshOutcome(u.core, Signed(jti)) == Ok
  {
    hide Valid, Final;
    var m, user, until := Sessions(t, false), s.core.issued[jti].user, s.core.cache[Blacklisted(jti)].expires.value;
    ReachesRefl(m, s);
    ReachesStep(m, s, s, SetAccount(user, Active));
    var v := Do(t, s, SetAccount(user, Active));
    var wait := Wait(if until > s.core.now then until - s.core.now else 0.0);
    ReachesStep(m, s, v, wait);
    u := Do(t, v, wait);
  }

  /** More than a second before its end, a logout leaves the token an uncovered tail. */
  lemma LogoutUncovers(t: Lifetimes, s: State, jti: nat) returns (u: State)
    requires jti < |s.core.issued| && s.core.issued[jti].kind == Refresh && s.core.issued[jti].delivered
    requires s.core.issued[jti].exp as real - s.core.now > 1.0
    ensures Reaches(Sessions(t, false), s, u) && u.core.issued == s.core.issued && Verifies(u.core, jti)
    ensures Blacklisted(jti) in u.core.cache && u.core.cache[Blacklisted(jti)].expires.Some? && !Covered(u.core, jti)
  {
    hide Valid, Final;
    var m, exp := Sessions(t, false), s.core.issued[jti].exp as real;
    var wait := Wait(if exp - s.core.now >= 1.5 then exp - 1.5 - s.core.now else 0.0);
    ReachesRefl(m, s);
    ReachesStep(m, s, s, wait);
    var v := Do(t, s, wait);
    assert 1.0 < exp - v.core.now <= 1.5 && RevocationTtl(s.core.issued[jti].exp, v.core.now) == 1;
    ReachesStep(m, s, v, DoLogout(Signed(jti), None));
    u := Do(t, v, DoLogout(Signed(jti), None));
  }

  /** When a revoked token can be refreshed again on a real clock, exactly: it is a refresh token that was
      returned and has not expired, and its revocation ends before it does, or more than a second of its
      life is left, in which another logout can make it so. */
  lemma RefreshedAgainExactly(t: Lifetimes, s: State, jti: nat)
    requires Attained(t, false, s) && jti in s.revoked
    ensures jti < |s.core.issued|
    ensures CanRefreshAgain(t, s, jti) <==>
            && s.core.issued[jti].kind == Refresh && Verifies(s.core, jti)
            && (!Covered(s.core, jti) || s.core.issued[jti].exp as real - s.core.now > 1.0)
  {
    AttainedInv(t, false, s);
    assert Listed(false, s, jti);
    hide Attained, Do, Can, Reaches;
    var c := s.core;
    if c.issued[jti].kind == Refresh && Verifies(c, jti) {
      if !Covered(c, jti) {
        var u := TailLetsIn(t, s, jti);
      } else if c.issued[jti].exp as real - c.now > 1.0 {
        var v := LogoutUncovers(t, s, jti);
        var u := TailLetsIn(t, v, jti);
        ReachesTrans(Sessions(t, false), s, v, u);
      }
    }
    forall u | Reaches(Sessions(t, false), s, u) && RefreshOutcome(u.core, Signed(jti)) == Ok
      ensures c.issued[jti].kind == Refresh && Verifies(c, jti)
      ensures !Covered(c, jti) || c.issued[jti].exp as real - c.now > 1.0
    {
      RunsKeepCovered(t, s, u, jti);
    }
  }

  /** The refresh tokens a client holds that would still be accepted. */
  ghost function LiveTokens(c: Core): set<nat> {
    set j: nat | j < |c.issued| && c.issued[j].kind == Refresh && Verifies(c, j) && !Revoked(c, j)
  }

  lemma IssueAddsOne(c: Core, t: Lifetimes, user: nat, delivered: bool)
    requires ValidLifetimes(t)
    requires forall j: nat | Blacklisted(j) in c.cache :: j < |c.issued|
    ensures LiveTokens(Issue(c, t, user, delivered)) == LiveTokens(c) + if delivered then {|c.issued| + 1} else {}
  {
    var n := Issue(c, t, user, delivered);
    forall j: nat ensures j in LiveTokens(n) <==> j in LiveTokens(c) || (delivered && j == |c.issued| + 1) {
    }
  }

  lemma BlacklistRemovesOne(c: Core, jti: nat)
    requires jti < |c.issued|
    ensures LiveTokens(Blacklist(c, jti)) == LiveTokens(c) - {jti}
  {
  }

  /** Live refresh tokens are conserved: a login adds exactly one, a refresh replaces exactly the one it
      was given, a logout takes out exactly the one it was given; a pair whose event cannot be published
      is lost, so a login then adds none and a refresh loses one; a rejected request changes nothing. */
  lemma TokensAreConserved(t: Lifetimes, whole: bool, s: State, l: Step)
    requires Attained(t, whole, s) && Can(whole, s, l) && ValidLifetimes(t)
    ensures var live, next, added := LiveTokens(s.core), LiveTokens(Do(t, s, l).core), |s.core.issued| + 1;
            match l
            case Login(_, published) =>
              added !in live && next == live + if published then {added} else {}
            case DoRefresh(p, published) =>
              if RefreshOutcome(s.core, p) == Ok then
                p.jti in live && added !in live && next == (live - {p.jti}) + if published then {added} else {}
              else next == live
            case DoLogout(refresh, _) =>
              next == live - if refresh.Signed? then {refresh.jti} else {}
            case SetAccount(_, _) => next == live
            case Wait(_) => next <= live + s.revoked && (whole ==> next <= live)
  {
    hide LiveTokens, Attained;
    var c := s.core;
    AttainedInv(t, whole, s);
    ListedWereIssued(whole, s);
    NotYetLive(c, |c.issued| + 1);
    if l.Login? {
      IssueAddsOne(c, t, l.user, l.published);
    } else if l.DoRefresh? {
      if RefreshOutcome(c, l.token) == Ok {
        RefreshReplacesOne(c, t, l.token, l.published);
      }
    } else if l.DoLogout? {
      LogoutRemovesOne(c, l.refresh, l.access);
    } else if l.SetAccount? {
      SameTokens(c, Do(t, s, l).core);
    } else {
      WaitingAddsNone(whole, t, s, l);
    }
  }

  lemma ListedWereIssued(whole: bool, s: State)
    requires Inv(whole, s)
    ensures forall j: nat | Blacklisted(j) in s.core.cache :: j < |s.core.issued|
  {
    forall j: nat | Blacklisted(j) in s.core.cache ensures j < |s.core.issued| {
      assert Listed(whole, s, j);
    }
  }

  lemma NotYetLive(c: Core, j: nat)
    requires j >= |c.issued|
    ensures j !in LiveTokens(c)
  {
  }

  lemma SameTokens(c: Core, d: Core)
    requires d.now == c.now && d.cache == c.cache && d.issued == c.issued
    ensures LiveTokens(d) == LiveTokens(c)
  {
    forall j: nat ensures j in LiveTokens(d) <==> j in LiveTokens(c) {
    }
  }

  lemma RefreshReplacesOne(c: Core, t: Lifetimes, p: Presented, published: bool)
    requires ValidLifetimes(t) && RefreshOutcome(c, p) == Ok
    requires forall j: nat | Blacklisted(j) in c.cache :: j < |c.issued|
    ensures p.jti in LiveTokens(c)
    ensures LiveTokens(AfterRefresh(c, t, p, published)) ==
            (LiveTokens(c) - {p.jti}) + if published then {|c.issued| + 1} else {}
  {
    assert p.jti in LiveTokens(c);
    hide LiveTokens, Issue;
    BlacklistRemovesOne(c, p.jti);
    IssueAddsOne(Blacklist(c, p.jti), t, c.issued[p.jti].user, published);
  }

  lemma WaitingAddsNone(whole: bool, t: Lifetimes, s: State, l: Step)
    requires Inv(whole, s) && Can(whole, s, l) && l.Wait?
    ensures LiveTokens(Do(t, s, l).core) <= LiveTokens(s.core) + s.revoked
    ensures whole ==> LiveTokens(Do(t, s, l).core) <= LiveTokens(s.core)
  {
    var n := Do(t, s, l);
    ClockStaysWhole(whole, t, s, l);
    forall j | j in LiveTokens(n.core) ensures j in LiveTokens(s.core) || (j in s.revoked && !whole) {
      if Revoked(s.core, j) {
        assert Listed(whole, s, j);
      }
    }
  }

  lemma LogoutRemovesOne(c: Core, refresh: Presented, access: Option<Presented>)
    ensures LiveTokens(AfterLogout(c, refresh, access)) == LiveTokens(c) - if refresh.Signed? then {refresh.jti} else {}
  {
    if RefreshRejected(c, refresh) {
      assert refresh.Signed? ==> refresh.jti !in LiveTokens(c);
    } else {
      var first := AfterLogoutRefresh(c, refresh);
      if DecodeToken(c, refresh).Verified? {
        BlacklistRemovesOne(c, refresh.jti);
      } else {
        assert refresh.Signed? ==> refresh.jti !in LiveTokens(c);
      }
      if access.Some? && DecodeToken(first, access.value).Verified? && first.issued[access.value.jti].kind == Access {
        BlacklistRemovesOne(first, access.value.jti);
        assert access.value.jti !in LiveTokens(first);
      }
    }
  }
}
