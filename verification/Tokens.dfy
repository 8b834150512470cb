/** Login, refresh-token rotation and logout on top of the revocation list. */
module Tokens {
  import opened TimedStore
  import opened Wire

  datatype Kind = Access | Refresh

  /** A token the service signed; its jti is its position. `exp` is a whole second. A token that was
      signed but never returned, because the request failed afterwards, is not `delivered`. */
  datatype Token = Token(user: nat, kind: Kind, exp: int, delivered: bool)

  /** An account's status; one that is missing altogether is not in the map. */
  datatype Account = PendingVerification | Active | Inactive | Suspended

  /** What a client presents: a token the service signed and returned, or anything else. */
  datatype Presented = Signed(jti: nat) | Malformed

  /** Lifetimes in seconds. */
  datatype Lifetimes = Lifetimes(access: int, refresh: int)

  datatype Core = Core(now: real, cache: Entries, issued: seq<Token>, accounts: map<nat, Account>)

  datatype Outcome = Ok | TokenExpired | InvalidToken | TokenBlacklisted | Raised

  datatype Decoded = Verified(jti: nat) | Expired | Invalid

  predicate ValidLifetimes(t: Lifetimes) {
    t.access >= 60 && t.refresh >= 60
  }

  /** `jwt.decode`: a token verifies until, and not at, its `exp` (section 4.1.4 of RFC 7519). */
  predicate Verifies(c: Core, jti: nat) {
    jti < |c.issued| && c.issued[jti].delivered && c.now < c.issued[jti].exp as real
  }

  function DecodeToken(c: Core, p: Presented): Decoded {
    if !p.Signed? || p.jti >= |c.issued| || !c.issued[p.jti].delivered then Invalid
    else if Verifies(c, p.jti) then Verified(p.jti) else Expired
  }

  predicate Revoked(c: Core, jti: nat) {
    Live(c.cache, Blacklisted(jti), c.now)
  }

  /** `max(int(exp - now), 1)`; `int` truncates toward zero. */
  function RevocationTtl(exp: int, now: real): (ttl: int)
    ensures ttl >= 1
  {
    var left := exp as real - now;
    var whole := if left >= 0.0 then left.Floor else -(-left).Floor;
    if whole >= 1 then whole else 1
  }

  function Blacklist(c: Core, jti: nat): Core
    requires jti < |c.issued|
  {
    c.(cache := Put(c.cache, Blacklisted(jti), Flag, c.now, RevocationTtl(c.issued[jti].exp, c.now)))
  }

  /** `create_token_pair`; encoding drops the fraction of the expiry. */
  function Issue(c: Core, t: Lifetimes, user: nat, delivered: bool): Core {
    c.(issued := c.issued + [
      Token(user, Access, (c.now + t.access as real).Floor, delivered),
      Token(user, Refresh, (c.now + t.refresh as real).Floor, delivered)])
  }

  predicate AccountOk(c: Core, user: nat) {
    user in c.accounts && c.accounts[user] != Suspended && c.accounts[user] != Inactive
  }

  /** What refreshing comes to, in the order the checks are made. */
  function RefreshOutcome(c: Core, p: Presented): Outcome {
    match DecodeToken(c, p)
    case Expired => TokenExpired
    case Invalid => InvalidToken
    case Verified(jti) =>
      if c.issued[jti].kind != Refresh then InvalidToken
      else if Revoked(c, jti) then TokenBlacklisted
      else if !AccountOk(c, c.issued[jti].user) then InvalidToken
      else Ok
  }

  /** The old token is revoked and a new pair issued; `published` says whether the event went out,
      without which the pair is never returned. */
  function AfterRefresh(c: Core, t: Lifetimes, p: Presented, published: bool): Core {
    if RefreshOutcome(c, p) != Ok then c
    else Issue(Blacklist(c, p.jti), t, c.issued[p.jti].user, published)
  }

  /** `logout` revokes the refresh token before it looks at the access token. */
  function AfterLogoutRefresh(c: Core, p: Presented): Core {
    match DecodeToken(c, p)
    case Verified(jti) => if c.issued[jti].kind == Refresh then Blacklist(c, jti) else c
    case _ => c
  }

  predicate RefreshRejected(c: Core, p: Presented) {
    DecodeToken(c, p).Invalid? || (DecodeToken(c, p).Verified? && c.issued[p.jti].kind != Refresh)
  }

  predicate AccessRejected(c: Core, p: Presented) {
    DecodeToken(c, p).Invalid? || (DecodeToken(c, p).Verified? && c.issued[p.jti].kind != Access)
  }

  function AfterLogout(c: Core, refresh: Presented, access: Option<Presented>): Core {
    if RefreshRejected(c, refresh) then c
    else
      var first := AfterLogoutRefresh(c, refresh);
      if access.None? then first
      else
        match DecodeToken(first, access.value)
        case Verified(jti) => if first.issued[jti].kind == Access then Blacklist(first, jti) else first
        case _ => first
  }

  function LogoutOutcome(c: Core, refresh: Presented, access: Option<Presented>, published: bool): Outcome {
    if RefreshRejected(c, refresh) || (access.Some? && AccessRejected(c, access.value)) then InvalidToken
    else if !published
        && (DecodeToken(c, refresh).Verified? || (access.Some? && DecodeToken(c, access.value).Verified?)) then Raised
    else Ok
  }

  /** A token the service signed and returned. */
  predicate Known(c: Core, p: Presented) {
    p.Signed? && p.jti < |c.issued| && c.issued[p.jti].delivered
  }

  /** A known token of the kind that has not expired. */
  predicate Usable(c: Core, p: Presented, kind: Kind) {
    Known(c, p) && c.now < c.issued[p.jti].exp as real && c.issued[p.jti].kind == kind
  }

  /** A known token of the kind, or an expired one of any kind. */
  predicate Acceptable(c: Core, p: Presented, kind: Kind) {
    Known(c, p) && (c.now < c.issued[p.jti].exp as real ==> c.issued[p.jti].kind == kind)
  }

  /** The account may log in: it is there, and neither suspended nor deactivated. */
  predicate MayEnter(c: Core, user: nat) {
    user in c.accounts && (c.accounts[user].Active? || c.accounts[user].PendingVerification?)
  }

  predicate OnList(c: Core, jti: nat, t: real) {
    Look(c.cache, Blacklisted(jti), t).Some?
  }

  /** The token is on the list until a second from now at least, less than a second before its `exp` at the
      earliest and, unless that is a second from now, at its `exp` at the latest. */
  predicate ListedTill(d: Core, jti: nat, now: real) {
    && Blacklisted(jti) in d.cache && d.cache[Blacklisted(jti)].expires.Some? && jti < |d.issued|
    && var until, exp := d.cache[Blacklisted(jti)].expires.value, d.issued[jti].exp as real;
       until >= now + 1.0 && until > exp - 1.0 && (until <= exp || until == now + 1.0)
  }

  predicate SameEntry(c: Core, d: Core, k: Key) {
    (k in d.cache <==> k in c.cache) && (k in c.cache ==> d.cache[k] == c.cache[k])
  }

  /** Exactly the tokens of `jtis` were put on the list; every other entry of the store is as it was. */
  ghost predicate Listed(c: Core, d: Core, jtis: set<nat>) {
    && (forall k: Key | !(k.Blacklisted? && k.jti in jtis) :: SameEntry(c, d, k))
    && forall jti | jti in jtis :: ListedTill(d, jti, c.now)
  }

  /** Two tokens of the user were signed, an access and a refresh token, and no other token changed. */
  predicate Paired(c: Core, d: Core, lifetimes: Lifetimes, user: nat, delivered: bool) {
    var n := |c.issued|;
    && |d.issued| == n + 2 && d.issued[..n] == c.issued
    && d.issued[n].kind == Access && d.issued[n + 1].kind == Refresh
    && (forall i | n <= i < n + 2 :: d.issued[i].user == user && d.issued[i].delivered == delivered)
    && c.now + lifetimes.access as real - 1.0 < d.issued[n].exp as real <= c.now + lifetimes.access as real
    && c.now + lifetimes.refresh as real - 1.0 < d.issued[n + 1].exp as real <= c.now + lifetimes.refresh as real
  }

  lemma BlacklistLists(c: Core, jti: nat)
    requires jti < |c.issued|
    ensures Listed(c, Blacklist(c, jti), {jti})
  {
  }

  lemma ListedThen(c: Core, d: Core, e: Core, jti: nat, other: nat)
    requires Listed(c, d, {jti}) && Listed(d, e, {other}) && e.issued == d.issued && d.now == c.now && jti != other
    ensures Listed(c, e, {jti, other})
  {
    forall k: Key | !(k.Blacklisted? && k.jti in {jti, other}) ensures SameEntry(c, e, k) {
      assert SameEntry(c, d, k) && SameEntry(d, e, k);
    }
    assert SameEntry(d, e, Blacklisted(jti)) && ListedTill(d, jti, c.now);
  }

  /** What refreshing does in every case. */
  ghost predicate Refreshes(
    c: Core, d: Core, lifetimes: Lifetimes, p: Presented, published: bool, outcome: Outcome)
  {
    var usable := Usable(c, p, Refresh);
    var good := usable && !OnList(c, p.jti, c.now) && MayEnter(c, c.issued[p.jti].user);
    && d.now == c.now && d.accounts == c.accounts
    && (outcome == Ok <==> good && published) && (outcome == Raised <==> good && !published)
    && (outcome == TokenExpired <==> Known(c, p) && c.now >= c.issued[p.jti].exp as real)
    && (outcome == TokenBlacklisted <==> usable && OnList(c, p.jti, c.now))
    && (if good then Listed(c, d, {p.jti}) && Paired(c, d, lifetimes, c.issued[p.jti].user, published) else d == c)
  }

  lemma IssuePairs(c: Core, lifetimes: Lifetimes, user: nat, delivered: bool)
    ensures var d := Issue(c, lifetimes, user, delivered);
            Paired(c, d, lifetimes, user, delivered) && d.cache == c.cache && d.now == c.now && d.accounts == c.accounts
  {
  }

  lemma IssueKeepsListed(c: Core, d: Core, e: Core, jti: nat)
    requires Listed(c, d, {jti}) && e.cache == d.cache && |d.issued| <= |e.issued| && e.issued[..|d.issued|] == d.issued
    ensures Listed(c, e, {jti})
  {
    forall k: Key | !(k.Blacklisted? && k.jti in {jti}) ensures SameEntry(c, e, k) { assert SameEntry(c, d, k); }
    assert ListedTill(d, jti, c.now) && e.issued[jti] == e.issued[..|d.issued|][jti];
  }

  lemma RefreshDecides(c: Core, lifetimes: Lifetimes, p: Presented, published: bool)
    ensures var o := RefreshOutcome(c, p);
            Refreshes(c, AfterRefresh(c, lifetimes, p, published), lifetimes, p, published,
                      if o == Ok && !published then Raised else o)
  {
    hide Listed, Paired, Issue, RevocationTtl;
    if RefreshOutcome(c, p) == Ok {
      var d, user := Blacklist(c, p.jti), c.issued[p.jti].user;
      BlacklistLists(c, p.jti);
      IssuePairs(d, lifetimes, user, published);
      var e := Issue(d, lifetimes, user, published);
      assert |e.issued| == |d.issued| + 2
          && e.issued[..|d.issued|] == d.issued by { IssueGrows(d, lifetimes, user, published); }
      IssueKeepsListed(c, d, e, p.jti);
      PairedSame(d, c, e, lifetimes, user, published);
    }
  }

  lemma IssueGrows(c: Core, lifetimes: Lifetimes, user: nat, delivered: bool)
    ensures var d := Issue(c, lifetimes, user, delivered);
            |d.issued| == |c.issued| + 2 && d.issued[..|c.issued|] == c.issued
  {
  }

  lemma PairedSame(c: Core, b: Core, d: Core, lifetimes: Lifetimes, user: nat, delivered: bool)
    requires Paired(c, d, lifetimes, user, delivered) && b.issued == c.issued && b.now == c.now
    ensures Paired(b, d, lifetimes, user, delivered)
  {
  }

  /** What logging out does in every case: an unknown token, or an unexpired one of the other kind, is rejected;
      the refresh token is put on the list even if the access token is then rejected. */
  ghost predicate LogsOut(
    c: Core, d: Core, refresh: Presented, access: Option<Presented>, published: bool, outcome: Outcome)
  {
    var first := Usable(c, refresh, Refresh);
    var second := access.Some? && Usable(c, access.value, Access);
    && d.now == c.now && d.accounts == c.accounts && d.issued == c.issued
    && (if !Acceptable(c, refresh, Refresh) then outcome == InvalidToken && d == c
        else
          && (access.Some? && !Acceptable(c, access.value, Access) ==> outcome == InvalidToken)
          && (access.None? || Acceptable(c, access.value, Access) ==>
                outcome == if (first || second) && !published then Raised else Ok)
          && Listed(c, d, (if first then {refresh.jti} else {}) + (if second then {access.value.jti} else {})))
  }

  lemma LogoutDecides(c: Core, refresh: Presented, access: Option<Presented>, published: bool)
    ensures LogsOut(c, AfterLogout(c, refresh, access), refresh, access, published,
                    LogoutOutcome(c, refresh, access, published))
  {
    hide Listed, Blacklist;
    NothingListed(c);
    if !RefreshRejected(c, refresh) {
      var first := AfterLogoutRefresh(c, refresh);
      BlacklistFrame(c, refresh);
      if Usable(c, refresh, Refresh) {
        BlacklistLists(c, refresh.jti);
      }
      if access.Some? && Usable(c, access.value, Access) {
        BlacklistLists(first, access.value.jti);
        BlacklistFrame(first, refresh);
        if Usable(c, refresh, Refresh) {
          ListedThen(c, first, Blacklist(first, access.value.jti), refresh.jti, access.value.jti);
          assert {refresh.jti, access.value.jti} == {refresh.jti} + {access.value.jti};
        } else {
          assert {} + {access.value.jti} == {access.value.jti};
        }
      } else {
        var listed := if Usable(c, refresh, Refresh) then {refresh.jti} else {};
        assert listed + {} == listed;
      }
    }
  }

  lemma NothingListed(c: Core)
    ensures Listed(c, c, {})
  {
  }

  lemma BlacklistFrame(c: Core, p: Presented)
    ensures var d := AfterLogoutRefresh(c, p);
            && d.issued == c.issued && d.now == c.now && d.accounts == c.accounts
            && (Usable(c, p, Refresh) ==> d == Blacklist(c, p.jti)) && (!Usable(c, p, Refresh) ==> d == c)
    ensures forall jti | 0 <= jti < |c.issued| ::
              Blacklist(c, jti).issued == c.issued && Blacklist(c, jti).now == c.now
              && Blacklist(c, jti).accounts == c.accounts
  {
  }

  class AuthService {
    const lifetimes: Lifetimes
    const cache: RedisCache
    var issued: seq<Token>
    var accounts: map<nat, Account>

    constructor (lifetimes: Lifetimes, cache: RedisCache, accounts: map<nat, Account>)
      ensures this.lifetimes == lifetimes && this.cache == cache && issued == [] && this.accounts == accounts
    {
      this.lifetimes, this.cache, this.issued, this.accounts := lifetimes, cache, [], accounts;
    }

    function Contents(): Core
      reads this, cache
    {
      Core(cache.now, cache.entries, issued, accounts)
    }

    /** Two tokens with new jtis, one of each kind, that expire within the second before their lifetime ends
        and, if returned, verify from now on; no token signed before changes. */
    method CreateTokenPair(user: nat, delivered: bool)
      modifies this`issued
      ensures Contents() == Issue(old(Contents()), lifetimes, user, delivered)
      ensures |issued| == |old(issued)| + 2 && issued[..|old(issued)|] == old(issued)
      ensures var a, r := issued[|old(issued)|], issued[|old(issued)| + 1];
              && a.kind == Access && r.kind == Refresh && a.user == r.user == user
              && cache.now + lifetimes.access as real - 1.0 < a.exp as real <= cache.now + lifetimes.access as real
              && cache.now + lifetimes.refresh as real - 1.0 < r.exp as real <= cache.now + lifetimes.refresh as real
      ensures delivered && ValidLifetimes(lifetimes) ==>
                Verifies(Contents(), |old(issued)|) && Verifies(Contents(), |old(issued)| + 1)
    {
      var access := Token(user, Access, (cache.now + lifetimes.access as real).Floor, delivered);
      var refresh := Token(user, Refresh, (cache.now + lifetimes.refresh as real).Floor, delivered);
      issued := issued + [access, refresh];
    }

    /** The token is revoked from now until `until`, less than a second before it expires at the earliest, and
        when it expires at the latest unless a second from now is later; nothing else in the store changes. */
    method Revoke(jti: nat) returns (ghost until: real)
      requires jti < |issued|
      modifies cache`entries
      ensures Contents() == Blacklist(old(Contents()), jti) && Revoked(Contents(), jti)
      ensures forall t :: Live(cache.entries, Blacklisted(jti), t) <==> t < until
      ensures until >= cache.now + 1.0 && until > issued[jti].exp as real - 1.0
      ensures until <= issued[jti].exp as real || until == cache.now + 1.0
      ensures forall k, t | k != Blacklisted(jti) :: Look(cache.entries, k, t) == Look(old(cache.entries), k, t)
    {
      var ttl := RevocationTtl(issued[jti].exp, cache.now);
      cache.Set(Blacklisted(jti), Flag, ttl);
      until := cache.now + ttl as real;
    }

    /** `RefreshTokenUseCase.execute` at one instant. */
    method RefreshToken(p: Presented, published: bool) returns (outcome: Outcome)
      modifies this`issued, cache`entries
      ensures outcome == (var o := RefreshOutcome(old(Contents()), p); if o == Ok && !published then Raised else o)
      ensures Contents() == AfterRefresh(old(Contents()), lifetimes, p, published)
      ensures Refreshes(old(Contents()), Contents(), lifetimes, p, published, outcome)
    {
      RefreshDecides(Contents(), lifetimes, p, published);
      hide Refreshes;
      match DecodeToken(Contents(), p)
      case Expired => return TokenExpired;
      case Invalid => return InvalidToken;
      case Verified(jti) =>
        if issued[jti].kind != Refresh {
          return InvalidToken;
        }
        var revoked := cache.Exists(Blacklisted(jti));
        if revoked {
          return TokenBlacklisted;
        }
        var user := issued[jti].user;
        if user !in accounts || accounts[user] == Suspended || accounts[user] == Inactive {
          return InvalidToken;
        }
        ghost var until := Revoke(jti);
        CreateTokenPair(user, published);
        outcome := if published then Ok else Raised;
    }

    /** `LogoutUseCase.execute` at one instant. */
    method Logout(refresh: Presented, access: Option<Presented>, published: bool) returns (outcome: Outcome)
      modifies cache`entries
      ensures outcome == LogoutOutcome(old(Contents()), refresh, access, published)
      ensures Contents() == AfterLogout(old(Contents()), refresh, access)
      ensures LogsOut(old(Contents()), Contents(), refresh, access, published, outcome)
    {
      LogoutDecides(Contents(), refresh, access, published);
      hide LogsOut;
      var known := false;
      var first := DecodeToken(Contents(), refresh);
      if first.Invalid? {
        return InvalidToken;
      }
      if first.Verified? {
        if issued[first.jti].kind != Refresh {
          return InvalidToken;
        }
        known := true;
        ghost var until := Revoke(first.jti);
      }
      if access.Some? {
        var second := DecodeToken(Contents(), access.value);
        if second.Invalid? {
          return InvalidToken;
        }
        if second.Verified? {
          if issued[second.jti].kind != Access {
            return InvalidToken;
          }
          known := true;
          ghost var until := Revoke(second.jti);
        }
      }
      outcome := if known && !published then Raised else Ok;
    }

    /** The token checks of `require_authenticated`. */
    method Authenticate(p: Presented) returns (outcome: Outcome)
      ensures outcome == Ok <==>
              Usable(Contents(), p, Access) && !Live(cache.entries, Blacklisted(p.jti), cache.now) &&
              MayEnter(Contents(), issued[p.jti].user)
      ensures outcome == TokenExpired <==> Known(Contents(), p) && cache.now >= issued[p.jti].exp as real
      ensures outcome == TokenBlacklisted <==>
              Usable(Contents(), p, Access) && Live(cache.entries, Blacklisted(p.jti), cache.now)
    {
      match DecodeToken(Contents(), p)
      case Expired => return TokenExpired;
      case Invalid => return InvalidToken;
      case Verified(jti) =>
        if issued[jti].kind != Access {
          return InvalidToken;
        }
        var revoked := cache.Exists(Blacklisted(jti));
        if revoked {
          return TokenBlacklisted;
        }
        var user := issued[jti].user;
        outcome := if user !in accounts || accounts[user] == Suspended || accounts[user] == Inactive then InvalidToken
            else Ok;
    }
  }
}
