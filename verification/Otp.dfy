/** One-time codes: generation, and validation by the cached code or else by the latest row. */
module Otp {
  import opened TimedStore
  import opened Wire

  /** The hash matches exactly the code it was made from, so the row is modelled as holding the code.
      `delay` is how long after computing `expires` the code was sent to the cache, and `cached` whether it
      got there. */
  datatype OtpRow = OtpRow(
    user: nat, kind: OtpKind, code: string, used: bool, expires: real, delay: real, cached: bool)

  /** Rows in order of creation; an OTP's uuid is its position. */
  datatype Core = Core(now: real, cache: Entries, rows: seq<OtpRow>)

  datatype Outcome = Accepted(id: nat) | InvalidOtp | OtpExpired | OtpAlreadyUsed | Raised

  /** Whether the calls of one validation to the cache, the database and the bus succeed. */
  datatype Fate = Fate(deleted: bool, committed: bool, published: bool)

  /** The lifetime of a kind of code, in seconds. */
  function Ttl(kind: OtpKind): int {
    match kind
    case LoginOtp => 300
    case PasswordResetOtp => 600
    case EmailVerifyOtp => 3600
    case PhoneVerifyOtp => 3600
  }

  /** Five minutes for a login, ten for a password reset, an hour to verify an address. */
  predicate Lasts(kind: OtpKind, seconds: int) {
    seconds == if kind.LoginOtp? then 5 * 60 else if kind.PasswordResetOtp? then 10 * 60 else 60 * 60
  }

  /** `find_latest_by_user_and_type` */
  function Latest(rows: seq<OtpRow>, user: nat, kind: OtpKind): Option<nat> {
    if rows == [] then None
    else
      var n := |rows| - 1;
      if rows[n].user == user && rows[n].kind == kind then Some(n) else Latest(rows[..n], user, kind)
  }

  /** The cached code, if it is the one presented. */
  function Hit(c: Core, user: nat, kind: OtpKind, code: string): Option<nat> {
    match Look(c.cache, CodeOf(user, kind), c.now)
    case Some(Code(cached, id)) => if cached == code then Some(id) else None
    case _ => None
  }

  function MarkUsed(rows: seq<OtpRow>, id: nat): seq<OtpRow> {
    if id < |rows| then rows[id := rows[id].(used := true)] else rows
  }

  /** What validation finds when the cache does not decide. */
  function SlowOutcome(c: Core, user: nat, kind: OtpKind, code: string): Outcome {
    match Latest(c.rows, user, kind)
    case None => InvalidOtp
    case Some(id) =>
      if id >= |c.rows| || c.now > c.rows[id].expires then OtpExpired
      else if c.rows[id].used then OtpAlreadyUsed
      else if c.rows[id].code != code then InvalidOtp
      else Accepted(id)
  }

  /** The verdict on a code, before anything is written. */
  function Verdict(c: Core, user: nat, kind: OtpKind, code: string): Outcome {
    match Hit(c, user, kind, code)
    case Some(id) => Accepted(id)
    case None => SlowOutcome(c, user, kind, code)
  }

  /** What a validation leaves: on the fast path the key is deleted before the row is marked, on the slow
      path after. */
  function AfterValidate(c: Core, user: nat, kind: OtpKind, code: string, f: Fate): Core {
    match Verdict(c, user, kind, code)
    case Accepted(id) =>
      var cache := if f.deleted then Without(c.cache, CodeOf(user, kind)) else c.cache;
      if Hit(c, user, kind, code).Some? then
        if !f.deleted then c
        else c.(cache := cache, rows := if f.committed then MarkUsed(c.rows, id) else c.rows)
      else if !f.committed then c
      else c.(cache := cache, rows := MarkUsed(c.rows, id))
    case _ => c
  }

  function ValidateOutcome(c: Core, user: nat, kind: OtpKind, code: string, f: Fate): Outcome {
    var v := Verdict(c, user, kind, code);
    if v.Accepted? && !(f.deleted && f.committed && f.published) then Raised else v
  }

  /** The row is created with an expiry computed at the start; the code is cached `delay` later, unless
      the cache fails. */
  function AfterGenerate(c: Core, user: nat, kind: OtpKind, code: string, delay: real, cached: bool): Core {
    var row := OtpRow(user, kind, code, false, c.now + Ttl(kind) as real, delay, cached);
    var later := c.(now := c.now + delay, rows := c.rows + [row]);
    if cached then later.(cache := Put(c.cache, CodeOf(user, kind), Code(code, |c.rows|), later.now, Ttl(kind)))
        else later
  }

  /** The OTP is the last created for its user and kind. */
  ghost predicate IsLatest(rows: seq<OtpRow>, user: nat, kind: OtpKind, id: nat) {
    && id < |rows| && rows[id].user == user && rows[id].kind == kind
    && forall i | id < i < |rows| :: rows[i].user != user || rows[i].kind != kind
  }

  lemma {:induction false} LatestIs(rows: seq<OtpRow>, user: nat, kind: OtpKind)
    ensures match Latest(rows, user, kind)
            case Some(id) => IsLatest(rows, user, kind, id)
            case None => forall i | 0 <= i < |rows| :: rows[i].user != user || rows[i].kind != kind
  {
    if rows != [] {
      LatestIs(rows[..|rows| - 1], user, kind);
    }
  }

  /** The row is marked used or not, and no other row changed. */
  predicate RowsAfter(rows: seq<OtpRow>, after: seq<OtpRow>, id: nat, marked: bool) {
    && |after| == |rows|
    && forall i | 0 <= i < |rows| :: after[i] == if i == id && marked then rows[i].(used := true) else rows[i]
  }

  /** The cached code is gone or not, and everything else is read as before. */
  ghost predicate CacheAfter(c: Core, d: Core, k: Key, deleted: bool) {
    forall other, t :: Look(d.cache, other, t) == if other == k && deleted then None else Look(c.cache, other, t)
  }

  /** The cached code decides: its key is deleted, then its row is marked, then the event is published. */
  ghost predicate FastPath(c: Core, d: Core, k: Key, id: nat, f: Fate, outcome: Outcome) {
    && outcome == (if f.deleted && f.committed && f.published then Accepted(id) else Raised)
    && RowsAfter(c.rows, d.rows, id, f.deleted && f.committed) && CacheAfter(c, d, k, f.deleted)
  }

  /** The latest row decides: too late, used up, wrong, or it is marked, then the key is deleted, then the event
      is published. */
  ghost predicate SlowPath(c: Core, d: Core, k: Key, id: nat, code: string, f: Fate, outcome: Outcome)
    requires id < |c.rows|
  {
    var r := c.rows[id];
    var refusal := if c.now > r.expires then Some(OtpExpired) else if r.used then Some(OtpAlreadyUsed)
                   else if r.code != code then Some(InvalidOtp) else None;
    var accepted := refusal.None?;
    && outcome == (if refusal.Some? then refusal.value
                   else if f.committed && f.deleted && f.published then Accepted(id) else Raised)
    && RowsAfter(c.rows, d.rows, id, accepted && f.committed)
    && CacheAfter(c, d, k, accepted && f.committed && f.deleted)
  }

  /** Every case of a validation. */
  ghost predicate Decides(c: Core, d: Core, user: nat, kind: OtpKind, code: string, f: Fate, outcome: Outcome) {
    var k := CodeOf(user, kind);
    && d.now == c.now
    && (forall id | Look(c.cache, k, c.now) == Some(Code(code, id)) :: FastPath(c, d, k, id, f, outcome))
    && ((forall id :: Look(c.cache, k, c.now) != Some(Code(code, id))) ==>
          && (forall id | IsLatest(c.rows, user, kind, id) :: SlowPath(c, d, k, id, code, f, outcome))
          && ((forall i | 0 <= i < |c.rows| :: c.rows[i].user != user || c.rows[i].kind != kind) ==>
                outcome == InvalidOtp && d == c))
  }

  lemma ValidateDecides(c: Core, user: nat, kind: OtpKind, code: string, f: Fate)
    ensures Decides(c, AfterValidate(c, user, kind, code, f), user, kind, code, f,
                    ValidateOutcome(c, user, kind, code, f))
  {
    var d, outcome := AfterValidate(c, user, kind, code, f), ValidateOutcome(c, user, kind, code, f);
    if Hit(c, user, kind, code).None? {
      LatestIs(c.rows, user, kind);
      forall id: nat | IsLatest(c.rows, user, kind, id)
        ensures SlowPath(c, d, CodeOf(user, kind), id, code, f, outcome)
      {
        assert Latest(c.rows, user, kind) == Some(id);
      }
    }
  }

  class OtpService {
    const cache: RedisCache
    var rows: seq<OtpRow>

    constructor (cache: RedisCache)
      ensures this.cache == cache && rows == []
    {
      this.cache, this.rows := cache, [];
    }

    function Contents(): Core
      reads this, cache
    {
      Core(cache.now, cache.entries, rows)
    }

    /** `GenerateOtpUseCase.execute`; the commit succeeds, the cache may not. */
    method Generate(user: nat, kind: OtpKind, code: string, delay: real, cached: bool) returns (id: nat)
      requires delay >= 0.0
      modifies this`rows, cache
      ensures Contents() == AfterGenerate(old(Contents()), user, kind, code, delay, cached)
      ensures id == |old(rows)| && cache.now == old(cache.now) + delay
      ensures |rows| == id + 1 && rows[..id] == old(rows) && rows[id].(expires := 0.0) ==
          OtpRow(user, kind, code, false, 0.0, delay, cached)
      ensures exists seconds :: Lasts(kind, seconds) && rows[id].expires == old(cache.now) + seconds as real
      ensures exists seconds | Lasts(kind, seconds) :: forall t | cached ::
                Look(cache.entries, CodeOf(user, kind), t) ==
                if t < cache.now + seconds as real then Some(Code(code, id)) else None
      ensures forall k, t | !cached || k != CodeOf(user, kind) ::
                Look(cache.entries, k, t) == Look(old(cache.entries), k, t)
    {
      assert Lasts(kind, Ttl(kind));
      id := |rows|;
      var expires := cache.now + Ttl(kind) as real;
      rows := rows + [OtpRow(user, kind, code, false, expires, delay, cached)];
      cache.Wait(delay);
      if cached {
        cache.Set(CodeOf(user, kind), Code(code, id), Ttl(kind));
      }
    }

    /** `ValidateOtpUseCase.execute` at one instant. */
    method Validate(user: nat, kind: OtpKind, code: string, f: Fate) returns (outcome: Outcome)
      modifies this`rows, cache`entries
      ensures outcome == ValidateOutcome(old(Contents()), user, kind, code, f)
      ensures Contents() == AfterValidate(old(Contents()), user, kind, code, f)
      ensures Decides(old(Contents()), Contents(), user, kind, code, f, outcome)
    {
      ValidateDecides(old(Contents()), user, kind, code, f);
      hide Decides;
      var cached := cache.Get(CodeOf(user, kind));
      if cached.Some? && cached.value.Code? && cached.value.code == code {
        var id := cached.value.uuid;
        if !f.deleted {
          return Raised;
        }
        cache.Delete(CodeOf(user, kind));
        if !f.committed {
          return Raised;
        }
        rows := MarkUsed(rows, id);
        return if f.published then Accepted(id) else Raised;
      }
      var latest := Latest(rows, user, kind);
      if latest.None? {
        return InvalidOtp;
      }
      var id := latest.value;
      if id >= |rows| || cache.now > rows[id].expires {
        return OtpExpired;
      }
      if rows[id].used {
        return OtpAlreadyUsed;
      }
      if rows[id].code != code {
        return InvalidOtp;
      }
      if !f.committed {
        return Raised;
      }
      rows := MarkUsed(rows, id);
      if f.deleted {
        cache.Delete(CodeOf(user, kind));
      }
      outcome := if f.deleted && f.published then Accepted(id) else Raised;
    }
  }
}
