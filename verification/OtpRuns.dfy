/** What one-time codes guarantee over whole runs. */
module OtpRuns {
  import opened Otp
  import opened Runs
  import opened TimedStore
  import opened Wire

  /** OTP `id` was marked used by a validation at `at`, when there were `rows` OTPs. */
  datatype Use = Use(id: nat, at: real, rows: nat)

  /** `evicted` holds the OTPs whose cache entry a validation deleted. */
  datatype State = State(core: Core, uses: seq<Use>, evicted: set<nat>)

  datatype Step =
    | Generate(user: nat, kind: OtpKind, code: string, delay: real, cached: bool)
    | Validate(user: nat, kind: OtpKind, code: string, fate: Fate)
    | Wait(seconds: real)

  /** The cache, the commit and the bus may fail in any call. */
  predicate Can(s: State, l: Step) {
    match l
    case Generate(_, _, _, delay, _) => delay >= 0.0
    case Validate(_, _, _, _) => true
    case Wait(d) => d >= 0.0
  }

  /** The validation marks a row used. */
  predicate Uses(c: Core, user: nat, kind: OtpKind, code: string, f: Fate) {
    && Verdict(c, user, kind, code).Accepted? && f.committed
    && (Hit(c, user, kind, code).Some? ==> f.deleted)
  }

  /** The OTP whose cache entry the validation deletes. */
  function Evicts(c: Core, user: nat, kind: OtpKind, code: string, f: Fate): set<nat> {
    var k := CodeOf(user, kind);
    if k in c.cache && k !in AfterValidate(c, user, kind, code, f).cache && c.cache[k].value.Code?
    then {c.cache[k].value.uuid} else {}
  }

  function Do(s: State, l: Step): State {
    var c := s.core;
    match l
    case Generate(user, kind, code, delay, cached) => s.(core := AfterGenerate(c, user, kind, code, delay, cached))
    case Validate(user, kind, code, f) =>
      State(AfterValidate(c, user, kind, code, f),
            if Uses(c, user, kind, code, f) then s.uses + [Use(Verdict(c, user, kind, code).id, c.now, |c.rows|)]
            else s.uses,
            s.evicted + Evicts(c, user, kind, code, f))
    case Wait(d) => s.(core := c.(now := c.now + d))
  }

  ghost function Codes(): Machine<State, Step> {
    Machine((s, l) => Can(s, l), (s, l) => Do(s, l))
  }

  function Initial(now: real): State {
    State(Core(now, map[], []), [], {})
  }

  predicate SameOwner(a: OtpRow, b: OtpRow) {
    a.user == b.user && a.kind == b.kind
  }

  /** A later OTP of the same user and kind exists, among the first `n`. */
  predicate Superseded(rows: seq<OtpRow>, id: nat, n: nat)
    requires id < |rows| && n <= |rows|
  {
    exists j :: id < j < n && SameOwner(rows[j], rows[id])
  }

  /** No later OTP of the same user and kind, among the first `n`, reached the cache. */
  predicate LastCached(rows: seq<OtpRow>, id: nat, n: nat)
    requires id < |rows| && n <= |rows|
  {
    forall j | id < j < n && SameOwner(rows[j], rows[id]) :: !rows[j].cached
  }

  lemma LatestIsNotSuperseded(rows: seq<OtpRow>, id: nat)
    requires id < |rows|
    ensures Latest(rows, rows[id].user, rows[id].kind) == Some(id) <==> !Superseded(rows, id, |rows|)
  {
    LatestIs(rows, rows[id].user, rows[id].kind);
  }

  /** A cached code is that of its own OTP, the last of its user and kind to reach the cache; it expires
      `delay` after it; and once the OTP is used the entry is no longer live. */
  ghost predicate CachedOk(c: Core, user: nat, kind: OtpKind) {
    var k := CodeOf(user, kind);
    k in c.cache ==>
      && c.cache[k].value.Code? && var id := c.cache[k].value.uuid;
         && id < |c.rows| && c.rows[id].user == user && c.rows[id].kind == kind && c.rows[id].cached
         && c.rows[id].code == c.cache[k].value.code && LastCached(c.rows, id, |c.rows|)
         && c.cache[k].expires == Some(c.rows[id].expires + c.rows[id].delay)
         && (c.rows[id].used ==> !Live(c.cache, k, c.now))
  }

  /** A code that reached the cache after all others of its user and kind is there until it is evicted. */
  predicate Present(s: State, id: nat)
    requires id < |s.core.rows|
  {
    var c, r := s.core, s.core.rows[id];
    r.cached && id !in s.evicted && LastCached(c.rows, id, |c.rows|) ==>
      CodeOf(r.user, r.kind) in c.cache && c.cache[CodeOf(r.user, r.kind)].value == Code(r.code, id)
  }

  /** An evicted entry never comes back. */
  predicate Gone(s: State, id: nat) {
    id < |s.core.rows| &&
    var k := CodeOf(s.core.rows[id].user, s.core.rows[id].kind);
    k in s.core.cache ==> s.core.cache[k].value.Code? && s.core.cache[k].value.uuid != id
  }

  /** A use is the only one of its OTP, which is marked, and was used no later than the delay after it
      expired, when no OTP that superseded it had reached the cache. */
  predicate UseOk(s: State, i: nat)
    requires i < |s.uses|
  {
    var u, rows := s.uses[i], s.core.rows;
    && u.id < u.rows <= |rows| && rows[u.id].used
    && u.at <= rows[u.id].expires + rows[u.id].delay
    && LastCached(rows, u.id, u.rows)
    && (forall j | 0 <= j < i :: s.uses[j].id != u.id)
  }

  ghost predicate Inv(s: State) {
    && (forall user: nat, kind: OtpKind :: CachedOk(s.core, user, kind))
    && (forall id | 0 <= id < |s.core.rows| :: s.core.rows[id].delay >= 0.0 && Present(s, id))
    && (forall i | 0 <= i < |s.uses| :: UseOk(s, i))
    && (forall id | id in s.evicted :: Gone(s, id))
  }

  /** An accepted code belongs to an unused OTP of its user and kind that no cached one superseded. */
  lemma AcceptedIsUnused(s: State, user: nat, kind: OtpKind, code: string)
    requires Inv(s) && Verdict(s.core, user, kind, code).Accepted?
    ensures var id, c := Verdict(s.core, user, kind, code).id, s.core;
            && id < |c.rows| && c.rows[id].user == user && c.rows[id].kind == kind
            && !c.rows[id].used && c.rows[id].code == code && LastCached(c.rows, id, |c.rows|)
            && c.now <= c.rows[id].expires + c.rows[id].delay
            && (Hit(c, user, kind, code).None? ==> Latest(c.rows, user, kind) == Some(id))
  {
    assert CachedOk(s.core, user, kind);
    LatestIs(s.core.rows, user, kind);
  }

  lemma LastCarries(rows: seq<OtpRow>, more: seq<OtpRow>, id: nat, n: nat)
    requires id < |rows| && n <= |rows| <= |more|
    requires forall i | 0 <= i < |rows| :: more[i].(used := rows[i].used) == rows[i]
    ensures LastCached(more, id, n) <==> LastCached(rows, id, n)
  {
    forall j | id < j < n
      ensures SameOwner(more[j], more[id]) <==> SameOwner(rows[j], rows[id])
      ensures more[j].cached == rows[j].cached
    {
    }
    if !LastCached(rows, id, n) {
      var j :| id < j < n && SameOwner(rows[j], rows[id]) && rows[j].cached;
      assert SameOwner(more[j], more[id]);
    }
    if !LastCached(more, id, n) {
      var j :| id < j < n && SameOwner(more[j], more[id]) && more[j].cached;
      assert SameOwner(rows[j], rows[id]);
    }
  }

  lemma GenerateKeepsCached(s: State, l: Step, user: nat, kind: OtpKind)
    requires Inv(s) && Can(s, l) && l.Generate?
    ensures CachedOk(Do(s, l).core, user, kind)
  {
    assert CachedOk(s.core, user, kind);
  }

  lemma GenerateKeepsPresent(s: State, l: Step, id: nat)
    requires Inv(s) && Can(s, l) && l.Generate? && id < |Do(s, l).core.rows|
    ensures Present(Do(s, l), id)
  {
    var n := |s.core.rows|;
    var rows := Do(s, l).core.rows;
    if id < n {
      assert Present(s, id);
      LastCarries(s.core.rows, rows, id, n);
      assert LastCached(rows, id, |rows|) ==> LastCached(rows, id, n) && !(SameOwner(rows[n], rows[id]) && l.cached);
    }
  }

  lemma ValidateKeepsCached(s: State, l: Step, user: nat, kind: OtpKind)
    requires Inv(s) && Can(s, l) && l.Validate?
    ensures CachedOk(Do(s, l).core, user, kind)
  {
    hide Latest, LastCached;
    var c, k := s.core, CodeOf(user, kind);
    assert CachedOk(c, user, kind);
    if Verdict(c, l.user, l.kind, l.code).Accepted? && k in c.cache {
      var id := Verdict(c, l.user, l.kind, l.code).id;
      AcceptedIsUnused(s, l.user, l.kind, l.code);
      LastCarries(c.rows, MarkUsed(c.rows, id), c.cache[k].value.uuid, |c.rows|);
    }
  }

  lemma ValidateKeepsPresent(s: State, l: Step, id: nat)
    requires Inv(s) && Can(s, l) && l.Validate? && id < |Do(s, l).core.rows|
    ensures Present(Do(s, l), id)
  {
    hide Latest, LastCached;
    var c := s.core;
    assert id < |c.rows| && Present(s, id);
    assert CachedOk(c, l.user, l.kind);
    if Verdict(c, l.user, l.kind, l.code).Accepted? {
      LastCarries(c.rows, MarkUsed(c.rows, Verdict(c, l.user, l.kind, l.code).id), id, |c.rows|);
    }
  }

  /** Rows are only appended and marked used. */
  lemma RowsKeep(s: State, l: Step)
    ensures |s.core.rows| <= |Do(s, l).core.rows|
    ensures forall i | 0 <= i < |s.core.rows| ::
              var a, b := s.core.rows[i], Do(s, l).core.rows[i];
              b.(used := a.used) == a && (a.used ==> b.used)
    ensures s.uses <= Do(s, l).uses
  {
  }

  lemma DoKeepsUse(s: State, l: Step, i: nat)
    requires Inv(s) && Can(s, l) && i < |Do(s, l).uses|
    ensures UseOk(Do(s, l), i)
  {
    hide Latest;
    var n := Do(s, l);
    RowsKeep(s, l);
    if i < |s.uses| {
      assert UseOk(s, i);
    } else {
      AcceptedIsUnused(s, l.user, l.kind, l.code);
      var id := Verdict(s.core, l.user, l.kind, l.code).id;
      forall j | 0 <= j < |s.uses| ensures s.uses[j].id != id {
        assert UseOk(s, j);
      }
    }
  }

  lemma WaitKeeps(s: State, l: Step, user: nat, kind: OtpKind)
    requires CachedOk(s.core, user, kind) && Can(s, l) && l.Wait?
    ensures CachedOk(Do(s, l).core, user, kind)
    ensures forall id | 0 <= id < |s.core.rows| && Present(s, id) :: Present(Do(s, l), id)
  {
  }

  lemma DelaysStay(s: State, l: Step)
    requires Inv(s) && Can(s, l)
    ensures forall i | 0 <= i < |Do(s, l).core.rows| :: Do(s, l).core.rows[i].delay >= 0.0
  {
    hide LastCached, Present, UseOk, Latest, Verdict, CachedOk, Gone;
    RowsKeep(s, l);
  }

  lemma EvictedStaysGone(s: State, l: Step, id: nat)
    requires Inv(s) && Can(s, l) && id in Do(s, l).evicted
    ensures Gone(Do(s, l), id)
  {
    hide LastCached, Present, UseOk, Latest, Verdict;
    RowsKeep(s, l);
    if l.Validate? {
      assert CachedOk(s.core, l.user, l.kind);
    }
    if id in s.evicted {
      assert Gone(s, id);
    }
  }

  lemma DoKeepsInv(s: State, l: Step)
    requires Inv(s) && Can(s, l)
    ensures Inv(Do(s, l))
  {
    hide CachedOk, UseOk, Present, Do, Gone;
    var n := Do(s, l);
    forall user: nat, kind: OtpKind ensures CachedOk(n.core, user, kind) {
      if l.Generate? {
        GenerateKeepsCached(s, l, user, kind);
      } else if l.Validate? {
        ValidateKeepsCached(s, l, user, kind);
      } else {
        WaitKeeps(s, l, user, kind);
      }
    }
    DelaysStay(s, l);
    forall id | id in n.evicted ensures Gone(n, id) { EvictedStaysGone(s, l, id); }
    forall id | 0 <= id < |n.core.rows| ensures Present(n, id) {
      if l.Generate? {
        GenerateKeepsPresent(s, l, id);
      } else if l.Validate? {
        ValidateKeepsPresent(s, l, id);
      } else {
        SameRows(s, l);
        WaitKeeps(s, l, 0, LoginOtp);
      }
    }
    forall i | 0 <= i < |n.uses| ensures UseOk(n, i) { DoKeepsUse(s, l, i); }
  }

  lemma SameRows(s: State, l: Step)
    requires l.Wait?
    ensures Do(s, l).core.rows == s.core.rows
  {
  }

  ghost predicate Attained(s: State) {
    exists now: real :: Reaches(Codes(), Initial(now), s)
  }

  lemma AttainedInv(s: State)
    requires Attained(s)
    ensures Inv(s)
  {
    hide Do, Can;
    forall x, l | Inv(x) && Can(x, l) ensures Inv(Do(x, l)) { DoKeepsInv(x, l); }
    var now: real :| Reaches(Codes(), Initial(now), s);
    var steps :| Valid(Codes(), Initial(now), steps) && Final(Codes(), Initial(now), steps) == s;
    InvariantHolds(Codes(), x => Inv(x), Initial(now), steps);
  }

  /** The verdict of the slow path alone, as with an empty cache. */
  function Uncached(c: Core): Core {
    c.(cache := map[])
  }

  /** The fast path refines the slow path: in every run, validation gives the verdict it would give with an
      empty cache exactly when the cached code is not the one presented, or is that of the latest OTP and this
      has not expired, as is certain if it was cached at the instant its expiry was computed; and with the
      same verdict, and a deletion that works, it has the same effect on the rows. */
  lemma FastPathRefinesSlowPath(s: State, user: nat, kind: OtpKind, code: string, f: Fate)
    requires Attained(s)
    ensures var c, hit := s.core, Hit(s.core, user, kind, code);
            && (Verdict(c, user, kind, code) == Verdict(Uncached(c), user, kind, code) <==>
                || hit.None?
                || (hit == Latest(c.rows, user, kind) && hit.value < |c.rows| && c.now <= c.rows[hit.value].expires))
            && (f.deleted && Verdict(c, user, kind, code) == Verdict(Uncached(c), user, kind, code) ==>
                  AfterValidate(c, user, kind, code, f).rows == AfterValidate(Uncached(c), user, kind, code, f).rows)
            && (hit.Some? && hit.value < |c.rows| && c.rows[hit.value].delay == 0.0 ==>
                c.now < c.rows[hit.value].expires)
  {
    hide Attained;
    AttainedInv(s);
    assert CachedOk(s.core, user, kind);
    LatestIs(s.core.rows, user, kind);
  }

  /** Codes are single use: over every run, whatever fails in it, each OTP is used at most once, no later than
      its expiry plus the time its code took to reach the cache, and when it was used no OTP that superseded
      it had reached the cache. */
  lemma CodesAreSingleUse(s: State)
    requires Attained(s)
    ensures forall i, j | 0 <= i < j < |s.uses| :: s.uses[i].id != s.uses[j].id
    ensures forall i | 0 <= i < |s.uses| ::
              var u, rows := s.uses[i], s.core.rows;
              && u.id < u.rows <= |rows| && u.at <= rows[u.id].expires + rows[u.id].delay
              && LastCached(rows, u.id, u.rows)
  {
    hide Attained;
    AttainedInv(s);
    forall i | 0 <= i < |s.uses|
      ensures var u, rows := s.uses[i], s.core.rows;
              && u.id < u.rows <= |rows| && u.at <= rows[u.id].expires + rows[u.id].delay
              && LastCached(rows, u.id, u.rows)
      ensures forall j | 0 <= j < i :: s.uses[j].id != s.uses[i].id
    {
      assert UseOk(s, i);
    }
  }

  /** A superseded code is accepted exactly when it is the right one, it reached the cache, none that superseded
      it did, its entry was not evicted by an earlier validation, and the entry has not expired. */
  lemma SupersededIsAccepted(s: State, id: nat, code: string)
    requires Attained(s) && id < |s.core.rows| && Superseded(s.core.rows, id, |s.core.rows|)
    ensures var c, r := s.core, s.core.rows[id];
            Verdict(c, r.user, r.kind, code) == Accepted(id) <==>
            && code == r.code && r.cached && LastCached(c.rows, id, |c.rows|)
            && id !in s.evicted && c.now < r.expires + r.delay
  {
    hide Attained;
    AttainedInv(s);
    var c, r := s.core, s.core.rows[id];
    var k := CodeOf(r.user, r.kind);
    assert CachedOk(c, r.user, r.kind) && Present(s, id);
    LatestIsNotSuperseded(c.rows, id);
    if id in s.evicted {
      assert Gone(s, id);
    }
  }

  lemma Next(s: State, l: Step)
    requires Attained(s) && Can(s, l)
    ensures Attained(Do(s, l))
  {
    var now: real :| Reaches(Codes(), Initial(now), s);
    ReachesStep(Codes(), Initial(now), s, l);
  }

  lemma Begin()
    ensures Attained(Initial(0.0))
  {
    ReachesRefl(Codes(), Initial(0.0));
  }

  /** What one step does: a generation adds one unused OTP, which lasts as its kind does; a validation uses what
      it newly marks, and nothing else; and time passes only while generating and waiting. */
  lemma StepsSay(s: State, l: Step)
    requires Attained(s) && Can(s, l)
    ensures var c, d, n := s.core, Do(s, l).core, |s.core.rows|;
            match l
            case Generate(user, kind, code, delay, cached) =>
              && d.now == c.now + delay && Do(s, l).uses == s.uses && Do(s, l).evicted == s.evicted
              && |d.rows| == n + 1 && d.rows[..n] == c.rows && Latest(d.rows, user, kind) == Some(n)
              && d.rows[n].code == code && !d.rows[n].used && d.rows[n].delay == delay && d.rows[n].cached == cached
              && exists seconds :: Lasts(kind, seconds) && d.rows[n].expires == c.now + seconds as real
            case Validate(_, _, _, _) =>
              && d.now == c.now && |d.rows| == n
              && (d.rows == c.rows ==> Do(s, l).uses == s.uses)
              && (forall id | 0 <= id < n && d.rows[id].used && !c.rows[id].used ::
                    Do(s, l).uses == s.uses + [Use(id, c.now, n)])
            case Wait(seconds) => d == c.(now := c.now + seconds) && Do(s, l).uses == s.uses
  {
    hide Attained;
    AttainedInv(s);
    match l
    case Generate(_, kind, _, _, _) => assert Lasts(kind, Ttl(kind));
    case Validate(user, kind, code, _) =>
      if Verdict(s.core, user, kind, code).Accepted? {
        AcceptedIsUnused(s, user, kind, code);
      }
    case Wait(_) =>
  }

  /** It does happen: after a generation whose code did not reach the cache, the superseded one is accepted and
      used up. */
  lemma FailedCacheAcceptsSuperseded(code: string, next: string) returns (s: State)
    ensures Attained(s) && |s.core.rows| == 2 && Superseded(s.core.rows, 0, 2)
    ensures s.core.rows[0].code == code && s.uses == [Use(0, 0.0, 2)] && s.core.rows[0].used
  {
    hide Attained;
    Begin();
    s := Initial(0.0);
    Next(s, Generate(1, LoginOtp, code, 0.0, true));
    s := Do(s, Generate(1, LoginOtp, code, 0.0, true));
    Next(s, Generate(1, LoginOtp, next, 0.0, false));
    s := Do(s, Generate(1, LoginOtp, next, 0.0, false));
    Next(s, Validate(1, LoginOtp, code, Fate(true, true, true)));
    s := Do(s, Validate(1, LoginOtp, code, Fate(true, true, true)));
    assert SameOwner(s.core.rows[1], s.core.rows[0]);
  }
}
