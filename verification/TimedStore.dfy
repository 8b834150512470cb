/** The expiring key-value store behind rate limits, token revocation, one-time codes and cached
    permissions. Keys are typed here; in the source they are strings with disjoint prefixes. */
module TimedStore {
  import opened Runs
  import opened Wire

  datatype OtpKind = LoginOtp | PasswordResetOtp | EmailVerifyOtp | PhoneVerifyOtp

  datatype Key =
    | RequestsOf(client: string)
    | Blacklisted(jti: nat)
    | CodeOf(user: nat, kind: OtpKind)
    | PermissionsOf(user: nat)

  datatype Stored =
    | Count(n: int)
    | Flag
    | Code(code: string, uuid: nat)
    | Names(names: seq<string>)

  /** `expires` is the instant from which the key is gone; a key without a TTL never expires. */
  datatype Entry = Entry(value: Stored, expires: Option<real>)

  type Entries = map<Key, Entry>

  predicate Live(e: Entries, k: Key, now: real) {
    k in e && (e[k].expires.None? || now < e[k].expires.value)
  }

  function Look(e: Entries, k: Key, now: real): Option<Stored> {
    if Live(e, k, now) then Some(e[k].value) else None
  }

  /** `SETEX` */
  function Put(e: Entries, k: Key, v: Stored, now: real, ttl: int): Entries {
    e[k := Entry(v, Some(now + ttl as real))]
  }

  function Without(e: Entries, k: Key): Entries {
    e - {k}
  }

  /** `INCR`: a live counter keeps its TTL, an absent one starts at 1 without a TTL. */
  function Incremented(e: Entries, k: Key, now: real): Entries {
    if Live(e, k, now) && e[k].value.Count? then e[k := e[k].(value := Count(e[k].value.n + 1))]
    else e[k := Entry(Count(1), None)]
  }

  /** One command on the store, at the instant it is carried out. */
  datatype Command =
    | SetEx(key: Key, value: Stored, at: real, ttl: int)
    | Del(key: Key)
    | IncrBy(key: Key, at: real)

  function Perform(e: Entries, c: Command): Entries {
    match c
    case SetEx(k, v, at, ttl) => Put(e, k, v, at, ttl)
    case Del(k) => Without(e, k)
    case IncrBy(k, at) => Incremented(e, k, at)
  }

  ghost function Store(): Machine<Entries, Command> {
    Machine((e, c) => true, (e, c) => Perform(e, c))
  }

  /** A value that was set is what is read until its TTL has passed, and nothing is read from then on, whatever
      is done to other keys meanwhile. */
  lemma {:induction false} ValueLastsItsTtl(
    e: Entries, k: Key, v: Stored, now: real, ttl: int, commands: seq<Command>, t: real)
    requires forall i | 0 <= i < |commands| :: commands[i].key != k
    ensures Look(Final(Store(), Put(e, k, v, now, ttl), commands), k, t) ==
            if t < now + ttl as real then Some(v) else None
  {
    if commands != [] {
      ValueLastsItsTtl(e, k, v, now, ttl, commands[..|commands| - 1], t);
    }
  }

  class RedisCache {
    var now: real
    var entries: Entries

    constructor (now: real)
      ensures this.now == now && entries == map[]
    {
      this.now, entries := now, map[];
    }

    method Get(k: Key) returns (v: Option<Stored>)
      ensures v == Look(entries, k, now)
    {
      v := if k in entries && (entries[k].expires.None? || now < entries[k].expires.value)
      then Some(entries[k].value) else None;
    }

    method Exists(k: Key) returns (found: bool)
      ensures found == Live(entries, k, now)
    {
      var v := Get(k);
      found := v.Some?;
    }

    /** From now on the key is read as `v` until the TTL has passed; other keys are read as before. */
    method Set(k: Key, v: Stored, ttl: int)
      requires ttl >= 1
      modifies this`entries
      ensures entries == Put(old(entries), k, v, now, ttl)
      ensures forall t :: Look(entries, k, t) == if t < now + ttl as real then Some(v) else None
      ensures forall other, t | other != k :: Look(entries, other, t) == Look(old(entries), other, t)
    {
      entries := entries[k := Entry(v, Some(now + ttl as real))];
    }

    method Delete(k: Key)
      modifies this`entries
      ensures entries == Without(old(entries), k)
      ensures forall t :: Look(entries, k, t) == None
      ensures forall other, t | other != k :: Look(entries, other, t) == Look(old(entries), other, t)
    {
      entries := entries - {k};
    }

    /** Only counters are ever kept under a counter's key. */
    method Incr(k: Key) returns (n: int)
      requires Live(entries, k, now) ==> entries[k].value.Count?
      modifies this`entries
      ensures entries == Incremented(old(entries), k, now)
      ensures Look(entries, k, now) == Some(Count(n))
    {
      var v := Get(k);
      if v.Some? {
        n := v.value.n + 1;
        entries := entries[k := entries[k].(value := Count(n))];
      } else {
        n := 1;
        entries := entries[k := Entry(Count(1), None)];
      }
    }

    method Wait(seconds: real)
      requires seconds >= 0.0
      modifies this`now
      ensures now == old(now) + seconds
    {
      now := now + seconds;
    }
  }
}
