/** The transport encoding of domain events: `serialize`, `to_json`, `from_json` and `deserialize`.
    A JSON text is a value together with one of its spellings (key order, white space), so that
    dumping and loading are an inverse pair on values while byte identity stays visible. */
module Wire {
  datatype Option<+T> = None | Some(value: T)

  datatype Result<+T> = Success(value: T) | Failure(error: WireError)

  /** `EventSerializationError` is the only error consumers catch. `LoadError` is what `json.loads` raises
      besides a decode error, `TypeError` what `json.dumps` raises for a value it cannot encode, and
      `ColumnError` what the database raises for a value that does not fit its column. */
  datatype WireError = EventSerializationError | LoadError | TypeError | ColumnError

  datatype Json =
    | JNull
    | JBool(flag: bool)
    | JInt(i: int)
    | JFloat(x: real)
    | JStr(text: string)
    | JArr(items: seq<Json>)
    | JObj(fields: map<string, Json>)

  datatype Bytes =
    | Text(json: Json, spelling: nat)
    | Garbled(raw: nat)     // not UTF-8, or not JSON
    | Unloadable(raw: nat)  // JSON whose integers or nesting exceed the interpreter's limits

  /** Python values a dataclass field may hold. */
  datatype Value =
    | PyNone
    | PyBool(flag: bool)
    | PyInt(i: int)
    | PyFloat(x: real)
    | PyStr(text: string)
    | PyList(items: seq<Value>)
    | PyDict(entries: map<string, Value>)
    | PyTuple(parts: seq<Value>)
    | PySet(members: seq<Value>)             // in iteration order
    | PyRecord(fields: map<string, Value>)   // a nested dataclass instance
    | PyOpaque(id: nat)                      // a value json.dumps rejects

  /** An instance of a dataclass, identified by its class's module and qualified name. */
  datatype Event = Event(modName: string, qualname: string, fields: map<string, Value>)

  datatype Object = Instance(event: Event) | NotADataclass

  /** `event_class` is annotated `str`, but `from_json` stores whatever the JSON held. */
  datatype SerializedEvent = SerializedEvent(eventClass: Value, payload: Value)

  /** What `__import__` and `getattr` find: module name, attribute name, class. */
  datatype ClassDef = ClassDef(modName: string, qualname: string, required: set<string>, defaults: map<string, Value>)
  type Registry = map<string, map<string, ClassDef>>

  /** `WithDefault` is `to_json`, whose fallback turns a set into a list; `Plain` is the driver's
      encoder for a JSONB column. */
  datatype Encoder = WithDefault | Plain

  /** `dataclasses.asdict` followed by `json.dumps`. `asdict` does not look inside a set, so a record
      in a set reaches the encoder unconverted and is rejected. */
  function Dump(v: Value, enc: Encoder, inSet: bool): Option<Json> {
    match v
    case PyNone => Some(JNull)
    case PyBool(b) => Some(JBool(b))
    case PyInt(i) => Some(JInt(i))
    case PyFloat(x) => Some(JFloat(x))
    case PyStr(s) => Some(JStr(s))
    case PyList(xs) => DumpAll(xs, enc, inSet)
    case PyTuple(xs) => DumpAll(xs, enc, inSet)
    case PySet(xs) => if enc.WithDefault? then DumpAll(xs, enc, true) else None
    case PyDict(m) =>
      if forall k | k in m :: Dump(m[k], enc, inSet).Some? then
        Some(JObj(map k | k in m :: Dump(m[k], enc, inSet).value))
      else None
    case PyRecord(m) =>
      if !inSet && forall k | k in m :: Dump(m[k], enc, inSet).Some? then
        Some(JObj(map k | k in m :: Dump(m[k], enc, inSet).value))
      else None
    case PyOpaque(_) => None
  }

  function DumpAll(xs: seq<Value>, enc: Encoder, inSet: bool): Option<Json> {
    if forall x | x in xs :: Dump(x, enc, inSet).Some? then
      Some(JArr(seq(|xs|, k requires 0 <= k < |xs| => Dump(xs[k], enc, inSet).value)))
    else None
  }

  /** The JSON object for a dict of fields. */
  function DumpFields(m: map<string, Value>, enc: Encoder): Option<map<string, Json>> {
    if forall k | k in m :: Dump(m[k], enc, false).Some? then
      Some(map k | k in m :: Dump(m[k], enc, false).value)
    else None
  }

  /** `json.loads`. */
  function Load(j: Json): Value {
    match j
    case JNull => PyNone
    case JBool(b) => PyBool(b)
    case JInt(i) => PyInt(i)
    case JFloat(x) => PyFloat(x)
    case JStr(s) => PyStr(s)
    case JArr(items) => PyList(seq(|items|, k requires 0 <= k < |items| => Load(items[k])))
    case JObj(fields) => PyDict(map k | k in fields :: Load(fields[k]))
  }

  function LoadFields(fields: map<string, Json>): map<string, Value> {
    map k | k in fields :: Load(fields[k])
  }

  /** Values built only from what JSON itself can hold. */
  predicate Native(v: Value) {
    match v
    case PyList(xs) => forall x | x in xs :: Native(x)
    case PyDict(m) => forall k | k in m :: Native(m[k])
    case PyTuple(_) => false
    case PySet(_) => false
    case PyRecord(_) => false
    case PyOpaque(_) => false
    case _ => true
  }

  predicate NativeFields(m: map<string, Value>) {
    forall k | k in m :: Native(m[k])
  }

  /** Loading what was dumped gives the value back exactly when the value is JSON-native. */
  lemma {:induction false} DumpLoadsBack(v: Value, enc: Encoder, inSet: bool)
    ensures Native(v) ==> Dump(v, enc, inSet).Some?
    ensures Dump(v, enc, inSet).Some? ==> (Load(Dump(v, enc, inSet).value) == v <==> Native(v))
  {
    match v
    case PyList(xs) =>
      forall k | 0 <= k < |xs|
        ensures Native(xs[k]) ==> Dump(xs[k], enc, inSet).Some?
        ensures Dump(xs[k], enc, inSet).Some? ==> (Load(Dump(xs[k], enc, inSet).value) == xs[k] <==> Native(xs[k]))
      {
        DumpLoadsBack(xs[k], enc, inSet);
      }
      if Dump(v, enc, inSet).Some? {
        var dumped := DumpAll(xs, enc, inSet);
        assert Dump(v, enc, inSet) == dumped && dumped.value.JArr?;
        var back := Load(dumped.value);
        assert forall k | 0 <= k < |xs| :: back.items[k] == Load(Dump(xs[k], enc, inSet).value);
        if !Native(v) {
          var k :| 0 <= k < |xs| && !Native(xs[k]);
          assert back.items[k] != xs[k];
        }
      }
    case PyDict(m) =>
      forall k | k in m
        ensures Native(m[k]) ==> Dump(m[k], enc, inSet).Some?
        ensures Dump(m[k], enc, inSet).Some? ==> (Load(Dump(m[k], enc, inSet).value) == m[k] <==> Native(m[k]))
      {
        DumpLoadsBack(m[k], enc, inSet);
      }
      if Dump(v, enc, inSet).Some? {
        var back := Load(Dump(v, enc, inSet).value);
        assert forall k | k in m :: back.entries[k] == Load(Dump(m[k], enc, inSet).value);
        if !Native(v) {
          var k :| k in m && !Native(m[k]);
          assert back.entries[k] != m[k];
        }
      }
    case _ =>
  }

  /** Dumping what was loaded gives the JSON back. */
  lemma {:induction false} LoadDumpsBack(j: Json, enc: Encoder)
    ensures Dump(Load(j), enc, false) == Some(j)
  {
    match j
    case JArr(items) =>
      forall k | 0 <= k < |items| ensures Dump(Load(items[k]), enc, false) == Some(items[k]) {
        LoadDumpsBack(items[k], enc);
      }
      var loaded := Load(j).items;
      assert |loaded| == |items| && forall k | 0 <= k < |items| :: loaded[k] == Load(items[k]);
      assert DumpAll(loaded, enc, false).value.items == items;
    case JObj(fields) =>
      forall k | k in fields ensures Dump(Load(fields[k]), enc, false) == Some(fields[k]) {
        LoadDumpsBack(fields[k], enc);
      }
      var loaded := Load(j).entries;
      assert forall k | k in fields :: loaded[k] == Load(fields[k]);
      assert Dump(PyDict(loaded), enc, false).value.fields == fields;
    case _ =>
  }

  lemma FieldsLoadBack(m: map<string, Value>, enc: Encoder)
    ensures NativeFields(m) ==> DumpFields(m, enc).Some?
    ensures DumpFields(m, enc).Some? ==> (LoadFields(DumpFields(m, enc).value) == m <==> NativeFields(m))
  {
    DumpLoadsBack(PyDict(m), enc, false);
    if DumpFields(m, enc).Some? {
      assert Dump(PyDict(m), enc, false) == Some(JObj(DumpFields(m, enc).value));
      assert Load(JObj(DumpFields(m, enc).value)) == PyDict(LoadFields(DumpFields(m, enc).value));
    }
  }

  /** `rsplit(".", 1)` when it yields two parts. */
  function SplitLast(s: string): (r: Option<(string, string)>)
    ensures r.Some? ==> s == r.value.0 + "." + r.value.1 && '.' !in r.value.1
    ensures r.None? ==> '.' !in s
  {
    if s == "" then None
    else if s[|s| - 1] == '.' then Some((s[..|s| - 1], ""))
    else
      match SplitLast(s[..|s| - 1])
      case None => None
      case Some((m, c)) => Some((m, c + [s[|s| - 1]]))
  }

  lemma SplitLastUnique(s: string, m: string, c: string)
    requires s == m + "." + c && '.' !in c
    ensures SplitLast(s) == Some((m, c))
  {
    assert s[|m|] == '.';
    var (m', c') := SplitLast(s).value;
    assert s[|m'|] == '.';
    assert forall i | |m| < i < |s| :: s[i] == c[i - |m| - 1] && s[i] != '.';
    assert forall i | |m'| < i < |s| :: s[i] == c'[i - |m'| - 1] && s[i] != '.';
    assert |m| == |m'|;
    assert m == s[..|m|] && m' == s[..|m'|];
    assert c == s[|m| + 1..] && c' == s[|m'| + 1..];
  }

  function ClassPath(e: Event): string {
    e.modName + "." + e.qualname
  }

  function Envelope(s: SerializedEvent): Value {
    PyDict(map["event_class" := s.eventClass, "payload" := s.payload])
  }

  function ToJson(s: SerializedEvent, spelling: nat): Result<Bytes> {
    match Dump(Envelope(s), WithDefault, false)
    case None => Failure(TypeError)
    case Some(j) => Success(Text(j, spelling))
  }

  function FromJson(data: Bytes): Result<SerializedEvent> {
    match data
    case Garbled(_) => Failure(EventSerializationError)
    case Unloadable(_) => Failure(LoadError)
    case Text(j, _) =>
      if !j.JObj? || "event_class" !in j.fields then Failure(EventSerializationError)
      else Success(SerializedEvent(
        Load(j.fields["event_class"]),
        if "payload" in j.fields then Load(j.fields["payload"]) else PyDict(map[])))
  }

  function Resolve(reg: Registry, path: string): Option<ClassDef> {
    match SplitLast(path)
    case None => None
    case Some((m, c)) =>
      if m != "" && c != "" && m in reg && c in reg[m] then Some(reg[m][c]) else None
  }

  /** The call `event_cls(**payload)`; a signature mismatch raises. */
  predicate Accepts(cd: ClassDef, keys: set<string>) {
    cd.required <= keys <= cd.required + cd.defaults.Keys
  }

  function Deserialize(reg: Registry, s: SerializedEvent): Result<Event> {
    if !s.eventClass.PyStr? then Failure(EventSerializationError)
    else
      match Resolve(reg, s.eventClass.text)
      case None => Failure(EventSerializationError)
      case Some(cd) =>
        if !s.payload.PyDict? || !Accepts(cd, s.payload.entries.Keys) then Failure(EventSerializationError)
        else Success(Event(cd.modName, cd.qualname, cd.defaults + s.payload.entries))
  }

  /** What a consumer does with the bytes of a message. */
  function Decode(reg: Registry, data: Bytes): Result<Event> {
    match FromJson(data)
    case Failure(err) => Failure(err)
    case Success(s) => Deserialize(reg, s)
  }

  function Encode(e: Event, spelling: nat): Result<Bytes> {
    ToJson(SerializedEvent(PyStr(ClassPath(e)), PyDict(e.fields)), spelling)
  }

  /** The bytes name a class by a dotted path that resolves, and carry fields it accepts. */
  ghost predicate WellFormed(reg: Registry, data: Bytes, m: string, c: string, keys: set<string>) {
    && data.Text? && data.json.JObj?
    && "event_class" in data.json.fields && data.json.fields["event_class"] == JStr(m + "." + c)
    && '.' !in c && m != "" && c != "" && m in reg && c in reg[m]
    && Accepts(reg[m][c], keys)
    && (if "payload" in data.json.fields
        then data.json.fields["payload"].JObj? && data.json.fields["payload"].fields.Keys == keys
        else keys == {})
  }

  /** Decoding any bytes gives an event exactly for well-formed envelopes, an error consumers do not catch
      exactly for bytes the JSON loader gives up on, and `EventSerializationError` for all others. */
  lemma DecodeExactly(reg: Registry, data: Bytes)
    ensures Decode(reg, data).Success? <==> exists m, c, keys :: WellFormed(reg, data, m, c, keys)
    ensures Decode(reg, data) == Failure(LoadError) <==> data.Unloadable?
    ensures Decode(reg, data) == Failure(EventSerializationError) <==>
            !data.Unloadable? && !exists m, c, keys :: WellFormed(reg, data, m, c, keys)
  {
    if m, c, keys :| WellFormed(reg, data, m, c, keys) {
      SplitLastUnique(m + "." + c, m, c);
      assert Decode(reg, data).Success?;
    }
    if Decode(reg, data).Success? {
      var s := FromJson(data).value;
      assert data.json.fields["event_class"].JStr?;
      var (m, c) := SplitLast(s.eventClass.text).value;
      assert WellFormed(reg, data, m, c, s.payload.entries.Keys);
    }
  }

  /** The envelope written by `to_json` is read back with the same class path and the loaded payload. */
  lemma EnvelopeReadsBack(path: string, payload: map<string, Value>, spelling: nat)
    ensures match ToJson(SerializedEvent(PyStr(path), PyDict(payload)), spelling)
            case Failure(e) => e == TypeError && DumpFields(payload, WithDefault).None?
            case Success(b) =>
              && DumpFields(payload, WithDefault).Some?
              && FromJson(b) == Success(SerializedEvent(
                   PyStr(path), PyDict(LoadFields(DumpFields(payload, WithDefault).value))))
  {
    var env := Envelope(SerializedEvent(PyStr(path), PyDict(payload)));
    assert env.entries["event_class"] == PyStr(path) && env.entries["payload"] == PyDict(payload);
    var inner := Dump(PyDict(payload), WithDefault, false);
    assert inner.Some? ==> inner.value == JObj(DumpFields(payload, WithDefault).value);
    if inner.Some? {
      assert Dump(env, WithDefault, false).Some?;
      var j := Dump(env, WithDefault, false).value;
      assert j.fields["event_class"] == JStr(path) && j.fields["payload"] == inner.value;
      assert Load(inner.value) == PyDict(LoadFields(DumpFields(payload, WithDefault).value));
    } else {
      assert "payload" in env.entries;
    }
  }

  /** Decoding an encoded event returns that same event exactly when its class path resolves to its
      own class, its fields are exactly that class's, and every field is JSON-native. */
  lemma EventRoundTrip(reg: Registry, e: Event, spelling: nat)
    ensures NativeFields(e.fields) ==> Encode(e, spelling).Success?
    ensures Encode(e, spelling).Success? ==>
              (Decode(reg, Encode(e, spelling).value) == Success(e) <==>
               Registered(reg, e) && NativeFields(e.fields))
  {
    EnvelopeReadsBack(ClassPath(e), e.fields, spelling);
    FieldsLoadBack(e.fields, WithDefault);
    if Encode(e, spelling).Success? {
      var loaded := LoadFields(DumpFields(e.fields, WithDefault).value);
      assert loaded.Keys == e.fields.Keys;
      var r := Decode(reg, Encode(e, spelling).value);
      if r.Success? {
        var cd := Resolve(reg, ClassPath(e)).value;
        assert r.value.fields == cd.defaults + loaded;
        assert loaded.Keys >= cd.defaults.Keys ==> cd.defaults + loaded == loaded;
        if r == Success(e) {
          assert cd.defaults.Keys <= e.fields.Keys;
        }
      }
    }
  }

  predicate Registered(reg: Registry, e: Event) {
    match Resolve(reg, ClassPath(e))
    case None => false
    case Some(cd) =>
      cd.modName == e.modName && cd.qualname == e.qualname && cd.required + cd.defaults.Keys == e.fields.Keys
  }
}
