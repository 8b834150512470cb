/** The consumer side of the event pipeline as a step machine: the EVENTS work queue, the consumer
    tasks handling its deliveries, the dead-letter stream, and the tasks persisting dead letters.
    One step is what happens between two awaits. The steps of the environment are adversarial: a
    publish or an ack may raise before or after the server applied it, a commit likewise, and a task
    may die anywhere. Any number of tasks interleave. */
module Delivery {
  import opened Runs
  import opened Subjects
  import opened Wire

  datatype Message = Message(subject: string, data: Bytes)

  /** The headers of a dead-letter message; `count` is `None` when it does not parse as an integer. */
  datatype Headers = Headers(error: Option<string>, origin: Option<string>, count: Option<int>)

  datatype Copy = Copy(subject: string, data: Bytes, headers: Headers)

  /** A dead-letter payload: the decoded one, or the raw bytes in base64. */
  datatype DeadPayload = Decoded(payload: Value) | RawBase64(bytes: Bytes)

  datatype DeadRow = DeadRow(
    classPath: Value, payload: DeadPayload, subject: string, error: string, attempts: int, resolved: bool)

  /** `handlers` gives, for each subject with a durable consumer, how many handlers it runs. */
  datatype Config = Config(
    prefixes: Prefixes, registry: Registry, handlers: map<string, nat>, maxDeliver: nat, dlqMaxDeliver: nat)

  datatype Pc =
    | Received
    | Handling
    | Acking
    | Failed(error: string)
    | DeadLettering(error: string, count: nat)
    | Confirming
    | Naking
    | Ended

  /** One delivery of message `id`. `metadata` says whether its delivery number can be read; `done`
      counts completed handlers; `copy` is the dead letter this delivery stored. */
  datatype Task = Task(id: nat, number: nat, metadata: bool, done: nat, pc: Pc, copy: Option<nat>)

  datatype WriterPc = Persisting | AckingCopy | NakingCopy | WriterEnded

  /** One delivery of dead letter `copy`; `row` is the table row it committed. */
  datatype Writer = Writer(copy: nat, number: nat, metadata: bool, pc: WriterPc, row: Option<nat>)

  /** `log` is everything EVENTS ever accepted; `retained` and `delivered` run parallel to it.
      `dlqFrom` and `rowFrom` record which task stored a dead letter and which writer a row. */
  datatype State = State(
    log: seq<Message>, retained: seq<bool>, delivered: seq<nat>,
    tasks: seq<Task>,
    dlq: seq<Copy>, dlqFrom: seq<nat>, dlqDelivered: seq<nat>, dlqAcked: seq<bool>,
    writers: seq<Writer>,
    rows: seq<DeadRow>, rowFrom: seq<nat>)

  datatype Step =
    | Accept(message: Message)
    | Deliver(id: nat, metadata: bool)
    | Parse(task: nat)
    | HandlerOk(task: nat)
    | HandlerRaise(task: nat, error: string)
    | Ack(task: nat, applied: bool, raised: bool, error: string)
    | Triage(task: nat)
    | DlqOffline(task: nat)
    | DlqPublish(task: nat, stored: bool, raised: bool)
    | Confirm(task: nat, applied: bool)
    | Nak(task: nat)
    | Crash(task: nat)
    | DeliverCopy(copy: nat, metadata: bool)
    | Persist(writer: nat, inserted: bool, raised: bool)
    | AckCopy(writer: nat, applied: bool)
    | NakCopy(writer: nat)
    | CrashCopy(writer: nat)
    | Resolve(row: nat)

  const UNPARSABLE := "<unparsable>"
  const DEFAULT_ERROR := "Exceeded max delivery attempts"
  const COLUMN_WIDTH := 255

  predicate Decodable(cfg: Config, m: Message) {
    Decode(cfg.registry, m.data).Success?
  }

  /** The JSON loader does not give up on the message's bytes; else its error leaves the consumer loop. */
  predicate Loadable(data: Bytes) {
    !data.Unloadable?
  }

  function Handlers(cfg: Config, m: Message): nat {
    if m.subject in cfg.handlers then cfg.handlers[m.subject] else 0
  }

  /** `_num_delivered`: the delivery number, or the caller's fallback without metadata. */
  function NumDelivered(number: nat, metadata: bool, fallback: nat): nat {
    if metadata then number else fallback
  }

  function DeadLetter(cfg: Config, m: Message, error: string, count: nat): Copy {
    Copy(DlqSubject(cfg.prefixes, m.subject), m.data, Headers(Some(error), Some(m.subject), Some(count)))
  }

  /** `headers.get(name) or fallback` */
  function OrElse(header: Option<string>, fallback: string): string {
    if header.Some? && header.value != "" then header.value else fallback
  }

  /** The row `_persist_dlq_message` builds from a dead letter. */
  function RowFor(cfg: Config, c: Copy): DeadRow {
    var (path, payload) :=
      match FromJson(c.data)
      case Success(s) => (s.eventClass, Decoded(s.payload))
      case Failure(_) => (PyStr(UNPARSABLE), RawBase64(c.data));
    DeadRow(path, payload,
            OrElse(c.headers.origin, OriginSubject(cfg.prefixes, c.subject)),
            OrElse(c.headers.error, DEFAULT_ERROR),
            if c.headers.count.Some? then c.headers.count.value else cfg.maxDeliver,
            false)
  }

  /** The string columns hold strings of at most 255 characters; anything else fails the insert. */
  predicate Storable(r: DeadRow) {
    r.classPath.PyStr? && |r.classPath.text| <= COLUMN_WIDTH && |r.subject| <= COLUMN_WIDTH
  }

  predicate AtTask(s: State, j: nat, pc: Pc) {
    j < |s.tasks| && s.tasks[j].pc == pc && s.tasks[j].id < |s.log| && s.tasks[j].id < |s.retained|
  }

  predicate AtWriter(s: State, w: nat, pc: WriterPc) {
    w < |s.writers| && s.writers[w].pc == pc && s.writers[w].copy < |s.dlq| && s.writers[w].copy < |s.dlqAcked|
  }

  predicate Enabled(cfg: Config, s: State, l: Step) {
    match l
    case Accept(m) => Captured(cfg.prefixes.events, m.subject)
    case Deliver(id, _) =>
      && id < |s.log| && id < |s.retained| && id < |s.delivered|
      && s.retained[id] && s.delivered[id] < cfg.maxDeliver && s.log[id].subject in cfg.handlers
    case Parse(j) => AtTask(s, j, Received)
    case HandlerOk(j) => AtTask(s, j, Handling)
    case HandlerRaise(j, _) => AtTask(s, j, Handling)
    case Ack(j, applied, raised, _) => AtTask(s, j, Acking)
    case Triage(j) => j < |s.tasks| && s.tasks[j].pc.Failed? && AtTask(s, j, s.tasks[j].pc)
    case DlqOffline(j) => j < |s.tasks| && s.tasks[j].pc.DeadLettering? && AtTask(s, j, s.tasks[j].pc)
    case DlqPublish(j, stored, raised) =>
      && j < |s.tasks| && s.tasks[j].pc.DeadLettering? && AtTask(s, j, s.tasks[j].pc)
      && (stored || raised)
    case Confirm(j, _) => AtTask(s, j, Confirming)
    case Nak(j) => AtTask(s, j, Naking)
    case Crash(j) => j < |s.tasks| && !s.tasks[j].pc.Ended?
    case DeliverCopy(c, _) =>
      && c < |s.dlq| && c < |s.dlqAcked| && c < |s.dlqDelivered|
      && !s.dlqAcked[c] && s.dlqDelivered[c] < cfg.dlqMaxDeliver
    case Persist(w, inserted, raised) =>
      && AtWriter(s, w, Persisting)
      && (inserted || raised)
      && Loadable(s.dlq[s.writers[w].copy].data)
      && (inserted ==> Storable(RowFor(cfg, s.dlq[s.writers[w].copy])))
    case AckCopy(w, _) => AtWriter(s, w, AckingCopy)
    case NakCopy(w) => AtWriter(s, w, NakingCopy)
    case CrashCopy(w) => w < |s.writers| && !s.writers[w].pc.WriterEnded?
    case Resolve(r) => r < |s.rows|
  }

  function SetPc(s: State, j: nat, pc: Pc): State
    requires j < |s.tasks|
  {
    s.(tasks := s.tasks[j := s.tasks[j].(pc := pc)])
  }

  function SetWriterPc(s: State, w: nat, pc: WriterPc): State
    requires w < |s.writers|
  {
    s.(writers := s.writers[w := s.writers[w].(pc := pc)])
  }

  function Release(s: State, id: nat, applied: bool): State
    requires id < |s.retained|
  {
    if applied then s.(retained := s.retained[id := false]) else s
  }

  /** A handler set is complete once `done` reaches its size. */
  function NextHandler(done: nat, total: nat): Pc {
    if done < total then Handling else Acking
  }

  /** Where decoding leads. */
  function ParsedPc(cfg: Config, t: Task, m: Message): Pc {
    if !Loadable(m.data) then Ended
    else if Decodable(cfg, m) then NextHandler(0, Handlers(cfg, m))
    else DeadLettering("EventSerializationError", NumDelivered(t.number, t.metadata, 1))
  }

  /** `_handle_delivery_failure`'s decision. */
  function TriagePc(cfg: Config, t: Task, error: string): Pc {
    var count := NumDelivered(t.number, t.metadata, cfg.maxDeliver);
    if count < cfg.maxDeliver then Naking else DeadLettering(error, count)
  }

  function Apply(cfg: Config, s: State, l: Step): State {
    if !Enabled(cfg, s, l) then s else
    match l
    case Accept(m) =>
      s.(log := s.log + [m], retained := s.retained + [true], delivered := s.delivered + [0])
    case Deliver(id, metadata) =>
      s.(delivered := s.delivered[id := s.delivered[id] + 1],
         tasks := s.tasks + [Task(id, s.delivered[id] + 1, metadata, 0, Received, None)])
    case Parse(j) => SetPc(s, j, ParsedPc(cfg, s.tasks[j], s.log[s.tasks[j].id]))
    case HandlerOk(j) =>
      var t := s.tasks[j];
      s.(tasks := s.tasks[j := t.(done := t.done + 1, pc := NextHandler(t.done + 1, Handlers(cfg, s.log[t.id])))])
    case HandlerRaise(j, error) => SetPc(s, j, Failed(error))
    case Ack(j, applied, raised, error) =>
      SetPc(Release(s, s.tasks[j].id, applied), j, if raised then Failed(error) else Ended)
    case Triage(j) => SetPc(s, j, TriagePc(cfg, s.tasks[j], s.tasks[j].pc.error))
    case DlqOffline(j) => SetPc(s, j, Naking)
    case DlqPublish(j, stored, raised) =>
      var t := s.tasks[j];
      var next := if raised then Naking else Confirming;
      if stored then
        s.(tasks := s.tasks[j := t.(pc := next, copy := Some(|s.dlq|))],
           dlq := s.dlq + [DeadLetter(cfg, s.log[t.id], t.pc.error, t.pc.count)],
           dlqFrom := s.dlqFrom + [j], dlqDelivered := s.dlqDelivered + [0], dlqAcked := s.dlqAcked + [false])
      else SetPc(s, j, next)
    case Confirm(j, applied) => SetPc(Release(s, s.tasks[j].id, applied), j, Ended)
    case Nak(j) => SetPc(s, j, Ended)
    case Crash(j) => SetPc(s, j, Ended)
    case DeliverCopy(c, metadata) =>
      s.(dlqDelivered := s.dlqDelivered[c := s.dlqDelivered[c] + 1],
         writers := s.writers + [Writer(c, s.dlqDelivered[c] + 1, metadata, Persisting, None)])
    case Persist(w, inserted, raised) =>
      var x := s.writers[w];
      var next := if raised then NakingCopy else AckingCopy;
      if inserted then
        s.(writers := s.writers[w := x.(pc := next, row := Some(|s.rows|))],
           rows := s.rows + [RowFor(cfg, s.dlq[x.copy])], rowFrom := s.rowFrom + [w])
      else SetWriterPc(s, w, next)
    case AckCopy(w, applied) =>
      SetWriterPc(if applied then s.(dlqAcked := s.dlqAcked[s.writers[w].copy := true]) else s, w, WriterEnded)
    case NakCopy(w) => SetWriterPc(s, w, WriterEnded)
    case CrashCopy(w) => SetWriterPc(s, w, WriterEnded)
    case Resolve(r) => s.(rows := s.rows[r := s.rows[r].(resolved := true)])
  }

  ghost function Pipeline(cfg: Config): Machine<State, Step> {
    Machine((s, l) => Enabled(cfg, s, l), (s, l) => Apply(cfg, s, l))
  }

  function Empty(): State {
    State([], [], [], [], [], [], [], [], [], [], [])
  }

  /** A consumer exists only for a type with at least one handler, and only on an events subject. */
  predicate ValidConfig(cfg: Config) {
    && cfg.maxDeliver >= 1 && cfg.dlqMaxDeliver >= 1
    && forall subject :: subject in cfg.handlers ==>
        cfg.handlers[subject] >= 1 && Captured(cfg.prefixes.events, subject)
  }
}
