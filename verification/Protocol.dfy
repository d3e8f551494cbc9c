// Event forwarding as a transition system: one client machine and its rows in the database, over
// any number of sessions, disconnects, aborted transactions and new events.
module Protocol {
  import opened Bytes
  import opened Messages
  import opened EventLog

  const EVENTS_PER_SEND := 30

  // The ids of the log stay below the range of a signed 32-bit number.
  const RID_LIMIT := 0x7FFF_FFFF

  datatype Signal = Subscribe | Upload

  // EventForwardHandler: the watermark lastEventIDUploaded, the two signals, whether the sender
  // thread has been resumed, how many events its subscription has read, and the signal that it is
  // going to reset. One iteration of the sender sends a batch and then resets a signal.
  datatype Forwarder = Forwarder(
    watermark: nat, subscribe: bool, upload: bool, started: bool, cursor: nat, resetting: Option<Signal>)

  datatype UpMessage = UpConnect | UpQuery | UpLog(events: seq<Event>, needAccept: bool)

  datatype DownMessage = DownConnect | DownReturn(value: nat) | DownAccept(value: nat)

  // A queued insertion; `live` while the connection it came from is up.
  datatype Work = Work(events: seq<Event>, needAccept: bool, live: bool)

  // A channel holds the messages that have not been handled. The first `upDecoded` of `up` have
  // arrived and wait in the queue of the server's decoder, and the first `downDecoded` of `down` in
  // that of the client's. `lid` is the server's Client::lid. The last four components are history of the session: the
  // watermark it was given and the rows there were then, the events it sent, and for each batch
  // whether it asked for acceptance.
  datatype System = System(
    log: seq<Event>, rows: seq<Event>,
    forwarder: Option<Forwarder>, up: seq<UpMessage>, down: seq<DownMessage>, upDecoded: nat, downDecoded: nat,
    lid: nat, work: seq<Work>,
    base: Option<nat>, before: seq<Event>, sent: seq<Event>, batches: seq<bool>)

  function Start(): System {
    System([], [], None, [], [], 0, 0, 0, [], None, [], [], [])
  }

  // ---------------------------------------------------------------- the client

  function NewForwarder(): Forwarder {
    Forwarder(0, true, false, false, 0, None)
  }

  function Unread(f: Forwarder, log: seq<Event>): seq<Event> {
    if f.cursor <= |log| then log[f.cursor..] else []
  }

  // What EvtNext returns.
  function NextEvents(f: Forwarder, log: seq<Event>): (es: seq<Event>)
    ensures |es| <= EVENTS_PER_SEND
  {
    var u := Unread(f, log);
    if |u| <= EVENTS_PER_SEND then u else u[..EVENTS_PER_SEND]
  }

  // WaitForMultipleObjects returns the signal with the lower index.
  function Woken(f: Forwarder): Option<Signal> {
    if f.subscribe then Some(Subscribe) else if f.upload then Some(Upload) else None
  }

  // How the reading of one batch goes: the status with which EvtNext fails, if it does, and the
  // index of the first event that cannot be rendered, if there is one.
  datatype Reading = Reading(nextFails: Option<nat>, renderFails: Option<nat>)

  const READS_ALL := Reading(None, None)

  // What EvtNext delivers; nothing where it fails.
  function Delivered(f: Forwarder, log: seq<Event>, r: Reading): (read: seq<Event>)
    ensures |read| <= EVENTS_PER_SEND
  {
    if r.nextFails.Some? then [] else NextEvents(f, log)
  }

  // The events before the first one that cannot be rendered. It and the ones behind it are passed
  // over, and will not be delivered again.
  function Rendered(read: seq<Event>, r: Reading): (es: seq<Event>)
    ensures es <= read
  {
    if r.renderFails.Some? && r.renderFails.value < |read| then read[..r.renderFails.value] else read
  }

  function AfterSend(f: Forwarder, log: seq<Event>, r: Reading): Forwarder {
    f.(cursor := f.cursor + |Delivered(f, log, r)|, resetting := Woken(f))
  }

  // A status of EvtNext that happens to be 30 is taken for a full batch.
  function Batch(f: Forwarder, log: seq<Event>, r: Reading): UpMessage {
    var es := Rendered(Delivered(f, log, r), r);
    UpLog(From(es, f.watermark), r.nextFails == Some(EVENTS_PER_SEND) || |es| == EVENTS_PER_SEND)
  }

  function AfterReset(f: Forwarder): Forwarder
    requires f.resetting.Some?
  {
    if f.resetting.value.Subscribe? then f.(subscribe := false, resetting := None)
    else f.(upload := false, resetting := None)
  }

  // GetProtobufPackage
  function AfterMessage(f: Forwarder, m: DownMessage): Forwarder {
    match m
    case DownReturn(v) => if f.watermark == 0 then f.(watermark := v, started := true) else f
    case DownAccept(v) => f.(watermark := v, upload := true)
    case DownConnect => f
  }

  // ---------------------------------------------------------------- steps

  datatype Action =
    | Append(e: Event)                  // the machine logs an event
    | Connect                           // a client process starts and connects
    | Disconnect                        // the connection or one of its ends is lost
    | DropWork                          // the server loses the insertions it had queued
    | Send(r: Reading)                  // the sender wakes and sends a batch
    | Reset                             // the sender resets the signal that woke it
    | ClientReads(n: nat)               // octets arrive and complete n messages; one is handled
    | ServerReads(n: nat)
    | Insert(i: nat, abort: bool)       // the i-th queued insertion runs; its transaction may abort

  // A read callback runs when octets arrive, so something must be under way that has not been
  // decoded. It handles the oldest message that is decoded by then. (Where none is, nothing
  // happens, and that is not an action.)
  predicate Arrives<T>(channel: seq<T>, decoded: nat, n: nat) {
    decoded < |channel| && 0 < decoded + n <= |channel|
  }

  predicate Enabled(s: System, a: Action) {
    match a
    case Append(e) => e.rid < RID_LIMIT && forall i :: 0 <= i < |s.log| ==> s.log[i].rid < e.rid
    case Connect => s.forwarder.None?
    case Disconnect => s.forwarder.Some?
    case DropWork => s.forwarder.None?
    case Send(_) => s.forwarder.Some? && s.forwarder.value.started && s.forwarder.value.resetting.None?
                    && Woken(s.forwarder.value).Some?
    case Reset => s.forwarder.Some? && s.forwarder.value.resetting.Some?
    case ClientReads(n) => s.forwarder.Some? && Arrives(s.down, s.downDecoded, n)
    case ServerReads(n) => Arrives(s.up, s.upDecoded, n)
    case Insert(i, _) => i < |s.work|
  }

  function Orphan(w: Work): Work { w.(live := false) }

  function Orphans(work: seq<Work>): (r: seq<Work>)
    ensures |r| == |work|
  {
    if work == [] then [] else Orphans(work[..|work| - 1]) + [Orphan(work[|work| - 1])]
  }

  function DoAppend(s: System, e: Event): System {
    s.(log := s.log + [e],
       forwarder := if s.forwarder.Some? then Some(s.forwarder.value.(subscribe := true)) else None)
  }

  function DoConnect(s: System): System {
    s.(forwarder := Some(NewForwarder()), up := [UpConnect], down := [], upDecoded := 0, downDecoded := 0, lid := 1,
       base := None, before := [], sent := [], batches := [])
  }

  function DoDisconnect(s: System): System {
    s.(forwarder := None, up := [], down := [], upDecoded := 0, downDecoded := 0, work := Orphans(s.work))
  }

  function DoDropWork(s: System): System { s.(work := []) }

  function DoReset(s: System): System
    requires s.forwarder.Some? && s.forwarder.value.resetting.Some?
  {
    s.(forwarder := Some(AfterReset(s.forwarder.value)))
  }

  function DoSend(s: System, r: Reading): System
    requires s.forwarder.Some?
  {
    var f := s.forwarder.value;
    var m := Batch(f, s.log, r);
    s.(forwarder := Some(AfterSend(f, s.log, r)), up := s.up + [m],
       sent := s.sent + m.events, batches := s.batches + [m.needAccept])
  }

  // uvNetworkReadCB
  function DoClientReads(s: System, n: nat): System
    requires s.forwarder.Some? && Arrives(s.down, s.downDecoded, n)
  {
    var m := s.down[0];
    s.(down := s.down[1..], downDecoded := s.downDecoded + n - 1, forwarder := Some(AfterMessage(s.forwarder.value, m)),
       up := if m.DownConnect? then s.up + [UpQuery] else s.up)
  }

  // Client::readFromNetwork. The last id of an empty batch is taken to be the one before it.
  function DoServerReads(s: System, n: nat): System
    requires Arrives(s.up, s.upDecoded, n)
  {
    var rest := s.(up := s.up[1..], upDecoded := s.upDecoded + n - 1);
    match s.up[0]
    case UpConnect => rest.(down := s.down + [DownConnect])
    case UpQuery =>
      var m := MaxRid(s.rows);
      rest.(lid := m, down := s.down + [DownReturn(m + 1)], base := Some(m + 1), before := s.rows)
    case UpLog(es, a) =>
      rest.(lid := if es == [] then s.lid else es[|es| - 1].rid, work := s.work + [Work(es, a, true)])
  }

  // The work item of client.cpp. An aborted transaction is swallowed, and the acceptance is sent
  // all the same, with the id of the last batch received by then.
  function DoInsert(s: System, i: nat, abort: bool): System
    requires i < |s.work|
  {
    var w := s.work[i];
    s.(work := s.work[..i] + s.work[i + 1..],
       rows := if abort then s.rows else s.rows + w.events,
       down := if w.needAccept && w.live then s.down + [DownAccept(s.lid + 1)] else s.down)
  }

  function Apply(s: System, a: Action): System
    requires Enabled(s, a)
  {
    match a
    case Append(e) => DoAppend(s, e)
    case Connect => DoConnect(s)
    case Disconnect => DoDisconnect(s)
    case DropWork => DoDropWork(s)
    case Send(r) => DoSend(s, r)
    case Reset => DoReset(s)
    case ClientReads(n) => DoClientReads(s, n)
    case ServerReads(n) => DoServerReads(s, n)
    case Insert(i, abort) => DoInsert(s, i, abort)
  }

  // ---------------------------------------------------------------- runs

  // What a run may be assumed to do.
  //   calm:          a session is told its watermark only when no insertion of an earlier one is queued
  //   ordered:       insertions run in the order in which they were queued
  //   committed:     no transaction aborts
  //   subscribeSafe: no event is logged while the subscription's signal is about to be reset
  //   uploadSafe:    no acceptance is handled while the upload signal is about to be reset
  //   singly:        no read of the server completes more than one message
  //   nextSafe:      EvtNext does not fail, unless with the status 30
  //   noThirty:      EvtNext does not fail with the status 30
  //   rendered:      every event that is read can be rendered
  datatype Policy = Policy(
    calm: bool, ordered: bool, committed: bool, subscribeSafe: bool, uploadSafe: bool, singly: bool,
    nextSafe: bool, noThirty: bool, rendered: bool)

  predicate AllLive(work: seq<Work>) {
    forall i :: 0 <= i < |work| ==> work[i].live
  }

  predicate Resetting(s: System, signal: Signal) {
    s.forwarder.Some? && s.forwarder.value.resetting == Some(signal)
  }

  predicate Calm(s: System, a: Action) {
    a.ServerReads? && s.up != [] && s.up[0].UpQuery? ==> AllLive(s.work)
  }

  predicate Ordered(a: Action) {
    a.Insert? ==> a.i == 0
  }

  predicate Committed(a: Action) {
    a.Insert? ==> !a.abort
  }

  predicate SubscribeSafe(s: System, a: Action) {
    a.Append? ==> !Resetting(s, Subscribe)
  }

  predicate UploadSafe(s: System, a: Action) {
    a.ClientReads? && s.down != [] && s.down[0].DownAccept? ==> !Resetting(s, Upload)
  }

  predicate Singly(a: Action) {
    a.ServerReads? ==> a.n <= 1
  }

  predicate NextSafe(a: Action) {
    a.Send? ==> a.r.nextFails.None? || a.r.nextFails == Some(EVENTS_PER_SEND)
  }

  predicate NoThirty(a: Action) {
    a.Send? ==> a.r.nextFails != Some(EVENTS_PER_SEND)
  }

  predicate AllRendered(s: System, a: Action) {
    a.Send? && s.forwarder.Some? ==>
      var read := Delivered(s.forwarder.value, s.log, a.r);
      Rendered(read, a.r) == read
  }

  predicate Allowed(p: Policy, s: System, a: Action) {
    && Enabled(s, a)
    && (p.calm ==> Calm(s, a))
    && (p.ordered ==> Ordered(a))
    && (p.committed ==> Committed(a))
    && (p.subscribeSafe ==> SubscribeSafe(s, a))
    && (p.uploadSafe ==> UploadSafe(s, a))
    && (p.singly ==> Singly(a))
    && (p.nextSafe ==> NextSafe(a))
    && (p.noThirty ==> NoThirty(a))
    && (p.rendered ==> AllRendered(s, a))
  }

  // The state that a run leads to; None if one of its actions was not allowed.
  function RunFrom(p: Policy, s: System, actions: seq<Action>): Option<System>
    decreases |actions|
  {
    if actions == [] then Some(s)
    else
      var t := RunFrom(p, s, actions[..|actions| - 1]);
      if t.Some? && Allowed(p, t.value, actions[|actions| - 1]) then Some(Apply(t.value, actions[|actions| - 1]))
      else None
  }

  // The actions take s to t. The quantifier over the one policy p keeps the verifier from
  // unfolding every run that is mentioned.
  ghost predicate Takes(p: Policy, s: System, actions: seq<Action>, t: System) {
    forall q: Policy :: q == p ==> RunFrom(q, s, actions) == Some(t)
  }

  lemma RunTakes(p: Policy, s: System, actions: seq<Action>, t: System)
    ensures Takes(p, s, actions, t) <==> RunFrom(p, s, actions) == Some(t)
  {
  }

  // ---------------------------------------------------------------- events under way

  function UpEvents(up: seq<UpMessage>): seq<Event> {
    if up == [] then []
    else UpEvents(up[..|up| - 1]) + EventsOf(up[|up| - 1])
  }

  function WorkEvents(work: seq<Work>): seq<Event> {
    if work == [] then [] else WorkEvents(work[..|work| - 1]) + work[|work| - 1].events
  }

  function EventsOf(m: UpMessage): seq<Event> {
    if m.UpLog? then m.events else []
  }

  lemma {:induction false} UpEventsAppend(a: seq<UpMessage>, b: seq<UpMessage>)
    ensures UpEvents(a + b) == UpEvents(a) + UpEvents(b)
  {
    if b == [] {
      assert a + b == a;
    } else {
      assert (a + b)[..|a + b| - 1] == a + b[..|b| - 1];
      UpEventsAppend(a, b[..|b| - 1]);
    }
  }

  lemma {:induction false} WorkEventsAppend(a: seq<Work>, b: seq<Work>)
    ensures WorkEvents(a + b) == WorkEvents(a) + WorkEvents(b)
  {
    if b == [] {
      assert a + b == a;
    } else {
      assert (a + b)[..|a + b| - 1] == a + b[..|b| - 1];
      WorkEventsAppend(a, b[..|b| - 1]);
    }
  }

  lemma UpEventsSnoc(up: seq<UpMessage>, m: UpMessage)
    ensures UpEvents(up + [m]) == UpEvents(up) + EventsOf(m)
  {
    assert (up + [m])[..|up|] == up;
  }

  lemma WorkEventsSnoc(work: seq<Work>, w: Work)
    ensures WorkEvents(work + [w]) == WorkEvents(work) + w.events
  {
    assert (work + [w])[..|work|] == work;
  }

  lemma UpEventsHead(up: seq<UpMessage>)
    requires up != []
    ensures UpEvents(up) == EventsOf(up[0]) + UpEvents(up[1..])
  {
    assert up == [up[0]] + up[1..];
    assert [up[0]][..0] == [];
    UpEventsAppend([up[0]], up[1..]);
  }

  lemma WorkEventsHead(work: seq<Work>)
    requires work != []
    ensures WorkEvents(work) == work[0].events + WorkEvents(work[1..])
  {
    assert work == [work[0]] + work[1..];
    assert [work[0]][..0] == [];
    WorkEventsAppend([work[0]], work[1..]);
  }

  lemma WorkAround(work: seq<Work>, i: nat)
    requires i < |work|
    ensures work == work[..i] + ([work[i]] + work[i + 1..])
  {
  }

  lemma {:induction false} OrphansKeepEvents(work: seq<Work>)
    ensures WorkEvents(Orphans(work)) == WorkEvents(work)
    ensures forall i :: 0 <= i < |work| ==> !Orphans(work)[i].live
  {
    if work != [] {
      var front := Orphans(work[..|work| - 1]);
      OrphansKeepEvents(work[..|work| - 1]);
      assert Orphans(work)[..|work| - 1] == front;
    }
  }
}
