// The objects the two sides exchange and their protobuf form (toBytes, buildPBObj, BuildObj).
module Messages {
  import opened Bytes
  import opened Decimal
  import opened Frames

  datatype Operation =
    | NoneOperation | CheckVersion | UpdateLog | QueryLastEvent | ReturnLastEvent | AcceptLastEvent | Connect | Refuse

  datatype LogLevel = Fatal | Error | Warning | Info | Verbose

  datatype OsType = Windows | Linux | Other

  // `llevel` and `level` are two forms of the severity; `rid` is the event's record id.
  datatype Event = Event(xml: string, format: string, timeStamp: string, provider: string,
                         llevel: LogLevel, level: nat, rid: nat)

  // What the subclasses of CoreMessage add to it.
  datatype Body =
    | ConnectBody
    | QueryBody
    | ReturnBody(lastEvent: nat)
    | AcceptBody(lastEvent: nat)
    | LogBody(events: seq<Event>, needAccept: bool)
    | RefuseBody(refused: int)

  datatype Message = Message(id: int, timeStamp: string, description: string, clientName: string,
                             osVersion: string, osType: OsType, machineID: string, body: Body)
  {
    function Op(): Operation {
      match body
      case ConnectBody => Connect
      case QueryBody => QueryLastEvent
      case ReturnBody(_) => ReturnLastEvent
      case AcceptBody(_) => AcceptLastEvent
      case LogBody(_, _) => UpdateLog
      case RefuseBody(_) => Refuse
    }
  }

  // ---------------------------------------------------------------- the protobuf classes

  datatype WireOperation =
    | WireCheckVersion | WireUpdateLog | WireQueryLastEvent | WireReturnLastEvent | WireAcceptLastEvent
    | WireConnect | WireRefuse | WireSentinel

  datatype WireOs = WireWindows | WireLinux

  datatype WireLog = WireLog(scope: string, level: nat, rawEventMessage: string, timeStamp: string,
                             xmlEventMessage: string, recordID: nat)

  datatype WireMessage = WireMessage(
    id: int, clientName: string, op: WireOperation, timeStamp: string, os: WireOs, osVersion: string,
    description: string, log: seq<WireLog>, lastEvent: nat, logNeedAccept: bool, machineID: string, refuseID: int)

  function ToWireOp(op: Operation): WireOperation {
    match op
    case Connect => WireConnect
    case CheckVersion => WireCheckVersion
    case UpdateLog => WireUpdateLog
    case QueryLastEvent => WireQueryLastEvent
    case ReturnLastEvent => WireReturnLastEvent
    case AcceptLastEvent => WireAcceptLastEvent
    case NoneOperation => WireSentinel
    case Refuse => WireSentinel
  }

  function ToWireLevel(l: LogLevel): nat {
    match l
    case Fatal => 0
    case Error => 1
    case Warning => 2
    case Info => 3
    case Verbose => 4
  }

  // Event::dispatch(LogLevel)
  function NumberOfLevel(l: LogLevel): nat {
    match l
    case Fatal => 1
    case Error => 2
    case Warning => 3
    case Info => 4
    case Verbose => 5
  }

  // Event::dispatch(uint32_t)
  function LevelOfNumber(n: nat): LogLevel {
    match n
    case 1 => Fatal
    case 2 => Error
    case 3 => Warning
    case 4 => Info
    case _ => Verbose
  }

  // The process-wide names that every message is sent with.
  datatype Identity = Identity(clientName: string, osVersion: string, machineID: string)

  // "%d" applied to a 32-bit unsigned number.
  function SignedDecimal(n: nat): string
    requires n < U32
  {
    if n < U32 / 2 then Digits(n) else "-" + Digits(U32 - n)
  }

  function LogDescription(events: seq<Event>): string {
    if events == [] then "LogPackage include ZERO Windows Event."
    else "LogPackage. Windows Event RecordID from " + SignedDecimal(Truncate32(events[0].rid))
         + ". Total size " + Digits(|events|) + "."
  }

  function ToWireLog(e: Event): WireLog {
    WireLog(e.provider, ToWireLevel(e.llevel), e.format, e.timeStamp, e.xml, e.rid)
  }

  function ToWireLogs(es: seq<Event>): seq<WireLog> {
    seq(|es|, i requires 0 <= i < |es| => ToWireLog(es[i]))
  }

  // The operating system is never set, so every message carries the enumeration's first value.
  function ToWire(m: Message, me: Identity, now: string): WireMessage {
    var w := WireMessage(m.id, me.clientName, ToWireOp(m.Op()), if m.timeStamp == "" then now else m.timeStamp,
                         WireWindows, me.osVersion, m.description, [], 0, false, me.machineID, 0);
    match m.body
    case LogBody(es, a) => w.(log := ToWireLogs(es), logNeedAccept := a)
    case ReturnBody(v) => w.(lastEvent := v)
    case AcceptBody(v) => w.(lastEvent := v)
    case RefuseBody(r) => w.(refuseID := r)
    case ConnectBody => w
    case QueryBody => w
  }

  function FromWireLog(l: WireLog): Event {
    Event(l.xmlEventMessage, l.rawEventMessage, l.timeStamp, l.scope, LevelOfNumber(l.level), l.level, l.recordID)
  }

  function FromWireLogs(ls: seq<WireLog>): seq<Event> {
    seq(|ls|, i requires 0 <= i < |ls| => FromWireLog(ls[i]))
  }

  // None where BuildObj's assertion fails; `next` is the next process-local id.
  function FromWire(w: WireMessage, next: int): Option<Message> {
    var body :=
      match w.op
      case WireUpdateLog => Some(LogBody(FromWireLogs(w.log), w.logNeedAccept))
      case WireQueryLastEvent => Some(QueryBody)
      case WireReturnLastEvent => Some(ReturnBody(w.lastEvent))
      case WireAcceptLastEvent => Some(AcceptBody(w.lastEvent))
      case WireConnect => Some(ConnectBody)
      case WireCheckVersion => None
      case WireRefuse => None
      case WireSentinel => None;
    if body.None? then None
    else Some(Message(if w.id == -1 then next else w.id, w.timeStamp, w.description, w.clientName, w.osVersion,
                      if w.os == WireWindows then Windows else Linux, w.machineID, body.value))
  }

  // ---------------------------------------------------------------- round trip

  // Everything about an event but its severity.
  predicate SameEvent(a: Event, b: Event) {
    a.xml == b.xml && a.format == b.format && a.timeStamp == b.timeStamp && a.provider == b.provider && a.rid == b.rid
  }

  predicate SameBody(a: Body, b: Body) {
    if a.LogBody? && b.LogBody? then
      && a.needAccept == b.needAccept && |a.events| == |b.events|
      && forall i :: 0 <= i < |a.events| ==> SameEvent(a.events[i], b.events[i])
    else a == b
  }

  // A message arrives if and only if it is not a refusal, and then with its operation, its id
  // (unless that was -1), the description it had at the call, and its body.
  lemma ObjectRoundTrip(m: Message, me: Identity, now: string, next: int)
    ensures var r := FromWire(ToWire(m, me, now), next);
            && (r.Some? <==> m.Op() != Refuse)
            && (r.Some? ==>
                && r.value.Op() == m.Op() && SameBody(m.body, r.value.body)
                && r.value.description == m.description
                && (r.value.id == m.id <==> m.id != -1 || next == -1)
                && (m.id == -1 ==> r.value.id == next)
                && r.value.timeStamp == (if m.timeStamp == "" then now else m.timeStamp)
                && Identity(r.value.clientName, r.value.osVersion, r.value.machineID) == me
                && r.value.osType == Windows)
  {
    if m.body.LogBody? {
      var es := m.body.events;
      forall i | 0 <= i < |es| ensures FromWireLogs(ToWireLogs(es))[i] == FromWireLog(ToWireLog(es[i])) {
      }
    }
  }

  // No severity survives: the number on the wire is one less than the number it is read as. Of the
  // event that is read, both forms of the severity say the same, but for 0, which stands for no level.
  lemma SeverityNeverSurvives(e: Event)
    ensures var r := FromWireLog(ToWireLog(e));
            && r.llevel != e.llevel
            && r.llevel == (match e.llevel
                            case Fatal => Verbose
                            case Error => Fatal
                            case Warning => Error
                            case Info => Warning
                            case Verbose => Info)
            && r.level + 1 == NumberOfLevel(e.llevel)
            && (r.level == NumberOfLevel(r.llevel) <==> e.llevel != Fatal)
  {
    match e.llevel case Fatal => case Error => case Warning => case Info => case Verbose =>
  }

  // Between the two forms of the severity, outside transport, nothing is lost.
  lemma LevelRoundTrip(l: LogLevel, n: nat)
    ensures LevelOfNumber(NumberOfLevel(l)) == l
    ensures NumberOfLevel(LevelOfNumber(n)) == n <==> 1 <= n <= 5
  {
    match l case Fatal => case Error => case Warning => case Info => case Verbose =>
  }

  // The wire message determines the body, refusals and severities included.
  lemma WireDeterminesBody(a: Message, b: Message, me: Identity, now: string)
    requires ToWire(a, me, now) == ToWire(b, me, now)
    ensures a.id == b.id && a.description == b.description && SameBody(a.body, b.body)
    ensures a.body.LogBody? ==> b.body.LogBody? && forall i :: 0 <= i < |a.body.events| ==>
              a.body.events[i].llevel == b.body.events[i].llevel
  {
    if a.body.LogBody? {
      var x, y := a.body.events, b.body.events;
      assert |ToWireLogs(x)| == |ToWireLogs(y)|;
      forall i | 0 <= i < |x| ensures SameEvent(x[i], y[i]) && x[i].llevel == y[i].llevel {
        assert ToWireLogs(x)[i] == ToWireLogs(y)[i];
      }
    }
  }

  // Of a wire message that is read, writing the object gives back all that its operation uses, but for
  // severities and an id of -1.
  lemma ReadThenWritten(w: WireMessage, next: int, now: string)
    ensures FromWire(w, next).Some? <==>
              w.op in {WireUpdateLog, WireQueryLastEvent, WireReturnLastEvent, WireAcceptLastEvent, WireConnect}
    ensures FromWire(w, next).Some? ==>
              var m := FromWire(w, next).value;
              var v := ToWire(m, Identity(w.clientName, w.osVersion, w.machineID), now);
              && v.op == w.op && (w.id != -1 ==> v.id == w.id) && v.description == w.description
              && v.clientName == m.clientName && v.osVersion == m.osVersion && v.machineID == m.machineID
              && (w.timeStamp != "" ==> v.timeStamp == w.timeStamp)
              && (w.op in {WireReturnLastEvent, WireAcceptLastEvent} ==> v.lastEvent == w.lastEvent)
              && (w.op == WireUpdateLog ==>
                  && v.logNeedAccept == w.logNeedAccept && |v.log| == |w.log|
                  && forall i :: 0 <= i < |w.log| ==> v.log[i].(level := w.log[i].level) == w.log[i])
              && m.osType != Other && (m.osType == Linux <==> w.os == WireLinux)
  {
    if w.op == WireUpdateLog {
      var es := FromWireLogs(w.log);
      forall i | 0 <= i < |es| ensures ToWireLogs(es)[i].(level := w.log[i].level) == w.log[i] {
        assert ToWireLogs(es)[i] == ToWireLog(FromWireLog(w.log[i]));
      }
    }
  }

  // The description of a package names the first id, as a signed number, and the number of events.
  lemma DescriptionReads(es: seq<Event>) returns (first: string, total: string)
    requires es != [] && es[0].rid < U32
    ensures LogDescription(es)
         == "LogPackage. Windows Event RecordID from " + first + ". Total size " + total + "."
    ensures AllDigits(total) && Value(total) == |es|
    ensures if es[0].rid < U32 / 2 then AllDigits(first) && Value(first) == es[0].rid
            else first != "" && first[0] == '-' && AllDigits(first[1..]) && Value(first[1..]) == U32 - es[0].rid
  {
    first, total := SignedDecimal(es[0].rid), Digits(|es|);
    ValueOfDigits(|es|);
    ValueOfDigits(if es[0].rid < U32 / 2 then es[0].rid else U32 - es[0].rid);
  }

  // ---------------------------------------------------------------- in place

  // `body` stands for the fields of the subclass.
  class CoreMessage {
    var id: int
    var timeStamp: string
    var description: string
    var clientName: string
    var osVersion: string
    var osType: OsType
    var machineID: string
    var body: Body

    function View(): Message
      reads this
    {
      Message(id, timeStamp, description, clientName, osVersion, osType, machineID, body)
    }

    constructor (m: Message)
      ensures View() == m
    {
      id, timeStamp, description := m.id, m.timeStamp, m.description;
      clientName, osVersion, osType, machineID := m.clientName, m.osVersion, m.osType, m.machineID;
      body := m.body;
    }

    // The loop of LogPackage::buildPBObj.
    static method BuildLogs(es: seq<Event>) returns (logs: seq<WireLog>)
      ensures logs == ToWireLogs(es)
    {
      logs := [];
      var i := 0;
      while i < |es|
        invariant 0 <= i <= |es| && logs == ToWireLogs(es[..i])
      {
        var l := ToWireLog(es[i]);
        assert ToWireLogs(es[..i + 1]) == ToWireLogs(es[..i]) + [l];
        logs := logs + [l];
        i := i + 1;
      }
      assert es[..|es|] == es;
    }

    // The protobuf half of toBytes. The description is copied before buildPBObj replaces it, so
    // the message carries the old one and the object keeps the new one.
    method BuildWire(me: Identity, now: string) returns (w: WireMessage)
      modifies this`description
      ensures w == ToWire(old(View()), me, now)
      ensures description == if body.LogBody? then LogDescription(body.events) else old(description)
    {
      var ts := timeStamp;
      if ts == "" {
        ts := now;
      }
      w := WireMessage(id, me.clientName, ToWireOp(View().Op()), ts, WireWindows, me.osVersion, description,
                       [], 0, false, me.machineID, 0);
      match body
      case LogBody(es, a) =>
        description := LogDescription(es);
        var logs := BuildLogs(es);
        w := w.(log := logs, logNeedAccept := a);
      case ReturnBody(v) => w := w.(lastEvent := v);
      case AcceptBody(v) => w := w.(lastEvent := v);
      case RefuseBody(r) => w := w.(refuseID := r);
      case ConnectBody =>
      case QueryBody =>
    }
  }

  // BuildObj; null where its assertion fails.
  method BuildObj(w: WireMessage, next: int) returns (msg: CoreMessage?)
    ensures msg == null <==> FromWire(w, next).None?
    ensures msg != null ==> fresh(msg) && FromWire(w, next) == Some(msg.View())
  {
    var body: Body;
    match w.op {
    case WireUpdateLog =>
      var events: seq<Event> := [];
      var i := 0;
      while i < |w.log|
        invariant 0 <= i <= |w.log| && events == FromWireLogs(w.log[..i])
      {
        var e := FromWireLog(w.log[i]);
        assert FromWireLogs(w.log[..i + 1]) == FromWireLogs(w.log[..i]) + [e];
        events := events + [e];
        i := i + 1;
      }
      assert w.log[..|w.log|] == w.log;
      body := LogBody(events, w.logNeedAccept);
    case WireQueryLastEvent => body := QueryBody;
    case WireReturnLastEvent => body := ReturnBody(w.lastEvent);
    case WireAcceptLastEvent => body := AcceptBody(w.lastEvent);
    case WireConnect => body := ConnectBody;
    case WireCheckVersion => return null;
    case WireRefuse => return null;
    case WireSentinel => return null;
    }
    var id := if w.id == -1 then next else w.id;
    msg := new CoreMessage(Message(id, w.timeStamp, w.description, w.clientName, w.osVersion,
                                   if w.os == WireWindows then Windows else Linux, w.machineID, body));
  }

  // ---------------------------------------------------------------- with the framing

  // The decoder's `parse` for a protobuf implementation that parses octets as a wire message.
  function ParseWith(parse: seq<byte> -> Option<WireMessage>, next: int): seq<byte> -> Option<Message> {
    b => var w := parse(b); if w.None? then None else FromWire(w.value, next)
  }

  // The package of a message that can be sent is well framed, and what the decoder makes of it is
  // the message again. `plain` is the serialized message.
  lemma MessageIsWellFramed(lib: Primitives<Message>, parse: seq<byte> -> Option<WireMessage>, next: int,
                            m: Message, me: Identity, now: string, plain: seq<byte>)
    requires lib.Lawful() && lib.parse == ParseWith(parse, next)
    requires parse(plain) == Some(ToWire(m, me, now)) && 0 < |plain| < U32
    requires m.Op() != Refuse
    ensures lib.parse(plain).Some? && WellFramed(lib, Pack(lib, plain))
    ensures var r := Pack(lib, plain).item;
            r.Op() == m.Op() && SameBody(m.body, r.body) && r.description == m.description
            && (m.id != -1 ==> r.id == m.id)
  {
    ObjectRoundTrip(m, me, now, next);
    PackIsWellFramed(lib, plain);
  }

  // Only a message with the id -1 is given a new id, so for the others it does not matter how far
  // the process-local counter has got when they are parsed.
  lemma CounterIsUnused(w: WireMessage, next: int)
    ensures (forall other: int :: FromWire(w, other) == FromWire(w, next)) <==> w.id != -1 || FromWire(w, next).None?
  {
    if w.id == -1 && FromWire(w, next).Some? {
      assert FromWire(w, next + 1).value.id != FromWire(w, next).value.id;
    }
  }

  lemma ParsedAlike(parse: seq<byte> -> Option<WireMessage>, m: Message, me: Identity, now: string, plain: seq<byte>,
                    next: int, other: int)
    requires parse(plain) == Some(ToWire(m, me, now)) && m.id != -1
    ensures ParseWith(parse, other)(plain) == ParseWith(parse, next)(plain)
  {
    CounterIsUnused(ToWire(m, me, now), next);
  }
}
