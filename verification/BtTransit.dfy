/** The phone's side of Bluetooth pairing: the rule of every call on the gate.
    The handshake library and the Keystore box are function values of `Lib`; what
    is assumed of them is `Lawful`.  Each call is one atomic step. */
module BtTransit {
  import opened Basics

  type Bytes = seq<byte>
  type Address = string

  const PLAIN: byte := 0x83
  const SEALED: byte := 0x84
  const PAIR: byte := 0x85

  const KIND_REPORT: byte := 0x01
  const KIND_CONTROL: byte := 0x02
  const KIND_REPORTS: byte := 0x03
  const CTRL_BATCH: byte := 0x30
  const CTRL_BYE: byte := 0x31
  const REPORT_BYTES: nat := 64
  const NOTICES_MAX: nat := 20

  /** A paired computer; `secret` stands for its keys, epoch and old secrets. */
  datatype PairRecord = PairRecord(id: string, name: string, secret: Bytes, renewedAt: int, on: bool, code: string)

  datatype NoticeKind = Copy | RevokedName | RevokedMac | Expired
  datatype Notice = Notice(kind: NoticeKind, id: string, name: string, at: nat)
  datatype Alarm = Alarm(id: nat, kind: NoticeKind, name: string)

  datatype Identity = Identity(secretKey: Bytes, publicKey: Bytes)
  datatype Stored = Stored(identity: Identity, records: seq<PairRecord>, notices: seq<Notice>)

  /** A session: the library's keys and counters, the pairing it belongs to, an offered renewal, its last traffic. */
  datatype Live = Live(session: Bytes, id: string, renew: Option<Bytes>, at: nat)

  datatype View =
    | Closed
    | Waiting(until: nat)
    | Code(until: nat, code: string, name: string, address: Address)
    | Approved(until: nat, code: string, name: string)
    | Paired(code: string, name: string)
    | Failed

  datatype Pairing = Pairing(until: nat, address: Option<Address>, lib: Option<Bytes>, pending: Option<PairRecord>, view: View)

  datatype Frame = Frame(sender: nat, cmd: byte, bytes: Bytes)

  /** Memory, the two stored values, and what went out: frames, links cut, alarms. */
  datatype Gate = Gate(
    state: Option<Stored>, sessions: map<Address, Live>, pair: Pairing, sender: Option<nat>, transitOffWanted: bool,
    alarmIds: nat, box: Option<Bytes>, storedOff: bool, sent: seq<Frame>, cut: multiset<Address>, alarms: seq<Alarm>)

  // ---------------------------------------------------------------- the library

  datatype MsgType = HELLO | COMMIT | REVEAL | CONFIRM | OTHER

  datatype Revealed = Revealed(state: Bytes, code: string, name: string)

  datatype HelloVerdict =
    | CopyAlarm(id: string)
    | Revoke(id: string, byName: bool)
    | Expire(id: string)
    | Opened(session: Bytes, record: PairRecord, msg: Bytes)
    | Silence

  datatype Lib = Lib(
    msgType: Bytes -> MsgType,
    generateIdentity: nat -> Identity,
    onCommit: (Identity, nat, nat, Bytes) -> Option<(Bytes, Bytes)>,
    onReveal: (Bytes, Bytes, nat) -> Option<Revealed>,
    approve: (Bytes, nat, Option<Address>) -> (PairRecord, Bytes),
    onConfirm: (PairRecord, Bytes) -> bool,
    pairAck: PairRecord -> Bytes,
    onHello: (seq<PairRecord>, Bytes, nat, Address) -> HelloVerdict,
    renewDue: (PairRecord, nat) -> bool,
    renewOffer: nat -> (Bytes, Bytes),
    renewFinish: (PairRecord, Bytes, Bytes, nat) -> Option<PairRecord>,
    seal: (Bytes, Bytes) -> (Bytes, Bytes),
    open: (Bytes, Bytes) -> (Bytes, Option<Bytes>),
    boxSeal: Stored -> Bytes,
    boxOpen: Bytes -> Option<Stored>,
    pairWindow: nat)
  {
    /** Opening inverts sealing; a hello names a pairing there is, and opens a session only for one switched on;
        a renewal keeps the pairing's id and switch. */
    ghost predicate Lawful() {
      && (forall s :: boxOpen(boxSeal(s)) == Some(s))
      && (forall rs, msg, now, a :: LawfulHello(rs, onHello(rs, msg, now, a)))
      && (forall r, renew, payload, now :: renewFinish(r, renew, payload, now).Some? ==>
            renewFinish(r, renew, payload, now).value.id == r.id && renewFinish(r, renew, payload, now).value.on == r.on)
    }
  }

  predicate LawfulHello(rs: seq<PairRecord>, v: HelloVerdict) {
    match v
    case CopyAlarm(id) => Find(rs, id).Some?
    case Revoke(id, _) => Find(rs, id).Some?
    case Expire(id) => Find(rs, id).Some?
    case Opened(_, rec, _) => Find(rs, rec.id).Some? && Find(rs, rec.id).value.on && rec.on
    case Silence => true
  }

  // ---------------------------------------------------------------- records

  function Find(rs: seq<PairRecord>, id: string): (r: Option<PairRecord>)
    ensures r.Some? ==> r.value in rs && r.value.id == id
    ensures r.None? ==> forall x :: x in rs ==> x.id != id
  {
    if rs == [] then None else if rs[0].id == id then Some(rs[0]) else Find(rs[1..], id)
  }

  function Without(rs: seq<PairRecord>, id: string): (out: seq<PairRecord>)
    ensures forall r :: r in out <==> r in rs && r.id != id
  {
    if rs == [] then [] else (if rs[0].id != id then [rs[0]] else []) + Without(rs[1..], id)
  }

  function Replace(rs: seq<PairRecord>, rec: PairRecord): seq<PairRecord> {
    seq(|rs|, i requires 0 <= i < |rs| => if rs[i].id == rec.id then rec else rs[i])
  }

  function SwitchRecord(rs: seq<PairRecord>, id: string, on: bool): seq<PairRecord> {
    seq(|rs|, i requires 0 <= i < |rs| => if rs[i].id == id then rs[i].(on := on) else rs[i])
  }

  function AgeRecord(rs: seq<PairRecord>, id: string, ms: int): seq<PairRecord> {
    seq(|rs|, i requires 0 <= i < |rs| => if rs[i].id == id then rs[i].(renewedAt := rs[i].renewedAt - ms) else rs[i])
  }

  // ---------------------------------------------------------------- the store

  function Save(lib: Lib, g: Gate): (r: Gate)
    ensures r.pair == g.pair
  {
    if g.state.None? then g else g.(box := Some(lib.boxSeal(g.state.value)))
  }

  /** Reads the sealed store once; a store that cannot be opened starts clean, with a new identity, saved. */
  function Load(lib: Lib, g: Gate, entropy: nat): (g': Gate)
    ensures g'.state.Some? && g'.pair == g.pair && g'.sessions == g.sessions
  {
    if g.state.Some? then g
    else
      var seen := g.(transitOffWanted := g.storedOff);
      var unsealed := if g.box.Some? then lib.boxOpen(g.box.value) else None;
      if unsealed.Some? then seen.(state := unsealed)
      else Save(lib, seen.(state := Some(Stored(lib.generateIdentity(entropy), [], []))))
  }

  function WithRecords(g: Gate, rs: seq<PairRecord>): Gate
    requires g.state.Some?
  {
    g.(state := Some(g.state.value.(records := rs)))
  }

  function AddNotice(g: Gate, kind: NoticeKind, rec: PairRecord, now: nat): Gate
    requires g.state.Some?
  {
    var all := [Notice(kind, rec.id, rec.name, now)] + g.state.value.notices;
    var id := (g.alarmIds + 1) % 0x10000;
    g.(state := Some(g.state.value.(notices := if |all| > NOTICES_MAX then all[..NOTICES_MAX] else all)),
       alarmIds := id, alarms := g.alarms + [Alarm(id, kind, rec.name)])
  }

  // ---------------------------------------------------------------- links and sessions

  function Send(g: Gate, cmd: byte, bytes: Bytes): Gate {
    if g.sender.None? then g else g.(sent := g.sent + [Frame(g.sender.value, cmd, bytes)])
  }

  /** No session, no link: the session goes and the link is let go. */
  function DropSession(g: Gate, a: Address): Gate {
    g.(sessions := g.sessions - {a}, cut := g.cut + multiset{a})
  }

  function DropSessions(g: Gate, ended: set<Address>): Gate {
    g.(sessions := g.sessions - ended, cut := g.cut + multiset(ended))
  }

  function SessionsOf(g: Gate, id: string): set<Address> {
    set a | a in g.sessions && g.sessions[a].id == id
  }

  /** A pairing dropped takes its sessions and their links with it. */
  function Drop(g: Gate, id: string): (r: Gate)
    requires g.state.Some?
    ensures r.pair == g.pair
  {
    DropSessions(WithRecords(g, Without(g.state.value.records, id)), SessionsOf(g, id))
  }

  /** One sealed control message on an open session. */
  function SendControl(lib: Lib, g: Gate, a: Address, payload: Bytes): (r: Gate)
    requires a in g.sessions
    ensures r.pair == g.pair && r.state == g.state && r.box == g.box && r.cut == g.cut
    ensures r.transitOffWanted == g.transitOffWanted && r.storedOff == g.storedOff && r.sessions.Keys == g.sessions.Keys
    ensures r.sessions[a].id == g.sessions[a].id && forall b :: b in g.sessions && b != a ==> r.sessions[b] == g.sessions[b]
  {
    var x := g.sessions[a];
    var (session, frame) := lib.seal(x.session, [KIND_CONTROL] + payload);
    Send(g.(sessions := g.sessions[a := x.(session := session)]), SEALED, frame)
  }

  // ---------------------------------------------------------------- pairing

  predicate StageOpen(view: View) {
    view.Waiting? || view.Code? || view.Approved?
  }

  predicate WindowOpen(pair: Pairing, now: nat) {
    StageOpen(pair.view) && now < pair.until
  }

  function OnCommit(lib: Lib, g: Gate, msg: Bytes, a: Address, now: nat): Gate
    requires g.state.Some?
  {
    if g.pair.address.Some? && g.pair.address != Some(a) then g
    else
      var r := lib.onCommit(g.state.value.identity, g.pair.until, now, msg);
      if r.None? then g
      else Send(g.(pair := g.pair.(address := Some(a), lib := Some(r.value.0), view := Waiting(g.pair.until))), PAIR, r.value.1)
  }

  function OnReveal(lib: Lib, g: Gate, msg: Bytes, a: Address, now: nat): Gate
    requires g.pair.lib.Some?
  {
    var r := lib.onReveal(g.pair.lib.value, msg, now);
    if r.None? then g.(pair := g.pair.(lib := None, view := Failed))
    else g.(pair := g.pair.(lib := Some(r.value.state), view := Code(g.pair.until, r.value.code, r.value.name, a)))
  }

  /** Pairing again replaces the old pairing of this computer. */
  function Adopt(lib: Lib, g: Gate, rec: PairRecord): Gate
    requires g.state.Some?
  {
    var dropped := Drop(g, rec.id);
    Save(lib, WithRecords(dropped, dropped.state.value.records + [rec]))
  }

  function OnConfirm(lib: Lib, g: Gate, msg: Bytes): Gate
    requires g.state.Some? && g.pair.pending.Some?
  {
    var rec := g.pair.pending.value;
    if !lib.onConfirm(rec, msg) then g
    else
      Send(Adopt(lib, g, rec), PAIR, lib.pairAck(rec)).(pair := Pairing(0, None, None, None, Paired(rec.code, rec.name)))
  }

  function OnPairMessage(lib: Lib, g0: Gate, msg: Bytes, a: Address, now: nat, entropy: nat): Gate {
    var g := Load(lib, g0, entropy);
    var t := lib.msgType(msg);
    if t == HELLO then OnHello(lib, g, msg, a, now, entropy)
    else if !WindowOpen(g.pair, now) then g
    else if t == COMMIT then OnCommit(lib, g, msg, a, now)
    else if g.pair.address != Some(a) then g
    else if t == REVEAL && g.pair.lib.Some? then OnReveal(lib, g, msg, a, now)
    else if t == CONFIRM && g.pair.pending.Some? then OnConfirm(lib, g, msg)
    else g
  }

  function Approve(lib: Lib, g: Gate, now: nat): Gate {
    if !WindowOpen(g.pair, now) || !g.pair.view.Code? || g.pair.lib.None? then g
    else
      var (pending, msg) := lib.approve(g.pair.lib.value, now, g.pair.address);
      var view := Approved(g.pair.until, g.pair.view.code, g.pair.view.name);
      Send(g.(pair := g.pair.(lib := None, pending := Some(pending), view := view)), PAIR, msg)
  }

  // ---------------------------------------------------------------- connections

  /** A hello that ends a pairing: noticed, dropped, saved. */
  function EndPairing(lib: Lib, g: Gate, kind: NoticeKind, id: string, now: nat): (r: Gate)
    requires g.state.Some? && Find(g.state.value.records, id).Some?
    ensures r.pair == g.pair
  {
    var rec := Find(g.state.value.records, id).value;
    Save(lib, Drop(AddNotice(g, kind, rec, now), rec.id))
  }

  /** What a session's opening does before the save is awaited... */
  function HelloSave(lib: Lib, g: Gate, rec: PairRecord): Gate
    requires g.state.Some?
  {
    Save(lib, WithRecords(g, Replace(g.state.value.records, rec)))
  }

  /** ...and after it. */
  function HelloOpen(lib: Lib, g: Gate, a: Address, session: Bytes, rec: PairRecord, msg: Bytes, now: nat, entropy: nat): (r: Gate)
    ensures r.pair == g.pair
  {
    var live := g.(sessions := g.sessions[a := Live(session, rec.id, None, now)]);
    var told := SendControl(lib, Send(live, PAIR, msg), a, [CTRL_BATCH, 1]);
    if lib.renewDue(rec, now) then OfferRenewal(lib, told, a, entropy) else told
  }

  function OfferRenewal(lib: Lib, g: Gate, a: Address, entropy: nat): Gate
    requires a in g.sessions
  {
    var (state, payload) := lib.renewOffer(entropy);
    SendControl(lib, g.(sessions := g.sessions[a := g.sessions[a].(renew := Some(state))]), a, payload)
  }

  function OnHello(lib: Lib, g: Gate, msg: Bytes, a: Address, now: nat, entropy: nat): (r: Gate)
    requires g.state.Some?
    ensures r.pair == g.pair
  {
    var rs := g.state.value.records;
    var v := lib.onHello(rs, msg, now, a);
    match v
    case CopyAlarm(id) => if Find(rs, id).Some? then EndPairing(lib, g, Copy, id, now) else g
    case Revoke(id, byName) =>
      if Find(rs, id).Some? then EndPairing(lib, g, if byName then RevokedName else RevokedMac, id, now) else g
    case Expire(id) => if Find(rs, id).Some? then EndPairing(lib, g, Expired, id, now) else g
    case Opened(session, rec, reply) => HelloOpen(lib, HelloSave(lib, g, rec), a, session, rec, reply, now, entropy)
    case Silence => g
  }

  /** The offered renewal is answered once; a record no longer there leaves the offer standing. */
  function FinishRenewal(lib: Lib, g: Gate, a: Address, payload: Bytes, now: nat): (r: Gate)
    requires g.state.Some? && a in g.sessions && g.sessions[a].renew.Some?
    ensures r.pair == g.pair
  {
    var x := g.sessions[a];
    var rec := Find(g.state.value.records, x.id);
    if rec.None? then g
    else
      var next := lib.renewFinish(rec.value, x.renew.value, payload, now);
      var done := g.(sessions := g.sessions[a := x.(renew := None)]);
      if next.None? then done
      else Save(lib, WithRecords(done, Replace(done.state.value.records, next.value)))
  }

  function OnControl(lib: Lib, g0: Gate, a: Address, payload: Bytes, now: nat, entropy: nat): (r: Gate)
    ensures r.pair == g0.pair
  {
    if a !in g0.sessions then g0
    else if payload != [] && payload[0] == CTRL_BYE then DropSession(g0, a)
    else if g0.sessions[a].renew.None? then g0
    else
      FinishRenewal(lib, Load(lib, g0, entropy), a, payload, now)
  }

  // ---------------------------------------------------------------- what reaches the key

  /** What a call hands on to the key. */
  datatype HandOn = Nothing | One(report: Bytes) | Many(reports: seq<Bytes>)

  function WithHighBit(command: byte): byte {
    if command >= 0x80 then command else command + 0x80
  }

  function Split(body: Bytes): seq<Bytes>
    requires |body| % REPORT_BYTES == 0
    decreases |body|
  {
    if body == [] then [] else [body[..REPORT_BYTES]] + Split(body[REPORT_BYTES..])
  }

  /** Whole reports, at least two. */
  predicate WholeReports(body: Bytes) {
    2 * REPORT_BYTES <= |body| && |body| % REPORT_BYTES == 0
  }

  /** What an opened frame hands on: a report, or whole reports packed together. */
  function HandsOn(pt: Option<Bytes>): HandOn {
    if pt.None? || pt.value == [] then Nothing
    else
      var kind, body := pt.value[0], pt.value[1..];
      if kind == KIND_REPORT then One(body)
      else if kind == KIND_REPORTS && WholeReports(body) then Many(Split(body))
      else Nothing
  }

  function OnSealed(lib: Lib, g0: Gate, bytes: Bytes, a: Address, now: nat, entropy: nat): (r: (Gate, HandOn))
    ensures r.0.pair == g0.pair
  {
    if a !in g0.sessions then (DropSession(g0, a), Nothing)
    else
      var x := g0.sessions[a];
      var (session, pt) := lib.open(x.session, bytes);
      var g := g0.(sessions := g0.sessions[a := x.(session := session, at := now)]);
      if pt.Some? && pt.value != [] && pt.value[0] == KIND_CONTROL
      then (OnControl(lib, g, a, pt.value[1..], now, entropy), Nothing)
      else (g, HandsOn(pt))
  }

  predicate TransitOff(g: Gate, testing: bool) {
    testing && g.transitOffWanted
  }

  function OnPlain(lib: Lib, g0: Gate, bytes: Bytes, a: Address, testing: bool, entropy: nat): (r: (Gate, HandOn))
    ensures r.0.pair == g0.pair
  {
    var g := Load(lib, g0, entropy);
    if TransitOff(g, testing) then (g, One(bytes))
    else (if a in g.sessions then g else DropSession(g, a), Nothing)
  }

  function Handle(lib: Lib, g: Gate, command: byte, bytes: Bytes, a: Address, now: nat, entropy: nat, testing: bool): (Gate, HandOn) {
    var cmd := WithHighBit(command);
    if cmd == PAIR then (OnPairMessage(lib, g, bytes, a, now, entropy), Nothing)
    else if cmd == SEALED then OnSealed(lib, g, bytes, a, now, entropy)
    else if cmd == PLAIN then OnPlain(lib, g, bytes, a, testing, entropy)
    else (g, Nothing)
  }

  function Outgoing(lib: Lib, g: Gate, address: Option<Address>, report: Bytes, now: nat, testing: bool): (r: (Gate, Option<(byte, Bytes)>))
    ensures r.0.pair == g.pair
  {
    if address.None? then (g, None)
    else if address.value in g.sessions then
      var x := g.sessions[address.value];
      var (session, frame) := lib.seal(x.session, [KIND_REPORT] + report);
      (g.(sessions := g.sessions[address.value := x.(session := session, at := now)]), Some((SEALED, frame)))
    else if TransitOff(g, testing) then (g, Some((PLAIN, report)))
    else (g, None)
  }

  // ---------------------------------------------------------------- the other calls

  function Quiet(g: Gate, quietMs: nat, now: nat): set<Address> {
    set a | a in g.sessions && now as int - g.sessions[a].at >= quietMs
  }

  function LinkGone(g: Gate, quietMs: nat, now: nat): (r: Gate)
    ensures r.pair == g.pair
  {
    g.(sessions := g.sessions - Quiet(g, quietMs, now))
  }

  function SetOn(lib: Lib, g0: Gate, id: string, on: bool, entropy: nat): (r: Gate)
    ensures r.pair == g0.pair
  {
    var g := Load(lib, g0, entropy);
    var switched := WithRecords(g, SwitchRecord(g.state.value.records, id, on));
    Save(lib, if on then switched else DropSessions(switched, SessionsOf(switched, id)))
  }

  function RevokeById(lib: Lib, g0: Gate, id: string, entropy: nat): (r: Gate)
    ensures r.pair == g0.pair
  {
    Save(lib, Drop(Load(lib, g0, entropy), id))
  }

  function ClearNotices(lib: Lib, g0: Gate, entropy: nat): (r: Gate)
    ensures r.pair == g0.pair
  {
    var g := Load(lib, g0, entropy);
    Save(lib, g.(state := Some(g.state.value.(notices := []))))
  }

  function AgeForTest(lib: Lib, g0: Gate, id: string, ms: int, testing: bool, entropy: nat): (r: Gate)
    ensures r.pair == g0.pair
  {
    if !testing then g0
    else
      var g := Load(lib, g0, entropy);
      Save(lib, WithRecords(g, AgeRecord(g.state.value.records, id, ms)))
  }

  const CLOSED := Pairing(0, None, None, None, Closed)

  function OpenWindow(lib: Lib, g: Gate, now: nat): Gate {
    g.(pair := Pairing(now + lib.pairWindow, None, None, None, Waiting(now + lib.pairWindow)))
  }

  /** The process starts again: only what is stored, and what already went out, is left. */
  function Restart(g: Gate): Gate {
    Gate(None, map[], CLOSED, None, false, 0, g.box, g.storedOff, g.sent, g.cut, g.alarms)
  }

  datatype Call =
    | HandleFrame(command: byte, bytes: Bytes, address: Address)
    | SendReport(to: Option<Address>, report: Bytes)
    | OpenPairWindow
    | ClosePairWindow
    | ApprovePairing
    | RadioLinkGone(quietMs: nat)
    | SwitchPairing(id: string, on: bool)
    | RevokePairing(id: string)
    | ClearAllNotices
    | SetTransitOff(off: bool)
    | EndSessions
    | SetSender(sender: nat)
    | ReleaseSender(sender: nat)
    | LoadStore
    | AgePairing(id: string, ms: int)
    | StartAgain

  datatype Event = Event(call: Call, now: nat, entropy: nat, testing: bool)

  function Step(lib: Lib, g: Gate, e: Event): Gate {
    match e.call
    case HandleFrame(command, bytes, a) => Handle(lib, g, command, bytes, a, e.now, e.entropy, e.testing).0
    case SendReport(to, report) => Outgoing(lib, g, to, report, e.now, e.testing).0
    case OpenPairWindow => OpenWindow(lib, g, e.now)
    case ClosePairWindow => g.(pair := CLOSED)
    case ApprovePairing => Approve(lib, g, e.now)
    case RadioLinkGone(quietMs) => LinkGone(g, quietMs, e.now)
    case SwitchPairing(id, on) => SetOn(lib, g, id, on, e.entropy)
    case RevokePairing(id) => RevokeById(lib, g, id, e.entropy)
    case ClearAllNotices => ClearNotices(lib, g, e.entropy)
    case SetTransitOff(off) => g.(transitOffWanted := off, storedOff := off)
    case EndSessions => DropSessions(g, g.sessions.Keys)
    case SetSender(s) => g.(sender := Some(s))
    case ReleaseSender(s) => if g.sender == Some(s) then g.(sender := None) else g
    case LoadStore => Load(lib, g, e.entropy)
    case AgePairing(id, ms) => AgeForTest(lib, g, id, ms, e.testing, e.entropy)
    case StartAgain => Restart(g)
  }
}
