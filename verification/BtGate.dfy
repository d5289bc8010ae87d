/** The gate as the app keeps it: one object whose fields every call updates in
    place, each method proved to do to the whole state what the call's rule says. */
module BtGate {
  import opened Basics
  import Rules = BtTransit
  import opened BtTransit

  lemma DropOneMore(g: Gate, ended: set<Address>, a: Address)
    requires a !in ended
    ensures Rules.DropSession(DropSessions(g, ended), a) == DropSessions(g, ended + {a})
  {
    assert g.sessions - ended - {a} == g.sessions - (ended + {a});
    assert g.cut + multiset(ended) + multiset{a} == g.cut + multiset(ended + {a});
  }

  lemma DropNone(g: Gate)
    ensures DropSessions(g, {}) == g
  {
    assert g.sessions - {} == g.sessions;
  }

  lemma LessOneMore(all: map<Address, Live>, quiet: set<Address>, todo: set<Address>, a: Address)
    requires a in todo
    ensures all - (quiet - (todo - {a})) == if a in quiet then all - (quiet - todo) - {a} else all - (quiet - todo)
  {
    if a in quiet {
      assert all - (quiet - (todo - {a})) == all - (quiet - todo) - {a};
    } else {
      assert quiet - (todo - {a}) == quiet - todo;
    }
  }

  lemma SplitNext(body: Bytes, i: nat)
    requires i < |body| && |body| % REPORT_BYTES == 0 && i % REPORT_BYTES == 0
    ensures i + REPORT_BYTES <= |body| && (i + REPORT_BYTES) % REPORT_BYTES == 0
    ensures Split(body[i..]) == [body[i..i + REPORT_BYTES]] + Split(body[i + REPORT_BYTES..])
  {
    assert body[i..][..REPORT_BYTES] == body[i..i + REPORT_BYTES];
    assert body[i..][REPORT_BYTES..] == body[i + REPORT_BYTES..];
  }

  lemma SplitDone(body: Bytes, i: nat)
    requires i == |body|
    ensures Split(body[i..]) == []
  {
  }

  lemma InQuiet(g: Gate, quietMs: nat, now: nat, a: Address)
    ensures a in Quiet(g, quietMs, now) <==> a in g.sessions && now as int - g.sessions[a].at >= quietMs
  {
  }

  lemma QuietIsPresent(g: Gate, quietMs: nat, now: nat)
    ensures Quiet(g, quietMs, now) <= g.sessions.Keys
  {
  }

  class TransitGate {
    const lib: Lib
    var state: Option<Stored>
    var sessions: map<Address, Live>
    var pair: Pairing
    var sender: Option<nat>
    var transitOffWanted: bool
    var alarmIds: nat
    // what the phone stores
    var box: Option<Bytes>
    var storedOff: bool
    // what went out
    var sent: seq<Frame>
    var cut: multiset<Address>
    var alarms: seq<Alarm>

    ghost function Whole(): Gate
      reads this
    {
      Gate(state, sessions, pair, sender, transitOffWanted, alarmIds, box, storedOff, sent, cut, alarms)
    }

    constructor (lib: Lib, box: Option<Bytes>, storedOff: bool)
      ensures this.lib == lib
      ensures Whole() == Gate(None, map[], CLOSED, None, false, 0, box, storedOff, [], multiset{}, [])
    {
      this.lib := lib;
      state, sessions, pair, sender := None, map[], CLOSED, None;
      transitOffWanted, alarmIds := false, 0;
      this.box, this.storedOff := box, storedOff;
      sent, cut, alarms := [], multiset{}, [];
    }

    // -------------------------------------------------------------- the store

    method Load(entropy: nat)
      modifies this
      ensures Whole() == Rules.Load(lib, old(Whole()), entropy)
    {
      if state.Some? { return; }
      transitOffWanted := storedOff;
      if box.Some? {
        var unsealed := lib.boxOpen(box.value);
        if unsealed.Some? {
          state := unsealed;
          return;
        }
      }
      state := Some(Stored(lib.generateIdentity(entropy), [], []));
      Save();
    }

    method Save()
      modifies this
      ensures Whole() == Rules.Save(lib, old(Whole()))
    {
      if state.None? { return; }
      box := Some(lib.boxSeal(state.value));
    }

    method SetRecords(rs: seq<PairRecord>)
      requires state.Some?
      modifies this
      ensures Whole() == WithRecords(old(Whole()), rs)
    {
      state := Some(state.value.(records := rs));
    }

    method Send(cmd: byte, bytes: Bytes)
      modifies this
      ensures Whole() == Rules.Send(old(Whole()), cmd, bytes)
    {
      if sender.None? { return; }
      sent := sent + [Frame(sender.value, cmd, bytes)];
    }

    method Notify(kind: NoticeKind, rec: PairRecord, now: nat)
      requires state.Some?
      modifies this
      ensures Whole() == AddNotice(old(Whole()), kind, rec, now)
    {
      var all := [Notice(kind, rec.id, rec.name, now)] + state.value.notices;
      state := Some(state.value.(notices := if |all| > NOTICES_MAX then all[..NOTICES_MAX] else all));
      alarmIds := (alarmIds + 1) % 0x10000;
      alarms := alarms + [Alarm(alarmIds, kind, rec.name)];
    }

    // -------------------------------------------------------------- links and sessions

    method DropSession(a: Address)
      modifies this
      ensures Whole() == Rules.DropSession(old(Whole()), a)
    {
      sessions := sessions - {a};
      cut := cut + multiset{a};
    }

    /** Every session of a pairing, in whatever order the map gives them. */
    method DropSessionsOf(id: string)
      modifies this
      ensures Whole() == DropSessions(old(Whole()), SessionsOf(old(Whole()), id))
    {
      hide DropSessions, Rules.DropSession;
      ghost var was := Whole();
      ghost var mine := SessionsOf(was, id);
      var all := sessions;
      var todo := all.Keys;
      DropNone(was);
      assert mine - todo == {};
      while todo != {}
        invariant todo <= all.Keys && all == was.sessions
        invariant Whole() == DropSessions(was, mine - todo)
        decreases |todo|
      {
        var a :| a in todo;
        if all[a].id == id {
          DropOneMore(was, mine - todo, a);
          assert mine - todo + {a} == mine - (todo - {a});
          DropSession(a);
        } else {
          assert mine - todo == mine - (todo - {a});
        }
        todo := todo - {a};
      }
      assert mine - {} == mine;
    }

    method Drop(id: string)
      requires state.Some?
      modifies this
      ensures Whole() == Rules.Drop(old(Whole()), id)
    {
      SetRecords(Without(state.value.records, id));
      DropSessionsOf(id);
    }

    /** Forget every live session: the bridge stopped, or Bluetooth went off. */
    method EndSessions()
      modifies this
      ensures Whole() == DropSessions(old(Whole()), old(Whole()).sessions.Keys)
    {
      hide DropSessions, Rules.DropSession;
      ghost var was := Whole();
      var todo := sessions.Keys;
      DropNone(was);
      assert was.sessions.Keys - todo == {};
      while todo != {}
        invariant todo <= was.sessions.Keys
        invariant Whole() == DropSessions(was, was.sessions.Keys - todo)
        decreases |todo|
      {
        var a :| a in todo;
        DropOneMore(was, was.sessions.Keys - todo, a);
        assert was.sessions.Keys - todo + {a} == was.sessions.Keys - (todo - {a});
        DropSession(a);
        todo := todo - {a};
      }
      assert was.sessions.Keys - {} == was.sessions.Keys;
    }

    /** The radio says no link is left: end what went quiet, and touch no link. */
    method LinkGone(quietMs: nat, now: nat)
      modifies this
      ensures Whole() == Rules.LinkGone(old(Whole()), quietMs, now)
    {
      hide Quiet;
      ghost var was := Whole();
      var all := sessions;
      var todo := all.Keys;
      QuietIsPresent(was, quietMs, now);
      ghost var quiet := Quiet(was, quietMs, now);
      assert quiet - todo == {};
      assert all - {} == all;
      while todo != {}
        invariant todo <= all.Keys && all == was.sessions
        invariant Whole() == was.(sessions := all - (quiet - todo))
        decreases |todo|
      {
        var a :| a in todo;
        if now as int - all[a].at >= quietMs {
          sessions := sessions - {a};
        }
        LessOneMore(all, quiet, todo, a);
        InQuiet(was, quietMs, now, a);
        todo := todo - {a};
      }
      assert quiet - {} == quiet;
    }

    method SealControl(a: Address, payload: Bytes)
      requires a in sessions
      modifies this
      ensures Whole() == SendControl(lib, old(Whole()), a, payload)
    {
      var x := sessions[a];
      var (session, frame) := lib.seal(x.session, [KIND_CONTROL] + payload);
      sessions := sessions[a := x.(session := session)];
      Send(SEALED, frame);
    }

    // -------------------------------------------------------------- pairing

    method OnPairMessage(msg: Bytes, a: Address, now: nat, entropy: nat)
      modifies this
      ensures Whole() == Rules.OnPairMessage(lib, old(Whole()), msg, a, now, entropy)
    {
      Load(entropy);
      var t := lib.msgType(msg);
      if t == HELLO {
        OnHello(msg, a, now, entropy);
        return;
      }
      if !WindowOpen(pair, now) { return; }
      if t == COMMIT {
        TakeCommit(msg, a, now);
        return;
      }
      if pair.address != Some(a) { return; }
      if t == REVEAL && pair.lib.Some? {
        TakeReveal(msg, a, now);
        return;
      }
      if t == CONFIRM && pair.pending.Some? {
        TakeConfirm(msg);
      }
    }

    method TakeCommit(msg: Bytes, a: Address, now: nat)
      requires state.Some?
      modifies this
      ensures Whole() == OnCommit(lib, old(Whole()), msg, a, now)
    {
      if pair.address.Some? && pair.address != Some(a) { return; }
      var r := lib.onCommit(state.value.identity, pair.until, now, msg);
      if r.None? { return; }
      pair := pair.(address := Some(a), lib := Some(r.value.0), view := Waiting(pair.until));
      Send(PAIR, r.value.1);
    }

    method TakeReveal(msg: Bytes, a: Address, now: nat)
      requires pair.lib.Some?
      modifies this
      ensures Whole() == OnReveal(lib, old(Whole()), msg, a, now)
    {
      var r := lib.onReveal(pair.lib.value, msg, now);
      if r.None? {
        pair := pair.(lib := None, view := Failed);
        return;
      }
      pair := pair.(lib := Some(r.value.state), view := Code(pair.until, r.value.code, r.value.name, a));
    }

    method TakeConfirm(msg: Bytes)
      requires state.Some? && pair.pending.Some?
      modifies this
      ensures Whole() == OnConfirm(lib, old(Whole()), msg)
    {
      var rec := pair.pending.value;
      if !lib.onConfirm(rec, msg) { return; }
      Drop(rec.id);
      SetRecords(state.value.records + [rec]);
      Save();
      Send(PAIR, lib.pairAck(rec));
      pair := Pairing(0, None, None, None, Paired(rec.code, rec.name));
    }

    method ApprovePairing(now: nat) returns (answered: bool)
      modifies this
      ensures Whole() == Approve(lib, old(Whole()), now)
      ensures answered <==> old(WindowOpen(pair, now) && pair.view.Code? && pair.lib.Some?)
    {
      if !WindowOpen(pair, now) || !pair.view.Code? || pair.lib.None? { return false; }
      var (pending, msg) := lib.approve(pair.lib.value, now, pair.address);
      pair := pair.(lib := None, pending := Some(pending), view := Approved(pair.until, pair.view.code, pair.view.name));
      Send(PAIR, msg);
      answered := true;
    }

    method OpenPairWindow(now: nat) returns (until: nat)
      modifies this`pair
      ensures Whole() == OpenWindow(lib, old(Whole()), now) && until == now + lib.pairWindow
    {
      pair := Pairing(now + lib.pairWindow, None, None, None, Waiting(now + lib.pairWindow));
      until := pair.until;
    }

    method ClosePairWindow()
      modifies this`pair
      ensures Whole() == old(Whole()).(pair := CLOSED)
    {
      pair := CLOSED;
    }

    // -------------------------------------------------------------- connections

    method EndPairingOf(kind: NoticeKind, id: string, now: nat)
      requires state.Some? && Find(state.value.records, id).Some?
      modifies this
      ensures Whole() == EndPairing(lib, old(Whole()), kind, id, now)
    {
      var rec := Find(state.value.records, id).value;
      Notify(kind, rec, now);
      Drop(rec.id);
      Save();
    }

    method OnHello(msg: Bytes, a: Address, now: nat, entropy: nat)
      requires state.Some?
      modifies this
      ensures Whole() == Rules.OnHello(lib, old(Whole()), msg, a, now, entropy)
    {
      hide EndPairing, HelloOpen;
      var rs := state.value.records;
      match lib.onHello(rs, msg, now, a)
      case CopyAlarm(id) =>
        if Find(rs, id).Some? { EndPairingOf(Copy, id, now); }
      case Revoke(id, byName) =>
        if Find(rs, id).Some? { EndPairingOf(if byName then RevokedName else RevokedMac, id, now); }
      case Expire(id) =>
        if Find(rs, id).Some? { EndPairingOf(Expired, id, now); }
      case Opened(session, rec, reply) =>
        SetRecords(Replace(rs, rec));
        Save();
        OpenSession(a, session, rec, reply, now, entropy);
      case Silence =>
    }

    method OpenSession(a: Address, session: Bytes, rec: PairRecord, reply: Bytes, now: nat, entropy: nat)
      modifies this
      ensures Whole() == HelloOpen(lib, old(Whole()), a, session, rec, reply, now, entropy)
    {
      sessions := sessions[a := Live(session, rec.id, None, now)];
      Send(PAIR, reply);
      SealControl(a, [CTRL_BATCH, 1]);
      if lib.renewDue(rec, now) { OfferRenewal(a, entropy); }
    }

    method OfferRenewal(a: Address, entropy: nat)
      requires a in sessions
      modifies this
      ensures Whole() == Rules.OfferRenewal(lib, old(Whole()), a, entropy)
    {
      var (offered, payload) := lib.renewOffer(entropy);
      sessions := sessions[a := sessions[a].(renew := Some(offered))];
      SealControl(a, payload);
    }

    method OnControl(a: Address, payload: Bytes, now: nat, entropy: nat)
      modifies this
      ensures Whole() == Rules.OnControl(lib, old(Whole()), a, payload, now, entropy)
    {
      if a in sessions && payload != [] && payload[0] == CTRL_BYE {
        DropSession(a);
        return;
      }
      if a !in sessions || sessions[a].renew.None? { return; }
      Load(entropy);
      var x := sessions[a];
      var rec := Find(state.value.records, x.id);
      if rec.None? { return; }
      var next := lib.renewFinish(rec.value, x.renew.value, payload, now);
      sessions := sessions[a := x.(renew := None)];
      if next.None? { return; }
      SetRecords(Replace(state.value.records, next.value));
      Save();
    }

    // -------------------------------------------------------------- what reaches the key

    method Handle(command: byte, bytes: Bytes, a: Address, now: nat, entropy: nat, testing: bool) returns (handOn: HandOn)
      modifies this
      ensures (Whole(), handOn) == Rules.Handle(lib, old(Whole()), command, bytes, a, now, entropy, testing)
    {
      handOn := Nothing;
      var cmd := WithHighBit(command);
      if cmd == PAIR {
        OnPairMessage(bytes, a, now, entropy);
      } else if cmd == SEALED {
        handOn := TakeSealed(bytes, a, now, entropy);
      } else if cmd == PLAIN {
        handOn := TakePlain(bytes, a, testing, entropy);
      }
    }

    method TakePlain(bytes: Bytes, a: Address, testing: bool, entropy: nat) returns (handOn: HandOn)
      modifies this
      ensures (Whole(), handOn) == OnPlain(lib, old(Whole()), bytes, a, testing, entropy)
    {
      Load(entropy);
      if testing && transitOffWanted { return One(bytes); }
      if a !in sessions { DropSession(a); }
      handOn := Nothing;
    }

    method TakeSealed(bytes: Bytes, a: Address, now: nat, entropy: nat) returns (handOn: HandOn)
      modifies this
      ensures (Whole(), handOn) == OnSealed(lib, old(Whole()), bytes, a, now, entropy)
    {
      handOn := Nothing;
      if a !in sessions {
        DropSession(a);
        return;
      }
      var (session, pt) := lib.open(sessions[a].session, bytes);
      sessions := sessions[a := sessions[a].(session := session, at := now)];
      if pt.None? || pt.value == [] { return; }
      var kind, body := pt.value[0], pt.value[1..];
      if kind == KIND_REPORT { return One(body); }
      if kind == KIND_REPORTS {
        if |body| < 2 * REPORT_BYTES || |body| % REPORT_BYTES != 0 { return; }
        var out := TakeApart(body);
        return Many(out);
      }
      if kind == KIND_CONTROL { OnControl(a, body, now, entropy); }
    }

    static method TakeApart(body: Bytes) returns (out: seq<Bytes>)
      requires |body| % REPORT_BYTES == 0
      ensures out == Split(body)
    {
      hide Split;
      out := [];
      var i := 0;
      assert body[0..] == body;
      while i < |body|
        invariant 0 <= i <= |body| && i % REPORT_BYTES == 0
        invariant Split(body) == out + Split(body[i..])
      {
        SplitNext(body, i);
        ghost var rest := Split(body[i + REPORT_BYTES..]);
        assert out + ([body[i..i + REPORT_BYTES]] + rest) == out + [body[i..i + REPORT_BYTES]] + rest;
        out := out + [body[i..i + REPORT_BYTES]];
        i := i + REPORT_BYTES;
      }
      SplitDone(body, i);
    }

    method Outgoing(address: Option<Address>, report: Bytes, now: nat, testing: bool) returns (out: Option<(byte, Bytes)>)
      modifies this`sessions
      ensures (Whole(), out) == Rules.Outgoing(lib, old(Whole()), address, report, now, testing)
    {
      if address.None? { return None; }
      var a := address.value;
      if a in sessions {
        var (session, frame) := lib.seal(sessions[a].session, [KIND_REPORT] + report);
        sessions := sessions[a := sessions[a].(session := session, at := now)];
        return Some((SEALED, frame));
      }
      if testing && transitOffWanted { return Some((PLAIN, report)); }
      out := None;
    }

    // -------------------------------------------------------------- the other calls

    method SetOn(id: string, on: bool, entropy: nat)
      modifies this
      ensures Whole() == Rules.SetOn(lib, old(Whole()), id, on, entropy)
    {
      Load(entropy);
      SetRecords(SwitchRecord(state.value.records, id, on));
      if !on { DropSessionsOf(id); }
      Save();
    }

    method SetTransitOff(off: bool)
      modifies this
      ensures Whole() == old(Whole()).(transitOffWanted := off, storedOff := off)
    {
      transitOffWanted, storedOff := off, off;
    }

    method SetSender(s: nat)
      modifies this`sender
      ensures Whole() == old(Whole()).(sender := Some(s))
    {
      sender := Some(s);
    }

    /** Let go of the sender only if it is still the caller's. */
    method ReleaseSender(s: nat)
      modifies this`sender
      ensures Whole() == if old(Whole()).sender == Some(s) then old(Whole()).(sender := None) else old(Whole())
    {
      if sender == Some(s) { sender := None; }
    }

    method Revoke(id: string, entropy: nat)
      modifies this
      ensures Whole() == RevokeById(lib, old(Whole()), id, entropy)
    {
      Load(entropy);
      Drop(id);
      Save();
    }

    method ClearNotices(entropy: nat)
      modifies this
      ensures Whole() == Rules.ClearNotices(lib, old(Whole()), entropy)
    {
      Load(entropy);
      state := Some(state.value.(notices := []));
      Save();
    }

    method AgeForTest(id: string, ms: int, testing: bool, entropy: nat)
      modifies this
      ensures Whole() == Rules.AgeForTest(lib, old(Whole()), id, ms, testing, entropy)
    {
      if !testing { return; }
      Load(entropy);
      SetRecords(AgeRecord(state.value.records, id, ms));
      Save();
    }

    /** Every call at once, so that a run of calls on this object is a run of the rules. */
    method Perform(e: Event)
      requires !e.call.StartAgain?
      modifies this
      ensures Whole() == Step(lib, old(Whole()), e)
    {
      hide Rules.Handle, Rules.Outgoing, OpenWindow, Approve, Rules.LinkGone, Rules.SetOn, RevokeById, Rules.ClearNotices,
           Rules.AgeForTest, Rules.Load, DropSessions, Whole;
      match e.call
      case HandleFrame(command, bytes, a) => var _ := Handle(command, bytes, a, e.now, e.entropy, e.testing);
      case SendReport(to, report) => var _ := Outgoing(to, report, e.now, e.testing);
      case OpenPairWindow => var _ := OpenPairWindow(e.now);
      case ClosePairWindow => ClosePairWindow();
      case ApprovePairing => var _ := ApprovePairing(e.now);
      case RadioLinkGone(quietMs) => LinkGone(quietMs, e.now);
      case SwitchPairing(id, on) => SetOn(id, on, e.entropy);
      case RevokePairing(id) => Revoke(id, e.entropy);
      case ClearAllNotices => ClearNotices(e.entropy);
      case SetTransitOff(off) => SetTransitOff(off);
      case EndSessions => EndSessions();
      case SetSender(s) => SetSender(s);
      case ReleaseSender(s) => ReleaseSender(s);
      case LoadStore => Load(e.entropy);
      case AgePairing(id, ms) => AgeForTest(id, ms, e.testing, e.entropy);
    }
  }
}
