/** What the pairing gate keeps over every run: sessions belong to pairings that
    are there and on, and what is stored is what is live; and what each call may
    change: the identity, the pairings, the sessions and their links. */
module BtTransitSafety {
  import opened Basics
  import opened BtTransit

  // ---------------------------------------------------------------- the invariant

  ghost predicate Distinct(rs: seq<PairRecord>) {
    forall i, j :: 0 <= i < j < |rs| ==> rs[i].id != rs[j].id
  }

  /** At most NOTICES_MAX, newest first, none from the future. */
  ghost predicate NoticesOk(ns: seq<Notice>, clock: nat) {
    && |ns| <= NOTICES_MAX
    && (forall i :: 0 <= i < |ns| ==> ns[i].at <= clock)
    && (forall i, j :: 0 <= i < j < |ns| ==> ns[i].at >= ns[j].at)
  }

  ghost predicate StoredOk(s: Stored, clock: nat) {
    Distinct(s.records) && NoticesOk(s.notices, clock)
  }

  ghost predicate HasOn(rs: seq<PairRecord>, id: string) {
    exists r :: r in rs && r.id == id && r.on
  }

  /** Every session belongs to a pairing that is there and switched on. */
  ghost predicate Backed(g: Gate) {
    forall a :: a in g.sessions ==> g.state.Some? && HasOn(g.state.value.records, g.sessions[a].id)
  }

  /** What is stored opens to what is live. */
  ghost predicate Synced(lib: Lib, g: Gate) {
    g.state.Some? ==> g.box.Some? && lib.boxOpen(g.box.value) == g.state && g.transitOffWanted == g.storedOff
  }

  /** What a restart would find: the live state, or what the stored value opens to. */
  function Durable(lib: Lib, g: Gate): Option<Stored> {
    if g.state.Some? then g.state else if g.box.Some? then lib.boxOpen(g.box.value) else None
  }

  ghost predicate Good(lib: Lib, g: Gate, clock: nat) {
    Backed(g) && Synced(lib, g) && (Durable(lib, g).Some? ==> StoredOk(Durable(lib, g).value, clock))
  }

  /** Good but for the save that is still to come. */
  ghost predicate Unsaved(g: Gate, clock: nat) {
    g.state.Some? && Backed(g) && StoredOk(g.state.value, clock) && g.transitOffWanted == g.storedOff
  }

  lemma LoadGood(lib: Lib, g: Gate, entropy: nat, clock: nat)
    requires lib.Lawful() && Good(lib, g, clock)
    ensures Good(lib, Load(lib, g, entropy), clock) && Unsaved(Load(lib, g, entropy), clock)
  {
  }

  lemma SaveGood(lib: Lib, g: Gate, clock: nat)
    requires lib.Lawful() && Unsaved(g, clock)
    ensures Good(lib, Save(lib, g), clock) && Unsaved(Save(lib, g), clock)
  {
  }

  lemma {:induction false} WithoutDistinct(rs: seq<PairRecord>, id: string)
    requires Distinct(rs)
    ensures Distinct(Without(rs, id))
  {
    if rs != [] {
      var rest := Without(rs[1..], id);
      WithoutDistinct(rs[1..], id);
      forall r | r in rest ensures r.id != rs[0].id {
        var j :| 0 <= j < |rs[1..]| && rs[1..][j] == r;
        assert rs[j + 1] == r;
      }
    }
  }

  lemma DropUnsaved(g: Gate, id: string, clock: nat)
    requires Unsaved(g, clock)
    ensures Unsaved(Drop(g, id), clock)
  {
    WithoutDistinct(g.state.value.records, id);
    var d := Drop(g, id);
    forall a | a in d.sessions ensures HasOn(d.state.value.records, d.sessions[a].id) {
      assert a in g.sessions && g.sessions[a].id != id;
      var r :| r in g.state.value.records && r.id == g.sessions[a].id && r.on;
      assert r in d.state.value.records;
    }
  }

  /** Rewriting records in place, ids and switches kept. */
  ghost predicate SameIds(rs: seq<PairRecord>, out: seq<PairRecord>) {
    |out| == |rs| && forall i :: 0 <= i < |rs| ==> out[i].id == rs[i].id && out[i].on == rs[i].on
  }

  lemma SameIdsUnsaved(g: Gate, rs: seq<PairRecord>, clock: nat)
    requires Unsaved(g, clock) && SameIds(g.state.value.records, rs)
    ensures Unsaved(WithRecords(g, rs), clock)
  {
    var d := WithRecords(g, rs);
    forall a | a in d.sessions ensures HasOn(rs, d.sessions[a].id) {
      var r :| r in g.state.value.records && r.id == g.sessions[a].id && r.on;
      var i :| 0 <= i < |rs| && g.state.value.records[i] == r;
      assert rs[i] in rs;
    }
  }

  lemma ReplaceSameIds(rs: seq<PairRecord>, rec: PairRecord)
    requires Distinct(rs) && Find(rs, rec.id).Some? && Find(rs, rec.id).value.on == rec.on
    ensures SameIds(rs, Replace(rs, rec))
  {
    var found := Find(rs, rec.id).value;
    var k :| 0 <= k < |rs| && rs[k] == found;
    forall i | 0 <= i < |rs| ensures Replace(rs, rec)[i].on == rs[i].on {
      if i < k { assert rs[i].id != rs[k].id; } else if k < i { assert rs[k].id != rs[i].id; }
    }
  }

  lemma NoticeUnsaved(g: Gate, kind: NoticeKind, rec: PairRecord, now: nat)
    requires Unsaved(g, now)
    ensures Unsaved(AddNotice(g, kind, rec, now), now)
    ensures AddNotice(g, kind, rec, now).state.value.notices[0] == Notice(kind, rec.id, rec.name, now)
  {
  }

  lemma EndPairingGood(lib: Lib, g: Gate, kind: NoticeKind, id: string, now: nat)
    requires lib.Lawful() && Unsaved(g, now) && Find(g.state.value.records, id).Some?
    ensures Good(lib, EndPairing(lib, g, kind, id, now), now)
  {
    var rec := Find(g.state.value.records, id).value;
    NoticeUnsaved(g, kind, rec, now);
    DropUnsaved(AddNotice(g, kind, rec, now), rec.id, now);
    SaveGood(lib, Drop(AddNotice(g, kind, rec, now), rec.id), now);
  }

  /** Only the sessions' own values change: same addresses, same pairings. */
  ghost predicate SameSessions(g: Gate, h: Gate) {
    && h.state == g.state && h.box == g.box && h.transitOffWanted == g.transitOffWanted && h.storedOff == g.storedOff
    && forall a :: a in h.sessions ==> a in g.sessions && h.sessions[a].id == g.sessions[a].id
  }

  lemma SameSessionsGood(lib: Lib, g: Gate, h: Gate, clock: nat)
    requires Good(lib, g, clock) && SameSessions(g, h)
    ensures Good(lib, h, clock)
  {
  }

  lemma LaterGood(lib: Lib, g: Gate, clock: nat, later: nat)
    requires Good(lib, g, clock) && clock <= later
    ensures Good(lib, g, later)
  {
  }

  /** A hello's session opened: one more session, of that pairing, and nothing stored changes. */
  lemma OpenedSessions(lib: Lib, g: Gate, a: Address, session: Bytes, rec: PairRecord, msg: Bytes, now: nat, entropy: nat)
    ensures var h := HelloOpen(lib, g, a, session, rec, msg, now, entropy);
            && h.state == g.state && h.box == g.box && h.cut == g.cut
            && h.transitOffWanted == g.transitOffWanted && h.storedOff == g.storedOff
            && h.sessions.Keys == g.sessions.Keys + {a} && h.sessions[a].id == rec.id
            && forall b :: b in g.sessions && b != a ==> h.sessions[b] == g.sessions[b]
  {
    hide SendControl;
  }

  lemma HelloOpenGood(lib: Lib, g: Gate, a: Address, session: Bytes, rec: PairRecord, msg: Bytes, now: nat, entropy: nat)
    requires Good(lib, g, now) && g.state.Some? && HasOn(g.state.value.records, rec.id)
    ensures Good(lib, HelloOpen(lib, g, a, session, rec, msg, now, entropy), now)
  {
    hide HelloOpen;
    OpenedSessions(lib, g, a, session, rec, msg, now, entropy);
  }

  lemma HelloGood(lib: Lib, g: Gate, msg: Bytes, a: Address, now: nat, entropy: nat)
    requires lib.Lawful() && Good(lib, g, now) && Unsaved(g, now)
    ensures Good(lib, OnHello(lib, g, msg, a, now, entropy), now)
  {
    var rs := g.state.value.records;
    var v := lib.onHello(rs, msg, now, a);
    assert LawfulHello(rs, v);
    match v
    case CopyAlarm(id) => EndPairingGood(lib, g, Copy, id, now);
    case Revoke(id, byName) => EndPairingGood(lib, g, if byName then RevokedName else RevokedMac, id, now);
    case Expire(id) => EndPairingGood(lib, g, Expired, id, now);
    case Opened(session, rec, reply) =>
      ReplaceSameIds(rs, rec);
      SameIdsUnsaved(g, Replace(rs, rec), now);
      SaveGood(lib, WithRecords(g, Replace(rs, rec)), now);
      var found := Find(rs, rec.id).value;
      var k :| 0 <= k < |rs| && rs[k] == found;
      assert Replace(rs, rec)[k] in Replace(rs, rec);
      HelloOpenGood(lib, HelloSave(lib, g, rec), a, session, rec, reply, now, entropy);
    case Silence =>
  }

  lemma AdoptGood(lib: Lib, g: Gate, rec: PairRecord, now: nat)
    requires lib.Lawful() && Unsaved(g, now)
    ensures Good(lib, Adopt(lib, g, rec), now)
  {
    hide Save, Good, Lib.Lawful;
    var d := Drop(g, rec.id);
    DropUnsaved(g, rec.id, now);
    var rs := d.state.value.records;
    assert forall i :: 0 <= i < |rs| ==> rs[i] in rs;
    var h := WithRecords(d, rs + [rec]);
    forall a | a in h.sessions ensures HasOn(rs + [rec], h.sessions[a].id) {
      var r :| r in rs && r.id == d.sessions[a].id && r.on;
      assert r in rs + [rec];
    }
    SaveGood(lib, h, now);
  }

  lemma ConfirmGood(lib: Lib, g: Gate, msg: Bytes, now: nat)
    requires lib.Lawful() && Good(lib, g, now) && Unsaved(g, now) && g.pair.pending.Some?
    ensures Good(lib, OnConfirm(lib, g, msg), now)
  {
    hide Adopt, Good, Unsaved, Lib.Lawful;
    var rec := g.pair.pending.value;
    assert g.state.Some? by { UnsavedLoaded(g, now); }
    AdoptGood(lib, g, rec, now);
    if lib.onConfirm(rec, msg) { SameSessionsGood(lib, Adopt(lib, g, rec), OnConfirm(lib, g, msg), now); }
  }

  lemma UnsavedLoaded(g: Gate, clock: nat)
    requires Unsaved(g, clock)
    ensures g.state.Some?
  {
  }

  lemma PairMessageGood(lib: Lib, g: Gate, msg: Bytes, a: Address, now: nat, entropy: nat)
    requires lib.Lawful() && Good(lib, g, now)
    ensures Good(lib, OnPairMessage(lib, g, msg, a, now, entropy), now)
  {
    hide Good, Unsaved, Load, OnHello, OnConfirm, Lib.Lawful;
    LoadGood(lib, g, entropy, now);
    var h := Load(lib, g, entropy);
    if lib.msgType(msg) == HELLO {
      HelloGood(lib, h, msg, a, now, entropy);
    } else if lib.msgType(msg) == CONFIRM && h.pair.pending.Some? {
      ConfirmGood(lib, h, msg, now);
    }
    if lib.msgType(msg) != HELLO && lib.msgType(msg) != CONFIRM {
      SameSessionsGood(lib, h, OnPairMessage(lib, g, msg, a, now, entropy), now);
    }
  }

  lemma FinishGood(lib: Lib, g: Gate, a: Address, payload: Bytes, now: nat)
    requires lib.Lawful() && Good(lib, g, now) && Unsaved(g, now) && a in g.sessions && g.sessions[a].renew.Some?
    ensures Good(lib, FinishRenewal(lib, g, a, payload, now), now)
  {
    hide Good, Save;
    var x := g.sessions[a];
    var rs := g.state.value.records;
    var rec := Find(rs, x.id);
    if rec.Some? {
      var next := lib.renewFinish(rec.value, x.renew.value, payload, now);
      var done := g.(sessions := g.sessions[a := x.(renew := None)]);
      SameSessionsGood(lib, g, done, now);
      if next.Some? {
        ReplaceSameIds(rs, next.value);
        SameIdsUnsaved(done, Replace(rs, next.value), now);
        SaveGood(lib, WithRecords(done, Replace(rs, next.value)), now);
      }
    }
  }

  lemma ControlGood(lib: Lib, g: Gate, a: Address, payload: Bytes, now: nat, entropy: nat)
    requires lib.Lawful() && Good(lib, g, now)
    ensures Good(lib, OnControl(lib, g, a, payload, now, entropy), now)
  {
    hide Load, FinishRenewal, Good, Lib.Lawful;
    if a in g.sessions {
      SameSessionsGood(lib, g, DropSession(g, a), now);
      if g.sessions[a].renew.Some? {
        LoadGood(lib, g, entropy, now);
        FinishGood(lib, Load(lib, g, entropy), a, payload, now);
      }
    }
  }

  lemma SealedGood(lib: Lib, g: Gate, bytes: Bytes, a: Address, now: nat, entropy: nat)
    requires lib.Lawful() && Good(lib, g, now)
    ensures Good(lib, OnSealed(lib, g, bytes, a, now, entropy).0, now)
  {
    if a in g.sessions {
      var x := g.sessions[a];
      var (session, pt) := lib.open(x.session, bytes);
      var h := g.(sessions := g.sessions[a := x.(session := session, at := now)]);
      SameSessionsGood(lib, g, h, now);
      if pt.Some? && pt.value != [] { ControlGood(lib, h, a, pt.value[1..], now, entropy); }
    } else {
      SameSessionsGood(lib, g, DropSession(g, a), now);
    }
  }

  lemma PlainGood(lib: Lib, g: Gate, bytes: Bytes, a: Address, testing: bool, now: nat, entropy: nat)
    requires lib.Lawful() && Good(lib, g, now)
    ensures Good(lib, OnPlain(lib, g, bytes, a, testing, entropy).0, now)
  {
    LoadGood(lib, g, entropy, now);
    SameSessionsGood(lib, Load(lib, g, entropy), DropSession(Load(lib, g, entropy), a), now);
  }

  lemma SetOnGood(lib: Lib, g0: Gate, id: string, on: bool, now: nat, entropy: nat)
    requires lib.Lawful() && Good(lib, g0, now)
    ensures Good(lib, SetOn(lib, g0, id, on, entropy), now)
  {
    LoadGood(lib, g0, entropy, now);
    var g := Load(lib, g0, entropy);
    var rs := g.state.value.records;
    var out := SwitchRecord(rs, id, on);
    var switched := WithRecords(g, out);
    var h := if on then switched else DropSessions(switched, SessionsOf(switched, id));
    forall a | a in h.sessions ensures HasOn(out, h.sessions[a].id) {
      var r :| r in rs && r.id == g.sessions[a].id && r.on;
      var i :| 0 <= i < |rs| && rs[i] == r;
      assert out[i] in out;
    }
    SaveGood(lib, h, now);
  }

  lemma AgeGood(lib: Lib, g0: Gate, id: string, ms: int, testing: bool, now: nat, entropy: nat)
    requires lib.Lawful() && Good(lib, g0, now)
    ensures Good(lib, AgeForTest(lib, g0, id, ms, testing, entropy), now)
  {
    LoadGood(lib, g0, entropy, now);
    var g := Load(lib, g0, entropy);
    var out := AgeRecord(g.state.value.records, id, ms);
    SameIdsUnsaved(g, out, now);
    SaveGood(lib, WithRecords(g, out), now);
  }

  lemma ClearGood(lib: Lib, g0: Gate, now: nat, entropy: nat)
    requires lib.Lawful() && Good(lib, g0, now)
    ensures Good(lib, ClearNotices(lib, g0, entropy), now)
  {
    LoadGood(lib, g0, entropy, now);
    var g := Load(lib, g0, entropy);
    SaveGood(lib, g.(state := Some(g.state.value.(notices := []))), now);
  }

  lemma RevokeGood(lib: Lib, g0: Gate, id: string, now: nat, entropy: nat)
    requires lib.Lawful() && Good(lib, g0, now)
    ensures Good(lib, RevokeById(lib, g0, id, entropy), now)
  {
    LoadGood(lib, g0, entropy, now);
    DropUnsaved(Load(lib, g0, entropy), id, now);
    SaveGood(lib, Drop(Load(lib, g0, entropy), id), now);
  }

  lemma HandleGood(lib: Lib, g: Gate, command: byte, bytes: Bytes, a: Address, now: nat, entropy: nat, testing: bool)
    requires lib.Lawful() && Good(lib, g, now)
    ensures Good(lib, Handle(lib, g, command, bytes, a, now, entropy, testing).0, now)
  {
    hide Good, OnPairMessage, OnSealed, OnPlain, Lib.Lawful;
    PairMessageGood(lib, g, bytes, a, now, entropy);
    SealedGood(lib, g, bytes, a, now, entropy);
    PlainGood(lib, g, bytes, a, testing, now, entropy);
  }

  /** The calls that leave the pairings and the store alone. */
  predicate LeavesStore(call: Call) {
    call.SendReport? || call.OpenPairWindow? || call.ClosePairWindow? || call.ApprovePairing? || call.RadioLinkGone?
    || call.EndSessions? || call.SetSender? || call.ReleaseSender?
  }

  lemma OutgoingSame(lib: Lib, g: Gate, to: Option<Address>, report: Bytes, now: nat, testing: bool)
    ensures SameSessions(g, Outgoing(lib, g, to, report, now, testing).0)
  {
  }

  lemma ApproveSame(lib: Lib, g: Gate, now: nat)
    ensures SameSessions(g, Approve(lib, g, now))
  {
  }

  lemma LeavesStoreGood(lib: Lib, g: Gate, e: Event)
    requires LeavesStore(e.call)
    ensures SameSessions(g, Step(lib, g, e))
  {
    hide Handle, Load, SetOn, RevokeById, ClearNotices, AgeForTest, Restart, Outgoing, Approve;
    match e.call
    case SendReport(to, report) => OutgoingSame(lib, g, to, report, e.now, e.testing);
    case ApprovePairing => ApproveSame(lib, g, e.now);
    case _ =>
  }

  lemma RestartGood(lib: Lib, g: Gate, now: nat)
    requires Good(lib, g, now)
    ensures Good(lib, Restart(g), now)
  {
  }

  lemma SetTransitOffGood(lib: Lib, g: Gate, off: bool, now: nat)
    requires Good(lib, g, now)
    ensures Good(lib, g.(transitOffWanted := off, storedOff := off), now)
  {
  }

  /** Every call keeps the invariant. */
  lemma StepGood(lib: Lib, g: Gate, e: Event, clock: nat)
    requires lib.Lawful() && Good(lib, g, clock) && clock <= e.now
    ensures Good(lib, Step(lib, g, e), e.now)
  {
    hide Good, Handle, Load, SetOn, RevokeById, ClearNotices, AgeForTest, Restart, Outgoing, Approve, Lib.Lawful, SameSessions;
    LaterGood(lib, g, clock, e.now);
    match e.call
    case HandleFrame(command, bytes, a) => HandleGood(lib, g, command, bytes, a, e.now, e.entropy, e.testing);
    case SwitchPairing(id, on) => SetOnGood(lib, g, id, on, e.now, e.entropy);
    case RevokePairing(id) => RevokeGood(lib, g, id, e.now, e.entropy);
    case ClearAllNotices => ClearGood(lib, g, e.now, e.entropy);
    case SetTransitOff(off) => SetTransitOffGood(lib, g, off, e.now);
    case LoadStore => LoadGood(lib, g, e.entropy, e.now);
    case AgePairing(id, ms) => AgeGood(lib, g, id, ms, e.testing, e.now, e.entropy);
    case StartAgain => RestartGood(lib, g, e.now);
    case _ =>
      LeavesStoreGood(lib, g, e);
      SameSessionsGood(lib, g, Step(lib, g, e), e.now);
  }

  // ---------------------------------------------------------------- runs

  function Run(lib: Lib, g: Gate, events: seq<Event>): Gate {
    if events == [] then g else Step(lib, Run(lib, g, events[..|events| - 1]), events[|events| - 1])
  }

  /** Calls in the order of a clock that never goes back. */
  ghost predicate InOrder(events: seq<Event>, clock: nat) {
    && (forall i :: 0 <= i < |events| ==> clock <= events[i].now)
    && (forall i, j :: 0 <= i < j < |events| ==> events[i].now <= events[j].now)
  }

  function LastTime(events: seq<Event>, clock: nat): nat {
    if events == [] then clock else events[|events| - 1].now
  }

  /** In every state a run reaches, each session belongs to a pairing that is there and on, pairings have distinct
      ids, notices are bounded and newest first, and what is stored opens to what is live. */
  lemma {:induction false} RunGood(lib: Lib, g: Gate, events: seq<Event>, clock: nat)
    requires lib.Lawful() && Good(lib, g, clock) && InOrder(events, clock)
    ensures Good(lib, Run(lib, g, events), LastTime(events, clock))
  {
    hide Good, Step, Lib.Lawful;
    if events != [] {
      var init := events[..|events| - 1];
      RunGood(lib, g, init, clock);
      StepGood(lib, Run(lib, g, init), events[|events| - 1], LastTime(init, clock));
    }
  }

  /** A phone that has stored nothing, or a good store, starts well. */
  lemma StartIsGood(lib: Lib, box: Option<Bytes>, storedOff: bool, clock: nat)
    requires box.Some? && lib.boxOpen(box.value).Some? ==> StoredOk(lib.boxOpen(box.value).value, clock)
    ensures Good(lib, Gate(None, map[], CLOSED, None, false, 0, box, storedOff, [], multiset{}, []), clock)
    ensures !StageOpen(CLOSED.view)
  {
  }

  /** A restart after any run finds exactly the pairings, notices and identity that were live. */
  lemma RestartReloads(lib: Lib, g: Gate, events: seq<Event>, clock: nat, entropy: nat)
    requires lib.Lawful() && Good(lib, g, clock) && InOrder(events, clock)
    ensures var end := Run(lib, g, events);
            end.state.Some? ==> Load(lib, Restart(end), entropy).state == end.state
                                && Load(lib, Restart(end), entropy).transitOffWanted == end.transitOffWanted
  {
    RunGood(lib, g, events, clock);
  }

  // ---------------------------------------------------------------- what a call may change

  ghost function Ids(lib: Lib, g: Gate): set<string> {
    if Durable(lib, g).None? then {} else set r | r in Durable(lib, g).value.records :: r.id
  }

  /** The pairings a restart would find. */
  function Pairings(lib: Lib, g: Gate): seq<PairRecord> {
    if Durable(lib, g).None? then [] else Durable(lib, g).value.records
  }

  /** A pairing of the same id and secrets is among them. */
  ghost predicate Carries(rs: seq<PairRecord>, r: PairRecord) {
    exists x :: x in rs && x.id == r.id && x.secret == r.secret
  }

  /** What a call may bring: ids not there before, records with secrets not there before, and addresses whose session
      it may put another in place of. */
  datatype Change = Change(ids: set<string>, records: set<PairRecord>, over: set<Address>)

  const NOTHING := Change({}, {}, {})

  /** The session at this address goes on, for the same pairing. */
  predicate GoesOn(g: Gate, h: Gate, a: Address) {
    a in g.sessions && a in h.sessions && h.sessions[a].id == g.sessions[a].id
  }

  /** From g to h: the identity stays, no id, record or secret appears but those of `c`, links are only ever let go,
      and a session that ended had its link let go, but where another was put in its place. */
  ghost predicate Follows(lib: Lib, g: Gate, h: Gate, c: Change) {
    && (Durable(lib, g).Some? ==> Durable(lib, h).Some? && Durable(lib, h).value.identity == Durable(lib, g).value.identity)
    && Ids(lib, h) <= Ids(lib, g) + c.ids
    && (forall r :: r in Pairings(lib, h) ==> r in c.records || Carries(Pairings(lib, g), r))
    && (forall a :: g.cut[a] <= h.cut[a])
    && (forall a :: a in g.sessions ==> GoesOn(g, h, a) || g.cut[a] < h.cut[a] || a in c.over)
  }

  lemma FollowsThen(lib: Lib, g: Gate, h: Gate, k: Gate, c: Change)
    requires Follows(lib, g, h, NOTHING) && Follows(lib, h, k, c)
    ensures Follows(lib, g, k, c)
  {
  }

  /** Afterwards nothing stored changes, and sessions only at `over` are put aside. */
  lemma FollowsLater(lib: Lib, g: Gate, h: Gate, k: Gate, c: Change, over: set<Address>)
    requires Follows(lib, g, h, c) && Follows(lib, h, k, Change({}, {}, over)) && Durable(lib, k) == Durable(lib, h)
    ensures Follows(lib, g, k, c.(over := c.over + over))
    ensures over == {} ==> Follows(lib, g, k, c)
  {
    if over == {} { assert c.over + over == c.over; }
  }

  /** Nothing stored changes, no link is let go, no session ends. */
  lemma NeutralFollows(lib: Lib, g: Gate, h: Gate)
    requires h.state == g.state && h.box == g.box && h.cut == g.cut
    requires forall a :: a in g.sessions ==> GoesOn(g, h, a)
    ensures Follows(lib, g, h, NOTHING) && Durable(lib, h) == Durable(lib, g)
  {
    Same(lib, g, h);
  }

  lemma Same(lib: Lib, g: Gate, h: Gate)
    requires Durable(lib, h) == Durable(lib, g)
    ensures forall r :: r in Pairings(lib, h) ==> Carries(Pairings(lib, g), r)
  {
  }

  lemma LoadFollows(lib: Lib, g: Gate, entropy: nat)
    requires lib.Lawful()
    ensures Follows(lib, g, Load(lib, g, entropy), NOTHING) && Load(lib, g, entropy).pair == g.pair
  {
  }

  lemma SaveFollows(lib: Lib, g: Gate)
    requires lib.Lawful()
    ensures Follows(lib, g, Save(lib, g), NOTHING) && Durable(lib, Save(lib, g)) == Durable(lib, g)
  {
    Same(lib, g, Save(lib, g));
  }

  lemma RecordsFollow(lib: Lib, g: Gate, rs: seq<PairRecord>, c: Change)
    requires g.state.Some?
    requires forall r :: r in rs ==> r.id in Ids(lib, g) + c.ids && (r in c.records || Carries(g.state.value.records, r))
    ensures Follows(lib, g, WithRecords(g, rs), c)
  {
  }

  /** Rewriting records in place, ids and secrets kept. */
  lemma RewrittenFollow(lib: Lib, g: Gate, rs: seq<PairRecord>)
    requires g.state.Some? && |rs| == |g.state.value.records|
    requires forall i :: 0 <= i < |rs| ==>
               rs[i].id == g.state.value.records[i].id && rs[i].secret == g.state.value.records[i].secret
    ensures Follows(lib, g, WithRecords(g, rs), NOTHING)
  {
    forall r | r in rs ensures r.id in Ids(lib, g) && Carries(g.state.value.records, r) {
      var i :| 0 <= i < |rs| && rs[i] == r;
      assert g.state.value.records[i] in g.state.value.records;
    }
    RecordsFollow(lib, g, rs, NOTHING);
  }

  /** One record put in the place of that of its id. */
  lemma ReplacedFollow(lib: Lib, g: Gate, rec: PairRecord)
    requires g.state.Some?
    ensures Follows(lib, g, WithRecords(g, Replace(g.state.value.records, rec)), Change({}, {rec}, {}))
  {
    var was := g.state.value.records;
    var rs := Replace(was, rec);
    forall r | r in rs ensures r.id in Ids(lib, g) && (r == rec || Carries(was, r)) {
      var i :| 0 <= i < |rs| && rs[i] == r;
      assert was[i] in was;
    }
    RecordsFollow(lib, g, rs, Change({}, {rec}, {}));
  }

  lemma DropsFollow(lib: Lib, g: Gate, ended: set<Address>)
    ensures Follows(lib, g, DropSessions(g, ended), NOTHING)
  {
  }

  lemma DropFollows(lib: Lib, g: Gate, id: string)
    requires g.state.Some?
    ensures Follows(lib, g, Drop(g, id), NOTHING)
  {
    var h := WithRecords(g, Without(g.state.value.records, id));
    assert forall r :: r in Without(g.state.value.records, id) ==> Carries(g.state.value.records, r);
    RecordsFollow(lib, g, Without(g.state.value.records, id), NOTHING);
    DropsFollow(lib, h, SessionsOf(g, id));
    FollowsThen(lib, g, h, Drop(g, id), NOTHING);
  }

  lemma EndPairingFollows(lib: Lib, g: Gate, kind: NoticeKind, id: string, now: nat)
    requires lib.Lawful() && g.state.Some? && Find(g.state.value.records, id).Some?
    ensures Follows(lib, g, EndPairing(lib, g, kind, id, now), NOTHING)
  {
    var rec := Find(g.state.value.records, id).value;
    var n := AddNotice(g, kind, rec, now);
    assert Follows(lib, g, n, NOTHING);
    DropFollows(lib, n, rec.id);
    SaveFollows(lib, Drop(n, rec.id));
    FollowsThen(lib, g, n, Drop(n, rec.id), NOTHING);
    FollowsThen(lib, g, Drop(n, rec.id), EndPairing(lib, g, kind, id, now), NOTHING);
  }

  lemma HelloOpenFollows(lib: Lib, g: Gate, a: Address, session: Bytes, rec: PairRecord, msg: Bytes, now: nat, entropy: nat)
    ensures Follows(lib, g, HelloOpen(lib, g, a, session, rec, msg, now, entropy), Change({}, {}, {a}))
    ensures Durable(lib, HelloOpen(lib, g, a, session, rec, msg, now, entropy)) == Durable(lib, g)
  {
    hide HelloOpen;
    OpenedSessions(lib, g, a, session, rec, msg, now, entropy);
    Same(lib, g, HelloOpen(lib, g, a, session, rec, msg, now, entropy));
  }

  /** A hello that opens a session brings the record the library gives back, and may put aside the session there was at
      its address. */
  ghost function HelloBrings(lib: Lib, rs: seq<PairRecord>, msg: Bytes, a: Address, now: nat): Change {
    match lib.onHello(rs, msg, now, a)
    case Opened(_, rec, _) => Change({}, {rec}, {a})
    case _ => NOTHING
  }

  lemma HelloFollows(lib: Lib, g: Gate, msg: Bytes, a: Address, now: nat, entropy: nat)
    requires lib.Lawful() && g.state.Some?
    ensures Follows(lib, g, OnHello(lib, g, msg, a, now, entropy), HelloBrings(lib, g.state.value.records, msg, a, now))
  {
    hide Follows, EndPairing, HelloOpen, Save;
    var rs := g.state.value.records;
    NeutralFollows(lib, g, g);
    match lib.onHello(rs, msg, now, a)
    case CopyAlarm(id) => if Find(rs, id).Some? { EndPairingFollows(lib, g, Copy, id, now); }
    case Revoke(id, byName) => if Find(rs, id).Some? { EndPairingFollows(lib, g, if byName then RevokedName else RevokedMac, id, now); }
    case Expire(id) => if Find(rs, id).Some? { EndPairingFollows(lib, g, Expired, id, now); }
    case Opened(session, rec, reply) =>
      var w, s := WithRecords(g, Replace(rs, rec)), HelloSave(lib, g, rec);
      ReplacedFollow(lib, g, rec);
      SaveFollows(lib, w);
      FollowsLater(lib, g, w, s, Change({}, {rec}, {}), {});
      HelloOpenFollows(lib, s, a, session, rec, reply, now, entropy);
      FollowsLater(lib, g, s, HelloOpen(lib, s, a, session, rec, reply, now, entropy), Change({}, {rec}, {}), {a});
      assert Change({}, {rec}, {}).over + {a} == {a};
    case Silence =>
  }

  /** What a pairing confirmed brings: its id and its record. */
  ghost function Added(rec: PairRecord): Change {
    Change({rec.id}, {rec}, {})
  }

  lemma AdoptFollows(lib: Lib, g: Gate, rec: PairRecord)
    requires lib.Lawful() && g.state.Some?
    ensures Follows(lib, g, Adopt(lib, g, rec), Added(rec))
  {
    hide Follows, Save, Lib.Lawful;
    var d := Drop(g, rec.id);
    var rs := d.state.value.records;
    var w := WithRecords(d, rs + [rec]);
    DropFollows(lib, g, rec.id);
    Same(lib, d, d);
    assert forall r :: r in rs ==> r.id in Ids(lib, d);
    RecordsFollow(lib, d, rs + [rec], Added(rec));
    FollowsThen(lib, g, d, w, Added(rec));
    SaveFollows(lib, w);
    FollowsLater(lib, g, w, Save(lib, w), Added(rec), {});
  }

  /** Only a valid CONFIRM of the pending pairing adds one, and it adds that one. */
  lemma ConfirmFollows(lib: Lib, g: Gate, msg: Bytes)
    requires lib.Lawful() && g.state.Some? && g.pair.pending.Some?
    ensures Follows(lib, g, OnConfirm(lib, g, msg),
                    if lib.onConfirm(g.pair.pending.value, msg) then Added(g.pair.pending.value) else NOTHING)
  {
    hide Follows, Adopt;
    NeutralFollows(lib, g, g);
    var rec := g.pair.pending.value;
    if lib.onConfirm(rec, msg) {
      var w := Adopt(lib, g, rec);
      AdoptFollows(lib, g, rec);
      NeutralFollows(lib, w, OnConfirm(lib, g, msg));
      FollowsLater(lib, g, w, OnConfirm(lib, g, msg), Added(rec), {});
    }
  }

  /** What a pairing message adds: the pending pairing its CONFIRM is valid for. */
  ghost function Confirms(lib: Lib, g: Gate, msg: Bytes, a: Address, now: nat): Change {
    if lib.msgType(msg) == CONFIRM && WindowOpen(g.pair, now) && g.pair.address == Some(a) && g.pair.pending.Some?
       && lib.onConfirm(g.pair.pending.value, msg)
    then Added(g.pair.pending.value) else NOTHING
  }

  ghost function MessageBrings(lib: Lib, g: Gate, msg: Bytes, a: Address, now: nat, entropy: nat): Change {
    if lib.msgType(msg) == HELLO then HelloBrings(lib, Load(lib, g, entropy).state.value.records, msg, a, now)
    else Confirms(lib, g, msg, a, now)
  }

  lemma PairMessageFollows(lib: Lib, g: Gate, msg: Bytes, a: Address, now: nat, entropy: nat)
    requires lib.Lawful()
    ensures Follows(lib, g, OnPairMessage(lib, g, msg, a, now, entropy), MessageBrings(lib, g, msg, a, now, entropy))
  {
    hide Follows, OnHello, OnConfirm, Load, HelloBrings;
    var h := Load(lib, g, entropy);
    LoadFollows(lib, g, entropy);
    NeutralFollows(lib, h, h);
    HelloFollows(lib, h, msg, a, now, entropy);
    var k := OnPairMessage(lib, g, msg, a, now, entropy);
    if lib.msgType(msg) == CONFIRM && h.pair.pending.Some? {
      ConfirmFollows(lib, h, msg);
    } else if lib.msgType(msg) != HELLO {
      NeutralFollows(lib, h, k);
    }
    FollowsThen(lib, g, h, k, MessageBrings(lib, g, msg, a, now, entropy));
  }

  /** The record a finished renewal gives, if it is one. */
  ghost function Renewed(lib: Lib, rs: seq<PairRecord>, x: Live, payload: Bytes, now: nat): Option<PairRecord> {
    if x.renew.None? || Find(rs, x.id).None? then None
    else lib.renewFinish(Find(rs, x.id).value, x.renew.value, payload, now)
  }

  ghost function RenewalBrings(lib: Lib, rs: seq<PairRecord>, x: Live, payload: Bytes, now: nat): Change {
    var r := Renewed(lib, rs, x, payload, now);
    if r.Some? then Change({}, {r.value}, {}) else NOTHING
  }

  lemma FinishFollows(lib: Lib, g: Gate, a: Address, payload: Bytes, now: nat)
    requires lib.Lawful() && g.state.Some? && a in g.sessions && g.sessions[a].renew.Some?
    ensures Follows(lib, g, FinishRenewal(lib, g, a, payload, now),
                    RenewalBrings(lib, g.state.value.records, g.sessions[a], payload, now))
  {
    hide Follows, Save;
    NeutralFollows(lib, g, g);
    var x := g.sessions[a];
    var rs := g.state.value.records;
    var rec := Find(rs, x.id);
    if rec.Some? {
      var next := lib.renewFinish(rec.value, x.renew.value, payload, now);
      var done := g.(sessions := g.sessions[a := x.(renew := None)]);
      NeutralFollows(lib, g, done);
      if next.Some? {
        var w, c := WithRecords(done, Replace(rs, next.value)), Change({}, {next.value}, {});
        ReplacedFollow(lib, done, next.value);
        FollowsThen(lib, g, done, w, c);
        SaveFollows(lib, w);
        FollowsLater(lib, g, w, Save(lib, w), c, {});
      }
    }
  }

  ghost function ControlBrings(lib: Lib, g: Gate, a: Address, payload: Bytes, now: nat, entropy: nat): Change {
    if a !in g.sessions || (payload != [] && payload[0] == CTRL_BYE) then NOTHING
    else RenewalBrings(lib, Load(lib, g, entropy).state.value.records, g.sessions[a], payload, now)
  }

  lemma ControlFollows(lib: Lib, g: Gate, a: Address, payload: Bytes, now: nat, entropy: nat)
    requires lib.Lawful()
    ensures Follows(lib, g, OnControl(lib, g, a, payload, now, entropy), ControlBrings(lib, g, a, payload, now, entropy))
  {
    hide Follows, Load, FinishRenewal;
    NeutralFollows(lib, g, g);
    if a !in g.sessions || (payload != [] && payload[0] == CTRL_BYE) {
      DropsFollow(lib, g, {a});
      assert DropSession(g, a) == DropSessions(g, {a});
    } else if g.sessions[a].renew.Some? {
      var h := Load(lib, g, entropy);
      LoadFollows(lib, g, entropy);
      FinishFollows(lib, h, a, payload, now);
      FollowsThen(lib, g, h, FinishRenewal(lib, h, a, payload, now), ControlBrings(lib, g, a, payload, now, entropy));
    }
  }

  /** Control opened under the session of its link. */
  ghost function SealedBrings(lib: Lib, g: Gate, bytes: Bytes, a: Address, now: nat, entropy: nat): Change {
    if a !in g.sessions then NOTHING
    else
      var pt := lib.open(g.sessions[a].session, bytes).1;
      if pt.Some? && pt.value != [] && pt.value[0] == KIND_CONTROL
      then ControlBrings(lib, g, a, pt.value[1..], now, entropy) else NOTHING
  }

  lemma OpenedBrings(lib: Lib, g: Gate, bytes: Bytes, a: Address, now: nat, entropy: nat)
    requires a in g.sessions
    ensures var (session, pt) := lib.open(g.sessions[a].session, bytes);
            var h := g.(sessions := g.sessions[a := g.sessions[a].(session := session, at := now)]);
            pt.Some? && pt.value != [] ==>
              ControlBrings(lib, h, a, pt.value[1..], now, entropy) == ControlBrings(lib, g, a, pt.value[1..], now, entropy)
  {
  }

  lemma SealedFollows(lib: Lib, g: Gate, bytes: Bytes, a: Address, now: nat, entropy: nat)
    requires lib.Lawful()
    ensures Follows(lib, g, OnSealed(lib, g, bytes, a, now, entropy).0, SealedBrings(lib, g, bytes, a, now, entropy))
  {
    hide Follows, OnControl;
    if a in g.sessions {
      var x := g.sessions[a];
      var (session, pt) := lib.open(x.session, bytes);
      var h := g.(sessions := g.sessions[a := x.(session := session, at := now)]);
      NeutralFollows(lib, g, h);
      if pt.Some? && pt.value != [] {
        ControlFollows(lib, h, a, pt.value[1..], now, entropy);
        OpenedBrings(lib, g, bytes, a, now, entropy);
        FollowsThen(lib, g, h, OnControl(lib, h, a, pt.value[1..], now, entropy),
                    ControlBrings(lib, h, a, pt.value[1..], now, entropy));
      }
    } else {
      DropsFollow(lib, g, {a});
      assert DropSession(g, a) == DropSessions(g, {a});
    }
  }

  lemma PlainFollows(lib: Lib, g: Gate, bytes: Bytes, a: Address, testing: bool, entropy: nat)
    requires lib.Lawful()
    ensures Follows(lib, g, OnPlain(lib, g, bytes, a, testing, entropy).0, NOTHING)
  {
    hide Follows, Load;
    var h := Load(lib, g, entropy);
    LoadFollows(lib, g, entropy);
    DropsFollow(lib, h, {a});
    assert DropSession(h, a) == DropSessions(h, {a});
    FollowsThen(lib, g, h, DropSession(h, a), NOTHING);
  }

  /** What a call brings. */
  ghost function Brings(lib: Lib, g: Gate, e: Event): Change {
    if !e.call.HandleFrame? then NOTHING
    else if WithHighBit(e.call.command) == PAIR then MessageBrings(lib, g, e.call.bytes, e.call.address, e.now, e.entropy)
    else if WithHighBit(e.call.command) == SEALED then SealedBrings(lib, g, e.call.bytes, e.call.address, e.now, e.entropy)
    else NOTHING
  }

  lemma HandleFollows(lib: Lib, g: Gate, e: Event)
    requires lib.Lawful() && e.call.HandleFrame?
    ensures Follows(lib, g, Step(lib, g, e), Brings(lib, g, e))
  {
    hide Follows, OnPairMessage, OnSealed, OnPlain, MessageBrings, SealedBrings;
    NeutralFollows(lib, g, g);
    PairMessageFollows(lib, g, e.call.bytes, e.call.address, e.now, e.entropy);
    SealedFollows(lib, g, e.call.bytes, e.call.address, e.now, e.entropy);
    PlainFollows(lib, g, e.call.bytes, e.call.address, e.testing, e.entropy);
  }

  lemma SetOnFollows(lib: Lib, g: Gate, id: string, on: bool, entropy: nat)
    requires lib.Lawful()
    ensures Follows(lib, g, SetOn(lib, g, id, on, entropy), NOTHING)
  {
    hide Follows, Load;
    var h := Load(lib, g, entropy);
    var w := WithRecords(h, SwitchRecord(h.state.value.records, id, on));
    var d := if on then w else DropSessions(w, SessionsOf(w, id));
    LoadFollows(lib, g, entropy);
    RewrittenFollow(lib, h, SwitchRecord(h.state.value.records, id, on));
    FollowsThen(lib, g, h, w, NOTHING);
    DropsFollow(lib, w, SessionsOf(w, id));
    if !on { FollowsThen(lib, g, w, d, NOTHING); }
    SaveFollows(lib, d);
    FollowsThen(lib, g, d, Save(lib, d), NOTHING);
  }

  lemma RevokeFollows(lib: Lib, g: Gate, id: string, entropy: nat)
    requires lib.Lawful()
    ensures Follows(lib, g, RevokeById(lib, g, id, entropy), NOTHING)
  {
    hide Follows, Load, Drop;
    var h := Load(lib, g, entropy);
    LoadFollows(lib, g, entropy);
    DropFollows(lib, h, id);
    FollowsThen(lib, g, h, Drop(h, id), NOTHING);
    SaveFollows(lib, Drop(h, id));
    FollowsThen(lib, g, Drop(h, id), Save(lib, Drop(h, id)), NOTHING);
  }

  lemma ClearFollows(lib: Lib, g: Gate, entropy: nat)
    requires lib.Lawful()
    ensures Follows(lib, g, ClearNotices(lib, g, entropy), NOTHING)
  {
    hide Load;
    var h := Load(lib, g, entropy);
    var c := h.(state := Some(h.state.value.(notices := [])));
    LoadFollows(lib, g, entropy);
    assert Follows(lib, h, c, NOTHING);
    FollowsThen(lib, g, h, c, NOTHING);
    SaveFollows(lib, c);
    FollowsThen(lib, g, c, Save(lib, c), NOTHING);
  }

  lemma AgeFollows(lib: Lib, g: Gate, id: string, ms: int, testing: bool, entropy: nat)
    requires lib.Lawful()
    ensures Follows(lib, g, AgeForTest(lib, g, id, ms, testing, entropy), NOTHING)
  {
    hide Follows, Load;
    NeutralFollows(lib, g, g);
    var h := Load(lib, g, entropy);
    var w := WithRecords(h, AgeRecord(h.state.value.records, id, ms));
    LoadFollows(lib, g, entropy);
    RewrittenFollow(lib, h, AgeRecord(h.state.value.records, id, ms));
    FollowsThen(lib, g, h, w, NOTHING);
    SaveFollows(lib, w);
    FollowsThen(lib, g, w, Save(lib, w), NOTHING);
  }

  /** The calls that only talk, keep the window or the sender, or set the testing switch. */
  predicate OnlyTalks(call: Call) {
    call.SendReport? || call.OpenPairWindow? || call.ClosePairWindow? || call.ApprovePairing? || call.SetSender?
    || call.ReleaseSender? || call.SetTransitOff?
  }

  lemma OthersFollow(lib: Lib, g: Gate, e: Event)
    requires OnlyTalks(e.call)
    ensures Follows(lib, g, Step(lib, g, e), NOTHING)
  {
    hide Follows, Handle, Load, SetOn, RevokeById, ClearNotices, AgeForTest, Restart, Outgoing, Approve;
    match e.call
    case SendReport(to, report) => OutgoingFollows(lib, g, to, report, e.now, e.testing);
    case ApprovePairing => ApproveFollows(lib, g, e.now);
    case _ => NeutralFollows(lib, g, Step(lib, g, e));
  }

  lemma OutgoingFollows(lib: Lib, g: Gate, to: Option<Address>, report: Bytes, now: nat, testing: bool)
    ensures Follows(lib, g, Outgoing(lib, g, to, report, now, testing).0, NOTHING)
  {
    hide Follows;
    NeutralFollows(lib, g, Outgoing(lib, g, to, report, now, testing).0);
  }

  lemma ApproveFollows(lib: Lib, g: Gate, now: nat)
    ensures Follows(lib, g, Approve(lib, g, now), NOTHING)
  {
    hide Follows;
    NeutralFollows(lib, g, Approve(lib, g, now));
  }

  lemma StepFollows(lib: Lib, g: Gate, e: Event)
    requires lib.Lawful() && !e.call.RadioLinkGone? && !e.call.StartAgain?
    ensures Follows(lib, g, Step(lib, g, e), Brings(lib, g, e))
  {
    hide Follows, Handle, Load, SetOn, RevokeById, ClearNotices, AgeForTest, Outgoing, Approve, Lib.Lawful;
    match e.call
    case HandleFrame(command, bytes, a) => HandleFollows(lib, g, e);
    case SwitchPairing(id, on) => SetOnFollows(lib, g, id, on, e.entropy);
    case RevokePairing(id) => RevokeFollows(lib, g, id, e.entropy);
    case ClearAllNotices => ClearFollows(lib, g, e.entropy);
    case LoadStore => LoadFollows(lib, g, e.entropy);
    case AgePairing(id, ms) => AgeFollows(lib, g, id, ms, e.testing, e.entropy);
    case EndSessions => DropsFollow(lib, g, g.sessions.Keys);
    case _ => OthersFollow(lib, g, e);
  }

  /** The session at this address is over: none is there any more, or another pairing's is. */
  predicate Ends(g: Gate, h: Gate, a: Address) {
    a in g.sessions && !GoesOn(g, h, a)
  }

  /** A hello that opens a session at this address. */
  ghost predicate OpensAt(lib: Lib, g: Gate, e: Event, a: Address) {
    && e.call.HandleFrame? && WithHighBit(e.call.command) == PAIR && e.call.address == a
    && lib.msgType(e.call.bytes) == HELLO
    && lib.onHello(Load(lib, g, e.entropy).state.value.records, e.call.bytes, e.now, a).Opened?
  }

  lemma OpensWithoutCut(lib: Lib, g: Gate, e: Event, a: Address)
    requires OpensAt(lib, g, e, a)
    ensures Step(lib, g, e).cut == g.cut && a in Step(lib, g, e).sessions
    ensures Step(lib, g, e).sessions[a].id ==
            lib.onHello(Load(lib, g, e.entropy).state.value.records, e.call.bytes, e.now, a).record.id
  {
    hide HelloOpen, Save;
    var h := Load(lib, g, e.entropy);
    var v := lib.onHello(h.state.value.records, e.call.bytes, e.now, a);
    LoadCuts(lib, g, e.entropy);
    OpenedSessions(lib, HelloSave(lib, h, v.record), a, v.session, v.record, v.msg, e.now, e.entropy);
    SaveCuts(lib, WithRecords(h, Replace(h.state.value.records, v.record)));
  }

  lemma LoadCuts(lib: Lib, g: Gate, entropy: nat)
    ensures Load(lib, g, entropy).cut == g.cut
  {
  }

  lemma SaveCuts(lib: Lib, g: Gate)
    ensures Save(lib, g).cut == g.cut
  {
  }

  /** A session that ends has its link let go in the same call, but exactly by linkGone, by a restart of the process,
      and by a hello that opens another pairing's session at the same address. */
  lemma EndedSessionLosesLink(lib: Lib, g: Gate, e: Event, a: Address)
    requires lib.Lawful() && Ends(g, Step(lib, g, e), a)
    ensures Step(lib, g, e).cut[a] > g.cut[a] <==> !e.call.RadioLinkGone? && !e.call.StartAgain? && !OpensAt(lib, g, e, a)
  {
    hide Step, Load, Lib.Lawful;
    if e.call.RadioLinkGone? || e.call.StartAgain? {
      QuietCuts(lib, g, e);
    } else if OpensAt(lib, g, e, a) {
      OpensWithoutCut(lib, g, e, a);
    } else {
      StepFollows(lib, g, e);
    }
  }

  lemma QuietCuts(lib: Lib, g: Gate, e: Event)
    requires e.call.RadioLinkGone? || e.call.StartAgain?
    ensures Step(lib, g, e).cut == g.cut && !exists a :: OpensAt(lib, g, e, a)
  {
  }

  /** Such a hello does it whenever the session there was another pairing's: two pairings of one computer are enough. */
  lemma HelloPutsAside(lib: Lib, g: Gate, e: Event, a: Address)
    requires lib.Lawful() && a in g.sessions && OpensAt(lib, g, e, a)
    ensures Ends(g, Step(lib, g, e), a) <==>
            lib.onHello(Load(lib, g, e.entropy).state.value.records, e.call.bytes, e.now, a).record.id != g.sessions[a].id
    ensures Step(lib, g, e).cut[a] == g.cut[a]
  {
    hide Step, Load;
    OpensWithoutCut(lib, g, e, a);
  }

  /** linkGone ends exactly the sessions quiet for quietMs and touches no link. */
  lemma LinkGoneEndsTheQuiet(lib: Lib, g: Gate, e: Event, a: Address)
    requires e.call.RadioLinkGone?
    ensures var h := Step(lib, g, e);
            && (a in h.sessions <==> a in g.sessions && e.now as int - g.sessions[a].at < e.call.quietMs)
            && (a in h.sessions ==> h.sessions[a] == g.sessions[a])
            && h == g.(sessions := h.sessions)
  {
  }

  lemma StepKeepsIdentity(lib: Lib, g: Gate, e: Event, clock: nat)
    requires lib.Lawful() && Good(lib, g, clock)
    ensures Durable(lib, g).Some? ==>
              Durable(lib, Step(lib, g, e)).Some?
              && Durable(lib, Step(lib, g, e)).value.identity == Durable(lib, g).value.identity
    ensures Ids(lib, Step(lib, g, e)) <= Ids(lib, g) + Brings(lib, g, e).ids
    ensures forall r :: r in Pairings(lib, Step(lib, g, e)) ==> r in Brings(lib, g, e).records || Carries(Pairings(lib, g), r)
  {
    if !e.call.RadioLinkGone? && !e.call.StartAgain? {
      hide Step;
      StepFollows(lib, g, e);
    }
  }

  /** Once made, the phone's identity never changes, restarts included. */
  lemma {:induction false} IdentityMadeOnce(lib: Lib, g: Gate, events: seq<Event>, clock: nat)
    requires lib.Lawful() && Good(lib, g, clock) && InOrder(events, clock) && Durable(lib, g).Some?
    ensures Durable(lib, Run(lib, g, events)).Some?
    ensures Durable(lib, Run(lib, g, events)).value.identity == Durable(lib, g).value.identity
  {
    hide Good, Step, Lib.Lawful, Durable;
    if events != [] {
      var init := events[..|events| - 1];
      RunGood(lib, g, init, clock);
      IdentityMadeOnce(lib, g, init, clock);
      StepKeepsIdentity(lib, Run(lib, g, init), events[|events| - 1], LastTime(init, clock));
    }
  }
}
