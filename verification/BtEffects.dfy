/** What a call on the gate does to each pairing, session and link, whichever
    lists and maps it is kept in. */
module BtEffects {
  import opened Basics
  import opened BtTransit
  import opened BtTransitSafety

  // ---------------------------------------------------------------- pairings by their ids

  lemma FindCons(r: PairRecord, rest: seq<PairRecord>, x: string)
    ensures Find([r] + rest, x) == if r.id == x then Some(r) else Find(rest, x)
  {
    assert ([r] + rest)[1..] == rest;
  }

  lemma {:induction false} FindWithout(rs: seq<PairRecord>, id: string, x: string)
    ensures Find(Without(rs, id), x) == if x == id then None else Find(rs, x)
  {
    if rs != [] {
      FindWithout(rs[1..], id, x);
      hide Find;
      var rest := Without(rs[1..], id);
      FindCons(rs[0], rest, x);
      FindCons(rs[0], rs[1..], x);
      assert rs == [rs[0]] + rs[1..];
      assert Without(rs, id) == if rs[0].id != id then [rs[0]] + rest else rest;
    }
  }

  lemma {:induction false} FindAppend(rs: seq<PairRecord>, rec: PairRecord, x: string)
    ensures Find(rs + [rec], x) == if Find(rs, x).Some? then Find(rs, x) else if x == rec.id then Some(rec) else None
  {
    if rs != [] {
      FindAppend(rs[1..], rec, x);
      assert (rs + [rec])[1..] == rs[1..] + [rec];
    }
  }

  lemma {:induction false} FindReplace(rs: seq<PairRecord>, rec: PairRecord, x: string)
    ensures Find(Replace(rs, rec), x) == if x == rec.id && Find(rs, x).Some? then Some(rec) else Find(rs, x)
  {
    if rs != [] {
      FindReplace(rs[1..], rec, x);
      assert Replace(rs, rec)[1..] == Replace(rs[1..], rec);
    }
  }

  function Switched(r: Option<PairRecord>, on: bool): Option<PairRecord> {
    if r.None? then None else Some(r.value.(on := on))
  }

  lemma {:induction false} FindSwitch(rs: seq<PairRecord>, id: string, on: bool, x: string)
    ensures Find(SwitchRecord(rs, id, on), x) == if x == id then Switched(Find(rs, x), on) else Find(rs, x)
  {
    if rs != [] {
      FindSwitch(rs[1..], id, on, x);
      assert SwitchRecord(rs, id, on)[1..] == SwitchRecord(rs[1..], id, on);
    }
  }

  function Aged(r: Option<PairRecord>, ms: int): Option<PairRecord> {
    if r.None? then None else Some(r.value.(renewedAt := r.value.renewedAt - ms))
  }

  lemma AgeCons(rs: seq<PairRecord>, id: string, ms: int)
    requires rs != []
    ensures AgeRecord(rs, id, ms)
         == [if rs[0].id == id then rs[0].(renewedAt := rs[0].renewedAt - ms) else rs[0]] + AgeRecord(rs[1..], id, ms)
  {
  }

  lemma {:induction false} FindAge(rs: seq<PairRecord>, id: string, ms: int, x: string)
    ensures Find(AgeRecord(rs, id, ms), x) == if x == id then Aged(Find(rs, x), ms) else Find(rs, x)
  {
    if rs != [] {
      FindAge(rs[1..], id, ms, x);
      hide Find;
      AgeCons(rs, id, ms);
      hide AgeRecord;
      assert rs == [rs[0]] + rs[1..];
      FindCons(if rs[0].id == id then rs[0].(renewedAt := rs[0].renewedAt - ms) else rs[0], AgeRecord(rs[1..], id, ms), x);
      FindCons(rs[0], rs[1..], x);
    }
  }

  function PairingOf(g: Gate, id: string): Option<PairRecord>
    requires g.state.Some?
  {
    Find(g.state.value.records, id)
  }

  // ---------------------------------------------------------------- sessions and links

  /** The sessions of `id` are gone, each with one cut of its link; every other session and link is as it was. */
  ghost predicate SessionsEnded(g: Gate, h: Gate, id: string) {
    forall a :: SessionAfter(g, h, id, a)
  }

  predicate SessionAfter(g: Gate, h: Gate, id: string, a: Address) {
    var ends := a in g.sessions && g.sessions[a].id == id;
    && (a in h.sessions <==> a in g.sessions && !ends)
    && (a in h.sessions ==> h.sessions[a] == g.sessions[a])
    && h.cut[a] == g.cut[a] + if ends then 1 else 0
  }

  lemma DropEnds(g: Gate, h: Gate, id: string)
    requires h.sessions == g.sessions - SessionsOf(g, id) && h.cut == g.cut + multiset(SessionsOf(g, id))
    ensures SessionsEnded(g, h, id)
  {
  }

  /** Switching a pairing changes that pairing's switch alone; off ends its sessions and lets their links go. */
  lemma SwitchDoes(lib: Lib, g0: Gate, id: string, on: bool, entropy: nat, x: string)
    ensures var g, h := Load(lib, g0, entropy), SetOn(lib, g0, id, on, entropy);
            && h.state.Some?
            && PairingOf(h, x) == (if x == id then Switched(PairingOf(g, x), on) else PairingOf(g, x))
            && h.state.value.identity == g.state.value.identity && h.state.value.notices == g.state.value.notices
            && (if on then h.sessions == g.sessions && h.cut == g.cut else SessionsEnded(g, h, id))
  {
    hide Load, SessionsEnded;
    var g := Load(lib, g0, entropy);
    FindSwitch(g.state.value.records, id, on, x);
    if !on { DropEnds(g, SetOn(lib, g0, id, on, entropy), id); }
  }

  /** Revoking takes that pairing away alone, with its sessions and their links. */
  lemma RevokeDoes(lib: Lib, g0: Gate, id: string, entropy: nat, x: string)
    ensures var g, h := Load(lib, g0, entropy), RevokeById(lib, g0, id, entropy);
            && h.state.Some?
            && PairingOf(h, x) == (if x == id then None else PairingOf(g, x))
            && h.state.value.identity == g.state.value.identity && h.state.value.notices == g.state.value.notices
            && SessionsEnded(g, h, id)
  {
    hide Load, SessionsEnded;
    var g := Load(lib, g0, entropy);
    FindWithout(g.state.value.records, id, x);
    DropEnds(g, RevokeById(lib, g0, id, entropy), id);
  }

  /** A valid CONFIRM makes the pending pairing the only one of its id, ends what that id had open, acknowledges it
      and closes the window; an invalid one does nothing. */
  lemma ConfirmDoes(lib: Lib, g: Gate, msg: Bytes, x: string)
    requires g.state.Some? && g.pair.pending.Some?
    ensures var rec, h := g.pair.pending.value, OnConfirm(lib, g, msg);
            if !lib.onConfirm(rec, msg) then h == g
            else
              && h.state.Some?
              && PairingOf(h, x) == (if x == rec.id then Some(rec) else PairingOf(g, x))
              && SessionsEnded(g, h, rec.id)
              && h.pair == Pairing(0, None, None, None, Paired(rec.code, rec.name))
              && h.sent == g.sent + (if g.sender.Some? then [Frame(g.sender.value, PAIR, lib.pairAck(rec))] else [])
  {
    hide SessionsEnded;
    var rec := g.pair.pending.value;
    if lib.onConfirm(rec, msg) {
      AdoptDoes(lib, g, rec, x);
      DropEnds(g, OnConfirm(lib, g, msg), rec.id);
    }
  }

  lemma AdoptDoes(lib: Lib, g: Gate, rec: PairRecord, x: string)
    requires g.state.Some?
    ensures Adopt(lib, g, rec).state.Some?
    ensures PairingOf(Adopt(lib, g, rec), x) == if x == rec.id then Some(rec) else PairingOf(g, x)
  {
    FindWithout(g.state.value.records, rec.id, x);
    FindAppend(Without(g.state.value.records, rec.id), rec, x);
  }

  /** Behind the newest notice stand those there were, but the oldest once there would be more than NOTICES_MAX. */
  predicate KeptNotices(g: Gate, h: Gate)
    requires g.state.Some? && h.state.Some?
  {
    var was, now := g.state.value.notices, h.state.value.notices;
    now != [] && now[1..] == if |was| < NOTICES_MAX then was else was[..NOTICES_MAX - 1]
  }

  /** A hello that ends a pairing takes that pairing and its sessions away, puts one notice of it first, and alarms
      the person with the same kind and name. */
  lemma EndPairingDoes(lib: Lib, g: Gate, kind: NoticeKind, id: string, now: nat, x: string)
    requires g.state.Some? && PairingOf(g, id).Some? && |g.state.value.notices| <= NOTICES_MAX
    ensures var rec, h := PairingOf(g, id).value, EndPairing(lib, g, kind, id, now);
            && h.state.Some?
            && PairingOf(h, x) == (if x == id then None else PairingOf(g, x))
            && SessionsEnded(g, h, id)
            && 0 < |h.state.value.notices| <= NOTICES_MAX
            && h.state.value.notices[0] == Notice(kind, id, rec.name, now)
            && KeptNotices(g, h)
            && |h.alarms| == |g.alarms| + 1
            && h.alarms[|g.alarms|].kind == kind && h.alarms[|g.alarms|].name == rec.name
  {
    hide SessionsEnded;
    var rec := PairingOf(g, id).value;
    NoticeFirst(g, kind, rec, now);
    FindWithout(g.state.value.records, id, x);
    DropEnds(g, EndPairing(lib, g, kind, id, now), id);
  }

  lemma NoticeFirst(g: Gate, kind: NoticeKind, rec: PairRecord, now: nat)
    requires g.state.Some? && |g.state.value.notices| <= NOTICES_MAX
    ensures var h := AddNotice(g, kind, rec, now);
            && h.state.value.records == g.state.value.records && h.sessions == g.sessions && h.cut == g.cut
            && 0 < |h.state.value.notices| <= NOTICES_MAX
            && h.state.value.notices[0] == Notice(kind, rec.id, rec.name, now)
            && KeptNotices(g, h)
            && h.alarms == g.alarms + [Alarm(h.alarmIds, kind, rec.name)]
  {
    var all := [Notice(kind, rec.id, rec.name, now)] + g.state.value.notices;
    assert all[1..] == g.state.value.notices;
  }

  /** A renewal answered well puts the new secrets in that pairing alone; and an offer is answered once: whatever comes
      as control after it, but a goodbye, changes nothing. */
  lemma RenewalDoes(lib: Lib, g: Gate, a: Address, payload: Bytes, now: nat, x: string, again: Bytes, later: nat, entropy: nat)
    requires g.state.Some? && a in g.sessions && g.sessions[a].renew.Some? && PairingOf(g, g.sessions[a].id).Some?
    requires !(again != [] && again[0] == CTRL_BYE)
    ensures var rec, h := PairingOf(g, g.sessions[a].id).value, FinishRenewal(lib, g, a, payload, now);
            var next := lib.renewFinish(rec, g.sessions[a].renew.value, payload, now);
            && h.state.Some?
            && PairingOf(h, x) == (if next.Some? && x == next.value.id && PairingOf(g, x).Some? then next else PairingOf(g, x))
            && OnControl(lib, h, a, again, later, entropy) == h
  {
    var rec := PairingOf(g, g.sessions[a].id).value;
    var next := lib.renewFinish(rec, g.sessions[a].renew.value, payload, now);
    if next.Some? { FindReplace(g.state.value.records, next.value, x); }
  }

  /** A hello that opens a session keeps that record alone, as the library gives it back. */
  lemma HelloKeepsRecord(lib: Lib, g: Gate, rec: PairRecord, x: string)
    requires g.state.Some?
    ensures HelloSave(lib, g, rec).state.Some?
    ensures PairingOf(HelloSave(lib, g, rec), x) == if x == rec.id && PairingOf(g, x).Some? then Some(rec) else PairingOf(g, x)
  {
    FindReplace(g.state.value.records, rec, x);
  }

  /** Ageing a pairing, in testing mode only, moves that pairing's renewal back alone. */
  lemma AgeDoes(lib: Lib, g0: Gate, id: string, ms: int, testing: bool, entropy: nat, x: string)
    ensures var g, h := Load(lib, g0, entropy), AgeForTest(lib, g0, id, ms, testing, entropy);
            && (!testing ==> h == g0)
            && (testing ==> h.state.Some? && h.sessions == g.sessions
                            && PairingOf(h, x) == if x == id then Aged(PairingOf(g, x), ms) else PairingOf(g, x))
  {
    hide Load;
    FindAge(Load(lib, g0, entropy).state.value.records, id, ms, x);
  }

  // ---------------------------------------------------------------- what a hello's verdict does

  /** The pairing `id` is over and the person is told so: it and its sessions are gone and every other is as it was, the
      newest notice and the last alarm name it and say why, and the store holds it so. */
  ghost predicate PairingOver(lib: Lib, g: Gate, h: Gate, kind: NoticeKind, id: string, now: nat) {
    && g.state.Some? && h.state.Some? && PairingOf(g, id).Some?
    && (forall x :: PairingOf(h, x) == if x == id then None else PairingOf(g, x))
    && SessionsEnded(g, h, id)
    && h.state.value.notices != []
    && h.state.value.notices[0] == Notice(kind, id, PairingOf(g, id).value.name, now)
    && KeptNotices(g, h)
    && |h.alarms| == |g.alarms| + 1
    && h.alarms[|g.alarms|] == Alarm((g.alarmIds + 1) % 0x10000, kind, PairingOf(g, id).value.name)
    && h.box.Some? && lib.boxOpen(h.box.value) == h.state
    && h.sent == g.sent
  }

  /** A session of that pairing is open at the address, since now; its record is the one given back, in memory and in
      the store, and every other pairing and session is as it was. */
  ghost predicate SessionOpened(lib: Lib, g: Gate, h: Gate, a: Address, rec: PairRecord, now: nat) {
    && g.state.Some? && h.state.Some?
    && (forall x :: PairingOf(h, x) == if x == rec.id then Some(rec) else PairingOf(g, x))
    && h.state.value.notices == g.state.value.notices && h.cut == g.cut && h.alarms == g.alarms
    && h.sessions.Keys == g.sessions.Keys + {a}
    && h.sessions[a].id == rec.id && h.sessions[a].at == now
    && (forall b :: b in g.sessions && b != a ==> h.sessions[b] == g.sessions[b])
    && h.box.Some? && lib.boxOpen(h.box.value) == h.state
  }

  /** What was sent, and the session and offer it leaves: the library's reply, the word that this phone reads packed
      reports, and a renewal offer if one is due, the last two sealed one after the other. */
  ghost predicate HelloAnswered(lib: Lib, g: Gate, h: Gate, a: Address, session: Bytes, rec: PairRecord, reply: Bytes,
                                now: nat, entropy: nat)
  {
    && a in h.sessions
    && var (s1, batch) := lib.seal(session, [KIND_CONTROL] + [CTRL_BATCH, 1]);
       var (offered, payload) := lib.renewOffer(entropy);
       var (s2, offer) := lib.seal(s1, [KIND_CONTROL] + payload);
       var due := lib.renewDue(rec, now);
       && h.sessions[a].session == (if due then s2 else s1)
       && h.sessions[a].renew == (if due then Some(offered) else None)
       && h.sent == g.sent + (if g.sender.None? then [] else
            [Frame(g.sender.value, PAIR, reply), Frame(g.sender.value, SEALED, batch)]
            + if due then [Frame(g.sender.value, SEALED, offer)] else [])
  }

  lemma EndPairingOver(lib: Lib, g: Gate, kind: NoticeKind, id: string, now: nat)
    requires lib.Lawful() && g.state.Some? && PairingOf(g, id).Some? && |g.state.value.notices| <= NOTICES_MAX
    ensures PairingOver(lib, g, EndPairing(lib, g, kind, id, now), kind, id, now)
  {
    forall x: string
      ensures PairingOf(EndPairing(lib, g, kind, id, now), x) == if x == id then None else PairingOf(g, x)
    {
      EndPairingDoes(lib, g, kind, id, now, x);
    }
    EndPairingDoes(lib, g, kind, id, now, id);
    EndPairingSays(lib, g, kind, id, now);
    hide EndPairing, SessionsEnded;
  }

  lemma EndPairingSays(lib: Lib, g: Gate, kind: NoticeKind, id: string, now: nat)
    requires lib.Lawful() && g.state.Some? && PairingOf(g, id).Some?
    ensures var h := EndPairing(lib, g, kind, id, now);
            && h.box.Some? && lib.boxOpen(h.box.value) == h.state && h.sent == g.sent
            && h.alarms == g.alarms + [Alarm((g.alarmIds + 1) % 0x10000, kind, PairingOf(g, id).value.name)]
  {
  }

  lemma HelloOpens(lib: Lib, g: Gate, a: Address, session: Bytes, rec: PairRecord, reply: Bytes, now: nat, entropy: nat)
    requires lib.Lawful() && g.state.Some? && PairingOf(g, rec.id).Some?
    ensures var h := HelloOpen(lib, HelloSave(lib, g, rec), a, session, rec, reply, now, entropy);
            SessionOpened(lib, g, h, a, rec, now) && HelloAnswered(lib, g, h, a, session, rec, reply, now, entropy)
  {
    var s := HelloSave(lib, g, rec);
    forall x: string ensures PairingOf(s, x) == if x == rec.id then Some(rec) else PairingOf(g, x) {
      HelloKeepsRecord(lib, g, rec, x);
    }
    HelloSaves(lib, g, rec);
    HelloTells(lib, s, a, session, rec, reply, now, entropy);
    OpenedSessions(lib, s, a, session, rec, reply, now, entropy);
    hide HelloOpen, HelloSave;
  }

  lemma HelloSaves(lib: Lib, g: Gate, rec: PairRecord)
    requires lib.Lawful() && g.state.Some?
    ensures var s := HelloSave(lib, g, rec);
            && s.state.Some? && s.state.value.notices == g.state.value.notices
            && s.box.Some? && lib.boxOpen(s.box.value) == s.state
            && s.sessions == g.sessions && s.cut == g.cut && s.alarms == g.alarms && s.sent == g.sent && s.sender == g.sender
  {
  }

  lemma HelloTells(lib: Lib, g: Gate, a: Address, session: Bytes, rec: PairRecord, msg: Bytes, now: nat, entropy: nat)
    ensures var h := HelloOpen(lib, g, a, session, rec, msg, now, entropy);
            HelloAnswered(lib, g, h, a, session, rec, msg, now, entropy) && h.sessions[a].at == now && h.alarms == g.alarms
  {
  }

  /** The verdict of the library on a hello decides all it does: a copy alarm, a revocation or an expiry ends that
      pairing with a notice of that kind, an opened session is opened and answered, and silence changes nothing. */
  lemma HelloVerdictDoes(lib: Lib, g0: Gate, e: Event)
    requires lib.Lawful() && e.call.HandleFrame? && WithHighBit(e.call.command) == PAIR && lib.msgType(e.call.bytes) == HELLO
    requires |Load(lib, g0, e.entropy).state.value.notices| <= NOTICES_MAX
    ensures var g, h, a := Load(lib, g0, e.entropy), Step(lib, g0, e), e.call.address;
            match lib.onHello(g.state.value.records, e.call.bytes, e.now, a)
            case CopyAlarm(id) => PairingOver(lib, g, h, Copy, id, e.now)
            case Revoke(id, byName) => PairingOver(lib, g, h, if byName then RevokedName else RevokedMac, id, e.now)
            case Expire(id) => PairingOver(lib, g, h, Expired, id, e.now)
            case Opened(session, rec, reply) =>
              SessionOpened(lib, g, h, a, rec, e.now) && HelloAnswered(lib, g, h, a, session, rec, reply, e.now, e.entropy)
            case Silence => h == g
  {
    hide Load, EndPairing, HelloOpen, HelloSave, PairingOver, SessionOpened, HelloAnswered;
    var g, a := Load(lib, g0, e.entropy), e.call.address;
    var v := lib.onHello(g.state.value.records, e.call.bytes, e.now, a);
    assert LawfulHello(g.state.value.records, v);
    match v
    case CopyAlarm(id) => EndPairingOver(lib, g, Copy, id, e.now);
    case Revoke(id, byName) => EndPairingOver(lib, g, if byName then RevokedName else RevokedMac, id, e.now);
    case Expire(id) => EndPairingOver(lib, g, Expired, id, e.now);
    case Opened(session, rec, reply) => HelloOpens(lib, g, a, session, rec, reply, e.now, e.entropy);
    case Silence =>
  }

  // ---------------------------------------------------------------- traffic

  /** Only this address's session differs, and it is still of the same pairing. */
  predicate OnlyThisSession(g: Gate, h: Gate, a: Address) {
    && a in g.sessions && a in h.sessions && h.sessions.Keys == g.sessions.Keys
    && h.sessions[a].id == g.sessions[a].id
    && (forall b :: b in g.sessions && b != a ==> h.sessions[b] == g.sessions[b])
    && h.cut == g.cut && h.sent == g.sent && h.pair == g.pair && h.sender == g.sender
  }

  /** The link at this address is let go, with its session if it had one; every other session is as it was. */
  predicate LetGo(g: Gate, h: Gate, a: Address) {
    && a !in h.sessions && h.cut == g.cut + multiset{a} && h.sent == g.sent
    && h.sessions.Keys == g.sessions.Keys - {a} && forall b :: b in h.sessions ==> h.sessions[b] == g.sessions[b]
  }

  /** A sealed frame moves its session on to the one the library opens it to and marks its traffic, whatever is in it;
      a goodbye, and a frame with no session, let the link go. */
  lemma SealedFrameDoes(lib: Lib, g: Gate, e: Event)
    requires e.call.HandleFrame? && WithHighBit(e.call.command) == SEALED
    ensures var h, a := Step(lib, g, e), e.call.address;
            if a !in g.sessions then LetGo(g, h, a)
            else
              var (session, pt) := lib.open(g.sessions[a].session, e.call.bytes);
              if pt.Some? && |pt.value| > 1 && pt.value[0] == KIND_CONTROL && pt.value[1] == CTRL_BYE then LetGo(g, h, a)
              else OnlyThisSession(g, h, a) && h.sessions[a].session == session && h.sessions[a].at == e.now
  {
    hide OnControl, OnlyThisSession, LetGo;
    var a := e.call.address;
    if a in g.sessions {
      var (session, pt) := lib.open(g.sessions[a].session, e.call.bytes);
      var mid := Moved(g, a, session, e.now);
      MovedOn(g, mid, mid, a, session, e.now);
      if pt.Some? && pt.value != [] && pt.value[0] == KIND_CONTROL {
        ControlLeaves(lib, mid, a, pt.value[1..], e.now, e.entropy);
        MovedOn(g, mid, OnControl(lib, mid, a, pt.value[1..], e.now, e.entropy), a, session, e.now);
      }
    } else {
      DropLetsGo(g, a);
    }
  }

  function Moved(g: Gate, a: Address, session: Bytes, now: nat): Gate
    requires a in g.sessions
  {
    g.(sessions := g.sessions[a := g.sessions[a].(session := session, at := now)])
  }

  lemma MovedOn(g: Gate, mid: Gate, h: Gate, a: Address, session: Bytes, now: nat)
    requires a in g.sessions && mid == Moved(g, a, session, now)
    ensures OnlyThisSession(g, mid, a) && mid.sessions[a].session == session && mid.sessions[a].at == now
    ensures OnlyThisSession(mid, h, a) ==> OnlyThisSession(g, h, a)
    ensures LetGo(mid, h, a) ==> LetGo(g, h, a)
  {
  }

  lemma DropLetsGo(g: Gate, a: Address)
    ensures LetGo(g, DropSession(g, a), a)
  {
  }

  lemma ControlLeaves(lib: Lib, g: Gate, a: Address, payload: Bytes, now: nat, entropy: nat)
    requires a in g.sessions
    ensures var h := OnControl(lib, g, a, payload, now, entropy);
            if payload != [] && payload[0] == CTRL_BYE then LetGo(g, h, a)
            else OnlyThisSession(g, h, a) && h.sessions[a].session == g.sessions[a].session && h.sessions[a].at == g.sessions[a].at
  {
    hide Load, FinishRenewal;
    LoadLeaves(lib, g, entropy);
    if g.sessions[a].renew.Some? { FinishLeaves(lib, Load(lib, g, entropy), a, payload, now); }
  }

  lemma LoadLeaves(lib: Lib, g: Gate, entropy: nat)
    ensures var h := Load(lib, g, entropy);
            h.sessions == g.sessions && h.cut == g.cut && h.sent == g.sent && h.pair == g.pair && h.sender == g.sender
  {
  }

  lemma FinishLeaves(lib: Lib, g: Gate, a: Address, payload: Bytes, now: nat)
    requires g.state.Some? && a in g.sessions && g.sessions[a].renew.Some?
    ensures var h := FinishRenewal(lib, g, a, payload, now);
            && OnlyThisSession(g, h, a)
            && h.sessions[a].session == g.sessions[a].session && h.sessions[a].at == g.sessions[a].at
  {
    hide Find, Replace, Save;
    var x := g.sessions[a];
    var done := g.(sessions := g.sessions[a := x.(renew := None)]);
    forall rs: seq<PairRecord> ensures SavedLeaves(done, Save(lib, WithRecords(done, rs))) { SaveLeaves(lib, done, rs); }
  }

  predicate SavedLeaves(g: Gate, h: Gate) {
    h.sessions == g.sessions && h.cut == g.cut && h.sent == g.sent && h.pair == g.pair && h.sender == g.sender
  }

  lemma SaveLeaves(lib: Lib, g: Gate, rs: seq<PairRecord>)
    requires g.state.Some?
    ensures SavedLeaves(g, Save(lib, WithRecords(g, rs)))
  {
  }

  /** A plaintext frame that is not let through is answered by nothing, and with no session its link goes. */
  lemma PlainFrameDoes(lib: Lib, g: Gate, e: Event)
    requires e.call.HandleFrame? && WithHighBit(e.call.command) == PLAIN
    ensures var loaded, h, a := Load(lib, g, e.entropy), Step(lib, g, e), e.call.address;
            if (e.testing && loaded.transitOffWanted) || a in g.sessions then h == loaded else LetGo(loaded, h, a)
  {
    hide Load;
  }

  /** A report out moves its session on to the one the library sealed it with and marks its traffic. */
  lemma ReportOutDoes(lib: Lib, g: Gate, e: Event, a: Address)
    requires e.call.SendReport? && e.call.to == Some(a) && a in g.sessions
    ensures var h := Step(lib, g, e);
            && OnlyThisSession(g, h, a) && h.sessions[a].at == e.now
            && h.sessions[a].session == lib.seal(g.sessions[a].session, [KIND_REPORT] + e.call.report).0
            && h.sessions[a].renew == g.sessions[a].renew
  {
  }

  /** A command means the same with its high bit stripped or not. */
  lemma HighBitEither(lib: Lib, g: Gate, command: byte, bytes: Bytes, a: Address, now: nat, entropy: nat, testing: bool)
    requires command < 0x80
    ensures Handle(lib, g, command, bytes, a, now, entropy, testing) == Handle(lib, g, command + 0x80, bytes, a, now, entropy, testing)
    ensures WithHighBit(0x03) == PLAIN && WithHighBit(0x04) == SEALED && WithHighBit(0x05) == PAIR
  {
    hide OnPairMessage, OnSealed, OnPlain;
  }

  // ---------------------------------------------------------------- the store, the sender and the testing switch

  /** What loading finds: what is in memory, else what the store opens to, else a clean start with a new identity, saved. */
  lemma LoadFinds(lib: Lib, g: Gate, entropy: nat)
    requires lib.Lawful()
    ensures var h := Load(lib, g, entropy);
            && h.state == Some(if g.state.Some? then g.state.value
                               else if g.box.Some? && lib.boxOpen(g.box.value).Some? then lib.boxOpen(g.box.value).value
                               else Stored(lib.generateIdentity(entropy), [], []))
            && (g.state.None? ==> h.box.Some? && lib.boxOpen(h.box.value) == h.state && h.transitOffWanted == g.storedOff)
  {
  }

  /** Clearing the notices clears them alone, in memory and in the store. */
  lemma ClearDoes(lib: Lib, g0: Gate, entropy: nat)
    requires lib.Lawful()
    ensures var g, h := Load(lib, g0, entropy), ClearNotices(lib, g0, entropy);
            && h.state == Some(g.state.value.(notices := [])) && h.sessions == g.sessions && h.cut == g.cut
            && h.box.Some? && lib.boxOpen(h.box.value) == h.state
  {
    hide Load;
  }

  /** The sender last set, unless it was let go of by its own release or the process started again. */
  function SenderOf(events: seq<Event>, first: Option<nat>): Option<nat> {
    if events == [] then first
    else
      var was := SenderOf(events[..|events| - 1], first);
      match events[|events| - 1].call
      case SetSender(s) => Some(s)
      case ReleaseSender(s) => if was == Some(s) then None else was
      case StartAgain => None
      case _ => was
  }

  /** The switch last set. */
  function SwitchOf(events: seq<Event>, first: bool): bool {
    if events == [] then first
    else if events[|events| - 1].call.SetTransitOff? then events[|events| - 1].call.off
    else SwitchOf(events[..|events| - 1], first)
  }

  lemma StepSender(lib: Lib, g: Gate, e: Event)
    ensures var h := Step(lib, g, e);
            && h.sender == (match e.call
                            case SetSender(s) => Some(s)
                            case ReleaseSender(s) => if g.sender == Some(s) then None else g.sender
                            case StartAgain => None
                            case _ => g.sender)
            && h.storedOff == if e.call.SetTransitOff? then e.call.off else g.storedOff
  {
    hide Handle, Outgoing, Approve, SetOn, RevokeById, ClearNotices, AgeForTest, Load, Restart;
    match e.call
    case HandleFrame(command, bytes, a) => HandleLeaves(lib, g, command, bytes, a, e.now, e.entropy, e.testing);
    case _ => CallLeaves(lib, g, e);
  }

  predicate SameWires(g: Gate, h: Gate) {
    h.sender == g.sender && h.storedOff == g.storedOff
  }

  lemma CallLeaves(lib: Lib, g: Gate, e: Event)
    ensures SameWires(g, Outgoing(lib, g, if e.call.SendReport? then e.call.to else None, if e.call.SendReport? then e.call.report else [], e.now, e.testing).0)
    ensures SameWires(g, Approve(lib, g, e.now)) && SameWires(g, Load(lib, g, e.entropy))
    ensures e.call.SwitchPairing? ==> SameWires(g, SetOn(lib, g, e.call.id, e.call.on, e.entropy))
    ensures e.call.RevokePairing? ==> SameWires(g, RevokeById(lib, g, e.call.id, e.entropy))
    ensures e.call.AgePairing? ==> SameWires(g, AgeForTest(lib, g, e.call.id, e.call.ms, e.testing, e.entropy))
    ensures SameWires(g, ClearNotices(lib, g, e.entropy))
    ensures Restart(g).sender == None && Restart(g).storedOff == g.storedOff
  {
  }

  lemma HandleLeaves(lib: Lib, g: Gate, command: byte, bytes: Bytes, a: Address, now: nat, entropy: nat, testing: bool)
    ensures SameWires(g, Handle(lib, g, command, bytes, a, now, entropy, testing).0)
  {
    hide OnPairMessage, OnSealed, OnPlain, SameWires;
    MessageLeaves(lib, g, bytes, a, now, entropy);
    SealedLeaves(lib, g, bytes, a, now, entropy);
    PlainLeaves(lib, g, bytes, a, testing, entropy);
    assert SameWires(g, g) by { WiresSame(g); }
  }

  lemma WiresSame(g: Gate)
    ensures SameWires(g, g)
  {
  }

  lemma MessageLeaves(lib: Lib, g: Gate, msg: Bytes, a: Address, now: nat, entropy: nat)
    ensures SameWires(g, OnPairMessage(lib, g, msg, a, now, entropy))
  {
    hide EndPairing, HelloOpen, HelloSave, Adopt, Load;
    var h := Load(lib, g, entropy);
    assert SameWires(g, h) by { LoadWires(lib, g, entropy); }
    forall kind: NoticeKind, id: string | Find(h.state.value.records, id).Some?
      ensures SameWires(h, EndPairing(lib, h, kind, id, now))
    {
      EndPairingWires(lib, h, kind, id, now);
    }
    match lib.onHello(h.state.value.records, msg, now, a) {
      case Opened(session, rec, reply) => HelloWires(lib, h, a, session, rec, reply, now, entropy);
      case _ =>
    }
    if h.pair.pending.Some? { AdoptWires(lib, h, h.pair.pending.value); }
  }

  lemma LoadWires(lib: Lib, g: Gate, entropy: nat)
    ensures SameWires(g, Load(lib, g, entropy))
  {
  }

  lemma EndPairingWires(lib: Lib, g: Gate, kind: NoticeKind, id: string, now: nat)
    requires g.state.Some? && Find(g.state.value.records, id).Some?
    ensures SameWires(g, EndPairing(lib, g, kind, id, now))
  {
  }

  lemma HelloWires(lib: Lib, g: Gate, a: Address, session: Bytes, rec: PairRecord, reply: Bytes, now: nat, entropy: nat)
    requires g.state.Some?
    ensures SameWires(g, HelloOpen(lib, HelloSave(lib, g, rec), a, session, rec, reply, now, entropy))
  {
  }

  lemma AdoptWires(lib: Lib, g: Gate, rec: PairRecord)
    requires g.state.Some?
    ensures SameWires(g, Adopt(lib, g, rec))
  {
  }

  lemma SealedLeaves(lib: Lib, g: Gate, bytes: Bytes, a: Address, now: nat, entropy: nat)
    ensures SameWires(g, OnSealed(lib, g, bytes, a, now, entropy).0)
  {
    hide OnControl;
    if a in g.sessions {
      var x := g.sessions[a];
      var (session, pt) := lib.open(x.session, bytes);
      var mid := g.(sessions := g.sessions[a := x.(session := session, at := now)]);
      if pt.Some? && pt.value != [] { ControlWires(lib, mid, a, pt.value[1..], now, entropy); }
    }
  }

  lemma ControlWires(lib: Lib, g: Gate, a: Address, payload: Bytes, now: nat, entropy: nat)
    ensures SameWires(g, OnControl(lib, g, a, payload, now, entropy))
  {
    hide Load;
    LoadWires(lib, g, entropy);
  }

  lemma PlainLeaves(lib: Lib, g: Gate, bytes: Bytes, a: Address, testing: bool, entropy: nat)
    ensures SameWires(g, OnPlain(lib, g, bytes, a, testing, entropy).0)
  {
  }

  /** Over any run: replies leave by the sender last set until its own release, another's release never taking it away,
      and the stored testing switch is the one last set. */
  lemma {:induction false} WiresOverRuns(lib: Lib, g: Gate, events: seq<Event>)
    ensures Run(lib, g, events).sender == SenderOf(events, g.sender)
    ensures Run(lib, g, events).storedOff == SwitchOf(events, g.storedOff)
  {
    hide Step;
    if events != [] {
      WiresOverRuns(lib, g, events[..|events| - 1]);
      StepSender(lib, Run(lib, g, events[..|events| - 1]), events[|events| - 1]);
    }
  }
}
