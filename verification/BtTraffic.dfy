/** What the gate lets through to the key and out to a computer, and the one
    interleaving that the awaited save of a hello leaves open. */
module BtTraffic {
  import opened Basics
  import opened BtTransit
  import opened BtTransitSafety

  // ---------------------------------------------------------------- packed reports

  function Concat(reports: seq<Bytes>): Bytes {
    if reports == [] then [] else reports[0] + Concat(reports[1..])
  }

  predicate AllReports(reports: seq<Bytes>) {
    forall r :: r in reports ==> |r| == REPORT_BYTES
  }

  lemma SplitFirst(report: Bytes, rest: Bytes)
    requires |report| == REPORT_BYTES && |rest| % REPORT_BYTES == 0
    ensures |report + rest| % REPORT_BYTES == 0 && Split(report + rest) == [report] + Split(rest)
  {
    assert (report + rest)[..REPORT_BYTES] == report && (report + rest)[REPORT_BYTES..] == rest;
  }

  /** Every list of reports packed into one body is taken apart into the same list, in order. */
  lemma {:induction false} PackedArrivesInOrder(reports: seq<Bytes>)
    requires AllReports(reports)
    ensures |Concat(reports)| == |reports| * REPORT_BYTES
    ensures Split(Concat(reports)) == reports
    ensures WholeReports(Concat(reports)) <==> |reports| >= 2
  {
    if reports != [] {
      var rest := reports[1..];
      assert AllReports(rest) by { assert forall r :: r in rest ==> r in reports; }
      PackedArrivesInOrder(rest);
      SplitFirst(reports[0], Concat(rest));
      assert reports == [reports[0]] + rest;
    }
  }

  /** ...and no body of whole reports is taken apart into anything but whole reports that make it up. */
  lemma {:induction false} SplitLosesNothing(body: Bytes)
    requires |body| % REPORT_BYTES == 0
    ensures AllReports(Split(body)) && Concat(Split(body)) == body
    decreases |body|
  {
    if body != [] {
      var rest := body[REPORT_BYTES..];
      SplitLosesNothing(rest);
      assert Split(body) == [body[..REPORT_BYTES]] + Split(rest);
      assert Split(body)[1..] == Split(rest);
    }
  }

  // ---------------------------------------------------------------- what may reach the key

  /** The reports a call hands on, in order. */
  function Reports(h: HandOn): seq<Bytes> {
    match h
    case Nothing => []
    case One(report) => [report]
    case Many(reports) => reports
  }

  /** One report of any length, or at least two of 64 bytes. */
  function Packed(reports: seq<Bytes>): Bytes
    requires reports != []
  {
    if |reports| == 1 then [KIND_REPORT] + reports[0] else [KIND_REPORTS] + Concat(reports)
  }

  /** The frame opens, under the session of the link it came on, to these reports. */
  ghost predicate OpensTo(lib: Lib, g: Gate, bytes: Bytes, a: Address, reports: seq<Bytes>) {
    && a in g.sessions
    && reports != [] && (|reports| > 1 ==> AllReports(reports))
    && lib.open(g.sessions[a].session, bytes).1 == Some(Packed(reports))
  }

  /** A plaintext report, in testing mode with the stored switch on. */
  ghost predicate LetThrough(g: Gate, bytes: Bytes, testing: bool, reports: seq<Bytes>) {
    testing && g.storedOff && reports == [bytes]
  }

  lemma PlainLetsThrough(lib: Lib, g: Gate, bytes: Bytes, a: Address, testing: bool, entropy: nat, reports: seq<Bytes>)
    requires Synced(lib, g) && reports != []
    ensures Reports(OnPlain(lib, g, bytes, a, testing, entropy).1) == reports <==> LetThrough(g, bytes, testing, reports)
  {
    assert Load(lib, g, entropy).transitOffWanted == g.storedOff;
  }

  /** A frame's plaintext hands on exactly the reports packed in it. */
  lemma HandsOnThePacked(pt: Option<Bytes>, reports: seq<Bytes>)
    requires reports != []
    ensures Reports(HandsOn(pt)) == reports <==> pt == Some(Packed(reports)) && (|reports| > 1 ==> AllReports(reports))
  {
    if pt.Some? && pt.value != [] && pt.value[0] == KIND_REPORTS && WholeReports(pt.value[1..]) {
      var body := pt.value[1..];
      assert pt.value == [KIND_REPORTS] + body;
      SplitLosesNothing(body);
      PackedArrivesInOrder(Split(body));
    }
    if pt.Some? && pt.value != [] && pt.value[0] == KIND_REPORT {
      assert pt.value == [KIND_REPORT] + pt.value[1..];
    }
    if |reports| > 1 && AllReports(reports) {
      PackedArrivesInOrder(reports);
      assert Packed(reports)[1..] == Concat(reports);
    } else if |reports| == 1 {
      assert Packed(reports)[1..] == reports[0];
    }
  }

  lemma SealedOpensTo(lib: Lib, g: Gate, bytes: Bytes, a: Address, now: nat, entropy: nat, reports: seq<Bytes>)
    requires reports != []
    ensures Reports(OnSealed(lib, g, bytes, a, now, entropy).1) == reports <==> OpensTo(lib, g, bytes, a, reports)
  {
    hide OnControl, HandsOn, AllReports;
    if a in g.sessions {
      var pt := lib.open(g.sessions[a].session, bytes).1;
      HandsOnThePacked(pt, reports);
    }
  }

  /** Exactly these reports reach the key: those a frame opens to under that link's session, or a plaintext one let
      through; over every run the session's pairing is there and switched on. */
  lemma ReachesTheKey(lib: Lib, g: Gate, events: seq<Event>, clock: nat, command: byte, bytes: Bytes, a: Address,
                      now: nat, entropy: nat, testing: bool, reports: seq<Bytes>)
    requires lib.Lawful() && Good(lib, g, clock) && InOrder(events, clock) && reports != []
    ensures var h := Run(lib, g, events);
            && (Reports(Handle(lib, h, command, bytes, a, now, entropy, testing).1) == reports <==>
                  (WithHighBit(command) == SEALED && OpensTo(lib, h, bytes, a, reports))
                  || (WithHighBit(command) == PLAIN && LetThrough(h, bytes, testing, reports)))
            && (OpensTo(lib, h, bytes, a, reports) ==>
                  h.state.Some? && HasOn(h.state.value.records, h.sessions[a].id))
  {
    hide OpensTo, LetThrough, OnSealed, OnPlain, OnPairMessage, Run, Lib.Lawful;
    var h := Run(lib, g, events);
    RunGood(lib, g, events, clock);
    PlainLetsThrough(lib, h, bytes, a, testing, entropy, reports);
    SealedOpensTo(lib, h, bytes, a, now, entropy, reports);
    if OpensTo(lib, h, bytes, a, reports) { OpensNeedsSession(lib, h, bytes, a, reports); }
  }

  lemma OpensNeedsSession(lib: Lib, g: Gate, bytes: Bytes, a: Address, reports: seq<Bytes>)
    requires OpensTo(lib, g, bytes, a, reports)
    ensures a in g.sessions
  {
  }

  /** A report goes out to a computer with a session, always sealed, or in the clear with transit off; else not at all. */
  lemma LeavesSealed(lib: Lib, g: Gate, address: Option<Address>, report: Bytes, now: nat, testing: bool)
    requires Synced(lib, g)
    ensures var out := Outgoing(lib, g, address, report, now, testing).1;
            && (address.Some? && address.value in g.sessions ==>
                  out == Some((SEALED, lib.seal(g.sessions[address.value].session, [KIND_REPORT] + report).1)))
            && (out.Some? && out.value.0 == PLAIN ==>
                  testing && (g.state.Some? ==> g.storedOff) && out.value.1 == report && address.value !in g.sessions)
            && (out.None? <==> address.None? || (address.value !in g.sessions && !(testing && g.transitOffWanted)))
  {
  }

  /** Over any run, a report for a computer leaves sealed under its session if and only if it has one, whose pairing is
      there and on; without one it leaves in the clear only in testing mode with the stored switch on; else not at all. */
  lemma LeavesTheGate(lib: Lib, g: Gate, events: seq<Event>, clock: nat, a: Address, report: Bytes, now: nat, testing: bool)
    requires lib.Lawful() && Good(lib, g, clock) && InOrder(events, clock)
    ensures var h := Run(lib, g, events);
            var out := Outgoing(lib, h, Some(a), report, now, testing).1;
            && (out.Some? && out.value.0 == SEALED <==> a in h.sessions)
            && (a in h.sessions ==>
                  && out == Some((SEALED, lib.seal(h.sessions[a].session, [KIND_REPORT] + report).1))
                  && h.state.Some? && HasOn(h.state.value.records, h.sessions[a].id))
            && (out.Some? && out.value.0 == PLAIN ==> testing && out.value.1 == report && (h.state.Some? ==> h.storedOff))
  {
    hide Run, Lib.Lawful, Outgoing;
    var h := Run(lib, g, events);
    RunGood(lib, g, events, clock);
    LeavesSealed(lib, h, Some(a), report, now, testing);
    if a !in h.sessions { NotSealed(lib, h, a, report, now, testing); }
  }

  lemma NotSealed(lib: Lib, g: Gate, a: Address, report: Bytes, now: nat, testing: bool)
    requires a !in g.sessions
    ensures var out := Outgoing(lib, g, Some(a), report, now, testing).1; out.Some? ==> out.value == (PLAIN, report)
  {
  }

  // ---------------------------------------------------------------- the awaited save

  /** Between a hello's save and its session, other calls may run: the session is backed exactly when its pairing is
      still there and on once they have. */
  lemma SessionAfterSave(lib: Lib, h: Gate, a: Address, session: Bytes, rec: PairRecord, msg: Bytes, now: nat, entropy: nat)
    requires lib.Lawful() && Good(lib, h, now)
    ensures Backed(HelloOpen(lib, h, a, session, rec, msg, now, entropy)) <==>
              h.state.Some? && HasOn(h.state.value.records, rec.id)
  {
    hide HasOn;
    var after := HelloOpen(lib, h, a, session, rec, msg, now, entropy);
    OpenedSessions(lib, h, a, session, rec, msg, now, entropy);
    hide HelloOpen;
    if Backed(after) { assert a in after.sessions; }
  }

  /** A pairing revoked while its hello is being saved leaves a session with no pairing, and what that session opens to
      still reaches the key. */
  lemma RevokedWhileSaving(lib: Lib, g: Gate, a: Address, session: Bytes, rec: PairRecord, msg: Bytes, now: nat, entropy: nat)
    requires lib.Lawful() && Good(lib, g, now) && g.state.Some?
    ensures var revoked := RevokeById(lib, HelloSave(lib, g, rec), rec.id, entropy);
            var after := HelloOpen(lib, revoked, a, session, rec, msg, now, entropy);
            && a in after.sessions && Find(after.state.value.records, rec.id).None?
            && (forall bytes, reports, testing | OpensTo(lib, after, bytes, a, reports) ::
                  Reports(Handle(lib, after, SEALED, bytes, a, now, entropy, testing).1) == reports)
  {
    var revoked := RevokeById(lib, HelloSave(lib, g, rec), rec.id, entropy);
    var after := HelloOpen(lib, revoked, a, session, rec, msg, now, entropy);
    OpenedSessions(lib, revoked, a, session, rec, msg, now, entropy);
    assert Find(revoked.state.value.records, rec.id).None?;
    hide HelloOpen, RevokeById, HelloSave, OpensTo, OnSealed, Reports;
    forall bytes, reports, testing | OpensTo(lib, after, bytes, a, reports)
      ensures Reports(Handle(lib, after, SEALED, bytes, a, now, entropy, testing).1) == reports
    {
      OpensSome(lib, after, bytes, a, reports);
      SealedOpensTo(lib, after, bytes, a, now, entropy, reports);
    }
  }

  lemma OpensSome(lib: Lib, g: Gate, bytes: Bytes, a: Address, reports: seq<Bytes>)
    requires OpensTo(lib, g, bytes, a, reports)
    ensures reports != []
  {
  }
}
