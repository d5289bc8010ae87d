/** Filling this phone's copy from a paired computer: parts staged in memory, put
    together in order at the commit, and taken only when every link is checked;
    reading the copy out page by page; and the nonces that stop a replay. */
module EdgeSync {
  import opened Basics

  datatype Link = Link(seqNo: nat, body: seq<byte>)

  datatype Verdict = Verified | Gap | Unsigned | Broken
  datatype View = View(verdict: Verdict, verified: set<nat>)
  datatype Merged = Merged(links: seq<Link>, added: seq<Link>, conflicts: seq<nat>)

  /** The library's merge and the check of a copy against the key. */
  datatype Lib = Lib(merge: (seq<Link>, seq<Link>) -> Merged, view: seq<Link> -> View) {
    /** With no conflict, a merge keeps every link, takes every one offered, and adds only offered ones it had not;
        what it would add does not conflict with what it would be added to. */
    ghost predicate Lawful() {
      && (forall links, offered :: LawfulMerge(links, offered, merge(links, offered)))
      && (forall links, offered :: Settles(links, offered))
    }

    predicate Settles(links: seq<Link>, offered: seq<Link>) {
      merge(links, offered).conflicts == [] ==> merge(links, merge(links, offered).added).conflicts == []
    }
  }

  predicate LawfulMerge(links: seq<Link>, offered: seq<Link>, m: Merged) {
    m.conflicts == [] ==>
      && (forall l :: l in m.links ==> l in links || l in m.added)
      && (forall l :: l in links ==> l in m.links)
      && (forall l :: l in offered ==> l in m.links)
      && (forall l :: l in m.added ==> l in offered && l !in links)
  }

  /** One sync's parts: who brings them, and each part's links. */
  datatype Staged = Staged(peer: string, computer: string, parts: map<nat, seq<Link>>, chain: Option<string>)

  datatype Message =
    | Links(device: string, sid: string, peer: string, chain: Option<string>, part: nat, parts: nat, records: seq<Link>)
    | Offer(device: string, sid: string, peer: string, chain: Option<string>, linkParts: nat)
    | Commit(device: string, sid: string, peer: string, chain: Option<string>, linkParts: nat)

  datatype Reason =
    AnotherKey | OwnChain | AnotherSync | AnotherChain | PartsMissing | EndsWithOffer | Fork | WouldNotVerify | Unchecked | Failed

  datatype Outcome =
    | StagedParts(count: nat)
    | Refused(reason: Reason)
    | Held(chain: Option<string>, offered: seq<Link>)
    | Taken(count: nat)

  datatype Sync = Sync(staged: map<string, Staged>, copy: seq<Link>)

  // ---------------------------------------------------------------- parts in index order

  /** A set's numbers, smallest first. */
  function Ascending(s: set<nat>): (r: seq<nat>)
    ensures |r| == |s| && forall i :: i in r <==> i in s
    decreases |s|
  {
    if s == {} then []
    else
      var m := Smallest(s);
      [m] + Ascending(s - {m})
  }

  function Smallest(s: set<nat>): (m: nat)
    requires s != {}
    ensures m in s && forall i :: i in s ==> m <= i
  {
    SmallestExists(s);
    var m :| m in s && forall i :: i in s ==> m <= i;
    m
  }

  lemma SmallestExists(s: set<nat>)
    requires s != {}
    ensures exists m :: m in s && forall i :: i in s ==> m <= i
  {
    var x :| x in s;
    var k := 0;
    while k !in s
      invariant k <= x && forall i :: i in s ==> k <= i
      decreases x - k
    {
      k := k + 1;
    }
  }

  function Flat(parts: map<nat, seq<Link>>, order: seq<nat>): seq<Link>
    requires forall i :: i in order ==> i in parts
  {
    if order == [] then [] else parts[order[0]] + Flat(parts, order[1..])
  }

  /** The staged parts, joined in the order of their numbers. */
  function Joined(parts: map<nat, seq<Link>>): seq<Link> {
    Flat(parts, Ascending(parts.Keys))
  }

  // ---------------------------------------------------------------- one message

  predicate Refuses(st: Staged, m: Message, computer: string) {
    st.peer != m.peer || st.computer != computer || (st.chain != m.chain && st.parts != map[])
  }

  /** A fork, a copy that would not verify, or a link that cannot be checked: nothing is taken. */
  function Objection(lib: Lib, copy: seq<Link>, offered: seq<Link>): Option<Reason> {
    var m := lib.merge(copy, offered);
    var view := lib.view(m.links);
    if m.conflicts != [] then Some(Fork)
    else if m.added != [] && !view.verdict.Verified? && !view.verdict.Gap? then Some(WouldNotVerify)
    else if exists l :: l in m.added && l.seqNo !in view.verified then Some(Unchecked)
    else None
  }

  /** Kept into the copy as it is by then; a link that now disagrees keeps nothing. */
  function Keep(lib: Lib, copy: seq<Link>, added: seq<Link>): (seq<Link>, Outcome) {
    if added == [] then (copy, Taken(0))
    else
      var m := lib.merge(copy, added);
      if m.conflicts != [] then (copy, Refused(Failed)) else (m.links, Taken(|added|))
  }

  /** `meanwhile`: what the background sync added at the copy's end between the check and the keeping. */
  function CommitParts(lib: Lib, copy: seq<Link>, parts: map<nat, seq<Link>>, linkParts: nat, meanwhile: seq<Link>)
    : (seq<Link>, Outcome)
  {
    if |parts| != linkParts then (copy, Refused(PartsMissing))
    else
      var offered := Joined(parts);
      var objection := Objection(lib, copy, offered);
      if objection.Some? then (copy, Refused(objection.value))
      else Keep(lib, copy + meanwhile, lib.merge(copy, offered).added)
  }

  /** A message of a sync that is staged under st. */
  function Continue(lib: Lib, s: Sync, st: Staged, m: Message, meanwhile: seq<Link>): (Sync, Outcome) {
    match m
    case Links(_, sid, _, _, part, _, records) =>
      var parts := st.parts[part := records];
      (s.(staged := s.staged[sid := st.(parts := parts)]), StagedParts(|parts|))
    case Offer(_, sid, _, _, linkParts) =>
      (s.(staged := s.staged - {sid}), if |st.parts| != linkParts then Refused(PartsMissing) else Held(m.chain, Joined(st.parts)))
    case Commit(_, sid, _, _, linkParts) =>
      if m.chain.Some? then (s.(staged := s.staged[sid := st]), Refused(EndsWithOffer))
      else
        var (copy, out) := CommitParts(lib, s.copy, st.parts, linkParts, meanwhile);
        (Sync(s.staged - {sid}, copy), out)
  }

  function Handle(lib: Lib, own: string, s: Sync, m: Message, computer: string, meanwhile: seq<Link>): (Sync, Outcome) {
    if m.device != own then (s, Refused(AnotherKey))
    else if m.chain == Some(own) then (s, Refused(OwnChain))
    else
      var st := if m.sid in s.staged then s.staged[m.sid] else Staged(m.peer, computer, map[], None);
      var begun := s.(staged := s.staged[m.sid := st]);
      if st.peer != m.peer || st.computer != computer then (begun, Refused(AnotherSync))
      else if st.chain != m.chain && st.parts != map[] then (begun, Refused(AnotherChain))
      else Continue(lib, begun, st.(chain := m.chain), m, meanwhile)
  }

  // ---------------------------------------------------------------- runs

  datatype Event =
    | Got(msg: Message, computer: string, meanwhile: seq<Link>)
    | KeySynced(links: seq<Link>)

  function Step(lib: Lib, own: string, s: Sync, e: Event): Sync {
    match e
    case Got(m, computer, meanwhile) => Handle(lib, own, s, m, computer, meanwhile).0
    case KeySynced(links) => s.(copy := s.copy + links)
  }

  function Run(lib: Lib, own: string, s: Sync, events: seq<Event>): Sync {
    if events == [] then s else Step(lib, own, Run(lib, own, s, events[..|events| - 1]), events[|events| - 1])
  }

  // ---------------------------------------------------------------- reassembly

  /** The parts taken for a sync, in the order they came; none once its commit or offer was read. */
  function TakenFor(lib: Lib, own: string, s: Sync, events: seq<Event>, sid: string): seq<Event> {
    if events == [] then []
    else
      var init, e := events[..|events| - 1], events[|events| - 1];
      var before := TakenFor(lib, own, s, init, sid);
      var was := Run(lib, own, s, init);
      if e.Got? && e.msg.Links? && e.msg.sid == sid && Handle(lib, own, was, e.msg, e.computer, e.meanwhile).1.StagedParts?
      then before + [e]
      else if sid !in Step(lib, own, was, e).staged then []
      else before
  }

  predicate AllParts(taken: seq<Event>) {
    forall e :: e in taken ==> e.Got? && e.msg.Links?
  }

  /** Each part as it last came. */
  function LastParts(taken: seq<Event>): map<nat, seq<Link>>
    requires AllParts(taken)
  {
    if taken == [] then map[]
    else
      var e := taken[|taken| - 1];
      LastParts(taken[..|taken| - 1])[e.msg.part := e.msg.records]
  }

  /** What is staged is the last of each part that came, all of it from one peer and computer, for one chain. */
  predicate StagedFrom(staged: map<string, Staged>, sid: string, taken: seq<Event>) {
    && AllParts(taken)
    && (sid !in staged ==> taken == [])
    && (sid in staged ==>
          var st := staged[sid];
          && st.parts == LastParts(taken)
          && forall e :: e in taken ==> e.msg.peer == st.peer && e.computer == st.computer && e.msg.chain == st.chain)
  }

  lemma {:induction false} LastPartsSome(taken: seq<Event>)
    requires AllParts(taken)
    ensures LastParts(taken) == map[] <==> taken == []
  {
    if taken != [] {
      assert taken[|taken| - 1].msg.part in LastParts(taken);
    }
  }

  lemma TakesPart(lib: Lib, own: string, s: Sync, e: Event, taken: seq<Event>)
    requires e.Got? && e.msg.Links? && StagedFrom(s.staged, e.msg.sid, taken)
    requires Handle(lib, own, s, e.msg, e.computer, e.meanwhile).1.StagedParts?
    ensures StagedFrom(Step(lib, own, s, e).staged, e.msg.sid, taken + [e])
  {
    assert (taken + [e])[..|taken|] == taken;
    LastPartsSome(taken);
    assert LastParts(taken + [e]) == LastParts(taken)[e.msg.part := e.msg.records];
  }

  lemma OthersKeepParts(lib: Lib, own: string, s: Sync, e: Event, sid: string, taken: seq<Event>)
    requires StagedFrom(s.staged, sid, taken)
    requires !(e.Got? && e.msg.Links? && e.msg.sid == sid && Handle(lib, own, s, e.msg, e.computer, e.meanwhile).1.StagedParts?)
    ensures var t := Step(lib, own, s, e);
            StagedFrom(t.staged, sid, if sid in t.staged then taken else [])
  {
    hide Joined, CommitParts, LastParts;
    LastPartsSome(taken);
    var t := Step(lib, own, s, e);
    if sid in t.staged && sid in s.staged {
      assert t.staged[sid].parts == s.staged[sid].parts;
    }
  }

  lemma {:induction false} RunStages(lib: Lib, own: string, s: Sync, events: seq<Event>, sid: string)
    requires s.staged == map[]
    ensures StagedFrom(Run(lib, own, s, events).staged, sid, TakenFor(lib, own, s, events, sid))
  {
    hide StagedFrom, Step, Handle;
    if events == [] {
      NothingStaged(s.staged, sid);
    } else {
      var init, e := events[..|events| - 1], events[|events| - 1];
      var was, taken := Run(lib, own, s, init), TakenFor(lib, own, s, init, sid);
      RunStages(lib, own, s, init, sid);
      if e.Got? && e.msg.Links? && e.msg.sid == sid && Handle(lib, own, was, e.msg, e.computer, e.meanwhile).1.StagedParts? {
        TakesPart(lib, own, was, e, taken);
      } else {
        OthersKeepParts(lib, own, was, e, sid, taken);
      }
    }
  }

  lemma NothingStaged(staged: map<string, Staged>, sid: string)
    requires staged == map[]
    ensures StagedFrom(staged, sid, [])
  {
  }

  /** The numbers from lo up to and not including hi. */
  function Between(lo: nat, hi: nat): (s: set<nat>)
    ensures forall i :: i in s <==> lo <= i < hi
    ensures |s| == if lo <= hi then hi - lo else 0
    decreases hi - lo
  {
    if lo >= hi then {} else {lo} + Between(lo + 1, hi)
  }

  lemma {:induction false} SubsetSmaller(a: set<nat>, b: set<nat>)
    requires a <= b
    ensures |a| <= |b| && (|a| == |b| ==> a == b)
    decreases |a|
  {
    if a != {} {
      var x :| x in a;
      SubsetSmaller(a - {x}, b - {x});
      assert a == a - {x} + {x} && b == b - {x} + {x};
    } else if |b| == 0 {
      assert b == {};
    }
  }

  /** As many parts as there should be, and none out of range: then none is missing, and the other way round. */
  lemma NoPartMissing(keys: set<nat>, n: nat)
    requires |keys| == n
    ensures keys == Between(0, n) <==> forall i :: i in keys ==> i < n
  {
    if forall i :: i in keys ==> i < n { SubsetSmaller(keys, Between(0, n)); }
  }

  /** Parts 0 to n-1, one after the other. */
  function InIndexOrder(parts: map<nat, seq<Link>>, n: nat): seq<Link>
    requires forall i: nat :: i < n ==> i in parts
  {
    if n == 0 then [] else InIndexOrder(parts, n - 1) + parts[n - 1]
  }

  lemma AscendingFrom(lo: nat, hi: nat)
    requires lo < hi
    ensures Ascending(Between(lo, hi)) == [lo] + Ascending(Between(lo + 1, hi))
  {
    var s := Between(lo, hi);
    assert lo in s;
    assert Smallest(s) == lo;
    assert s - {lo} == Between(lo + 1, hi);
  }

  lemma {:induction false} FlatInOrder(parts: map<nat, seq<Link>>, lo: nat, n: nat)
    requires lo <= n && forall i: nat :: i < n ==> i in parts
    ensures InIndexOrder(parts, lo) + Flat(parts, Ascending(Between(lo, n))) == InIndexOrder(parts, n)
    decreases n - lo
  {
    hide Ascending, Between;
    if lo < n {
      AscendingFrom(lo, n);
      FlatInOrder(parts, lo + 1, n);
      FlatStep(parts, lo, Ascending(Between(lo + 1, n)));
      AppendLater(InIndexOrder(parts, lo), parts[lo], Flat(parts, Ascending(Between(lo + 1, n))));
    } else {
      assert Ascending(Between(n, n)) == [];
      assert InIndexOrder(parts, n) + [] == InIndexOrder(parts, n);
    }
  }

  lemma FlatStep(parts: map<nat, seq<Link>>, i: nat, order: seq<nat>)
    requires i in parts && forall j :: j in order ==> j in parts
    ensures Flat(parts, [i] + order) == parts[i] + Flat(parts, order)
  {
    assert ([i] + order)[1..] == order;
  }

  lemma AppendLater(a: seq<Link>, b: seq<Link>, c: seq<Link>)
    ensures a + (b + c) == a + b + c
  {
  }

  lemma JoinedInOrder(parts: map<nat, seq<Link>>, n: nat)
    requires parts.Keys == Between(0, n)
    ensures (forall i: nat :: i < n ==> i in parts) && Joined(parts) == InIndexOrder(parts, n)
  {
    FlatInOrder(parts, 0, n);
  }

  /** Past the part count, with no objection to what was joined. */
  predicate Assembles(lib: Lib, own: string, s: Sync, m: Message, computer: string) {
    && m.Commit? && m.device == own && m.chain.None?
    && m.sid in s.staged && !Refuses(s.staged[m.sid], m, computer)
    && |s.staged[m.sid].parts| == m.linkParts
  }

  /** Over any run, in whatever order and however often parts came: a commit gets past the count exactly when the last
      of every part is there (each part under the count the commit names), and what it then uses is those, in index
      order, all from the commit's own peer and computer and for this phone's chain. */
  lemma CommitHasEveryPart(lib: Lib, own: string, s: Sync, events: seq<Event>, m: Message, computer: string)
    requires s.staged == map[] && m.Commit? && m.device == own && m.chain.None?
    requires var was := Run(lib, own, s, events); m.sid in was.staged && !Refuses(was.staged[m.sid], m, computer)
    requires forall e :: e in TakenFor(lib, own, s, events, m.sid) && e.Got? && e.msg.Links? ==> e.msg.part < m.linkParts
    ensures var was, taken := Run(lib, own, s, events), TakenFor(lib, own, s, events, m.sid);
            && AllParts(taken)
            && (Assembles(lib, own, was, m, computer) <==> forall i: nat :: i < m.linkParts ==> i in LastParts(taken))
            && (Assembles(lib, own, was, m, computer) ==>
                  && Joined(was.staged[m.sid].parts) == InIndexOrder(LastParts(taken), m.linkParts)
                  && forall e :: e in taken ==> e.msg.peer == m.peer && e.computer == computer && e.msg.chain.None?)
  {
    hide Run, Handle, TakenFor, Joined;
    var was, taken := Run(lib, own, s, events), TakenFor(lib, own, s, events, m.sid);
    RunStages(lib, own, s, events, m.sid);
    var parts := LastParts(taken);
    LastPartsInRange(taken, m.linkParts);
    LastPartsSome(taken);
    if |parts.Keys| == m.linkParts {
      NoPartMissing(parts.Keys, m.linkParts);
      JoinedInOrder(parts, m.linkParts);
    }
    if forall i: nat :: i < m.linkParts ==> i in parts {
      assert parts.Keys == Between(0, m.linkParts);
    }
    assert |parts| == |parts.Keys|;
  }

  lemma {:induction false} LastPartsInRange(taken: seq<Event>, n: nat)
    requires AllParts(taken) && forall e :: e in taken ==> e.msg.part < n
    ensures forall i :: i in LastParts(taken) ==> i < n
  {
    if taken != [] { LastPartsInRange(taken[..|taken| - 1], n); }
  }

  /** Counting alone is not enough: a commit naming fewer parts than its parts did can pass with one missing. */
  lemma CountAloneMissesAPart(lib: Lib, own: string, records: seq<Link>)
    requires own != "" && lib.Lawful()
    ensures var s := Sync(map[], []);
            var events := [Got(Links(own, "s", "p", None, 1, 2, records), "c", [])];
            var m := Commit(own, "s", "p", None, 1);
            && Assembles(lib, own, Run(lib, own, s, events), m, "c")
            && Joined(Run(lib, own, s, events).staged["s"].parts) == records
  {
    var s := Sync(map[], []);
    var e := Got(Links(own, "s", "p", None, 1, 2, records), "c", []);
    assert [e][..0] == [];
    assert Run(lib, own, s, [e]) == Step(lib, own, s, e);
    var parts: map<nat, seq<Link>> := map[1 := records];
    assert parts.Keys == {1};
    assert Smallest({1}) == 1;
    assert {1} - {1} == {};
    assert Ascending({1}) == [1];
    assert Flat(parts, [1]) == records + [];
  }

  /** A message for another key or about this key's own log is refused and leaves everything as it is; one from another
      peer or computer than its sync's, or for another chain once there are parts, is refused and leaves the parts. */
  lemma ForeignRefused(lib: Lib, own: string, s: Sync, m: Message, computer: string, meanwhile: seq<Link>)
    ensures var (t, out) := Handle(lib, own, s, m, computer, meanwhile);
            && (m.device != own || m.chain == Some(own) ==> t == s && out.Refused?)
            && (m.sid in s.staged && Refuses(s.staged[m.sid], m, computer) ==> t == s && out.Refused?)
  {
    if m.sid in s.staged { assert s.staged[m.sid := s.staged[m.sid]] == s.staged; }
  }

  /** The message is taken as one of its sync. */
  predicate Admitted(own: string, s: Sync, m: Message, computer: string) {
    m.device == own && m.chain != Some(own) && (m.sid in s.staged ==> !Refuses(s.staged[m.sid], m, computer))
  }

  /** The parts there before this message. */
  function PartsBefore(s: Sync, sid: string): map<nat, seq<Link>> {
    if sid in s.staged then s.staged[sid].parts else map[]
  }

  /** A part admitted is staged, in the place of one of its number, and counted; every other sync is left alone. */
  lemma PartIsStaged(lib: Lib, own: string, s: Sync, m: Message, computer: string, meanwhile: seq<Link>)
    requires m.Links? && Admitted(own, s, m, computer)
    ensures var (t, out) := Handle(lib, own, s, m, computer, meanwhile);
            && PartsBefore(t, m.sid) == PartsBefore(s, m.sid)[m.part := m.records]
            && out == StagedParts(|PartsBefore(t, m.sid)|)
            && m.sid in t.staged && t.staged[m.sid].chain == m.chain
            && forall sid :: sid != m.sid ==>
                 (sid in t.staged <==> sid in s.staged) && (sid in s.staged ==> t.staged[sid] == s.staged[sid])
  {
  }

  /** An offer admitted ends its sync; it hands on the parts joined in index order if every one is there under the count
      it names, and is refused if the count is not met. */
  lemma OfferHandsOn(lib: Lib, own: string, s: Sync, m: Message, computer: string, meanwhile: seq<Link>)
    requires m.Offer? && Admitted(own, s, m, computer)
    ensures var (t, out) := Handle(lib, own, s, m, computer, meanwhile);
            var parts := PartsBefore(s, m.sid);
            && m.sid !in t.staged && t.copy == s.copy
            && (out.Held? <==> |parts| == m.linkParts) && (!out.Held? ==> out == Refused(PartsMissing))
            && (parts.Keys == Between(0, m.linkParts) ==> out == Held(m.chain, InIndexOrder(parts, m.linkParts)))
  {
    var parts := PartsBefore(s, m.sid);
    if parts.Keys == Between(0, m.linkParts) {
      JoinedInOrder(parts, m.linkParts);
      assert |parts| == |parts.Keys|;
    }
  }

  /** A commit for another device's log is refused; one admitted for this key's ends its sync, whatever comes of it. */
  lemma CommitEndsSync(lib: Lib, own: string, s: Sync, m: Message, computer: string, meanwhile: seq<Link>)
    requires m.Commit? && Admitted(own, s, m, computer)
    ensures var (t, out) := Handle(lib, own, s, m, computer, meanwhile);
            && (m.chain.Some? ==> out == Refused(EndsWithOffer) && t.copy == s.copy)
            && (m.chain.None? ==> m.sid !in t.staged)
            && (m.chain.None? && |PartsBefore(s, m.sid)| != m.linkParts ==> out == Refused(PartsMissing) && t.copy == s.copy)
  {
  }

  // ---------------------------------------------------------------- all or nothing

  /** The links a message may bring into the copy: those a commit adds, every one checked in the copy they join, with
      no fork and a copy that verifies but for gaps. */
  predicate Brings(lib: Lib, own: string, s: Sync, m: Message, computer: string, l: Link) {
    && Assembles(lib, own, s, m, computer)
    && Acceptable(lib, s.copy, Joined(s.staged[m.sid].parts))
    && l in lib.merge(s.copy, Joined(s.staged[m.sid].parts)).added
  }

  /** No fork, nothing new or a copy that verifies but for gaps, and every added link checked in it. */
  predicate Acceptable(lib: Lib, copy: seq<Link>, offered: seq<Link>) {
    var merged := lib.merge(copy, offered);
    && merged.conflicts == []
    && (merged.added != [] ==> lib.view(merged.links).verdict.Verified? || lib.view(merged.links).verdict.Gap?)
    && forall l :: l in merged.added ==> l.seqNo in lib.view(merged.links).verified
  }

  /** A commit takes every link it adds, or none; whatever else a message does, the copy keeps what it had. */
  lemma TakesAllOrNothing(lib: Lib, own: string, s: Sync, m: Message, computer: string, meanwhile: seq<Link>)
    requires lib.Lawful()
    ensures var (t, out) := Handle(lib, own, s, m, computer, meanwhile);
            && (!m.Commit? ==> t.copy == s.copy)
            && (out.Refused? ==> t.copy == s.copy || (out.reason.Failed? && t.copy == s.copy + meanwhile))
            && (forall l :: l in s.copy ==> l in t.copy)
            && (forall l :: l in t.copy ==> l in s.copy || l in meanwhile || Brings(lib, own, s, m, computer, l))
            && (out.Taken? && out.count > 0 ==>
                  && Assembles(lib, own, s, m, computer)
                  && (forall l :: l in Joined(s.staged[m.sid].parts) ==> l in t.copy)
                  && forall l :: l in meanwhile ==> l in t.copy)
  {
    hide Joined, Acceptable, Objection, Keep;
    if Assembles(lib, own, s, m, computer) {
      CommitBrings(lib, s.copy, s.staged[m.sid].parts, meanwhile);
    } else if m.Commit? && m.sid !in s.staged && m.device == own && m.chain.None? && m.linkParts == 0 {
      NothingOffered(lib, own, s, m, computer, meanwhile);
    }
  }

  lemma NoObjectionIff(lib: Lib, copy: seq<Link>, offered: seq<Link>)
    ensures Objection(lib, copy, offered).None? <==> Acceptable(lib, copy, offered)
    ensures Acceptable(lib, copy, offered) ==> lib.merge(copy, offered).conflicts == []
  {
  }

  lemma CommitBrings(lib: Lib, copy: seq<Link>, parts: map<nat, seq<Link>>, meanwhile: seq<Link>)
    requires lib.Lawful()
    ensures var offered := Joined(parts);
            var added := lib.merge(copy, offered).added;
            var (later, out) := CommitParts(lib, copy, parts, |parts|, meanwhile);
            && (out.Refused? ==> later == copy || (out.reason.Failed? && later == copy + meanwhile))
            && (forall l :: l in copy ==> l in later)
            && (out.Taken? ==> Acceptable(lib, copy, offered)
                               && (forall l :: l in offered ==> l in later) && forall l :: l in meanwhile ==> l in later)
            && (forall l :: l in later ==> l in copy || l in meanwhile || (l in added && Acceptable(lib, copy, offered)))
            && (Acceptable(lib, copy, offered) && meanwhile == [] ==> out == Taken(|added|))
  {
    hide Joined, Objection, Acceptable;
    var offered := Joined(parts);
    NoObjectionIff(lib, copy, offered);
    var merged := lib.merge(copy, offered);
    assert LawfulMerge(copy, offered, merged);
    assert LawfulMerge(copy + meanwhile, merged.added, lib.merge(copy + meanwhile, merged.added));
    assert meanwhile == [] ==> copy + meanwhile == copy;
    assert lib.Settles(copy, offered);
    HasFirst(merged.added);
  }

  /** With nothing coming in between, a complete commit is taken exactly when it is acceptable. */
  lemma TakenIffAcceptable(lib: Lib, own: string, s: Sync, m: Message, computer: string)
    requires lib.Lawful() && Assembles(lib, own, s, m, computer)
    ensures var offered := Joined(s.staged[m.sid].parts);
            && (Handle(lib, own, s, m, computer, []).1.Taken? <==> Acceptable(lib, s.copy, offered))
            && (Acceptable(lib, s.copy, offered) ==>
                  Handle(lib, own, s, m, computer, []).1.count == |lib.merge(s.copy, offered).added|)
            && (lib.merge(s.copy, offered).conflicts != [] ==> Handle(lib, own, s, m, computer, []).1 == Refused(Fork))
  {
    hide Joined, Acceptable;
    CommitBrings(lib, s.copy, s.staged[m.sid].parts, []);
  }

  lemma HasFirst(links: seq<Link>)
    ensures links == [] || links[0] in links
  {
  }

  lemma NothingOffered(lib: Lib, own: string, s: Sync, m: Message, computer: string, meanwhile: seq<Link>)
    requires lib.Lawful() && m.Commit? && m.sid !in s.staged && m.device == own && m.chain.None? && m.linkParts == 0
    ensures var (t, out) := Handle(lib, own, s, m, computer, meanwhile);
            && (t.copy == s.copy || t.copy == s.copy + meanwhile)
            && (out.Refused? ==> t.copy == s.copy) && (out.Taken? ==> out.count == 0)
  {
    var none: map<nat, seq<Link>> := map[];
    assert Joined(none) == [];
    var m0 := lib.merge(s.copy, []);
    assert LawfulMerge(s.copy, [], m0);
    HasFirst(m0.added);
  }

  /** Where a link came from at step k of a run. */
  ghost predicate CameAt(lib: Lib, own: string, s: Sync, events: seq<Event>, k: nat, l: Link)
    requires k < |events|
  {
    match events[k]
    case KeySynced(links) => l in links
    case Got(m, computer, meanwhile) =>
      l in meanwhile || Brings(lib, own, Run(lib, own, s, events[..k]), m, computer, l)
  }

  /** Over any run: every link of the copy was there at the start, came from the key, or was checked when it was taken;
      and none is ever lost. */
  lemma {:induction false} EveryLinkChecked(lib: Lib, own: string, s: Sync, events: seq<Event>, l: Link)
    requires lib.Lawful()
    ensures l in s.copy ==> l in Run(lib, own, s, events).copy
    ensures l in Run(lib, own, s, events).copy ==> l in s.copy || exists k: nat :: k < |events| && CameAt(lib, own, s, events, k, l)
  {
    hide Handle, Brings, Lib.Lawful;
    if events != [] {
      var n := |events| - 1;
      var init, e := events[..n], events[n];
      var was := Run(lib, own, s, init);
      EveryLinkChecked(lib, own, s, init, l);
      if e.Got? { TakesAllOrNothing(lib, own, was, e.msg, e.computer, e.meanwhile); }
      if l in was.copy && l !in s.copy {
        var k: nat :| k < |init| && CameAt(lib, own, s, init, k, l);
        assert init[..k] == events[..k] && init[k] == events[k];
        assert CameAt(lib, own, s, events, k, l);
      } else if l !in was.copy && l in Run(lib, own, s, events).copy {
        assert CameAt(lib, own, s, events, n, l);
      }
    }
  }

  // ---------------------------------------------------------------- reading the copy, page by page

  predicate Rising(copy: seq<Link>) {
    forall i, j :: 0 <= i < j < |copy| ==> copy[i].seqNo < copy[j].seqNo
  }

  /** The links from a number on. */
  function From(copy: seq<Link>, start: nat): seq<Link> {
    if copy == [] then []
    else From(copy[..|copy| - 1], start) + if copy[|copy| - 1].seqNo >= start then [copy[|copy| - 1]] else []
  }

  datatype Page = Page(links: seq<Link>, next: Option<nat>)

  /** One answer: at most a batch, and where the rest starts. */
  function Give(copy: seq<Link>, start: nat, batch: nat): Page
    requires batch > 0
  {
    var all := From(copy, start);
    if |all| > batch then Page(all[..batch], Some(all[batch].seqNo)) else Page(all, None)
  }

  /** Asking for page after page, the copy as it is at each, until there is no next or the copies run out. */
  function Read(copies: seq<seq<Link>>, start: nat, batch: nat): (seq<Link>, Option<nat>)
    requires batch > 0
  {
    if copies == [] then ([], Some(start))
    else
      var page := Give(copies[0], start, batch);
      if page.next.None? then (page.links, None)
      else
        var (rest, next) := Read(copies[1..], page.next.value, batch);
        (page.links + rest, next)
  }

  /** Rising copies, each beginning with all of the one before: the copy grows only at its end. */
  predicate Growing(copies: seq<seq<Link>>) {
    (forall c :: c in copies ==> Rising(c)) && forall i, j :: 0 <= i < j < |copies| ==> copies[i] <= copies[j]
  }

  lemma {:induction false} FromSplits(copy: seq<Link>, start: nat, k: nat)
    requires Rising(copy) && k < |From(copy, start)|
    ensures var x := From(copy, start)[k].seqNo;
            x >= start && From(copy, x) == From(copy, start)[k..]
  {
    var init, last := copy[..|copy| - 1], copy[|copy| - 1];
    var all := From(init, start);
    if k < |all| {
      FromSplits(init, start, k);
      assert From(copy, start)[k] == all[k];
      FromIn(init, start, k);
      assert From(copy, start)[k..] == all[k..] + (if last.seqNo >= start then [last] else []);
    } else {
      assert From(copy, start)[k] == last;
      FromNone(init, last.seqNo);
      assert From(copy, start)[k..] == [last];
    }
  }

  lemma {:induction false} FromIn(copy: seq<Link>, start: nat, k: nat)
    requires k < |From(copy, start)|
    ensures From(copy, start)[k] in copy
  {
    var init := copy[..|copy| - 1];
    if k < |From(init, start)| {
      FromIn(init, start, k);
      assert forall l :: l in init ==> l in copy;
    }
  }

  lemma {:induction false} FromNone(copy: seq<Link>, start: nat)
    requires forall l :: l in copy ==> l.seqNo < start
    ensures From(copy, start) == []
  {
    if copy != [] { FromNone(copy[..|copy| - 1], start); }
  }

  lemma {:induction false} FromGrows(copy: seq<Link>, later: seq<Link>, start: nat)
    requires copy <= later
    ensures From(copy, start) <= From(later, start)
  {
    if |copy| < |later| {
      FromGrows(copy, later[..|later| - 1], start);
    } else {
      assert copy == later;
    }
  }

  /** A page of one copy is the beginning of any later one, and its next is where the rest of that begins. */
  lemma PageThenRest(copy: seq<Link>, later: seq<Link>, start: nat, batch: nat)
    requires batch > 0 && copy <= later && Rising(later) && Give(copy, start, batch).next.Some?
    ensures From(later, start) == Give(copy, start, batch).links + From(later, Give(copy, start, batch).next.value)
  {
    FromGrows(copy, later, start);
    var all, more := From(copy, start), From(later, start);
    assert more[..batch] == all[..batch] && more[batch] == all[batch];
    FromSplits(later, start, batch);
    assert more == more[..batch] + more[batch..];
  }

  /** Exactly the links from a number on, in rising order. */
  lemma {:induction false} FromMeans(copy: seq<Link>, start: nat)
    requires Rising(copy)
    ensures forall l :: l in From(copy, start) <==> l in copy && l.seqNo >= start
    ensures Rising(From(copy, start))
  {
    if copy != [] {
      var init, last := copy[..|copy| - 1], copy[|copy| - 1];
      FromMeans(init, start);
      assert copy == init + [last];
      forall l | l in From(init, start) ensures l.seqNo < last.seqNo {
        var i :| 0 <= i < |init| && init[i] == l;
      }
    }
  }

  /** An answer holds at most a batch of links, and a whole batch if there is a next. */
  lemma PageIsABatch(copy: seq<Link>, start: nat, batch: nat)
    requires batch > 0
    ensures |Give(copy, start, batch).links| <= batch
    ensures Give(copy, start, batch).next.Some? ==> |Give(copy, start, batch).links| == batch
  {
  }

  /** These are the links of a copy from a number up to another (or to the end), once each, in rising order. */
  ghost predicate ReadOf(links: seq<Link>, copy: seq<Link>, start: nat, next: Option<nat>) {
    && Rising(links)
    && forall l :: l in links <==> l in copy && start <= l.seqNo && (next.Some? ==> l.seqNo < next.value)
  }

  /** Over every reading of a copy that grows at its end: what was read is every link from the start on and before the
      next, once each and in order; with no next, every link from the start on of the copy last asked. */
  lemma ReadsEveryLinkOnce(copies: seq<seq<Link>>, start: nat, batch: nat)
    requires batch > 0 && Growing(copies) && copies != []
    ensures var (links, next) := Read(copies, start, batch);
            && (next.Some? ==> ReadOf(links, copies[|copies| - 1], start, next))
            && (next.None? ==> exists k :: 0 <= k < |copies| && ReadOf(links, copies[k], start, next))
  {
    ReadsFrom(copies, start, batch);
    var (links, next) := Read(copies, start, batch);
    if next.None? {
      var k :| 0 <= k < |copies| && links == From(copies[k], start);
      assert copies[k] in copies;
      FromMeans(copies[k], start);
      assert ReadOf(links, copies[k], start, next);
    } else {
      var last := copies[|copies| - 1];
      assert last in copies;
      FirstPart(links, last, start, next.value);
    }
  }

  lemma FirstPart(links: seq<Link>, copy: seq<Link>, start: nat, next: nat)
    requires Rising(copy) && links + From(copy, next) == From(copy, start)
    ensures ReadOf(links, copy, start, Some(next))
  {
    FromMeans(copy, start);
    FromMeans(copy, next);
    var all, rest := From(copy, start), From(copy, next);
    assert forall i :: 0 <= i < |links| ==> all[i] == links[i];
    assert forall i :: 0 <= i < |rest| ==> all[|links| + i] == rest[i];
    forall i, j | 0 <= i < |links| && 0 <= j < |rest| ensures links[i].seqNo < rest[j].seqNo {
      assert all[i].seqNo < all[|links| + j].seqNo;
    }
    assert all == links + rest;
    assert forall l :: l in all <==> l in links || l in rest;
  }

  /** Everything read so far, followed by what is still to come of the copy as it is now, is all that From gives; with
      no next, nothing was still to come of the copy last asked. */
  lemma {:induction false} ReadsFrom(copies: seq<seq<Link>>, start: nat, batch: nat)
    requires batch > 0 && Growing(copies) && copies != []
    ensures var (links, next) := Read(copies, start, batch);
            && (next.Some? ==> links + From(copies[|copies| - 1], next.value) == From(copies[|copies| - 1], start))
            && (next.None? ==> exists k :: 0 <= k < |copies| && links == From(copies[k], start))
    decreases |copies|
  {
    hide From, Give;
    var page := Give(copies[0], start, batch);
    var last := |copies| - 1;
    if page.next.None? {
      WholePage(copies[0], start, batch);
    } else {
      var x, tail := page.next.value, copies[1..];
      if tail == [] {
        assert Read(tail, x, batch) == ([], Some(x)) && page.links + [] == page.links;
        PageThenRest(copies[0], copies[last], start, batch);
      } else {
        assert Growing(tail) by { assert forall c :: c in tail ==> c in copies; }
        ReadsFrom(tail, x, batch);
        var (rest, next) := Read(tail, x, batch);
        if next.Some? {
          assert tail[|tail| - 1] == copies[last] && copies[0] <= copies[last];
          PageThenRest(copies[0], copies[last], start, batch);
          assert page.links + rest + From(copies[last], next.value) == page.links + (rest + From(copies[last], next.value));
        } else {
          var k :| 0 <= k < |tail| && rest == From(tail[k], x);
          assert tail[k] == copies[k + 1] && copies[0] <= copies[k + 1];
          PageThenRest(copies[0], copies[k + 1], start, batch);
        }
      }
    }
  }

  lemma WholePage(copy: seq<Link>, start: nat, batch: nat)
    requires batch > 0 && Give(copy, start, batch).next.None?
    ensures Give(copy, start, batch).links == From(copy, start)
  {
  }

  function Repeated<T>(x: T, n: nat): seq<T> {
    seq(n, _ => x)
  }

  /** Once the copy stops growing, the reading ends: one page a batch, and the last is short. */
  lemma {:induction false} ReadingEnds(copy: seq<Link>, start: nat, batch: nat, pages: nat)
    requires batch > 0 && Rising(copy)
    ensures pages * batch >= |From(copy, start)| && pages > 0 ==> Read(Repeated(copy, pages), start, batch).1.None?
    decreases pages
  {
    if pages > 0 && pages * batch >= |From(copy, start)| {
      var copies := Repeated(copy, pages);
      var page := Give(copy, start, batch);
      assert copies[0] == copy && copies[1..] == Repeated(copy, pages - 1);
      if page.next.Some? {
        FromSplits(copy, start, batch);
        assert |From(copy, page.next.value)| == |From(copy, start)| - batch;
        assert (pages - 1) * batch == pages * batch - batch;
        ReadingEnds(copy, page.next.value, batch, pages - 1);
      }
    }
  }

  // ---------------------------------------------------------------- nonces taken

  const SEEN_KEPT: nat := 2000

  /** A nonce in the kept list is a replay; a new one is kept, and the list is cut to the newest. */
  function Take(seen: seq<string>, nonce: string): (seq<string>, bool) {
    if nonce in seen then (Newest(seen), false) else (Newest(seen + [nonce]), true)
  }

  function Newest(seen: seq<string>): seq<string> {
    if |seen| > SEEN_KEPT then seen[|seen| - SEEN_KEPT..] else seen
  }

  function TakeAll(seen: seq<string>, nonces: seq<string>): seq<string> {
    if nonces == [] then seen else Take(TakeAll(seen, nonces[..|nonces| - 1]), nonces[|nonces| - 1]).0
  }

  /** How many of them were new when they came. */
  function NewOnes(seen: seq<string>, nonces: seq<string>): nat {
    if nonces == [] then 0
    else
      NewOnes(seen, nonces[..|nonces| - 1])
      + if Take(TakeAll(seen, nonces[..|nonces| - 1]), nonces[|nonces| - 1]).1 then 1 else 0
  }

  /** The nonce is kept, with that many newer ones behind it. */
  predicate KeptBehind(seen: seq<string>, nonce: string, newer: nat) {
    newer < |seen| <= SEEN_KEPT && seen[|seen| - 1 - newer] == nonce
    && forall i :: 0 <= i < |seen| && i != |seen| - 1 - newer ==> seen[i] != nonce
  }

  lemma KeptNext(now: seq<string>, nonce: string, newer: nat, x: string)
    requires KeptBehind(now, nonce, newer)
    ensures x in now ==> Take(now, x) == (now, false)
    ensures x !in now && newer + 1 < SEEN_KEPT ==> KeptBehind(Take(now, x).0, nonce, newer + 1)
    ensures x !in now ==> (nonce in Take(now, x).0 <==> newer + 1 < SEEN_KEPT)
  {
    if x !in now {
      var out := Take(now, x).0;
      assert nonce != x by { assert nonce in now; }
      if newer + 1 < SEEN_KEPT { assert out[|out| - 2 - newer] == nonce; }
    }
  }

  lemma {:induction false} KeptWhile(seen: seq<string>, nonce: string, nonces: seq<string>)
    requires |seen| <= SEEN_KEPT && nonce !in seen && NewOnes(Take(seen, nonce).0, nonces) < SEEN_KEPT
    ensures KeptBehind(TakeAll(Take(seen, nonce).0, nonces), nonce, NewOnes(Take(seen, nonce).0, nonces))
  {
    hide KeptBehind, Newest;
    var kept := Take(seen, nonce).0;
    if nonces == [] {
      FirstKept(seen, nonce);
    } else {
      var init, x := nonces[..|nonces| - 1], nonces[|nonces| - 1];
      KeptWhile(seen, nonce, init);
      KeptNext(TakeAll(kept, init), nonce, NewOnes(kept, init), x);
    }
  }

  lemma FirstKept(seen: seq<string>, nonce: string)
    requires |seen| <= SEEN_KEPT && nonce !in seen
    ensures KeptBehind(Take(seen, nonce).0, nonce, 0)
  {
  }

  /** A message taken once is refused again for as long as fewer than 2000 new ones have been taken since; at the
      2000th it is forgotten, and its replay is taken. */
  lemma ReplayRefusedUntil(seen: seq<string>, nonce: string, nonces: seq<string>)
    requires |seen| <= SEEN_KEPT && nonce !in seen && NewOnes(Take(seen, nonce).0, nonces) < SEEN_KEPT
    ensures var now := TakeAll(Take(seen, nonce).0, nonces);
            && !Take(now, nonce).1
            && (forall x :: x !in now ==>
                  (nonce in Take(now, x).0 <==> NewOnes(Take(seen, nonce).0, nonces) + 1 < SEEN_KEPT))
  {
    KeptWhile(seen, nonce, nonces);
    var now := TakeAll(Take(seen, nonce).0, nonces);
    forall x | x !in now
      ensures nonce in Take(now, x).0 <==> NewOnes(Take(seen, nonce).0, nonces) + 1 < SEEN_KEPT
    {
      KeptNext(now, nonce, NewOnes(Take(seen, nonce).0, nonces), x);
    }
  }

  // ---------------------------------------------------------------- the module's own collections

  /** The staged syncs, this phone's copy and the nonces taken, changed in place by each message. */
  class SyncDesk {
    const lib: Lib
    const own: string
    var staged: map<string, Staged>
    var copy: seq<Link>
    var seen: seq<string>

    ghost function Whole(): Sync
      reads this
    {
      Sync(staged, copy)
    }

    constructor (lib: Lib, own: string, copy: seq<Link>)
      ensures this.lib == lib && this.own == own && Whole() == Sync(map[], copy) && seen == []
    {
      this.lib, this.own, this.copy := lib, own, copy;
      staged, seen := map[], [];
    }

    method TakeNonce(nonce: string) returns (taken: bool)
      modifies this`seen
      ensures (seen, taken) == Take(old(seen), nonce)
    {
      taken := nonce !in seen;
      if taken { seen := seen + [nonce]; }
      if |seen| > SEEN_KEPT { seen := seen[|seen| - SEEN_KEPT..]; }
    }

    method HandleSync(m: Message, computer: string, meanwhile: seq<Link>) returns (out: Outcome)
      modifies this`staged, this`copy
      ensures (Whole(), out) == Handle(lib, own, old(Whole()), m, computer, meanwhile)
    {
      if m.device != own { return Refused(AnotherKey); }
      if m.chain == Some(own) { return Refused(OwnChain); }
      ghost var was := Whole();
      if m.sid !in staged { staged := staged[m.sid := Staged(m.peer, computer, map[], None)]; }
      var st := staged[m.sid];
      assert staged == was.staged[m.sid := st];
      if st.peer != m.peer || st.computer != computer { return Refused(AnotherSync); }
      if st.chain != m.chain && st.parts != map[] { return Refused(AnotherChain); }
      out := ContinueSync(st.(chain := m.chain), m, meanwhile);
    }

    method ContinueSync(st: Staged, m: Message, meanwhile: seq<Link>) returns (out: Outcome)
      modifies this`staged, this`copy
      ensures (Whole(), out) == Continue(lib, old(Whole()), st, m, meanwhile)
    {
      match m
      case Links(_, sid, _, _, part, _, records) =>
        var parts := st.parts[part := records];
        staged := staged[sid := st.(parts := parts)];
        out := StagedParts(|parts|);
      case Offer(_, sid, _, _, linkParts) =>
        staged := staged - {sid};
        if |st.parts| != linkParts { return Refused(PartsMissing); }
        out := Held(m.chain, Joined(st.parts));
      case Commit(_, sid, _, _, linkParts) =>
        if m.chain.Some? {
          staged := staged[sid := st];
          return Refused(EndsWithOffer);
        }
        staged := staged - {sid};
        out := CommitStaged(st.parts, linkParts, meanwhile);
    }

    method CommitStaged(parts: map<nat, seq<Link>>, linkParts: nat, meanwhile: seq<Link>) returns (out: Outcome)
      modifies this`copy
      ensures (copy, out) == CommitParts(lib, old(copy), parts, linkParts, meanwhile)
    {
      if |parts| != linkParts { return Refused(PartsMissing); }
      var m := lib.merge(copy, Joined(parts));
      if m.conflicts != [] { return Refused(Fork); }
      var view := lib.view(m.links);
      if m.added != [] && !view.verdict.Verified? && !view.verdict.Gap? { return Refused(WouldNotVerify); }
      if exists l :: l in m.added && l.seqNo !in view.verified { return Refused(Unchecked); }
      copy := copy + meanwhile;
      if m.added == [] { return Taken(0); }
      var kept := lib.merge(copy, m.added);
      if kept.conflicts != [] { return Refused(Failed); }
      copy := kept.links;
      out := Taken(|m.added|);
    }
  }
}
