/** Which links, refusals, owed receipts and ended budgets become notifications,
    and how often, over any run of syncs. */
module EdgeAlerts {
  import opened Basics

  const OWED_RED_MS: nat := 10 * 60 * 1000
  const LIST_KEPT: nat := 100
  const SETTLE: byte := 0x8f

  /** A use's pairing with its receipt: an alarm, still waiting, or neither, and the receipt link there is. */
  datatype Status = Alarm | Waiting | Settled
  datatype Pairing = Pairing(status: Status, receipt: Option<nat>)

  /** A receipt link's own code, and whether a press was observed with it. */
  datatype Code = Code(code: byte, pressed: bool)

  /** A link of the copy; `seenAt` is 0 when this phone does not know when it came. */
  datatype Row = Row(no: nat, pairing: Option<Pairing>, own: Option<Code>, seenAt: nat)

  /** A notification: the row it opens, and the alarm receipt it is about. */
  datatype Post = Post(row: nat, receipt: nat)

  // ---------------------------------------------------------------- the alarms of a view

  /** The alarm receipt a row shows: its use's, or itself when it is one that answers no use of its own. */
  function ReceiptOf(isAlarm: byte -> bool, r: Row): Option<nat> {
    match r.pairing
    case Some(p) => if p.status.Alarm? then p.receipt else None
    case None =>
      if r.own.Some? && isAlarm(r.own.value.code) && !(r.own.value.code == SETTLE && r.own.value.pressed) then Some(r.no) else None
  }

  function AlarmOf(isAlarm: byte -> bool, r: Row, after: nat): seq<Post> {
    var s := ReceiptOf(isAlarm, r);
    if s.Some? && s.value > after then [Post(r.no, s.value)] else []
  }

  /** The alarms newer than `after`, oldest first; the rows are newest first. */
  function Alarms(isAlarm: byte -> bool, rows: seq<Row>, after: nat): seq<Post> {
    if rows == [] then [] else Alarms(isAlarm, rows[1..], after) + AlarmOf(isAlarm, rows[0], after)
  }

  datatype Looked = Looked(newest: Option<nat>, posts: seq<Post>)

  /** One sync: the first only records where the chain is. */
  function Raise(isAlarm: byte -> bool, k: Looked, rows: seq<Row>): Looked {
    if rows == [] then k
    else if k.newest.None? then k.(newest := Some(rows[0].no))
    else if rows[0].no <= k.newest.value then k
    else Looked(Some(rows[0].no), k.posts + Alarms(isAlarm, rows, k.newest.value))
  }

  function RaiseAll(isAlarm: byte -> bool, views: seq<seq<Row>>): Looked {
    if views == [] then Looked(None, [])
    else Raise(isAlarm, RaiseAll(isAlarm, views[..|views| - 1]), views[|views| - 1])
  }

  // ---------------------------------------------------------------- a copy that grows at its head

  /** Newest first, and a receipt comes after the use it answers. */
  predicate WellFormed(rows: seq<Row>) {
    && (forall i, j :: 0 <= i < j < |rows| ==> rows[i].no > rows[j].no)
    && (forall r :: r in rows && r.pairing.Some? && r.pairing.value.receipt.Some? ==> r.pairing.value.receipt.value > r.no)
  }

  /** The same link later on: a pairing with a receipt stays, a new one is with a receipt newer than `top`. */
  predicate SameLink(r: Row, later: Row, top: nat) {
    && later.no == r.no && later.own == r.own
    && (r.pairing.Some? && r.pairing.value.receipt.Some? ==> later.pairing == r.pairing)
    && (r.own.Some? ==> (later.pairing.Some? <==> r.pairing.Some?))
    && (later.pairing != r.pairing && later.pairing.Some? && later.pairing.value.receipt.Some? ==>
          later.pairing.value.receipt.value > top)
  }

  predicate Grows(rows: seq<Row>, later: seq<Row>) {
    && |rows| <= |later|
    && forall i :: 0 <= i < |rows| ==> SameLink(rows[i], later[|later| - |rows| + i], rows[0].no)
  }

  predicate Growing(views: seq<seq<Row>>) {
    views == [] ||
    var n := |views| - 1;
    Growing(views[..n]) && WellFormed(views[n]) && ReceiptsPresent(views[n]) && (n > 0 ==> Grows(views[n - 1], views[n]))
  }

  /** Every receipt shown is a link there is. */
  predicate ReceiptsPresent(rows: seq<Row>) {
    forall r :: r in rows && r.pairing.Some? && r.pairing.value.receipt.Some? ==> r.pairing.value.receipt.value <= rows[0].no
  }

  /** Where the chain was at the first look there was anything to see. */
  function FirstLook(views: seq<seq<Row>>): Option<nat> {
    if views == [] then None else if views[0] != [] then Some(views[0][0].no) else FirstLook(views[1..])
  }

  /** The view shows this alarm. */
  predicate Shows(isAlarm: byte -> bool, rows: seq<Row>, p: Post) {
    exists r :: r in rows && r.no == p.row && ReceiptOf(isAlarm, r) == Some(p.receipt)
  }

  lemma {:induction false} AlarmsAreShown(isAlarm: byte -> bool, rows: seq<Row>, after: nat, p: Post)
    ensures p in Alarms(isAlarm, rows, after) <==> Shows(isAlarm, rows, p) && p.receipt > after
  {
    if rows != [] {
      AlarmsAreShown(isAlarm, rows[1..], after, p);
      assert rows == [rows[0]] + rows[1..];
    }
  }

  predicate Distinct<T(==)>(s: seq<T>) {
    forall i, j :: 0 <= i < j < |s| ==> s[i] != s[j]
  }

  lemma DistinctAppend<T>(a: seq<T>, b: seq<T>)
    requires Distinct(a) && Distinct(b) && forall x :: x in a ==> x !in b
    ensures Distinct(a + b)
  {
    var s := a + b;
    forall i, j | 0 <= i < j < |s| ensures s[i] != s[j] {
      if j >= |a| {
        if i >= |a| { assert s[i] == b[i - |a|] && s[j] == b[j - |a|]; } else { assert s[i] in a && s[j] in b; }
      }
    }
  }

  lemma {:induction false} AlarmsDistinct(isAlarm: byte -> bool, rows: seq<Row>, after: nat)
    requires WellFormed(rows)
    ensures Distinct(Alarms(isAlarm, rows, after))
  {
    if rows != [] {
      var rest := rows[1..];
      assert forall r :: r in rest ==> r in rows;
      AlarmsDistinct(isAlarm, rest, after);
      forall p | p in AlarmOf(isAlarm, rows[0], after) ensures p !in Alarms(isAlarm, rest, after) {
        AlarmsAreShown(isAlarm, rest, after, p);
        assert forall r :: r in rest ==> r.no < rows[0].no;
      }
      DistinctAppend(Alarms(isAlarm, rest, after), AlarmOf(isAlarm, rows[0], after));
    }
  }

  lemma RowStays(isAlarm: byte -> bool, r: Row, later: Row, top: nat, receipt: nat)
    requires SameLink(r, later, top) && receipt <= top
    ensures ReceiptOf(isAlarm, later) == Some(receipt) <==> ReceiptOf(isAlarm, r) == Some(receipt)
  {
  }

  lemma RowsAt(rows: seq<Row>, later: seq<Row>, i: nat)
    requires Grows(rows, later) && i < |rows|
    ensures SameLink(rows[i], later[|later| - |rows| + i], rows[0].no)
    ensures later[|later| - |rows| + i].no == rows[i].no
  {
  }

  lemma HigherIsEarlier(rows: seq<Row>, i: nat, j: nat)
    requires WellFormed(rows) && i < |rows| && j < |rows| && rows[i].no <= rows[j].no
    ensures j <= i
  {
  }

  lemma ReceiptAfterRow(isAlarm: byte -> bool, rows: seq<Row>, r: Row, receipt: nat)
    requires WellFormed(rows) && r in rows && ReceiptOf(isAlarm, r) == Some(receipt)
    ensures r.no <= receipt
  {
  }

  predicate RisingRows(posts: seq<Post>) {
    forall i, j :: 0 <= i < j < |posts| ==> posts[i].row < posts[j].row
  }

  /** The alarms of one sync come oldest link first. */
  lemma {:induction false} OldestFirst(isAlarm: byte -> bool, rows: seq<Row>, after: nat)
    requires WellFormed(rows)
    ensures RisingRows(Alarms(isAlarm, rows, after))
  {
    if rows != [] {
      TailWellFormed(rows);
      OldestFirst(isAlarm, rows[1..], after);
      forall p | p in Alarms(isAlarm, rows[1..], after) ensures p.row < rows[0].no {
        AlarmsAreShown(isAlarm, rows[1..], after, p);
        ShownRow(isAlarm, rows[1..], p);
      }
      RisingAppend(Alarms(isAlarm, rows[1..], after), AlarmOf(isAlarm, rows[0], after), rows[0].no);
    }
  }

  lemma TailWellFormed(rows: seq<Row>)
    requires WellFormed(rows) && rows != []
    ensures WellFormed(rows[1..]) && forall r :: r in rows[1..] ==> r.no < rows[0].no
  {
    assert forall r :: r in rows[1..] ==> r in rows;
    forall r | r in rows[1..] ensures r.no < rows[0].no {
      var i :| 0 <= i < |rows[1..]| && rows[1..][i] == r;
      assert rows[i + 1] == r;
    }
  }

  lemma ShownRow(isAlarm: byte -> bool, rows: seq<Row>, p: Post)
    requires Shows(isAlarm, rows, p)
    ensures exists r :: r in rows && r.no == p.row
  {
  }

  lemma RisingAppend(a: seq<Post>, b: seq<Post>, no: nat)
    requires RisingRows(a) && |b| <= 1 && (forall p :: p in a ==> p.row < no) && forall p :: p in b ==> p.row == no
    ensures RisingRows(a + b)
  {
    var s := a + b;
    forall i, j | 0 <= i < j < |s| ensures s[i].row < s[j].row {
      assert s[i] in a;
      if j >= |a| { assert s[j] in b; }
    }
  }

  /** What a grown copy shows of receipts up to where it was is what it showed then. */
  lemma OldAlarmsStay(isAlarm: byte -> bool, rows: seq<Row>, later: seq<Row>, p: Post)
    requires rows != [] && WellFormed(rows) && WellFormed(later) && Grows(rows, later) && p.receipt <= rows[0].no
    ensures Shows(isAlarm, later, p) <==> Shows(isAlarm, rows, p)
  {
    hide SameLink, ReceiptOf, WellFormed, Grows;
    var top := rows[0].no;
    var shift: nat := GrownBy(rows, later);
    if Shows(isAlarm, rows, p) {
      var r :| r in rows && r.no == p.row && ReceiptOf(isAlarm, r) == Some(p.receipt);
      var i: nat :| i < |rows| && rows[i] == r;
      RowsAt(rows, later, i);
      RowStays(isAlarm, r, later[shift + i], top, p.receipt);
      assert later[shift + i] in later;
    }
    if Shows(isAlarm, later, p) {
      var r :| r in later && r.no == p.row && ReceiptOf(isAlarm, r) == Some(p.receipt);
      var j: nat :| j < |later| && later[j] == r;
      ReceiptAfterRow(isAlarm, later, r, p.receipt);
      RowsAt(rows, later, 0);
      HigherIsEarlier(later, j, shift);
      RowsAt(rows, later, j - shift);
      RowStays(isAlarm, rows[j - shift], r, top, p.receipt);
      assert rows[j - shift] in rows;
    }
  }

  function GrownBy(rows: seq<Row>, later: seq<Row>): (n: nat)
    requires Grows(rows, later)
    ensures n == |later| - |rows|
  {
    |later| - |rows|
  }

  /** What has been posted is what the copy shows beyond the first look. */
  predicate Told(isAlarm: byte -> bool, rows: seq<Row>, first: Option<nat>, k: Looked, p: Post) {
    p in k.posts <==> first.Some? && Shows(isAlarm, rows, p) && p.receipt > first.value
  }

  ghost predicate Fits(isAlarm: byte -> bool, rows: seq<Row>, first: Option<nat>, k: Looked) {
    && (rows == [] ==> first.None? && k == Looked(None, []))
    && (rows != [] ==> first.Some? && first.value <= rows[0].no && k.newest == Some(rows[0].no))
    && Distinct(k.posts)
    && (forall p :: p in k.posts ==> rows != [] && p.receipt <= rows[0].no)
    && forall p :: Told(isAlarm, rows, first, k, p)
  }

  lemma ShownIsPresent(isAlarm: byte -> bool, rows: seq<Row>, p: Post)
    requires WellFormed(rows) && ReceiptsPresent(rows) && Shows(isAlarm, rows, p)
    ensures rows != [] && p.receipt <= rows[0].no
  {
    var r :| r in rows && r.no == p.row && ReceiptOf(isAlarm, r) == Some(p.receipt);
    var i :| 0 <= i < |rows| && rows[i] == r;
  }

  lemma FirstFits(isAlarm: byte -> bool, rows: seq<Row>)
    requires rows != [] && WellFormed(rows) && ReceiptsPresent(rows)
    ensures Fits(isAlarm, rows, Some(rows[0].no), Looked(Some(rows[0].no), []))
  {
    forall p: Post ensures Told(isAlarm, rows, Some(rows[0].no), Looked(Some(rows[0].no), []), p) {
      if Shows(isAlarm, rows, p) { ShownIsPresent(isAlarm, rows, p); }
    }
  }

  lemma RaiseFits(isAlarm: byte -> bool, rows: seq<Row>, later: seq<Row>, first: nat, k: Looked)
    requires rows != [] && WellFormed(rows) && WellFormed(later) && ReceiptsPresent(later) && Grows(rows, later)
    requires Fits(isAlarm, rows, Some(first), k)
    ensures Fits(isAlarm, later, Some(first), Raise(isAlarm, k, later))
  {
    var top, t := rows[0].no, Raise(isAlarm, k, later);
    assert SameLink(rows[0], later[|later| - |rows|], top);
    var news := if later[0].no <= top then [] else Alarms(isAlarm, later, top);
    assert t.posts == k.posts + news;
    forall p: Post ensures Told(isAlarm, later, Some(first), t, p) && (p in k.posts ==> p !in news)
      ensures p in t.posts ==> p.receipt <= later[0].no
    {
      assert Told(isAlarm, rows, Some(first), k, p);
      AlarmsAreShown(isAlarm, later, top, p);
      if p.receipt <= top { OldAlarmsStay(isAlarm, rows, later, p); }
      if Shows(isAlarm, later, p) { ShownIsPresent(isAlarm, later, p); }
    }
    AlarmsDistinct(isAlarm, later, top);
    DistinctAppend(k.posts, news);
  }

  lemma {:induction false} FirstLookLater(views: seq<seq<Row>>, v: seq<Row>)
    ensures FirstLook(views + [v]) ==
            if FirstLook(views).Some? then FirstLook(views) else if v != [] then Some(v[0].no) else None
  {
    if views == [] {
      assert (views + [v])[1..] == [];
    } else {
      assert (views + [v])[1..] == views[1..] + [v];
      FirstLookLater(views[1..], v);
    }
  }

  /** Over any run of syncs of a copy that grows at its head: an alarm is posted exactly when the copy shows it with a
      receipt newer than the first look, and no notification is posted twice. */
  lemma {:induction false} PostedExactlyOnce(isAlarm: byte -> bool, views: seq<seq<Row>>)
    requires views != [] && Growing(views)
    ensures Fits(isAlarm, views[|views| - 1], FirstLook(views), RaiseAll(isAlarm, views))
  {
    hide Fits, WellFormed, ReceiptsPresent, Grows, Raise;
    var n := |views| - 1;
    var init, v := views[..n], views[n];
    assert views == init + [v];
    FirstLookLater(init, v);
    if init == [] {
      BeginFits(isAlarm, v, None);
    } else {
      PostedExactlyOnce(isAlarm, init);
      var was := init[n - 1];
      WellFormedLast(init);
      if was == [] {
        EmptyFits(isAlarm, FirstLook(init), RaiseAll(isAlarm, init));
        BeginFits(isAlarm, v, None);
      } else {
        HasFirst(isAlarm, was, FirstLook(init), RaiseAll(isAlarm, init));
        RaiseFits(isAlarm, was, v, FirstLook(init).value, RaiseAll(isAlarm, init));
      }
    }
  }

  lemma WellFormedLast(views: seq<seq<Row>>)
    requires views != [] && Growing(views)
    ensures WellFormed(views[|views| - 1])
  {
  }

  lemma BeginFits(isAlarm: byte -> bool, v: seq<Row>, first: Option<nat>)
    requires WellFormed(v) && ReceiptsPresent(v) && first.None?
    ensures Fits(isAlarm, v, if v != [] then Some(v[0].no) else None, Raise(isAlarm, Looked(None, []), v))
  {
    if v != [] { FirstFits(isAlarm, v); }
  }

  lemma EmptyFits(isAlarm: byte -> bool, first: Option<nat>, k: Looked)
    requires Fits(isAlarm, [], first, k)
    ensures first.None? && k == Looked(None, [])
  {
  }

  lemma HasFirst(isAlarm: byte -> bool, rows: seq<Row>, first: Option<nat>, k: Looked)
    requires rows != [] && Fits(isAlarm, rows, first, k)
    ensures first.Some?
  {
  }

  /** How many notifications there are about an alarm receipt. */
  function TimesTold(posts: seq<Post>, receipt: nat): nat {
    if posts == [] then 0
    else TimesTold(posts[..|posts| - 1], receipt) + if posts[|posts| - 1].receipt == receipt then 1 else 0
  }

  lemma {:induction false} ToldAtMostBy(posts: seq<Post>, p: Post)
    requires Distinct(posts) && forall q :: q in posts && q.receipt == p.receipt ==> q == p
    ensures TimesTold(posts, p.receipt) == if p in posts then 1 else 0
  {
    if posts != [] {
      var init, last := posts[..|posts| - 1], posts[|posts| - 1];
      assert posts == init + [last] && last !in init;
      ToldAtMostBy(init, p);
    }
  }

  lemma {:induction false} ToldAtLeast(posts: seq<Post>, p: Post, q: Post)
    requires p in posts && p.receipt == q.receipt
    ensures TimesTold(posts, p.receipt) >= 1
    ensures q in posts && q != p ==> TimesTold(posts, p.receipt) >= 2
  {
    var init, last := posts[..|posts| - 1], posts[|posts| - 1];
    assert posts == init + [last];
    if p in init { ToldAtLeast(init, p, q); }
    if q in init { ToldAtLeast(init, q, p); }
  }

  /** A use the copy holds is paired with this receipt, as an alarm. */
  predicate AnswersAUse(rows: seq<Row>, receipt: nat) {
    exists r :: r in rows && r.pairing.Some? && r.pairing.value.status.Alarm? && r.pairing.value.receipt == Some(receipt)
  }

  /** A link with an alarm code, no settle, that is no use itself. */
  predicate AlarmLink(isAlarm: byte -> bool, rows: seq<Row>, receipt: nat) {
    exists r :: r in rows && r.no == receipt && r.pairing.None? && r.own.Some? && isAlarm(r.own.value.code)
                && !(r.own.value.code == SETTLE && r.own.value.pressed)
  }

  /** Pairings are kept by use, and an alarm's receipt is a link of the copy with an alarm code. */
  predicate PairedWithLinks(isAlarm: byte -> bool, rows: seq<Row>) {
    forall r :: r in rows && r.pairing.Some? && r.pairing.value.status.Alarm? && r.pairing.value.receipt.Some? ==>
      AlarmLink(isAlarm, rows, r.pairing.value.receipt.value)
  }

  lemma ShownAsIs(isAlarm: byte -> bool, rows: seq<Row>, p: Post)
    requires WellFormed(rows) && Shows(isAlarm, rows, p)
    ensures p.row != p.receipt ==> AnswersAUse(rows, p.receipt)
  {
  }

  lemma UseShown(isAlarm: byte -> bool, rows: seq<Row>, receipt: nat) returns (use: nat)
    requires WellFormed(rows) && AnswersAUse(rows, receipt)
    ensures use < receipt && Shows(isAlarm, rows, Post(use, receipt))
  {
    var r :| r in rows && r.pairing.Some? && r.pairing.value.status.Alarm? && r.pairing.value.receipt == Some(receipt);
    use := r.no;
    assert ReceiptOf(isAlarm, r) == Some(receipt);
  }

  lemma ShownMeans(isAlarm: byte -> bool, rows: seq<Row>, p: Post)
    requires WellFormed(rows)
    ensures Shows(isAlarm, rows, p) ==> AnswersAUse(rows, p.receipt) || AlarmLink(isAlarm, rows, p.receipt)
    ensures AlarmLink(isAlarm, rows, p.receipt) ==> Shows(isAlarm, rows, Post(p.receipt, p.receipt))
  {
    if AlarmLink(isAlarm, rows, p.receipt) {
      var r :| r in rows && r.no == p.receipt && r.pairing.None? && r.own.Some? && isAlarm(r.own.value.code)
               && !(r.own.value.code == SETTLE && r.own.value.pressed);
      assert ReceiptOf(isAlarm, r) == Some(p.receipt);
    }
  }

  lemma {:induction false} NeverTold(posts: seq<Post>, receipt: nat)
    requires forall q :: q in posts ==> q.receipt != receipt
    ensures TimesTold(posts, receipt) == 0
  {
    if posts != [] {
      var init := posts[..|posts| - 1];
      assert forall q :: q in init ==> q in posts;
      NeverTold(init, receipt);
    }
  }

  /** Over any run of syncs a receipt newer than the first look is told if and only if, at the end, a use the copy holds
      is paired with it as an alarm, or it is a link with an alarm code that is no use's and no pressed settle. */
  lemma ToldIffAlarm(isAlarm: byte -> bool, views: seq<seq<Row>>, receipt: nat)
    requires views != [] && Growing(views) && FirstLook(views).Some? && receipt > FirstLook(views).value
    ensures TimesTold(RaiseAll(isAlarm, views).posts, receipt) > 0 <==>
              AnswersAUse(views[|views| - 1], receipt) || AlarmLink(isAlarm, views[|views| - 1], receipt)
  {
    hide RaiseAll, Growing, FirstLook, TimesTold, AnswersAUse, AlarmLink, WellFormed, Shows;
    var rows, k, first := views[|views| - 1], RaiseAll(isAlarm, views), FirstLook(views);
    var own := Post(receipt, receipt);
    PostedExactlyOnce(isAlarm, views);
    WellFormedLast(views);
    ShownMeans(isAlarm, rows, own);
    if AlarmLink(isAlarm, rows, receipt) {
      assert Told(isAlarm, rows, first, k, own);
      ToldAtLeast(k.posts, own, own);
    } else if AnswersAUse(rows, receipt) {
      var use := UseShown(isAlarm, rows, receipt);
      assert Told(isAlarm, rows, first, k, Post(use, receipt));
      ToldAtLeast(k.posts, Post(use, receipt), Post(use, receipt));
    } else {
      forall q | q in k.posts ensures q.receipt != receipt {
        assert Told(isAlarm, rows, first, k, q);
        ShownMeans(isAlarm, rows, q);
      }
      NeverTold(k.posts, receipt);
    }
  }

  /** An alarm receipt newer than the first look is told at least once over any run of syncs, and exactly once if and
      only if no use the copy holds is paired with it: one that answers a use is told on the use and on its own link. */
  lemma ToldOnceIffUnpaired(isAlarm: byte -> bool, views: seq<seq<Row>>, receipt: nat)
    requires views != [] && Growing(views) && FirstLook(views).Some? && receipt > FirstLook(views).value
    requires var rows := views[|views| - 1];
             PairedWithLinks(isAlarm, rows) && (AnswersAUse(rows, receipt) || AlarmLink(isAlarm, rows, receipt))
    ensures TimesTold(RaiseAll(isAlarm, views).posts, receipt) >= 1
    ensures TimesTold(RaiseAll(isAlarm, views).posts, receipt) == 1 <==> !AnswersAUse(views[|views| - 1], receipt)
  {
    hide RaiseAll, Growing, FirstLook, TimesTold;
    var rows, k, first := views[|views| - 1], RaiseAll(isAlarm, views), FirstLook(views);
    PostedExactlyOnce(isAlarm, views);
    WellFormedLast(views);
    var own := Post(receipt, receipt);
    assert AlarmLink(isAlarm, rows, receipt);
    ShownMeans(isAlarm, rows, own);
    assert Told(isAlarm, rows, first, k, own);
    ToldAtLeast(k.posts, own, own);
    if AnswersAUse(rows, receipt) {
      var use := UseShown(isAlarm, rows, receipt);
      assert Told(isAlarm, rows, first, k, Post(use, receipt));
      ToldAtLeast(k.posts, own, Post(use, receipt));
    } else {
      forall q | q in k.posts && q.receipt == receipt ensures q == own {
        assert Told(isAlarm, rows, first, k, q);
        ShownAsIs(isAlarm, rows, q);
      }
      ToldAtMostBy(k.posts, own);
    }
  }

  /** And such a copy is an ordinary one: a use, then its alarm receipt. */
  lemma PairedAlarmExample(isAlarm: byte -> bool, code: byte)
    requires isAlarm(code) && code != SETTLE
    ensures var before := [Row(10, Some(Pairing(Waiting, None)), None, 0)];
            var after := [Row(11, None, Some(Code(code, false)), 0), Row(10, Some(Pairing(Alarm, Some(11))), None, 0)];
            && Growing([before, after]) && PairedWithLinks(isAlarm, after)
            && RaiseAll(isAlarm, [before, after]).posts == [Post(10, 11), Post(11, 11)]
  {
    var before := [Row(10, Some(Pairing(Waiting, None)), None, 0)];
    var after := [Row(11, None, Some(Code(code, false)), 0), Row(10, Some(Pairing(Alarm, Some(11))), None, 0)];
    assert [before, after][..1] == [before] && [before][..0] == [];
    assert RaiseAll(isAlarm, [before]) == Looked(Some(10), []);
    assert Growing([]) && Growing([before]);
    assert after[1..] == [after[1]];
    assert Alarms(isAlarm, after[1..], 10) == [Post(10, 11)];
    assert after[0] in after;
  }

  // ---------------------------------------------------------------- refused starts

  datatype Refusals = Refusals(last: nat, told: seq<nat>)

  /** A rise is told by how much; a drop is taken for a restart of the key, and tells nothing. */
  function CountRefused(k: Refusals, refused: nat): Refusals {
    Refusals(refused, if refused > k.last then k.told + [refused - k.last] else k.told)
  }

  function CountAll(counts: seq<nat>): Refusals {
    if counts == [] then Refusals(0, []) else CountRefused(CountAll(counts[..|counts| - 1]), counts[|counts| - 1])
  }

  function Sum(s: seq<nat>): nat {
    if s == [] then 0 else Sum(s[..|s| - 1]) + s[|s| - 1]
  }

  /** What came between two looks: more refusals, or a restart of the key, with refusals before it that no look saw and
      refusals since. */
  datatype Between = More(refused: nat) | Restarted(unseen: nat, since: nat)

  /** The key's own count at each look: it starts again at a restart. */
  function Count(looks: seq<Between>): nat {
    if looks == [] then 0
    else
      match looks[|looks| - 1]
      case More(refused) => Count(looks[..|looks| - 1]) + refused
      case Restarted(_, since) => since
  }

  function Counts(looks: seq<Between>): seq<nat> {
    if looks == [] then [] else Counts(looks[..|looks| - 1]) + [Count(looks)]
  }

  /** Every start the key has refused. */
  function Total(looks: seq<Between>): nat {
    if looks == [] then 0
    else
      Total(looks[..|looks| - 1])
      + match looks[|looks| - 1]
        case More(refused) => refused
        case Restarted(unseen, since) => unseen + since
  }

  function Min(a: nat, b: nat): nat {
    if a <= b then a else b
  }

  /** Those a restart hides: what no look saw before it, and since it as many as the count before covers. */
  function Hidden(before: nat, look: Between): nat {
    match look
    case More(_) => 0
    case Restarted(unseen, since) => unseen + Min(before, since)
  }

  function Lost(looks: seq<Between>): nat {
    if looks == [] then 0
    else Lost(looks[..|looks| - 1]) + Hidden(Count(looks[..|looks| - 1]), looks[|looks| - 1])
  }

  /** At every restart nothing had been refused unseen, and nothing was counted before it or nothing refused since. */
  predicate NoneHidden(looks: seq<Between>) {
    looks == [] ||
    (NoneHidden(looks[..|looks| - 1])
     && match looks[|looks| - 1]
        case More(_) => true
        case Restarted(unseen, since) => unseen == 0 && (Count(looks[..|looks| - 1]) == 0 || since == 0))
  }

  lemma CountNext(looks: seq<Between>)
    requires looks != []
    ensures var init := Counts(looks[..|looks| - 1]);
            CountAll(Counts(looks)) == CountRefused(CountAll(init), Count(looks))
  {
    var init := Counts(looks[..|looks| - 1]);
    assert Counts(looks)[..|init|] == init;
  }

  lemma SumNext(s: seq<nat>, x: nat)
    ensures Sum(s + [x]) == Sum(s) + x
  {
    assert (s + [x])[..|s|] == s;
  }

  /** Refusals told and refusals lost are all there were, and the last count kept is the key's. */
  lemma {:induction false} ToldAndLost(looks: seq<Between>)
    ensures CountAll(Counts(looks)).last == Count(looks)
    ensures Sum(CountAll(Counts(looks)).told) + Lost(looks) == Total(looks)
  {
    if looks != [] {
      var init := looks[..|looks| - 1];
      ToldAndLost(init);
      CountNext(looks);
      var k := CountAll(Counts(init));
      if Count(looks) > k.last { SumNext(k.told, Count(looks) - k.last); }
    }
  }

  lemma {:induction false} LostNone(looks: seq<Between>)
    ensures Lost(looks) == 0 <==> NoneHidden(looks)
  {
    if looks != [] { LostNone(looks[..|looks| - 1]); }
  }

  /** All refusals are told exactly when no restart hides any. */
  lemma AllRefusalsToldIff(looks: seq<Between>)
    ensures Sum(CountAll(Counts(looks)).told) == Total(looks) <==> NoneHidden(looks)
  {
    ToldAndLost(looks);
    LostNone(looks);
  }

  /** Five refused, a restart, two refused: seven refused, five told. */
  lemma RestartHidesRefusals()
    ensures var looks := [More(5), Restarted(0, 2)];
            Total(looks) == 7 && CountAll(Counts(looks)).told == [5] && Lost(looks) == 2
  {
    var looks := [More(5), Restarted(0, 2)];
    assert looks[..1] == [More(5)] && [More(5)][..0] == [];
    assert Counts([More(5)]) == [5] && [5][..0] == [];
    assert CountAll([5]) == Refusals(5, [5]) && Count(looks) == 2;
    CountNext(looks);
    assert Total([More(5)]) == 5 && Lost([More(5)]) == 0;
  }

  // ---------------------------------------------------------------- once a use, once a budget

  /** Those not told before. */
  function New(done: seq<nat>, now: seq<nat>): (r: seq<nat>)
    ensures forall x :: x in r <==> x in now && x !in done
  {
    if now == [] then []
    else New(done, now[..|now| - 1]) + if now[|now| - 1] !in done then [now[|now| - 1]] else []
  }

  function LastKept(s: seq<nat>): seq<nat> {
    if |s| > LIST_KEPT then s[|s| - LIST_KEPT..] else s
  }

  /** Each once, in the order they first come. */
  function Once(s: seq<nat>): (r: seq<nat>)
    ensures forall x :: x in r <==> x in s
    ensures Distinct(r)
  {
    if s == [] then []
    else
      var init := Once(s[..|s| - 1]);
      if s[|s| - 1] in init then init else init + [s[|s| - 1]]
  }

  /** The kept list and all that was told. */
  datatype Notices = Notices(done: seq<nat>, told: seq<nat>)

  function TellOwed(k: Notices, owed: seq<nat>): Notices {
    var news := New(k.done, owed);
    Notices(if news != [] then LastKept(k.done + news) else k.done, k.told + news)
  }

  function TellEnded(k: Notices, ended: seq<nat>): Notices {
    var news := New(k.done, ended);
    Notices(if news != [] then LastKept(Once(k.done + ended)) else k.done, k.told + news)
  }

  /** The first look on a phone only records the budgets that have ended. */
  function FirstEnded(ended: seq<nat>): Notices {
    Notices(LastKept(Once(ended + ended)), [])
  }

  lemma DistinctInit(s: seq<nat>)
    requires Distinct(s) && s != []
    ensures Distinct(s[..|s| - 1]) && s[|s| - 1] !in s[..|s| - 1] && s == s[..|s| - 1] + [s[|s| - 1]]
  {
  }

  lemma {:induction false} OnceAppends(done: seq<nat>, now: seq<nat>)
    requires Distinct(done) && Distinct(now)
    ensures Once(done + now) == done + New(done, now)
  {
    hide Distinct;
    if now == [] {
      OnceSame(done);
      assert done + now == done && done + [] == done;
    } else {
      var init, x := now[..|now| - 1], now[|now| - 1];
      DistinctInit(now);
      OnceAppends(done, init);
      assert (done + now)[..|done + now| - 1] == done + init && (done + now)[|done + now| - 1] == x;
      assert x in Once(done + init) <==> x in done;
      assert done + (New(done, init) + [x]) == done + New(done, init) + [x];
    }
  }

  lemma {:induction false} OnceSame(s: seq<nat>)
    requires Distinct(s)
    ensures Once(s) == s
  {
    hide Distinct;
    if s != [] {
      DistinctInit(s);
      OnceSame(s[..|s| - 1]);
    }
  }

  /** With no id twice in a list, the two bookkeepings are one. */
  lemma EndedIsOwed(k: Notices, ended: seq<nat>)
    requires Distinct(k.done) && Distinct(ended)
    ensures TellEnded(k, ended) == TellOwed(k, ended)
  {
    OnceAppends(k.done, ended);
  }

  function TellAll(k: Notices, looks: seq<seq<nat>>): Notices {
    if looks == [] then k else TellOwed(TellAll(k, looks[..|looks| - 1]), looks[|looks| - 1])
  }

  function Elements(s: seq<nat>): set<nat> {
    set x | x in s
  }

  function Union(looks: seq<seq<nat>>): set<nat> {
    if looks == [] then {} else Union(looks[..|looks| - 1]) + Elements(looks[|looks| - 1])
  }

  lemma {:induction false} DistinctSize(s: seq<nat>)
    requires Distinct(s)
    ensures |Elements(s)| == |s|
  {
    if s != [] {
      var init, last := s[..|s| - 1], s[|s| - 1];
      DistinctSize(init);
      assert Elements(s) == Elements(init) + {last};
      assert last !in init;
    }
  }

  lemma {:induction false} FewerThan(a: set<nat>, b: set<nat>)
    requires a <= b
    ensures |a| <= |b|
    decreases |a|
  {
    if a != {} {
      var x :| x in a;
      FewerThan(a - {x}, b - {x});
    }
  }

  lemma {:induction false} NewDistinct(done: seq<nat>, now: seq<nat>)
    requires Distinct(now)
    ensures Distinct(New(done, now))
  {
    if now != [] {
      var init := now[..|now| - 1];
      NewDistinct(done, init);
      assert now[|now| - 1] !in init;
    }
  }

  /** One look while the list is not full: the new ones are told and kept. */
  lemma ToldOnceStep(k: Notices, now: seq<nat>, all: set<nat>)
    requires Distinct(k.done) && Distinct(now) && |all| <= LIST_KEPT
    requires Elements(k.done) <= all && Elements(now) <= all
    ensures var t := TellOwed(k, now);
            && t.done == k.done + New(k.done, now) && t.told == k.told + New(k.done, now)
            && Distinct(t.done) && Elements(t.done) <= all
  {
    var news := New(k.done, now);
    NewDistinct(k.done, now);
    DistinctAppend(k.done, news);
    DistinctSize(k.done + news);
    assert Elements(k.done + news) <= all by {
      forall x | x in k.done + news ensures x in all {
        if x in k.done { assert x in Elements(k.done); } else { assert x in Elements(now); }
      }
    }
    FewerThan(Elements(k.done + news), all);
    assert news == [] ==> k.done + news == k.done;
  }

  /** While no more than 100 have ever come up, each is told once, the first time it does, and never again. */
  lemma {:induction false} ToldOnceWhileFew(known: seq<nat>, looks: seq<seq<nat>>, all: set<nat>)
    requires Distinct(known) && Elements(known) <= all && |all| <= LIST_KEPT
    requires forall l :: l in looks ==> Distinct(l) && Elements(l) <= all
    ensures var k := TellAll(Notices(known, []), looks);
            && k.done == known + k.told
            && Distinct(k.done) && Elements(k.done) <= all
            && forall x :: x in k.told <==> x in Union(looks) && x !in known
  {
    hide TellOwed, Distinct, New, Elements;
    if looks == [] {
      assert known + [] == known;
    } else {
      var init, now := looks[..|looks| - 1], looks[|looks| - 1];
      assert now in looks;
      assert forall l :: l in init ==> l in looks;
      ToldOnceWhileFew(known, init, all);
      var k := TellAll(Notices(known, []), init);
      ToldOnceStep(k, now, all);
      assert k.done + New(k.done, now) == known + (k.told + New(k.done, now));
      InUnion(looks);
    }
  }

  lemma InUnion(looks: seq<seq<nat>>)
    requires looks != []
    ensures forall x :: x in Union(looks) <==> x in Union(looks[..|looks| - 1]) || x in looks[|looks| - 1]
  {
  }

  /** It stands at i and nowhere else. */
  predicate OnlyAt(s: seq<nat>, x: nat, i: nat) {
    i < |s| && s[i] == x && forall j :: 0 <= j < |s| && j != i ==> s[j] != x
  }

  /** The id is kept, with that many told after it. */
  predicate KeptBehind(done: seq<nat>, x: nat, newer: nat) {
    newer < |done| <= LIST_KEPT && OnlyAt(done, x, |done| - 1 - newer)
  }

  lemma OnlyThere(a: seq<nat>, b: seq<nat>, x: nat, i: nat)
    requires OnlyAt(a, x, i) && x !in b
    ensures OnlyAt(a + b, x, i)
  {
    forall j | 0 <= j < |a + b| && j != i ensures (a + b)[j] != x {
      if j >= |a| { assert (a + b)[j] in b; }
    }
  }

  lemma OnlyOnce(s: seq<nat>, i: nat)
    requires Distinct(s) && i < |s|
    ensures OnlyAt(s, s[i], i)
  {
  }

  /** The cut keeps it exactly when fewer than a hundred stand behind it. */
  lemma CutKeeps(s: seq<nat>, x: nat, i: nat)
    requires OnlyAt(s, x, i)
    ensures x in LastKept(s) <==> |s| - i <= LIST_KEPT
    ensures |s| - i <= LIST_KEPT ==> KeptBehind(LastKept(s), x, |s| - 1 - i)
  {
    var t := LastKept(s);
    var shift := |s| - |t|;
    assert forall j :: 0 <= j < |t| ==> t[j] == s[shift + j];
    if |s| - i <= LIST_KEPT { assert t[i - shift] == x; }
  }

  /** One look more: the id moves back by what is told, and off the list at the hundredth. */
  lemma KeptNext(k: Notices, x: nat, newer: nat, now: seq<nat>)
    requires KeptBehind(k.done, x, newer)
    ensures var t, m := TellOwed(k, now), |New(k.done, now)|;
            && t.told == k.told + New(k.done, now) && x !in New(k.done, now)
            && (newer + m < LIST_KEPT ==> KeptBehind(t.done, x, newer + m))
            && (x in t.done <==> newer + m < LIST_KEPT)
  {
    hide OnlyAt, New, LastKept;
    var news, i := New(k.done, now), |k.done| - 1 - newer;
    StandsIn(k.done, x, i);
    OnlyThere(k.done, news, x, i);
    CutKeeps(k.done + news, x, i);
  }

  lemma StandsIn(s: seq<nat>, x: nat, i: nat)
    requires OnlyAt(s, x, i)
    ensures x in s
  {
  }

  /** An id just told is behind those told after it at that look. */
  lemma ToldIsKept(k: Notices, now: seq<nat>, i: nat)
    requires Distinct(k.done) && |k.done| <= LIST_KEPT && Distinct(now)
    requires i < |New(k.done, now)| && |New(k.done, now)| - i <= LIST_KEPT
    ensures KeptBehind(TellOwed(k, now).done, New(k.done, now)[i], |New(k.done, now)| - 1 - i)
  {
    hide OnlyAt, New, LastKept, Distinct;
    var news := New(k.done, now);
    NewDistinct(k.done, now);
    DistinctAppend(k.done, news);
    OnlyOnce(k.done + news, |k.done| + i);
    CutKeeps(k.done + news, news[i], |k.done| + i);
  }

  lemma {:induction false} KeptWhile(k: Notices, x: nat, newer: nat, looks: seq<seq<nat>>)
    requires KeptBehind(k.done, x, newer)
    requires newer + |TellAll(k, looks).told| - |k.told| < LIST_KEPT
    ensures |k.told| <= |TellAll(k, looks).told|
    ensures KeptBehind(TellAll(k, looks).done, x, newer + |TellAll(k, looks).told| - |k.told|)
    ensures x !in TellAll(k, looks).told[|k.told|..]
  {
    hide KeptBehind, TellOwed, New;
    if looks != [] {
      var init, now := looks[..|looks| - 1], looks[|looks| - 1];
      var was := TellAll(k, init);
      ToldGrows(was, now);
      ToldGrowsOver(k, init);
      KeptWhile(k, x, newer, init);
      KeptNext(was, x, newer + |was.told| - |k.told|, now);
      assert TellAll(k, looks).told[|k.told|..] == was.told[|k.told|..] + New(was.done, now);
    }
  }

  lemma ToldGrows(k: Notices, now: seq<nat>)
    ensures k.told <= TellOwed(k, now).told
  {
  }

  lemma {:induction false} ToldGrowsOver(k: Notices, looks: seq<seq<nat>>)
    ensures |k.told| <= |TellAll(k, looks).told|
  {
    hide TellOwed;
    if looks != [] {
      ToldGrowsOver(k, looks[..|looks| - 1]);
      ToldGrows(TellAll(k, looks[..|looks| - 1]), looks[|looks| - 1]);
    }
  }

  /** An id once told stays silent while fewer than 100 new ones have been told since, whatever comes up and how often;
      and the look that brings the hundredth forgets it: the next look that has it tells it again, and no other does. */
  lemma SilentUntilForgotten(k: Notices, x: nat, newer: nat, looks: seq<seq<nat>>, next: seq<nat>, again: seq<nat>)
    requires KeptBehind(k.done, x, newer) && x in again
    requires newer + |TellAll(k, looks).told| - |k.told| < LIST_KEPT
    ensures var t := TellAll(k, looks + [next]);
            && |k.told| <= |t.told| && x !in t.told[|k.told|..]
            && (x in New(t.done, again) <==> newer + |t.told| - |k.told| >= LIST_KEPT)
  {
    hide KeptBehind, TellOwed, New;
    assert (looks + [next])[..|looks|] == looks;
    var was := TellAll(k, looks);
    KeptWhile(k, x, newer, looks);
    KeptNext(was, x, newer + |was.told| - |k.told|, next);
    assert TellAll(k, looks + [next]).told[|k.told|..] == was.told[|k.told|..] + New(was.done, next);
  }

  /** More than 100 at once: whatever is kept, some one of them is told again, at every look. */
  lemma ToldAgainWhenMany(k: Notices, now: seq<nat>)
    requires Distinct(now) && |now| > LIST_KEPT && |k.done| <= LIST_KEPT
    ensures |TellOwed(k, now).told| > |k.told| && |TellOwed(k, now).done| <= LIST_KEPT
  {
    var news := New(k.done, now);
    if news == [] {
      DistinctSize(now);
      ElementsAtMost(k.done);
      FewerThan(Elements(now), Elements(k.done));
      assert false;
    }
  }

  lemma {:induction false} ElementsAtMost(s: seq<nat>)
    ensures |Elements(s)| <= |s|
  {
    if s != [] {
      var init := s[..|s| - 1];
      ElementsAtMost(init);
      assert Elements(s) == Elements(init) + {s[|s| - 1]};
    }
  }

  function EndedAll(k: Notices, looks: seq<seq<nat>>): Notices {
    if looks == [] then k else TellEnded(EndedAll(k, looks[..|looks| - 1]), looks[|looks| - 1])
  }

  lemma KeptDistinct(k: Notices, now: seq<nat>)
    requires Distinct(k.done) && Distinct(now)
    ensures Distinct(TellOwed(k, now).done)
  {
    NewDistinct(k.done, now);
    DistinctAppend(k.done, New(k.done, now));
  }

  /** Over any run of looks, the ended budgets are kept and told as the owed receipts are. */
  lemma {:induction false} EndedRunIsOwedRun(k: Notices, looks: seq<seq<nat>>)
    requires Distinct(k.done) && forall l :: l in looks ==> Distinct(l)
    ensures EndedAll(k, looks) == TellAll(k, looks) && Distinct(TellAll(k, looks).done)
  {
    hide TellOwed, TellEnded;
    if looks != [] {
      var init, now := looks[..|looks| - 1], looks[|looks| - 1];
      assert now in looks;
      assert forall l :: l in init ==> l in looks;
      EndedRunIsOwedRun(k, init);
      EndedIsOwed(TellAll(k, init), now);
      KeptDistinct(TellAll(k, init), now);
    }
  }

  function Repeated(now: seq<nat>, n: nat): seq<seq<nat>> {
    if n == 0 then [] else Repeated(now, n - 1) + [now]
  }

  /** The same of an ended budget. */
  lemma EndedSilentUntilForgotten(k: Notices, x: nat, newer: nat, looks: seq<seq<nat>>, next: seq<nat>, again: seq<nat>)
    requires KeptBehind(k.done, x, newer) && x in again && Distinct(k.done)
    requires forall l :: l in looks + [next] ==> Distinct(l)
    requires newer + |EndedAll(k, looks).told| - |k.told| < LIST_KEPT
    ensures var t := EndedAll(k, looks + [next]);
            && |k.told| <= |t.told| && x !in t.told[|k.told|..]
            && (x in New(t.done, again) <==> newer + |t.told| - |k.told| >= LIST_KEPT)
  {
    hide KeptBehind, EndedAll, TellAll, New, TellOwed;
    assert forall l :: l in looks ==> l in looks + [next];
    EndedRunIsOwedRun(k, looks);
    EndedRunIsOwedRun(k, looks + [next]);
    SilentUntilForgotten(k, x, newer, looks, next, again);
  }

  /** Budgets that have ended and stay listed, after the first look: every later look is silent exactly when they are at
      most 100; with more, each later look tells some again, for good. */
  lemma EndedStaysQuietIff(ended: seq<nat>, n: nat)
    requires Distinct(ended)
    ensures var k := EndedAll(FirstEnded(ended), Repeated(ended, n));
            && (|ended| <= LIST_KEPT ==> k.told == [])
            && (|ended| > LIST_KEPT ==> |k.told| >= n)
  {
    FirstEndedKeeps(ended);
    AllTheSame(ended, n);
    EndedRunIsOwedRun(FirstEnded(ended), Repeated(ended, n));
    OwedStaysQuietIff(ended, n);
  }

  lemma {:induction false} AllTheSame(now: seq<nat>, n: nat)
    ensures forall l :: l in Repeated(now, n) ==> l == now
  {
    if n > 0 { AllTheSame(now, n - 1); }
  }

  lemma {:induction false} OwedStaysQuietIff(ended: seq<nat>, n: nat)
    requires Distinct(ended)
    ensures var k := TellAll(FirstEnded(ended), Repeated(ended, n));
            && |k.done| <= LIST_KEPT
            && (|ended| <= LIST_KEPT ==> k.told == [] && k.done == ended)
            && (|ended| > LIST_KEPT ==> |k.told| >= n)
  {
    hide TellOwed, Distinct, FirstEnded, New, LastKept, TellAll, Repeated;
    if n == 0 {
      FirstEndedKeeps(ended);
      NothingMore(FirstEnded(ended), ended);
    } else {
      OwedStaysQuietIff(ended, n - 1);
      OneLookMore(FirstEnded(ended), ended, n - 1);
      var was := TellAll(FirstEnded(ended), Repeated(ended, n - 1));
      if |ended| <= LIST_KEPT { ToldNothing(was, ended); } else { ToldAgainWhenMany(was, ended); }
    }
  }

  lemma NothingMore(k: Notices, now: seq<nat>)
    ensures TellAll(k, Repeated(now, 0)) == k
  {
  }

  lemma OneLookMore(k: Notices, now: seq<nat>, n: nat)
    ensures TellAll(k, Repeated(now, n + 1)) == TellOwed(TellAll(k, Repeated(now, n)), now)
  {
    assert Repeated(now, n + 1)[..|Repeated(now, n)|] == Repeated(now, n);
  }

  lemma FirstEndedKeeps(ended: seq<nat>)
    requires Distinct(ended)
    ensures FirstEnded(ended) == Notices(LastKept(ended), [])
    ensures Distinct(LastKept(ended)) && |LastKept(ended)| <= LIST_KEPT && (|ended| <= LIST_KEPT ==> LastKept(ended) == ended)
  {
    OnceAppends(ended, ended);
    NoneNew(ended, ended);
    assert ended + [] == ended;
  }

  lemma ToldNothing(k: Notices, now: seq<nat>)
    requires k.done == now
    ensures TellOwed(k, now) == k
  {
    NoneNew(now, now);
    assert k.told + [] == k.told;
  }

  lemma {:induction false} NoneNew(done: seq<nat>, now: seq<nat>)
    requires forall x :: x in now ==> x in done
    ensures New(done, now) == []
  {
    if now != [] { NoneNew(done, now[..|now| - 1]); }
  }

  // ---------------------------------------------------------------- the stored counters and lists

  /** Uses waiting over ten minutes for their receipt. */
  function OwedNow(rows: seq<Row>, now: nat): seq<nat> {
    if rows == [] then []
    else
      var r := rows[|rows| - 1];
      OwedNow(rows[..|rows| - 1], now)
      + if r.pairing.Some? && r.pairing.value.status.Waiting? && r.seenAt != 0 && now as int - r.seenAt > OWED_RED_MS
        then [r.no] else []
  }

  /** A use that has waited over ten minutes for its receipt, since this phone saw it. */
  predicate OwedTooLong(r: Row, now: nat) {
    r.pairing.Some? && r.pairing.value.status.Waiting? && r.seenAt > 0 && now > r.seenAt + 600000
  }

  predicate OwedIn(rows: seq<Row>, x: nat, now: nat) {
    exists r :: r in rows && r.no == x && OwedTooLong(r, now)
  }

  lemma OwedInLast(rows: seq<Row>, x: nat, now: nat)
    requires rows != []
    ensures var last := rows[|rows| - 1];
            OwedIn(rows, x, now) <==> OwedIn(rows[..|rows| - 1], x, now) || (last.no == x && OwedTooLong(last, now))
  {
    var init, last := rows[..|rows| - 1], rows[|rows| - 1];
    assert rows == init + [last];
    assert forall r :: r in rows <==> r in init || r == last;
  }

  lemma {:induction false} OwedExactly(rows: seq<Row>, now: nat, x: nat)
    ensures x in OwedNow(rows, now) <==> OwedIn(rows, x, now)
  {
    hide OwedIn;
    if rows == [] {
      NoneOwed(x, now);
    } else {
      OwedExactly(rows[..|rows| - 1], now, x);
      OwedInLast(rows, x, now);
    }
  }

  lemma NoneOwed(x: nat, now: nat)
    ensures !OwedIn([], x, now)
  {
  }

  /** Exactly the uses owed too long are looked at, each once. */
  lemma {:induction false} OwedMeans(rows: seq<Row>, now: nat)
    requires WellFormed(rows)
    ensures forall x :: x in OwedNow(rows, now) <==> OwedIn(rows, x, now)
    ensures Distinct(OwedNow(rows, now))
  {
    forall x: nat ensures x in OwedNow(rows, now) <==> OwedIn(rows, x, now) { OwedExactly(rows, now, x); }
    if rows != [] {
      var init, last := rows[..|rows| - 1], rows[|rows| - 1];
      InitWellFormed(rows);
      OwedMeans(init, now);
      NotOwedTwice(rows, now);
      DistinctAppend(OwedNow(init, now), if OwedTooLong(last, now) then [last.no] else []);
    }
  }

  lemma InitWellFormed(rows: seq<Row>)
    requires WellFormed(rows) && rows != []
    ensures WellFormed(rows[..|rows| - 1])
  {
    assert forall r :: r in rows[..|rows| - 1] ==> r in rows;
  }

  lemma NotOwedTwice(rows: seq<Row>, now: nat)
    requires WellFormed(rows) && rows != []
    ensures rows[|rows| - 1].no !in OwedNow(rows[..|rows| - 1], now)
  {
    var init, last := rows[..|rows| - 1], rows[|rows| - 1];
    OwedExactly(init, now, last.no);
    forall r | r in init ensures r.no != last.no {
      var i :| 0 <= i < |init| && init[i] == r;
      assert rows[i].no > last.no;
    }
  }

  class AlertDesk {
    const isAlarm: byte -> bool
    var newest: Option<nat>
    var posts: seq<Post>
    var lastRefused: nat
    var rises: seq<nat>
    var owedDone: seq<nat>
    var owedTold: seq<nat>
    var endedDone: Option<seq<nat>>
    var endedTold: seq<nat>

    constructor (isAlarm: byte -> bool)
      ensures this.isAlarm == isAlarm && newest.None? && posts == [] && lastRefused == 0 && rises == []
      ensures owedDone == [] && owedTold == [] && endedDone.None? && endedTold == []
    {
      this.isAlarm := isAlarm;
      newest, posts, lastRefused, rises := None, [], 0, [];
      owedDone, owedTold, endedDone, endedTold := [], [], None, [];
    }

    /** Oldest first: the rows walked backwards. */
    method AlarmsAfter(rows: seq<Row>, after: nat) returns (out: seq<Post>)
      ensures out == Alarms(isAlarm, rows, after)
    {
      out := [];
      var i := |rows|;
      assert rows[i..] == [];
      while i > 0
        invariant 0 <= i <= |rows|
        invariant out == Alarms(isAlarm, rows[i..], after)
      {
        i := i - 1;
        var r := rows[i];
        assert rows[i..][1..] == rows[i + 1..];
        if r.pairing.Some? && r.pairing.value.status.Alarm? && r.pairing.value.receipt.Some?
           && r.pairing.value.receipt.value > after {
          out := out + [Post(r.no, r.pairing.value.receipt.value)];
        }
        var isSettle := r.own.Some? && r.own.value.code == SETTLE && r.own.value.pressed;
        if r.own.Some? && !isSettle && r.no > after && r.pairing.None? && isAlarm(r.own.value.code) {
          out := out + [Post(r.no, r.no)];
        }
      }
      assert rows[0..] == rows;
    }

    method RaiseAlarms(rows: seq<Row>)
      modifies this`newest, this`posts
      ensures Looked(newest, posts) == Raise(isAlarm, old(Looked(newest, posts)), rows)
    {
      if rows == [] { return; }
      if newest.None? {
        newest := Some(rows[0].no);
        return;
      }
      if rows[0].no <= newest.value { return; }
      var out := AlarmsAfter(rows, newest.value);
      posts := posts + out;
      newest := Some(rows[0].no);
    }

    method RaiseWatchAlarms(rows: seq<Row>, refused: nat, ended: seq<nat>, now: nat)
      modifies this`lastRefused, this`rises, this`owedDone, this`owedTold, this`endedDone, this`endedTold
      ensures Refusals(lastRefused, rises) == CountRefused(old(Refusals(lastRefused, rises)), refused)
      ensures Notices(owedDone, owedTold) == TellOwed(old(Notices(owedDone, owedTold)), OwedNow(rows, now))
      ensures EndedAfter(old(endedDone), old(endedTold), ended)
    {
      hide TellOwed, EndedAfter, OwedNow, CountRefused;
      WatchRefused(refused);
      WatchOwed(OwedNow(rows, now));
      WatchEnded(ended);
    }

    method WatchRefused(refused: nat)
      modifies this`lastRefused, this`rises
      ensures Refusals(lastRefused, rises) == CountRefused(old(Refusals(lastRefused, rises)), refused)
    {
      if refused > lastRefused { rises := rises + [refused - lastRefused]; }
      if refused != lastRefused { lastRefused := refused; }
    }

    ghost predicate EndedAfter(doneWas: Option<seq<nat>>, toldWas: seq<nat>, ended: seq<nat>)
      reads this
    {
      && endedDone.Some?
      && Notices(endedDone.value, endedTold) ==
         if doneWas.None? then FirstEnded(ended).(told := toldWas) else TellEnded(Notices(doneWas.value, toldWas), ended)
    }

    method WatchOwed(owed: seq<nat>)
      modifies this`owedDone, this`owedTold
      ensures Notices(owedDone, owedTold) == TellOwed(old(Notices(owedDone, owedTold)), owed)
    {
      var news := NotDone(owedDone, owed);
      owedTold := owedTold + news;
      if news != [] { owedDone := LastKept(owedDone + news); }
    }

    method WatchEnded(ended: seq<nat>)
      modifies this`endedDone, this`endedTold
      ensures EndedAfter(old(endedDone), old(endedTold), ended)
    {
      var first := endedDone.None?;
      var done := if first then ended else endedDone.value;
      var news := NotDone(done, ended);
      if first { NoneNew(ended, ended); }
      endedTold := endedTold + news;
      if first || news != [] { endedDone := Some(LastKept(Once(done + ended))); }
    }

    static method NotDone(done: seq<nat>, now: seq<nat>) returns (news: seq<nat>)
      ensures news == New(done, now)
    {
      news := [];
      for i := 0 to |now|
        invariant news == New(done, now[..i])
      {
        assert now[..i + 1][..i] == now[..i];
        if now[i] !in done { news := news + [now[i]]; }
      }
      assert now[..|now|] == now;
    }
  }
}
