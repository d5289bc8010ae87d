/** The DER reader of the keychain suite, against an encoder written from sections
    8.1.2, 8.1.3 and 10.1 of X.690.  A byte read past the end is `undefined` in the
    source and makes the length NaN; both are `None` here. */
module Der {
  import opened Basics

  datatype Node = Node(tag: Option<byte>, start: nat, end: Option<nat>)

  // ---------------------------------------------------------------- the reader

  function ByteAt(der: seq<byte>, i: nat): Option<byte> {
    if i < |der| then Some(der[i]) else None
  }

  /** The number the n bytes from `start` write. */
  function LengthAt(der: seq<byte>, start: nat, n: nat): nat
    requires start + n <= |der|
  {
    if n == 0 then 0 else LengthAt(der, start, n - 1) * 256 + der[start + n - 1]
  }

  lemma {:induction false} LengthAtIsBigEndian(der: seq<byte>, start: nat, n: nat)
    requires start + n <= |der|
    ensures LengthAt(der, start, n) == BigEndian(der[start..start + n])
  {
    if n > 0 {
      LengthAtIsBigEndian(der, start, n - 1);
      assert der[start..start + n][..n - 1] == der[start..start + n - 1];
    }
  }

  function TlvAt(der: seq<byte>, at: nat): (node: Node)
    ensures node.end.Some? ==> at + 2 <= node.start <= node.end.value
  {
    match ByteAt(der, at + 1)
    case None => Node(ByteAt(der, at), at + 2, None)
    case Some(b) =>
      if b < 128 then Node(ByteAt(der, at), at + 2, Some(at + 2 + b))
      else
        var start := at + 2 + (b - 128);
        Node(ByteAt(der, at), start,
             if start <= |der| then Some(start + LengthAt(der, at + 2, b - 128)) else None)
  }

  method Tlv(der: seq<byte>, at: nat) returns (node: Node)
    ensures node == TlvAt(der, at)
  {
    var tag := ByteAt(der, at);
    var first := ByteAt(der, at + 1);
    var start := at + 2;
    var len: Option<nat> := if first.None? then None else Some(first.value);
    if first.Some? && first.value >= 128 {
      var n := first.value - 128;
      len := Some(0);
      for i := 0 to n
        invariant len == if start + i <= |der| then Some(LengthAt(der, start, i)) else None
      {
        var b := ByteAt(der, start + i);
        len := if len.Some? && b.Some? then Some(len.value * 256 + b.value) else None;
      }
      start := start + n;
    }
    node := Node(tag, start, if len.Some? then Some(start + len.value) else None);
  }

  /** The children read one after another from `at` until `end` is reached. */
  function ChildrenFrom(der: seq<byte>, at: nat, end: nat): seq<Node>
    decreases end - at
  {
    if at < end then
      var c := TlvAt(der, at);
      [c] + if c.end.Some? then ChildrenFrom(der, c.end.value, end) else []
    else []
  }

  function ChildrenOf(der: seq<byte>, node: Node): seq<Node> {
    if node.end.Some? then ChildrenFrom(der, node.start, node.end.value) else []
  }

  /** The loop ends on every input: each child read moves at least two bytes on, or ends it. */
  method Children(der: seq<byte>, node: Node) returns (out: seq<Node>)
    ensures out == ChildrenOf(der, node)
  {
    out := [];
    var at := Some(node.start);
    while at.Some? && node.end.Some? && at.value < node.end.value
      invariant ChildrenOf(der, node)
             == out + if at.Some? && node.end.Some? then ChildrenFrom(der, at.value, node.end.value) else []
      decreases if at.Some? && node.end.Some? then node.end.value - at.value else -1
    {
      var c := Tlv(der, at.value);
      out := out + [c];
      at := c.end;
    }
  }

  // ---------------------------------------------------------------- the encoder

  /** A definite-length value: `octets` is 0 for the short form, else how many octets the length takes. */
  datatype Tree =
    | Leaf(tag: byte, octets: nat, value: seq<byte>)
    | Branch(tag: byte, octets: nat, kids: seq<Tree>)

  function ToOctets(n: nat, k: nat): (s: seq<byte>)
    ensures |s| == k
  {
    if k == 0 then [] else ToOctets(n / 256, k - 1) + [n % 256]
  }

  function Power256(k: nat): nat {
    if k == 0 then 1 else 256 * Power256(k - 1)
  }

  function LengthOctets(n: nat, octets: nat): (s: seq<byte>)
    ensures |s| == 1 + octets
  {
    if octets == 0 then [if n < 128 then n else 127]
    else [if octets < 128 then 128 + octets else 255] + ToOctets(n, octets)
  }

  predicate Fits(n: nat, octets: nat) {
    if octets == 0 then n < 128 else octets < 128 && n < Power256(octets)
  }

  function Content(t: Tree): seq<byte>
    decreases t, 0
  {
    match t
    case Leaf(_, _, value) => value
    case Branch(_, _, kids) => EncodeAll(kids)
  }

  function Encode(t: Tree): (s: seq<byte>)
    ensures |s| == 2 + t.octets + |Content(t)|
    decreases t, 1
  {
    [t.tag] + LengthOctets(|Content(t)|, t.octets) + Content(t)
  }

  function EncodeAll(ts: seq<Tree>): seq<byte>
    decreases ts, 0
  {
    if ts == [] then [] else Encode(ts[0]) + EncodeAll(ts[1..])
  }

  /** Every length fits the form chosen for it, at every depth. */
  predicate WellFormed(t: Tree)
    decreases t, 0
  {
    Fits(|Content(t)|, t.octets) && (t.Branch? ==> AllWellFormed(t.kids))
  }

  predicate AllWellFormed(ts: seq<Tree>)
    decreases ts, 0
  {
    ts != [] ==> WellFormed(ts[0]) && AllWellFormed(ts[1..])
  }

  lemma {:induction false} OctetsRoundTrip(n: nat, k: nat)
    requires n < Power256(k)
    ensures BigEndian(ToOctets(n, k)) == n
  {
    if k > 0 {
      OctetsRoundTrip(n / 256, k - 1);
      var s := ToOctets(n, k);
      assert s[..|s| - 1] == ToOctets(n / 256, k - 1);
    }
  }

  // ---------------------------------------------------------------- reading inverts encoding

  /** The encoding of t stands in der at `at`. */
  predicate StandsAt(der: seq<byte>, at: nat, s: seq<byte>) {
    at <= |der| && s <= der[at..]
  }

  lemma {:induction false} StandsSplit(der: seq<byte>, at: nat, s: seq<byte>, t: seq<byte>)
    requires StandsAt(der, at, s + t)
    ensures StandsAt(der, at, s) && StandsAt(der, at + |s|, t)
  {
    assert der[at + |s|..] == der[at..][|s|..];
    assert der[at..][..|s| + |t|] == s + t;
    assert der[at..][..|s|] == (s + t)[..|s|] == s;
    assert der[at..][|s|..][..|t|] == (s + t)[|s|..] == t;
  }

  lemma {:induction false} StandsSlice(der: seq<byte>, at: nat, s: seq<byte>)
    requires StandsAt(der, at, s)
    ensures at + |s| <= |der| && der[at..at + |s|] == s
    ensures forall i :: 0 <= i < |s| ==> der[at + i] == s[i]
  {
    assert der[at..at + |s|] == der[at..][..|s|];
    forall i | 0 <= i < |s| ensures der[at + i] == s[i] { assert der[at + i] == der[at..][i]; }
  }

  lemma {:induction false} HeadStands(der: seq<byte>, at: nat, tag: byte, b: byte, s: seq<byte>)
    requires StandsAt(der, at, [tag] + ([b] + s))
    ensures at + 2 + |s| <= |der| && der[at] == tag && der[at + 1] == b && der[at + 2..at + 2 + |s|] == s
  {
    var h := [tag] + ([b] + s);
    StandsSlice(der, at, h);
    assert der[at] == h[0] && der[at + 1] == h[1] && h[2..] == s;
    assert der[at + 2..at + 2 + |s|] == der[at..at + |h|][2..];
  }

  lemma LongHeader(der: seq<byte>, at: nat, n: nat, k: nat)
    requires 0 < k < 128 && at + 2 + k <= |der| && der[at + 1] == 128 + k && der[at + 2..at + 2 + k] == ToOctets(n, k)
    requires n < Power256(k)
    ensures TlvAt(der, at) == Node(Some(der[at]), at + 2 + k, Some(at + 2 + k + n))
  {
    OctetsRoundTrip(n, k);
    LengthAtIsBigEndian(der, at + 2, k);
  }

  lemma LengthRoundTrip(der: seq<byte>, at: nat, tag: byte, n: nat, k: nat)
    requires StandsAt(der, at, [tag] + LengthOctets(n, k)) && Fits(n, k)
    ensures TlvAt(der, at) == Node(Some(tag), at + 2 + k, Some(at + 2 + k + n))
  {
    if k == 0 {
      assert [n] + [] == LengthOctets(n, 0);
      HeadStands(der, at, tag, n, []);
    } else {
      HeadStands(der, at, tag, 128 + k, ToOctets(n, k));
      LongHeader(der, at, n, k);
    }
  }

  /** One header is read back: the tag, and the exact range of the value. */
  lemma {:induction false} HeaderRoundTrip(der: seq<byte>, at: nat, t: Tree)
    requires StandsAt(der, at, Encode(t)) && Fits(|Content(t)|, t.octets)
    ensures TlvAt(der, at) == Node(Some(t.tag), at + 2 + t.octets, Some(at + |Encode(t)|))
    ensures StandsAt(der, at + 2 + t.octets, Content(t))
  {
    var c := Content(t);
    StandsSplit(der, at, [t.tag] + LengthOctets(|c|, t.octets), c);
    LengthRoundTrip(der, at, t.tag, |c|, t.octets);
  }

  /** The node read is t: its tag, its value's exact range and bytes, and, inside a branch, its children in turn. */
  predicate Reads(der: seq<byte>, node: Node, t: Tree)
    decreases t, 0
  {
    && node.tag == Some(t.tag)
    && node.end == Some(node.start + |Content(t)|)
    && StandsAt(der, node.start, Content(t))
    && (t.Branch? ==> ReadsForest(der, node.start, node.end.value, t.kids))
  }

  /** Values read one after another tile the range from `at` to `end` and are the trees in order. */
  predicate ReadsForest(der: seq<byte>, at: nat, end: nat, ts: seq<Tree>)
    decreases ts, 0
  {
    if ts == [] then at == end
    else Reads(der, TlvAt(der, at), ts[0]) && ReadsForest(der, TlvAt(der, at).end.value, end, ts[1..])
  }

  lemma {:induction false} BranchStands(der: seq<byte>, at: nat, t: Tree)
    requires StandsAt(der, at, Encode(t)) && WellFormed(t) && t.Branch?
    ensures AllWellFormed(t.kids) && StandsAt(der, at + 2 + t.octets, EncodeAll(t.kids))
    ensures TlvAt(der, at) == Node(Some(t.tag), at + 2 + t.octets, Some(at + 2 + t.octets + |EncodeAll(t.kids)|))
  {
    HeaderRoundTrip(der, at, t);
  }

  lemma {:induction false} LeafReads(der: seq<byte>, at: nat, t: Tree)
    requires StandsAt(der, at, Encode(t)) && WellFormed(t) && t.Leaf?
    ensures Reads(der, TlvAt(der, at), t)
  {
    HeaderRoundTrip(der, at, t);
  }

  lemma {:induction false} BranchReads(der: seq<byte>, node: Node, t: Tree)
    requires t.Branch? && node.tag == Some(t.tag) && node.end == Some(node.start + |EncodeAll(t.kids)|)
    requires StandsAt(der, node.start, EncodeAll(t.kids)) && ReadsForest(der, node.start, node.end.value, t.kids)
    ensures Reads(der, node, t)
  {
  }

  lemma {:induction false} ForestCons(der: seq<byte>, at: nat, mid: nat, end: nat, ts: seq<Tree>)
    requires ts != [] && Reads(der, TlvAt(der, at), ts[0]) && TlvAt(der, at).end == Some(mid)
    requires ReadsForest(der, mid, end, ts[1..])
    ensures ReadsForest(der, at, end, ts)
  {
  }

  /** Reading inverts encoding, at every depth, wherever the encoding stands. */
  lemma {:induction false} TreeRoundTrip(der: seq<byte>, at: nat, t: Tree)
    requires StandsAt(der, at, Encode(t)) && WellFormed(t)
    ensures Reads(der, TlvAt(der, at), t)
    decreases t, 0
  {
    hide *;
    if t.Leaf? {
      LeafReads(der, at, t);
    } else {
      BranchStands(der, at, t);
      ForestRoundTrip(der, at + 2 + t.octets, t.kids);
      BranchReads(der, TlvAt(der, at), t);
    }
  }

  lemma {:induction false} ForestRoundTrip(der: seq<byte>, at: nat, ts: seq<Tree>)
    requires StandsAt(der, at, EncodeAll(ts)) && AllWellFormed(ts)
    ensures ReadsForest(der, at, at + |EncodeAll(ts)|, ts)
    decreases ts, 0
  {
    hide TlvAt, Encode;
    if ts != [] {
      var mid := at + |Encode(ts[0])|;
      StandsSplit(der, at, Encode(ts[0]), EncodeAll(ts[1..]));
      HeaderRoundTrip(der, at, ts[0]);
      TreeRoundTrip(der, at, ts[0]);
      ForestRoundTrip(der, mid, ts[1..]);
      ForestCons(der, at, mid, mid + |EncodeAll(ts[1..])|, ts);
    }
  }

  /** What `children` returns for a range the trees tile: one node per tree, each reading its own. */
  lemma {:induction false} ChildrenRead(der: seq<byte>, at: nat, end: nat, ts: seq<Tree>, i: nat)
    requires ReadsForest(der, at, end, ts) && i < |ts|
    ensures |ChildrenFrom(der, at, end)| == |ts| && Reads(der, ChildrenFrom(der, at, end)[i], ts[i])
    decreases ts
  {
    var c := TlvAt(der, at);
    ForestAdvances(der, c.end.value, end, ts[1..]);
    if |ts| > 1 { ChildrenRead(der, c.end.value, end, ts[1..], if i > 0 then i - 1 else 0); }
  }

  lemma {:induction false} ForestAdvances(der: seq<byte>, at: nat, end: nat, ts: seq<Tree>)
    requires ReadsForest(der, at, end, ts)
    ensures if ts == [] then at == end else at < end
    decreases ts
  {
    if ts != [] { ForestAdvances(der, TlvAt(der, at).end.value, end, ts[1..]); }
  }

  /** The same branching, whatever the tags, values and length forms. */
  predicate SameShape(t: Tree, u: Tree)
    decreases t, 0
  {
    match (t, u)
    case (Leaf(_, _, _), Leaf(_, _, _)) => true
    case (Branch(_, _, ks), Branch(_, _, ls)) => SameShapes(ks, ls)
    case _ => false
  }

  predicate SameShapes(ts: seq<Tree>, us: seq<Tree>)
    decreases ts, 0
  {
    if ts == [] then us == [] else us != [] && SameShape(ts[0], us[0]) && SameShapes(ts[1..], us[1..])
  }

  lemma {:induction false} OctetsFromHeader(t: Tree, u: Tree)
    requires Fits(|Content(t)|, t.octets) && Fits(|Content(u)|, u.octets)
    requires |Encode(t)| > 1 && |Encode(u)| > 1 && Encode(t)[1] == Encode(u)[1]
    ensures t.octets == u.octets
  {
    assert Encode(t)[1] == LengthOctets(|Content(t)|, t.octets)[0];
    assert Encode(u)[1] == LengthOctets(|Content(u)|, u.octets)[0];
  }

  /** No encoding is the beginning of another's bytes read differently: the bytes fix the tree. */
  lemma {:induction false} EncodingDetermines(der: seq<byte>, at: nat, t: Tree, u: Tree)
    requires WellFormed(t) && WellFormed(u) && SameShape(t, u)
    requires StandsAt(der, at, Encode(t)) && StandsAt(der, at, Encode(u))
    ensures t == u
    decreases t, 0
  {
    HeaderRoundTrip(der, at, t);
    HeaderRoundTrip(der, at, u);
    StandsSlice(der, at, Encode(t));
    StandsSlice(der, at, Encode(u));
    assert der[at + 1] == Encode(t)[1] == Encode(u)[1];
    OctetsFromHeader(t, u);
    if t.Branch? { EncodingsDetermine(der, at + 2 + t.octets, t.kids, u.kids); }
  }

  lemma {:induction false} EncodingsDetermine(der: seq<byte>, at: nat, ts: seq<Tree>, us: seq<Tree>)
    requires AllWellFormed(ts) && AllWellFormed(us) && SameShapes(ts, us)
    requires StandsAt(der, at, EncodeAll(ts)) && StandsAt(der, at, EncodeAll(us))
    ensures ts == us
    decreases ts, 0
  {
    if ts != [] {
      StandsSplit(der, at, Encode(ts[0]), EncodeAll(ts[1..]));
      StandsSplit(der, at, Encode(us[0]), EncodeAll(us[1..]));
      EncodingDetermines(der, at, ts[0], us[0]);
      EncodingsDetermine(der, at + |Encode(ts[0])|, ts[1..], us[1..]);
      assert ts == [ts[0]] + ts[1..] && us == [us[0]] + us[1..];
    }
  }

  // ---------------------------------------------------------------- the two structures the suite opens

  function Slice(der: seq<byte>, node: Node): seq<byte>
    requires node.end.Some?
  {
    var lo := if node.start <= |der| then node.start else |der|;
    var hi := if node.end.value <= |der| then node.end.value else |der|;
    if lo <= hi then der[lo..hi] else []
  }

  /** The i-th child of a node that reads a branch reads that branch's i-th child. */
  lemma {:induction false} ChildReads(der: seq<byte>, node: Node, t: Tree, i: nat)
    requires Reads(der, node, t) && t.Branch? && i < |t.kids|
    ensures var cs := ChildrenOf(der, node);
            |cs| == |t.kids| && Reads(der, cs[i], t.kids[i]) && Slice(der, cs[i]) == Content(t.kids[i])
  {
    ChildrenRead(der, node.start, node.end.value, t.kids, i);
    SliceReads(der, ChildrenOf(der, node)[i], t.kids[i]);
  }

  lemma {:induction false} SliceReads(der: seq<byte>, node: Node, t: Tree)
    requires Reads(der, node, t)
    ensures Slice(der, node) == Content(t)
  {
    StandsSlice(der, node.start, Content(t));
  }

  datatype Pbes2 = Pbes2(rounds: nat, salt: seq<byte>, iv: seq<byte>, data: seq<byte>)

  predicate Kid(t: Tree, i: nat, kid: Tree) {
    t.Branch? && i < |t.kids| && t.kids[i] == kid
  }

  /** An EncryptedPrivateKeyInfo (section 3 of RFC 5958) under PBES2, by the positions of its parts. */
  datatype Pbes2Parts = Pbes2Parts(alg: Tree, params: Tree, kdf: Tree, scheme: Tree, kdfParams: Tree,
                                   salt: Tree, iter: Tree, iv: Tree, data: Tree)
  {
    predicate Of(top: Tree) {
      && Kid(top, 0, alg) && Kid(top, 1, data)
      && Kid(alg, 1, params)
      && Kid(params, 0, kdf) && Kid(params, 1, scheme)
      && Kid(kdf, 1, kdfParams)
      && Kid(kdfParams, 0, salt) && Kid(kdfParams, 1, iter)
      && Kid(scheme, 1, iv)
    }
  }

  /** The `i`-th child of a node, as destructuring takes it. */
  method NthChild(der: seq<byte>, node: Option<Node>, i: nat) returns (c: Option<Node>)
    ensures c == Nth(der, node, i)
  {
    if node.None? { return None; }
    var cs := Children(der, node.value);
    c := if i < |cs| then Some(cs[i]) else None;
  }

  /** Follows the nested children down to the salt, rounds, IV and data; None where a missing part throws. */
  method OpenPbes2(der: seq<byte>) returns (r: Option<Pbes2>)
    ensures forall top: Tree, parts: Pbes2Parts :: WellFormed(top) && StandsAt(der, 0, Encode(top)) && parts.Of(top) ==>
              r == Some(Pbes2(BigEndian(Content(parts.iter)), Content(parts.salt), Content(parts.iv), Content(parts.data)))
  {
    var top := Tlv(der, 0);
    var alg := NthChild(der, Some(top), 0);
    var data := NthChild(der, Some(top), 1);
    var params := NthChild(der, alg, 1);
    var kdf := NthChild(der, params, 0);
    var scheme := NthChild(der, params, 1);
    var kdfParams := NthChild(der, kdf, 1);
    var salt := NthChild(der, kdfParams, 0);
    var iter := NthChild(der, kdfParams, 1);
    var iv := NthChild(der, scheme, 1);
    forall t: Tree, parts: Pbes2Parts | WellFormed(t) && StandsAt(der, 0, Encode(t)) && parts.Of(t)
      ensures FoundPbes2(der, parts, salt, iter, iv, data)
    {
      TreeRoundTrip(der, 0, t);
      KidReads(der, Some(top), t, 0, parts.alg);
      KidReads(der, Some(top), t, 1, parts.data);
      KidReads(der, alg, parts.alg, 1, parts.params);
      KidReads(der, params, parts.params, 0, parts.kdf);
      KidReads(der, params, parts.params, 1, parts.scheme);
      KidReads(der, kdf, parts.kdf, 1, parts.kdfParams);
      KidReads(der, kdfParams, parts.kdfParams, 0, parts.salt);
      KidReads(der, kdfParams, parts.kdfParams, 1, parts.iter);
      KidReads(der, scheme, parts.scheme, 1, parts.iv);
    }
    if salt.None? || iter.None? || iv.None? || data.None? { return None; }
    if salt.value.end.None? || iter.value.end.None? || iv.value.end.None? || data.value.end.None? { return None; }
    var rounds := ReadNumber(Slice(der, iter.value));
    r := Some(Pbes2(rounds, Slice(der, salt.value), Slice(der, iv.value), Slice(der, data.value)));
  }

  method ReadNumber(bytes: seq<byte>) returns (n: nat)
    ensures n == BigEndian(bytes)
  {
    n := 0;
    for i := 0 to |bytes|
      invariant n == BigEndian(bytes[..i])
    {
      BigEndianPush(bytes, i);
      n := n * 256 + bytes[i];
    }
    assert bytes[..|bytes|] == bytes;
  }

  ghost predicate FoundPbes2(der: seq<byte>, parts: Pbes2Parts, salt: Option<Node>, iter: Option<Node>,
                             iv: Option<Node>, data: Option<Node>)
  {
    Holds(der, salt, parts.salt) && Holds(der, iter, parts.iter) && Holds(der, iv, parts.iv) && Holds(der, data, parts.data)
  }

  ghost predicate Holds(der: seq<byte>, node: Option<Node>, t: Tree) {
    node.Some? && Reads(der, node.value, t) && Slice(der, node.value) == Content(t)
  }

  function Nth(der: seq<byte>, node: Option<Node>, i: nat): Option<Node> {
    if node.None? || |ChildrenOf(der, node.value)| <= i then None else Some(ChildrenOf(der, node.value)[i])
  }

  lemma {:induction false} KidReads(der: seq<byte>, node: Option<Node>, t: Tree, i: nat, kid: Tree)
    requires node.Some? && Reads(der, node.value, t) && Kid(t, i, kid)
    ensures Holds(der, Nth(der, node, i), kid)
  {
    ChildReads(der, node.value, t, i);
  }

  /** The integers of an RSAPrivateKey wrapped in the octet string of a PrivateKeyInfo, in order;
      None where a missing part throws. */
  method OpenRsaKey(plain: seq<byte>) returns (ints: Option<seq<seq<byte>>>)
    ensures forall pki: Tree, key: Tree :: WellFormed(pki) && StandsAt(plain, 0, Encode(pki)) && WrapsKey(pki, key) ==>
              ints.Some? && IntsOf(ints.value, key)
  {
    var pki := Tlv(plain, 0);
    var inner := NthChild(plain, Some(pki), 2);
    forall t: Tree, key: Tree | WellFormed(t) && StandsAt(plain, 0, Encode(t)) && WrapsKey(t, key)
      ensures inner.Some? && Reads(plain, TlvAt(plain, inner.value.start), key)
    {
      TreeRoundTrip(plain, 0, t);
      KidReads(plain, Some(pki), t, 2, t.kids[2]);
      TreeRoundTrip(plain, inner.value.start, key);
    }
    if inner.None? { return None; }
    var rsaKey := Tlv(plain, inner.value.start);
    var nodes := Children(plain, rsaKey);
    var out := [];
    for i := 0 to |nodes|
      invariant out == Slices(plain, nodes[..i])
    {
      assert nodes[..i + 1][..i] == nodes[..i];
      out := out + [SliceOf(plain, nodes[i])];
    }
    assert nodes[..|nodes|] == nodes;
    ints := Some(out);
    forall key: Tree | Reads(plain, rsaKey, key) && key.Branch? ensures IntsOf(out, key) {
      SlicesRead(plain, rsaKey, key);
    }
  }

  function SliceOf(der: seq<byte>, node: Node): seq<byte> {
    if node.end.Some? then Slice(der, node) else []
  }

  function Slices(der: seq<byte>, nodes: seq<Node>): (out: seq<seq<byte>>)
    ensures |out| == |nodes| && forall i :: 0 <= i < |out| ==> out[i] == SliceOf(der, nodes[i])
  {
    if nodes == [] then [] else Slices(der, nodes[..|nodes| - 1]) + [SliceOf(der, nodes[|nodes| - 1])]
  }

  lemma {:induction false} SlicesRead(der: seq<byte>, node: Node, key: Tree)
    requires Reads(der, node, key) && key.Branch?
    ensures IntsOf(Slices(der, ChildrenOf(der, node)), key)
  {
    if key.kids == [] {
      assert ChildrenOf(der, node) == [];
    } else {
      ChildReads(der, node, key, 0);
    }
    forall i | 0 <= i < |key.kids| ensures Slices(der, ChildrenOf(der, node))[i] == Content(key.kids[i]) {
      ChildReads(der, node, key, i);
    }
  }

  ghost predicate IntsOf(ints: seq<seq<byte>>, key: Tree)
    requires key.Branch?
  {
    |ints| == |key.kids| && forall i :: 0 <= i < |ints| ==> ints[i] == Content(key.kids[i])
  }

  predicate WrapsKey(pki: Tree, key: Tree) {
    pki.Branch? && |pki.kids| >= 3 && Content(pki.kids[2]) == Encode(key) && WellFormed(key) && key.Branch?
  }
}
