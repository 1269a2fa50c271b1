/**
 The Merkle root of `src/audit_chain.rs`: the pairing loop, and what an equal root
 says about the leaves. The hash is a parameter with 32-byte digests; nothing is
 assumed about collisions, they are exhibited instead.
 */
module Merkle {
  import opened Options
  import opened Encoding

  type Hash = Bytes -> Bytes

  ghost predicate Digests(h: Hash) {
    forall x: Bytes :: |h(x)| == 32
  }

  /** Two different inputs with one digest. */
  ghost predicate Collision(h: Hash, x: Bytes, y: Bytes) {
    x != y && h(x) == h(y)
  }

  // ---------------------------------------------------------------------------
  // One level
  // ---------------------------------------------------------------------------

  /** The inputs hashed on one level: neighbours, and an odd last node with itself. */
  function Pairs(l: seq<Bytes>): (r: seq<Bytes>)
    ensures |r| == (|l| + 1) / 2
  {
    if l == [] then []
    else if |l| == 1 then [l[0] + l[0]]
    else [l[0] + l[1]] + Pairs(l[2..])
  }

  function Level(h: Hash, l: seq<Bytes>): (r: seq<Bytes>)
    ensures |r| == (|l| + 1) / 2
  {
    if l == [] then []
    else if |l| == 1 then [h(l[0] + l[0])]
    else [h(l[0] + l[1])] + Level(h, l[2..])
  }

  ghost predicate Nodes(l: seq<Bytes>) {
    forall n | n in l :: |n| == 32
  }

  lemma {:induction false} LevelNodes(h: Hash, l: seq<Bytes>)
    requires Digests(h)
    ensures Nodes(Level(h, l))
  {
    if |l| > 1 { LevelNodes(h, l[2..]); }
  }

  /** Two hashed pairs are the same pair, or they collide. */
  lemma PairBinds(a: seq<Bytes>, b: seq<Bytes>)
    requires |a| == |b| == 2 && Nodes(a) && Nodes(b) && a[0] + a[1] == b[0] + b[1]
    ensures a == b
  {
    assert a[0] in a && b[0] in b;
    ConcatSplit(a[0], a[1], b[0], b[1]);
  }

  lemma ConsSplits<T>(x: T, rest: seq<T>)
    ensures ([x] + rest)[0] == x && ([x] + rest)[1..] == rest
  {
  }

  lemma PairsHead(l: seq<Bytes>)
    requires |l| > 1
    ensures Pairs(l)[0] == l[0] + l[1] && Pairs(l)[1..] == Pairs(l[2..])
  {
    ConsSplits(l[0] + l[1], Pairs(l[2..]));
  }

  lemma LevelHead(h: Hash, l: seq<Bytes>)
    requires |l| > 1
    ensures Level(h, l)[0] == h(l[0] + l[1]) && Level(h, l)[1..] == Level(h, l[2..])
  {
    ConsSplits(h(l[0] + l[1]), Level(h, l[2..]));
  }

  lemma TwoAndRest(l: seq<Bytes>)
    requires |l| > 1
    ensures l == l[..2] + l[2..] && l[..2] == [l[0], l[1]]
  {
  }

  /** Equal levels come from equal nodes, or two of the hashed pairs collide. */
  lemma {:induction false} LevelBinds(h: Hash, a: seq<Bytes>, b: seq<Bytes>) returns (x: Bytes, y: Bytes)
    requires |a| == |b| && Nodes(a) && Nodes(b) && Level(h, a) == Level(h, b)
    ensures a == b || (x in Pairs(a) && y in Pairs(b) && Collision(h, x, y))
  {
    x, y := [], [];
    if |a| == 1 {
      x, y := a[0] + a[0], b[0] + b[0];
      if x == y { PairBinds([a[0], a[0]], [b[0], b[0]]); }
    } else if |a| > 1 {
      LevelHead(h, a);
      LevelHead(h, b);
      PairsHead(a);
      PairsHead(b);
      TwoAndRest(a);
      TwoAndRest(b);
      x, y := a[0] + a[1], b[0] + b[1];
      if x == y {
        PairBinds(a[..2], b[..2]);
        x, y := LevelBinds(h, a[2..], b[2..]);
        if a != b {
          assert x in Pairs(a)[1..] && y in Pairs(b)[1..];
        }
      }
    }
  }

  // ---------------------------------------------------------------------------
  // The root
  // ---------------------------------------------------------------------------

  function Root(h: Hash, l: seq<Bytes>): Bytes
    requires l != []
    decreases |l|
  {
    if |l| == 1 then l[0] else Root(h, Level(h, l))
  }

  /** Everything that is hashed on the way to the root. */
  ghost function Hashed(h: Hash, l: seq<Bytes>): set<Bytes>
    requires l != []
    decreases |l|
  {
    if |l| == 1 then {} else (set p | p in Pairs(l)) + Hashed(h, Level(h, l))
  }

  /**
   For lists of equal length, equal roots force equal leaves, or two of the
   inputs hashed for the roots collide.
   */
  lemma {:induction false} RootBinds(h: Hash, a: seq<Bytes>, b: seq<Bytes>) returns (x: Bytes, y: Bytes)
    requires Digests(h) && |a| == |b| > 0 && Nodes(a) && Nodes(b) && Root(h, a) == Root(h, b)
    ensures a == b || (x in Hashed(h, a) && y in Hashed(h, b) && Collision(h, x, y))
    decreases |a|
  {
    x, y := [], [];
    if |a| > 1 {
      LevelNodes(h, a);
      LevelNodes(h, b);
      x, y := RootBinds(h, Level(h, a), Level(h, b));
      if Level(h, a) == Level(h, b) { x, y := LevelBinds(h, a, b); }
    }
  }

  lemma {:induction false} OddLevel(h: Hash, l: seq<Bytes>)
    requires |l| % 2 == 1
    ensures Level(h, l + [l[|l| - 1]]) == Level(h, l)
  {
    var m := l + [l[|l| - 1]];
    if |l| == 1 {
      assert m[2..] == [];
    } else {
      assert m[2..] == l[2..] + [l[2..][|l[2..]| - 1]];
      OddLevel(h, l[2..]);
    }
  }

  /** The length matters: repeating the last of an odd number of leaves keeps the root. */
  lemma OddLeafRepeats(h: Hash, l: seq<Bytes>)
    requires |l| % 2 == 1 && |l| > 1
    ensures Root(h, l + [l[|l| - 1]]) == Root(h, l)
  {
    OddLevel(h, l);
  }

  // ---------------------------------------------------------------------------
  // The loop
  // ---------------------------------------------------------------------------

  function Zeros(n: nat): Bytes {
    if n == 0 then [] else [48] + Zeros(n - 1)
  }

  function Decoded(leaf: Bytes): Bytes {
    match HexDecode(leaf)
    case Some(bs) => bs
    case None => []
  }

  function DecodedAll(leaves: seq<Bytes>): (r: seq<Bytes>)
    ensures |r| == |leaves|
    ensures forall i | 0 <= i < |leaves| :: r[i] == Decoded(leaves[i])
  {
    seq(|leaves|, i requires 0 <= i < |leaves| => Decoded(leaves[i]))
  }

  /** The root of hexadecimal leaves; one leaf is its own root. */
  function RootText(h: Hash, leaves: seq<Bytes>): Bytes {
    if leaves == [] then Zeros(64)
    else if |leaves| == 1 then leaves[0]
    else HexEncode(Root(h, DecodedAll(leaves)))
  }

  /** The root of no leaves is the text of 32 zero bytes. */
  lemma EmptyRootIsZero(h: Hash)
    ensures RootText(h, []) == HexEncode(seq(32, _ => 0))
  {
    ZerosAreHex(32);
  }

  lemma {:induction false} ZerosAreHex(n: nat)
    ensures Zeros(2 * n) == HexEncode(seq(n, _ => 0))
  {
    if n > 0 {
      ZerosAreHex(n - 1);
      HexOfZero(seq(n - 1, _ => 0));
      var zeros: Bytes := seq(n, _ => 0);
      assert zeros == [0] + seq(n - 1, _ => 0);
      TwoZeros(2 * (n - 1));
    }
  }

  lemma TwoZeros(n: nat)
    ensures Zeros(n + 2) == [48, 48] + Zeros(n)
  {
    assert Zeros(n + 2) == [48] + Zeros(n + 1) == [48] + ([48] + Zeros(n));
  }

  lemma HexOfZero(rest: Bytes)
    ensures HexEncode([0] + rest) == [48, 48] + HexEncode(rest)
  {
    assert ([0] + rest)[1..] == rest;
  }

  lemma {:induction false} LevelConcat(h: Hash, a: seq<Bytes>, b: seq<Bytes>)
    requires |a| % 2 == 0
    ensures Level(h, a + b) == Level(h, a) + Level(h, b)
  {
    if a == [] {
      assert a + b == b;
    } else {
      assert (a + b)[2..] == a[2..] + b;
      LevelConcat(h, a[2..], b);
    }
  }

  /** The inner loop over chunks of two. */
  method NextLevel(h: Hash, l: seq<Bytes>) returns (next: seq<Bytes>)
    ensures next == Level(h, l)
  {
    next := [];
    var i := 0;
    while i < |l|
      invariant 0 <= i <= |l| + 1 && i % 2 == 0
      invariant i <= |l| ==> next == Level(h, l[..i])
      invariant i == |l| + 1 ==> next == Level(h, l)
    {
      var chunk := if i + 1 < |l| then l[i..i + 2] else l[i..];
      LevelConcat(h, l[..i], chunk);
      if |chunk| > 1 {
        assert chunk[2..] == [] && l[..i + 2] == l[..i] + chunk;
        next := next + [h(chunk[0] + chunk[1])];
      } else {
        assert l == l[..i] + chunk;
        next := next + [h(chunk[0] + chunk[0])];
      }
      i := i + 2;
    }
    assert i == |l| ==> l[..i] == l;
  }

  /** `compute_merkle_root`. */
  method ComputeMerkleRoot(h: Hash, leaves: seq<Bytes>) returns (root: Bytes)
    ensures root == RootText(h, leaves)
  {
    if |leaves| == 0 { return Zeros(64); }
    if |leaves| == 1 { return leaves[0]; }
    var current := DecodedAll(leaves);
    while |current| > 1
      invariant |current| > 0 && Root(h, current) == Root(h, DecodedAll(leaves))
      decreases |current|
    {
      current := NextLevel(h, current);
    }
    root := HexEncode(current[0]);
  }

  /** A digest as `hex::encode` writes it. */
  ghost predicate IsDigestText(s: Bytes) {
    exists d: Bytes :: |d| == 32 && s == HexEncode(d)
  }

  lemma DigestTextDecodes(s: Bytes)
    requires IsDigestText(s)
    ensures |s| == 64 && |Decoded(s)| == 32 && HexEncode(Decoded(s)) == s
  {
    var d: Bytes :| |d| == 32 && s == HexEncode(d);
    HexRoundTrip(d);
  }

  /** The same for the hexadecimal root of equally many digests. */
  lemma RootTextBinds(h: Hash, a: seq<Bytes>, b: seq<Bytes>) returns (x: Bytes, y: Bytes)
    requires Digests(h) && |a| == |b| > 0 && RootText(h, a) == RootText(h, b)
    requires forall s | s in a + b :: IsDigestText(s)
    ensures a == b
         || (x in Hashed(h, DecodedAll(a)) && y in Hashed(h, DecodedAll(b)) && Collision(h, x, y))
  {
    x, y := [], [];
    if |a| > 1 {
      var c, d := DecodedAll(a), DecodedAll(b);
      forall i | 0 <= i < |a|
        ensures |c[i]| == 32 && |d[i]| == 32 && HexEncode(c[i]) == a[i] && HexEncode(d[i]) == b[i]
      {
        assert a[i] in a + b && b[i] in a + b;
        DigestTextDecodes(a[i]);
        DigestTextDecodes(b[i]);
      }
      HexInjective(Root(h, c), Root(h, d));
      x, y := RootBinds(h, c, d);
      if c == d {
        assert forall i | 0 <= i < |a| :: a[i] == HexEncode(c[i]) == HexEncode(d[i]) == b[i];
      }
    }
  }
}
