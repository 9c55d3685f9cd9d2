/** Scan capsules of exactly 96 nodes, packed across rotation boundaries
    (services/simulation-server/src/s2e.rs, HqEncoder). */
module S2e {
  import opened Wrappers
  import opened Crc

  const CAPSULE_SYNC: bv8 := 0xa5
  const NODES_PER_CAPSULE: nat := 96
  const NODE_BYTES: nat := 8
  const HEADER_BYTES: nat := 9
  const BODY_BYTES: nat := HEADER_BYTES + NODES_PER_CAPSULE * NODE_BYTES
  const CAPSULE_BYTES: nat := BODY_BYTES + 4

  datatype Sample = Sample(angle: bv16, distance: bv32, quality: bv8)
  datatype Node = Node(sample: Sample, sync: bool)
  datatype Scan = Scan(scanId: bv64, samples: seq<Sample>)
  datatype Capsule = Capsule(header: bv64, nodes: seq<Node>)

  // ---------------------------------------------------------------- bytes

  /** Little-endian bytes, and back. */
  function Bytes16(x: bv16): (b: seq<bv8>)
    ensures |b| == 2
  {
    [(x & 0xff) as bv8, (x >> 8) as bv8]
  }

  function Join16(b: seq<bv8>): bv16
    requires |b| == 2
  {
    (b[0] as bv16) | ((b[1] as bv16) << 8)
  }

  function Bytes32(x: bv32): (b: seq<bv8>)
    ensures |b| == 4
  {
    [(x & 0xff) as bv8, ((x >> 8) & 0xff) as bv8, ((x >> 16) & 0xff) as bv8, (x >> 24) as bv8]
  }

  function Join32(b: seq<bv8>): bv32
    requires |b| == 4
  {
    (b[0] as bv32) | ((b[1] as bv32) << 8) | ((b[2] as bv32) << 16) | ((b[3] as bv32) << 24)
  }

  function LowHalf(x: bv64): bv32 { (x & 0xffff_ffff) as bv32 }
  function HighHalf(x: bv64): bv32 { (x >> 32) as bv32 }
  function Halves(low: bv32, high: bv32): bv64 { (low as bv64) | ((high as bv64) << 32) }

  function Bytes64(x: bv64): (b: seq<bv8>)
    ensures |b| == 8
  {
    Bytes32(LowHalf(x)) + Bytes32(HighHalf(x))
  }

  function Join64(b: seq<bv8>): bv64
    requires |b| == 8
  {
    Halves(Join32(b[..4]), Join32(b[4..]))
  }

  lemma Join16Bytes(x: bv16)
    ensures Join16(Bytes16(x)) == x
  {
  }

  lemma Join32Bytes(x: bv32)
    ensures Join32(Bytes32(x)) == x
  {
  }

  lemma JoinHalves(x: bv64)
    ensures Halves(LowHalf(x), HighHalf(x)) == x
  {
  }

  lemma Join64Bytes(x: bv64)
    ensures Join64(Bytes64(x)) == x
  {
    hide LowHalf, HighHalf, Halves, Bytes32, Join32;
    assert Bytes64(x)[..4] == Bytes32(LowHalf(x)) && Bytes64(x)[4..] == Bytes32(HighHalf(x));
    Join32Bytes(LowHalf(x));
    Join32Bytes(HighHalf(x));
    JoinHalves(x);
  }

  function SyncByte(sync: bool): bv8 {
    if sync then 1 else 0
  }

  function NodeBytes(node: Node): (b: seq<bv8>)
    ensures |b| == NODE_BYTES
  {
    Bytes16(node.sample.angle) + Bytes32(node.sample.distance) + [node.sample.quality, SyncByte(node.sync)]
  }

  function NodesBytes(nodes: seq<Node>): (b: seq<bv8>)
    ensures |b| == NODE_BYTES * |nodes|
    decreases |nodes|
  {
    if nodes == [] then [] else NodesBytes(nodes[..|nodes| - 1]) + NodeBytes(nodes[|nodes| - 1])
  }

  function Body(header: bv64, nodes: seq<Node>): (b: seq<bv8>)
    ensures |b| == HEADER_BYTES + NODE_BYTES * |nodes|
  {
    [CAPSULE_SYNC] + Bytes64(header) + NodesBytes(nodes)
  }

  function CapsuleBytes(c: Capsule): (b: seq<bv8>)
    ensures |c.nodes| == NODES_PER_CAPSULE ==> |b| == CAPSULE_BYTES
  {
    Body(c.header, c.nodes) + Bytes32(PaddedCrc(Body(c.header, c.nodes)))
  }

  // ---------------------------------------------------------------- decoding

  function NodeAt(bytes: seq<bv8>, k: nat): Node
    requires HEADER_BYTES + NODE_BYTES * (k + 1) <= |bytes|
  {
    var at := HEADER_BYTES + NODE_BYTES * k;
    Node(Sample(Join16(bytes[at..at + 2]), Join32(bytes[at + 2..at + 6]), bytes[at + 6]), bytes[at + 7] == 1)
  }

  function NodesOf(bytes: seq<bv8>): (nodes: seq<Node>)
    requires |bytes| == CAPSULE_BYTES
    ensures |nodes| == NODES_PER_CAPSULE && forall k | 0 <= k < |nodes| :: nodes[k] == NodeAt(bytes, k)
  {
    seq(NODES_PER_CAPSULE, k requires 0 <= k < NODES_PER_CAPSULE => NodeAt(bytes, k))
  }

  /** What a receiver reads: a capsule with the right size, sync byte and checksum. */
  function Decode(bytes: seq<bv8>): Option<Capsule> {
    if |bytes| != CAPSULE_BYTES || bytes[0] != CAPSULE_SYNC then None
    else if Join32(bytes[BODY_BYTES..]) != PaddedCrc(bytes[..BODY_BYTES]) then None
    else Some(Capsule(Join64(bytes[1..HEADER_BYTES]), NodesOf(bytes)))
  }

  lemma SyncIsRead(sync: bool)
    ensures (SyncByte(sync) == 1) == sync
  {
  }

  lemma NodeParts(node: Node)
    ensures NodeBytes(node)[..2] == Bytes16(node.sample.angle)
    ensures NodeBytes(node)[2..6] == Bytes32(node.sample.distance)
    ensures NodeBytes(node)[6] == node.sample.quality && NodeBytes(node)[7] == SyncByte(node.sync)
  {
    hide Bytes16, Bytes32, SyncByte;
  }

  lemma NodeIsRead(bytes: seq<bv8>, k: nat, node: Node)
    requires HEADER_BYTES + NODE_BYTES * (k + 1) <= |bytes|
    requires bytes[HEADER_BYTES + NODE_BYTES * k..HEADER_BYTES + NODE_BYTES * (k + 1)] == NodeBytes(node)
    ensures NodeAt(bytes, k) == node
  {
    hide Join16, Join32, NodeBytes, SyncByte, Bytes16, Bytes32;
    NodeParts(node);
    var at := HEADER_BYTES + NODE_BYTES * k;
    var part := bytes[at..at + 8];
    assert bytes[at..at + 2] == part[..2];
    assert bytes[at + 2..at + 6] == part[2..6];
    assert bytes[at + 6] == part[6] && bytes[at + 7] == part[7];
    Join16Bytes(node.sample.angle);
    Join32Bytes(node.sample.distance);
    SyncIsRead(node.sync);
  }

  lemma {:induction false} NodeInside(nodes: seq<Node>, k: nat)
    requires k < |nodes|
    ensures NodesBytes(nodes)[NODE_BYTES * k..NODE_BYTES * (k + 1)] == NodeBytes(nodes[k])
    decreases |nodes|
  {
    hide NodeBytes;
    var shorter := nodes[..|nodes| - 1];
    if k < |nodes| - 1 {
      NodeInside(shorter, k);
      assert NodesBytes(nodes)[NODE_BYTES * k..NODE_BYTES * (k + 1)]
             == NodesBytes(shorter)[NODE_BYTES * k..NODE_BYTES * (k + 1)];
    }
  }

  /** Decoding an encoded capsule gives it back. */
  lemma CapsuleRoundTrip(c: Capsule)
    requires |c.nodes| == NODES_PER_CAPSULE
    ensures Decode(CapsuleBytes(c)) == Some(c)
  {
    hide Join16, Join32, Join64, Bytes16, Bytes32, Bytes64, NodesBytes, PaddedCrc, NodeBytes;
    var bytes, body := CapsuleBytes(c), Body(c.header, c.nodes);
    assert bytes[BODY_BYTES..] == Bytes32(PaddedCrc(body)) && bytes[..BODY_BYTES] == body;
    Join32Bytes(PaddedCrc(body));
    assert bytes[1..HEADER_BYTES] == Bytes64(c.header);
    Join64Bytes(c.header);
    forall k | 0 <= k < NODES_PER_CAPSULE ensures NodeAt(bytes, k) == c.nodes[k] {
      NodeInside(c.nodes, k);
      var from, to := HEADER_BYTES + NODE_BYTES * k, HEADER_BYTES + NODE_BYTES * (k + 1);
      assert bytes[from..to] == body[from..to] == NodesBytes(c.nodes)[NODE_BYTES * k..NODE_BYTES * (k + 1)];
      NodeIsRead(bytes, k, c.nodes[k]);
    }
    assert NodesOf(bytes) == c.nodes;
  }

  // ---------------------------------------------------------------- the bytes of a capsule

  lemma Bytes64Layout(x: bv64)
    ensures var b := Bytes64(x);
            && b[0] == (x & 0xff) as bv8 && b[1] == ((x >> 8) & 0xff) as bv8
            && b[2] == ((x >> 16) & 0xff) as bv8 && b[3] == ((x >> 24) & 0xff) as bv8
            && b[4] == ((x >> 32) & 0xff) as bv8 && b[5] == ((x >> 40) & 0xff) as bv8
            && b[6] == ((x >> 48) & 0xff) as bv8 && b[7] == ((x >> 56) & 0xff) as bv8
  {
  }

  lemma Bytes32Layout(x: bv32)
    ensures IsLittleEndian(Bytes32(x), x)
  {
  }

  predicate IsLittleEndian(b: seq<bv8>, x: bv32) {
    && |b| == 4 && b[0] == (x & 0xff) as bv8 && b[1] == ((x >> 8) & 0xff) as bv8
    && b[2] == ((x >> 16) & 0xff) as bv8 && b[3] == ((x >> 24) & 0xff) as bv8
  }

  /** A node takes eight bytes: the angle and the distance with the low byte first, the quality, and 1 for the first node
      of a rotation. */
  predicate IsNode(b: seq<bv8>, node: Node) {
    && |b| == 8
    && b[0] == (node.sample.angle & 0xff) as bv8 && b[1] == (node.sample.angle >> 8) as bv8
    && IsLittleEndian(b[2..6], node.sample.distance)
    && b[6] == node.sample.quality && b[7] == (if node.sync then 1 else 0)
  }

  lemma NodeLayout(node: Node)
    ensures IsNode(NodeBytes(node), node)
  {
    hide Bytes32, IsLittleEndian;
    Bytes32Layout(node.sample.distance);
    assert NodeBytes(node)[2..6] == Bytes32(node.sample.distance);
  }

  /** A capsule takes 781 bytes: the sync byte, the scan id of its first node with the low byte first, 96 nodes, and the
      checksum of all before it. */
  lemma CapsuleLayout(c: Capsule)
    requires |c.nodes| == NODES_PER_CAPSULE
    ensures var b := CapsuleBytes(c);
            && |b| == 781 && b[0] == 0xa5
            && b[1] == (c.header & 0xff) as bv8 && b[2] == ((c.header >> 8) & 0xff) as bv8
            && b[3] == ((c.header >> 16) & 0xff) as bv8 && b[4] == ((c.header >> 24) & 0xff) as bv8
            && b[5] == ((c.header >> 32) & 0xff) as bv8 && b[6] == ((c.header >> 40) & 0xff) as bv8
            && b[7] == ((c.header >> 48) & 0xff) as bv8 && b[8] == ((c.header >> 56) & 0xff) as bv8
            && (forall k | 0 <= k < 96 :: IsNode(b[9 + 8 * k..17 + 8 * k], c.nodes[k]))
            && IsLittleEndian(b[777..], PaddedCrc(b[..777]))
  {
    hide Bytes32, Bytes64, NodesBytes, NodeBytes, IsNode, IsLittleEndian, PaddedCrc;
    var b, body, header := CapsuleBytes(c), Body(c.header, c.nodes), Bytes64(c.header);
    assert b[..777] == body && b[777..] == Bytes32(PaddedCrc(body));
    assert b[1..9] == header;
    assert forall i | 0 <= i < 8 :: b[1..9][i] == b[1 + i];
    Bytes64Layout(c.header);
    Bytes32Layout(PaddedCrc(body));
    forall k | 0 <= k < 96 ensures IsNode(b[9 + 8 * k..17 + 8 * k], c.nodes[k]) {
      NodeInside(c.nodes, k);
      NodeLayout(c.nodes[k]);
      assert b[9 + 8 * k..17 + 8 * k] == NodesBytes(c.nodes)[8 * k..8 * (k + 1)];
    }
  }

  /** Four damaged bytes in a row, of the content or of the checksum, and the receiver refuses the capsule. */
  lemma DamagedIsRefused(c: Capsule, damaged: seq<bv8>, at: nat)
    requires |c.nodes| == NODES_PER_CAPSULE && |damaged| == 781 && damaged != CapsuleBytes(c)
    requires at + 4 <= 777 || 777 <= at <= 781
    requires forall k | 0 <= k < 781 && !(at <= k < at + 4) :: damaged[k] == CapsuleBytes(c)[k]
    ensures Decode(damaged) == None
  {
    hide Body, Join32, Join64, Bytes32, PaddedCrc, NodesOf;
    var bytes, body := CapsuleBytes(c), Body(c.header, c.nodes);
    assert bytes[..777] == body && bytes[777..] == Bytes32(PaddedCrc(body));
    Join32Bytes(PaddedCrc(body));
    assert damaged == damaged[..777] + damaged[777..] && bytes == bytes[..777] + bytes[777..];
    if at + 4 <= 777 {
      assert damaged[777..] == bytes[777..];
      BurstsAreDetected(damaged[..777], bytes[..777], at);
    } else {
      assert damaged[..777] == bytes[..777];
      JoinLosesNothing(damaged[777..], bytes[777..]);
    }
  }

  lemma JoinLosesNothing(a: seq<bv8>, b: seq<bv8>)
    requires |a| == |b| == 4 && a != b
    ensures Join32(a) != Join32(b)
  {
    JoinDiffers(a[0], a[1], a[2], a[3], b[0], b[1], b[2], b[3]);
  }

  lemma JoinDiffers(a0: bv8, a1: bv8, a2: bv8, a3: bv8, b0: bv8, b1: bv8, b2: bv8, b3: bv8)
    ensures ((a0 as bv32) | ((a1 as bv32) << 8) | ((a2 as bv32) << 16) | ((a3 as bv32) << 24)
             == (b0 as bv32) | ((b1 as bv32) << 8) | ((b2 as bv32) << 16) | ((b3 as bv32) << 24))
            ==> a0 == b0 && a1 == b1 && a2 == b2 && a3 == b3
  {
  }

  // ---------------------------------------------------------------- packing

  /** The scan id of the first held node, the held nodes, and the last scan seen. */
  datatype Encoder = Encoder(header: bv64, held: seq<Node>, last: Option<bv64>)

  const NEW_ENCODER := Encoder(0, [], None)

  /** One node more; the 96th completes a capsule. */
  function Push(e: Encoder, scanId: bv64, node: Node): (Encoder, seq<Capsule>) {
    var header := if e.held == [] then scanId else e.header;
    var held := e.held + [node];
    if |held| == NODES_PER_CAPSULE then (Encoder(header, [], e.last), [Capsule(header, held)])
    else (Encoder(header, held, e.last), [])
  }

  /** The node of a sample: the first of its scan carries the sync flag. */
  function NodeOf(scan: Scan, index: nat): Node
    requires index < |scan.samples|
  {
    Node(scan.samples[index], index == 0)
  }

  function PushAll(e: Encoder, scan: Scan, n: nat): (Encoder, seq<Capsule>)
    requires n <= |scan.samples|
  {
    if n == 0 then (e, [])
    else
      var (before, capsules) := PushAll(e, scan, n - 1);
      var (after, more) := Push(before, scan.scanId, NodeOf(scan, n - 1));
      (after, capsules + more)
  }

  /** The scan does not follow the last one directly; the largest id has no successor. */
  predicate Gap(last: Option<bv64>, scanId: bv64) {
    last.Some? && (last.value == 0xffff_ffff_ffff_ffff || last.value + 1 != scanId)
  }

  function Prepared(e: Encoder, scanId: bv64): Encoder {
    Encoder(e.header, if Gap(e.last, scanId) then [] else e.held, Some(scanId))
  }

  function Encode(e: Encoder, scan: Scan): (Encoder, seq<Capsule>) {
    PushAll(Prepared(e, scan.scanId), scan, |scan.samples|)
  }

  function Reset(e: Encoder): Encoder {
    Encoder(e.header, [], None)
  }

  // ---------------------------------------------------------------- nothing is lost, nothing is added

  datatype Operation = EncodeScan(scan: Scan) | ResetAll

  datatype Tagged = Tagged(scanId: bv64, node: Node)

  /** An encoder with the capsules sent and the nodes pushed since it last dropped what it held. */
  datatype Log = Log(encoder: Encoder, sent: seq<Capsule>, pushed: seq<Tagged>)

  function TaggedNodes(scan: Scan, n: nat): (nodes: seq<Tagged>)
    requires n <= |scan.samples|
    ensures |nodes| == n && forall i | 0 <= i < n :: nodes[i] == Tagged(scan.scanId, NodeOf(scan, i))
  {
    seq(n, i requires 0 <= i < n => Tagged(scan.scanId, NodeOf(scan, i)))
  }

  function Perform(log: Log, op: Operation): Log {
    match op
    case ResetAll => Log(Reset(log.encoder), [], [])
    case EncodeScan(scan) =>
      var (encoder, capsules) := Encode(log.encoder, scan);
      var gap := Gap(log.encoder.last, scan.scanId);
      Log(encoder, (if gap then [] else log.sent) + capsules,
          (if gap then [] else log.pushed) + TaggedNodes(scan, |scan.samples|))
  }

  function PerformAll(log: Log, ops: seq<Operation>): Log
    decreases |ops|
  {
    if ops == [] then log else PerformAll(Perform(log, ops[0]), ops[1..])
  }

  function SentNodes(sent: seq<Capsule>): seq<Node>
    decreases |sent|
  {
    if sent == [] then [] else SentNodes(sent[..|sent| - 1]) + sent[|sent| - 1].nodes
  }

  /** Capsules are full and named after their first node; sent and held nodes together are the pushed ones. */
  ghost predicate Complete(e: Encoder, sent: seq<Capsule>, pushed: seq<Tagged>) {
    && |e.held| < NODES_PER_CAPSULE
    && |pushed| == NODES_PER_CAPSULE * |sent| + |e.held|
    && |SentNodes(sent)| == NODES_PER_CAPSULE * |sent|
    && (forall i | 0 <= i < |sent| :: |sent[i].nodes| == NODES_PER_CAPSULE
          && sent[i].header == pushed[NODES_PER_CAPSULE * i].scanId)
    && (e.held != [] ==> e.header == pushed[NODES_PER_CAPSULE * |sent|].scanId)
    && forall j | 0 <= j < |pushed| :: (SentNodes(sent) + e.held)[j] == pushed[j].node
  }

  lemma PushCompletes(e: Encoder, sent: seq<Capsule>, pushed: seq<Tagged>, scanId: bv64, node: Node)
    requires Complete(e, sent, pushed)
    ensures var (after, capsules) := Push(e, scanId, node);
            Complete(after, sent + capsules, pushed + [Tagged(scanId, node)])
  {
    hide Complete, SentNodes;
    HeldIsShort(e, sent, pushed);
    if |e.held| + 1 == NODES_PER_CAPSULE {
      PushFills(e, sent, pushed, scanId, node);
    } else {
      PushHolds(e, sent, pushed, scanId, node);
      assert sent + [] == sent;
    }
  }

  lemma HeldIsShort(e: Encoder, sent: seq<Capsule>, pushed: seq<Tagged>)
    requires Complete(e, sent, pushed)
    ensures |e.held| < NODES_PER_CAPSULE
  {
  }

  /** The nodes in order, with one more at the end. */
  lemma NodesInOrder(e: Encoder, sent: seq<Capsule>, pushed: seq<Tagged>, one: Tagged)
    requires Complete(e, sent, pushed)
    ensures var all, longer := SentNodes(sent) + (e.held + [one.node]), pushed + [one];
            |all| == |longer| && forall j | 0 <= j < |longer| :: all[j] == longer[j].node
  {
    hide SentNodes;
    assert SentNodes(sent) + (e.held + [one.node]) == (SentNodes(sent) + e.held) + [one.node];
  }

  lemma PushHolds(e: Encoder, sent: seq<Capsule>, pushed: seq<Tagged>, scanId: bv64, node: Node)
    requires Complete(e, sent, pushed) && |e.held| + 1 < NODES_PER_CAPSULE
    ensures Complete(Push(e, scanId, node).0, sent, pushed + [Tagged(scanId, node)])
  {
    hide SentNodes;
    NodesInOrder(e, sent, pushed, Tagged(scanId, node));
  }

  lemma PushFills(e: Encoder, sent: seq<Capsule>, pushed: seq<Tagged>, scanId: bv64, node: Node)
    requires Complete(e, sent, pushed) && |e.held| + 1 == NODES_PER_CAPSULE
    ensures var (after, capsules) := Push(e, scanId, node);
            Complete(after, sent + capsules, pushed + [Tagged(scanId, node)])
  {
    hide SentNodes;
    NodesInOrder(e, sent, pushed, Tagged(scanId, node));
    var capsule := Push(e, scanId, node).1[0];
    SentOneMore(sent, capsule);
    assert SentNodes(sent + [capsule]) + [] == SentNodes(sent + [capsule]);
  }

  lemma SentOneMore(sent: seq<Capsule>, capsule: Capsule)
    ensures SentNodes(sent + [capsule]) == SentNodes(sent) + capsule.nodes
  {
    assert (sent + [capsule])[..|sent|] == sent;
  }

  lemma {:induction false} PushAllCompletes(e: Encoder, sent: seq<Capsule>, pushed: seq<Tagged>, scan: Scan, n: nat)
    requires Complete(e, sent, pushed) && n <= |scan.samples|
    ensures var (after, capsules) := PushAll(e, scan, n);
            Complete(after, sent + capsules, pushed + TaggedNodes(scan, n)) && after.last == e.last
    decreases n
  {
    hide Complete, Push;
    if n == 0 {
      assert sent + [] == sent && pushed + TaggedNodes(scan, 0) == pushed;
    } else {
      PushAllCompletes(e, sent, pushed, scan, n - 1);
      var (before, capsules) := PushAll(e, scan, n - 1);
      PushCompletes(before, sent + capsules, pushed + TaggedNodes(scan, n - 1), scan.scanId, NodeOf(scan, n - 1));
      PushKeepsLast(before, scan.scanId, NodeOf(scan, n - 1));
      var (after, more) := Push(before, scan.scanId, NodeOf(scan, n - 1));
      assert sent + capsules + more == sent + (capsules + more);
      assert pushed + TaggedNodes(scan, n - 1) + [Tagged(scan.scanId, NodeOf(scan, n - 1))]
             == pushed + TaggedNodes(scan, n);
    }
  }

  lemma PushKeepsLast(e: Encoder, scanId: bv64, node: Node)
    ensures Push(e, scanId, node).0.last == e.last
  {
  }

  lemma NothingIsComplete(e: Encoder)
    requires e.held == []
    ensures Complete(e, [], [])
  {
  }

  lemma RenamedIsComplete(e: Encoder, last: Option<bv64>, sent: seq<Capsule>, pushed: seq<Tagged>)
    requires Complete(e, sent, pushed)
    ensures Complete(e.(last := last), sent, pushed)
  {
  }

  lemma PerformCompletes(log: Log, op: Operation)
    requires Complete(log.encoder, log.sent, log.pushed)
    ensures var after := Perform(log, op); Complete(after.encoder, after.sent, after.pushed)
  {
    hide Complete, PushAll;
    match op
    case ResetAll => NothingIsComplete(Reset(log.encoder));
    case EncodeScan(scan) =>
      var prepared := Prepared(log.encoder, scan.scanId);
      if Gap(log.encoder.last, scan.scanId) {
        NothingIsComplete(prepared);
        PushAllCompletes(prepared, [], [], scan, |scan.samples|);
      } else {
        RenamedIsComplete(log.encoder, Some(scan.scanId), log.sent, log.pushed);
        PushAllCompletes(prepared, log.sent, log.pushed, scan, |scan.samples|);
      }
  }

  /** Over any operations, the capsules sent and then the held tail are exactly the nodes pushed since the last reset or
      gap in scan ids, each capsule with the scan id of its first node, and fewer than 96 nodes are held. */
  lemma {:induction false} EveryRunIsComplete(log: Log, ops: seq<Operation>)
    requires Complete(log.encoder, log.sent, log.pushed)
    ensures var after := PerformAll(log, ops); Complete(after.encoder, after.sent, after.pushed)
    decreases |ops|
  {
    hide Complete, Perform;
    if ops != [] {
      PerformCompletes(log, ops[0]);
      EveryRunIsComplete(Perform(log, ops[0]), ops[1..]);
    }
  }

  // ---------------------------------------------------------------- one scan

  /** The scan continues what is held: it is the first, or its id is one more than the last, without wrapping round. */
  predicate Follows(last: Option<bv64>, scanId: bv64) {
    last == None || (scanId == last.value + 1 && scanId != 0)
  }

  /** The parts of the question, under names that keep single bits out of the proof. */
  predicate Greatest(a: bv64) { a == 0xffff_ffff_ffff_ffff }
  predicate WrapsRound(a: bv64) { a + 1 == 0 }
  predicate OneMore(a: bv64, b: bv64) { a + 1 == b }
  predicate NotZero(b: bv64) { b != 0 }

  lemma AddingToGreatest(a: bv64)
    ensures a == 0xffff_ffff_ffff_ffff ==> a + 1 == 0
  {
  }

  lemma OnlyGreatestWraps(a: bv64)
    ensures a + 1 == 0 ==> a == 0xffff_ffff_ffff_ffff
  {
  }

  lemma GreatestWraps(a: bv64)
    ensures Greatest(a) <==> WrapsRound(a)
  {
    AddingToGreatest(a);
    OnlyGreatestWraps(a);
  }

  lemma ZeroIsAfterWrapping(a: bv64, b: bv64)
    requires OneMore(a, b)
    ensures WrapsRound(a) <==> !NotZero(b)
  {
  }

  lemma GapParts(last: Option<bv64>, scanId: bv64)
    ensures last.Some? ==> (Gap(last, scanId) <==> Greatest(last.value) || !OneMore(last.value, scanId))
    ensures last.None? ==> !Gap(last, scanId)
  {
  }

  lemma FollowsParts(last: Option<bv64>, scanId: bv64)
    ensures last.Some? ==> (Follows(last, scanId) <==> OneMore(last.value, scanId) && NotZero(scanId))
    ensures last.None? ==> Follows(last, scanId)
  {
  }

  lemma GapIsNoFollower(last: Option<bv64>, scanId: bv64)
    ensures Gap(last, scanId) <==> !Follows(last, scanId)
  {
    hide Gap, Follows, Greatest, WrapsRound, OneMore, NotZero;
    GapParts(last, scanId);
    FollowsParts(last, scanId);
    if last.Some? {
      GreatestWraps(last.value);
      if OneMore(last.value, scanId) {
        ZeroIsAfterWrapping(last.value, scanId);
      }
    }
  }

  /** The samples of a scan as nodes, the first of them marked. */
  ghost predicate AreNodes(scan: Scan, nodes: seq<Node>) {
    |nodes| == |scan.samples|
    && forall i | 0 <= i < |nodes| :: nodes[i].sample == scan.samples[i] && (nodes[i].sync <==> i == 0)
  }

  /** Encoding a scan sends what is held and the scan's nodes, in order, in full capsules of 96, and holds the rest. What
      is held is dropped unless the scan follows directly. */
  lemma EncodeSends(e: Encoder, scan: Scan, nodes: seq<Node>)
    requires |e.held| < NODES_PER_CAPSULE && AreNodes(scan, nodes)
    ensures var (after, capsules) := Encode(e, scan);
            && after.last == Some(scan.scanId) && |after.held| < 96
            && (forall k | 0 <= k < |capsules| :: |capsules[k].nodes| == 96)
            && SentNodes(capsules) + after.held == (if Follows(e.last, scan.scanId) then e.held else []) + nodes
  {
    hide Push, SentNodes;
    GapIsNoFollower(e.last, scan.scanId);
    var prepared := Prepared(e, scan.scanId);
    var before := seq(|prepared.held|, i requires 0 <= i < |prepared.held| => Tagged(prepared.header, prepared.held[i]));
    assert Complete(prepared, [], before) by {
      StartsComplete(prepared, before);
    }
    PushAllCompletes(prepared, [], before, scan, |scan.samples|);
    var (after, capsules) := Encode(e, scan);
    assert [] + capsules == capsules;
    var all, pushed := SentNodes(capsules) + after.held, before + TaggedNodes(scan, |scan.samples|);
    var expected := prepared.held + nodes;
    assert |all| == |pushed| == |expected|;
    forall j | 0 <= j < |all| ensures all[j] == expected[j] {
      assert all[j] == pushed[j].node;
    }
  }

  lemma StartsComplete(e: Encoder, tags: seq<Tagged>)
    requires |e.held| == |tags| < NODES_PER_CAPSULE
    requires forall i | 0 <= i < |tags| :: tags[i] == Tagged(e.header, e.held[i])
    ensures Complete(e, [], tags)
  {
  }

  // ---------------------------------------------------------------- the encoder as it runs

  class HqEncoder {
    const capsule: array<bv8>
    var nodeCount: nat
    var lastScanId: Option<bv64>
    ghost var header: bv64
    ghost var held: seq<Node>

    ghost function Current(): Encoder
      reads this
    {
      Encoder(header, held, lastScanId)
    }

    /** The buffer begins with the bytes of what is held. */
    ghost predicate Valid()
      reads this, capsule
    {
      && capsule.Length == CAPSULE_BYTES
      && nodeCount == |held| < NODES_PER_CAPSULE
      && (held != [] ==> capsule[..HEADER_BYTES + NODE_BYTES * nodeCount] == Body(header, held))
    }

    constructor ()
      ensures Valid() && fresh(capsule) && Current() == NEW_ENCODER
    {
      capsule := new bv8[CAPSULE_BYTES](_ => 0);
      nodeCount, lastScanId, header, held := 0, None, 0, [];
    }

    method ResetHeld()
      requires Valid()
      modifies this
      ensures Valid() && Current() == Reset(old(Current()))
    {
      nodeCount, lastScanId, held := 0, None, [];
    }

    /** Copies bytes into the buffer. */
    method Write(at: nat, bytes: seq<bv8>)
      requires at + |bytes| <= capsule.Length
      modifies capsule
      ensures capsule[..] == old(capsule[..at]) + bytes + old(capsule[at + |bytes|..])
    {
      for k := 0 to |bytes|
        invariant forall i | 0 <= i < capsule.Length ::
                    capsule[i] == if at <= i < at + k then bytes[i - at] else old(capsule[i])
      {
        capsule[at + k] := bytes[k];
      }
    }

    method WriteHeader(scanId: bv64)
      requires capsule.Length == CAPSULE_BYTES
      modifies capsule
      ensures capsule[..HEADER_BYTES] == [CAPSULE_SYNC] + Bytes64(scanId)
    {
      capsule[0] := CAPSULE_SYNC;
      Write(1, Bytes64(scanId));
    }

    method WriteNode(at: nat, sample: Sample, sync: bool)
      requires at + NODE_BYTES <= capsule.Length
      modifies capsule
      ensures capsule[..at] == old(capsule[..at]) && capsule[at..at + NODE_BYTES] == NodeBytes(Node(sample, sync))
    {
      hide Bytes16, Bytes32;
      ghost var before := capsule[..at];
      Write(at, Bytes16(sample.angle));
      assert capsule[..at] == before && capsule[at..at + 2] == Bytes16(sample.angle);
      Write(at + 2, Bytes32(sample.distance));
      assert capsule[..at] == before && capsule[at..at + 2] == Bytes16(sample.angle);
      assert capsule[at + 2..at + 6] == Bytes32(sample.distance);
      capsule[at + 6] := sample.quality;
      capsule[at + 7] := SyncByte(sync);
      assert capsule[at..at + NODE_BYTES] == capsule[at..at + 2] + capsule[at + 2..at + 6] + capsule[at + 6..at + 8];
    }

    /** The buffer begins with the bytes of what is held, possibly a full capsule's worth. */
    ghost predicate Holds()
      reads this, capsule
    {
      && capsule.Length == CAPSULE_BYTES
      && nodeCount == |held| <= NODES_PER_CAPSULE
      && (held != [] ==> capsule[..HEADER_BYTES + NODE_BYTES * nodeCount] == Body(header, held))
    }

    method StartCapsule(scanId: bv64)
      requires Valid() && nodeCount == 0
      modifies this`header, capsule
      ensures Valid() && header == scanId && capsule[..HEADER_BYTES] == Body(scanId, [])
    {
      hide Bytes64;
      WriteHeader(scanId);
      header := scanId;
      EmptyBody(scanId, []);
    }

    method AppendNode(sample: Sample, sync: bool)
      requires Valid() && (nodeCount == 0 ==> capsule[..HEADER_BYTES] == Body(header, []))
      modifies this`held, this`nodeCount, capsule
      ensures Holds() && held == old(held) + [Node(sample, sync)]
    {
      hide NodeBytes, Body;
      var at := HEADER_BYTES + nodeCount * NODE_BYTES;
      assert capsule[..at] == Body(header, held);
      WriteNode(at, sample, sync);
      BodyGrows(header, held, Node(sample, sync));
      assert capsule[..at + NODE_BYTES] == capsule[..at] + capsule[at..at + NODE_BYTES];
      held := held + [Node(sample, sync)];
      nodeCount := nodeCount + 1;
    }

    method FinishCapsule() returns (bytes: seq<bv8>)
      requires Holds() && nodeCount == NODES_PER_CAPSULE
      modifies this`held, this`nodeCount, capsule
      ensures Valid() && held == [] && bytes == CapsuleBytes(Capsule(header, old(held)))
    {
      hide Body, Bytes32, PaddedCrc;
      ghost var body := capsule[..BODY_BYTES];
      var crc := PaddedCrc32(capsule[..BODY_BYTES]);
      Write(BODY_BYTES, Bytes32(crc));
      assert capsule[..] == body + Bytes32(crc);
      bytes := capsule[..];
      nodeCount, held := 0, [];
    }

    /** Appends one node; the 96th completes the capsule with its checksum. */
    method PushSample(scanId: bv64, sample: Sample, sync: bool) returns (sent: seq<seq<bv8>>)
      requires Valid()
      modifies this, capsule
      ensures Valid()
      ensures var (after, capsules) := Push(old(Current()), scanId, Node(sample, sync));
              Current() == after && sent == AllBytes(capsules)
    {
      hide Body, CapsuleBytes;
      if nodeCount == 0 {
        StartCapsule(scanId);
      }
      AppendNode(sample, sync);
      sent := [];
      if nodeCount == NODES_PER_CAPSULE {
        var bytes := FinishCapsule();
        sent := [bytes];
      }
    }

    method EncodeAll(scan: Scan) returns (sent: seq<seq<bv8>>)
      requires Valid()
      modifies this, capsule
      ensures Valid()
      ensures var (after, capsules) := Encode(old(Current()), scan);
              Current() == after && sent == AllBytes(capsules)
    {
      hide Push, CapsuleBytes, Body;
      if Gap(lastScanId, scan.scanId) {
        nodeCount, held := 0, [];
      }
      lastScanId := Some(scan.scanId);
      ghost var prepared := Current();
      assert prepared == Prepared(old(Current()), scan.scanId);
      sent := [];
      for index := 0 to |scan.samples|
        invariant Valid()
        invariant Current() == PushAll(prepared, scan, index).0
        invariant sent == AllBytes(PushAll(prepared, scan, index).1)
      {
        ghost var earlier := PushAll(prepared, scan, index).1;
        ghost var before := Current();
        var more := PushSample(scan.scanId, scan.samples[index], index == 0);
        assert NodeOf(scan, index) == Node(scan.samples[index], index == 0);
        AllBytesOfBoth(earlier, Push(before, scan.scanId, NodeOf(scan, index)).1);
        sent := sent + more;
      }
    }
  }

  function AllBytes(capsules: seq<Capsule>): (b: seq<seq<bv8>>)
    ensures |b| == |capsules| && forall i | 0 <= i < |b| :: b[i] == CapsuleBytes(capsules[i])
  {
    seq(|capsules|, i requires 0 <= i < |capsules| => CapsuleBytes(capsules[i]))
  }

  lemma AllBytesOfBoth(a: seq<Capsule>, b: seq<Capsule>)
    ensures AllBytes(a + b) == AllBytes(a) + AllBytes(b)
  {
    hide CapsuleBytes;
  }

  lemma EmptyBody(header: bv64, nodes: seq<Node>)
    requires nodes == []
    ensures Body(header, nodes) == [CAPSULE_SYNC] + Bytes64(header)
  {
    hide Bytes64;
    assert [CAPSULE_SYNC] + Bytes64(header) + [] == [CAPSULE_SYNC] + Bytes64(header);
  }

  lemma BodyGrows(header: bv64, nodes: seq<Node>, node: Node)
    ensures Body(header, nodes + [node]) == Body(header, nodes) + NodeBytes(node)
  {
    hide NodeBytes, Bytes64;
    assert (nodes + [node])[..|nodes|] == nodes;
  }
}
