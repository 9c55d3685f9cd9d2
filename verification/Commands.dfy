/** Command frames of the endpoint (services/simulation-server/src/s2e.rs, parse_command). */
module Commands {
  import opened Wrappers

  type Byte = bv8

  const COMMAND_SYNC: Byte := 0xa5
  const PAYLOAD_FLAG: Byte := 0x80

  datatype Command = Command(code: Byte, payload: seq<Byte>) {
    /** Only codes with the flag carry a payload, and its size fits one byte. */
    predicate Valid() {
      if HasPayload(code) then |payload| < 256 else payload == []
    }
  }

  predicate HasPayload(code: Byte) {
    code & PAYLOAD_FLAG != 0
  }

  function Value(b: Byte): (n: nat)
    ensures n < 256
  {
    b as int
  }

  /** The byte that stands for a size. */
  function SizeByte(n: nat): Byte
    requires n < 256
  {
    if n == 0 then 0 else SizeByte(n - 1) + 1
  }

  lemma OneMore(b: Byte)
    requires Value(b) < 255
    ensures Value(b + 1) == Value(b) + 1
  {
  }

  lemma SameByte(a: Byte, b: Byte)
    requires Value(a) == Value(b)
    ensures a == b
  {
  }

  lemma {:induction false} ValueOfSize(n: nat)
    requires n < 256
    ensures Value(SizeByte(n)) == n
  {
    hide Value;
    if n == 0 {
      ValueOfZero();
    } else {
      ValueOfSize(n - 1);
      OneMore(SizeByte(n - 1));
    }
  }

  lemma ValueOfZero()
    ensures Value(0) == 0
  {
  }

  /** All bytes of a sequence combined by exclusive or. */
  function Checksum(bytes: seq<Byte>): Byte
    decreases |bytes|
  {
    if bytes == [] then 0 else Checksum(bytes[..|bytes| - 1]) ^ bytes[|bytes| - 1]
  }

  /** The frame of a command. */
  function Frame(c: Command): seq<Byte>
    requires c.Valid()
  {
    if !HasPayload(c.code) then [COMMAND_SYNC, c.code]
    else
      var body := [COMMAND_SYNC, c.code, SizeByte(|c.payload|)] + c.payload;
      body + [Checksum(body)]
  }

  /** The command in a frame, if the frame is well formed. */
  function Parse(frame: seq<Byte>): Option<Command> {
    if |frame| < 2 || frame[0] != COMMAND_SYNC then None
    else if !HasPayload(frame[1]) then if |frame| == 2 then Some(Command(frame[1], [])) else None
    else if |frame| < 3 || |frame| != Value(frame[2]) + 4 then None
    else if Checksum(frame[..|frame| - 1]) != frame[|frame| - 1] then None
    else Some(Command(frame[1], frame[3..|frame| - 1]))
  }

  /** A frame is accepted exactly when it is the frame of a command, and it gives back that command. */
  lemma ParseInvertsFrame(frame: seq<Byte>, c: Command)
    ensures Parse(frame) == Some(c) <==> c.Valid() && frame == Frame(c)
  {
    hide Checksum, HasPayload, Value, SizeByte;
    if c.Valid() && frame == Frame(c) {
      if HasPayload(c.code) {
        ParseOfFrame(c);
      }
    }
    if Parse(frame) == Some(c) && HasPayload(c.code) {
      FrameOfParse(frame, c);
    }
  }

  lemma ParseOfFrame(c: Command)
    requires c.Valid() && HasPayload(c.code)
    ensures Parse(Frame(c)) == Some(c)
  {
    hide Checksum, HasPayload, Value, SizeByte;
    var body := [COMMAND_SYNC, c.code, SizeByte(|c.payload|)] + c.payload;
    ValueOfSize(|c.payload|);
    assert Frame(c)[..|Frame(c)| - 1] == body;
    assert Frame(c)[3..|Frame(c)| - 1] == c.payload;
  }

  lemma FrameOfParse(frame: seq<Byte>, c: Command)
    requires Parse(frame) == Some(c) && HasPayload(c.code)
    ensures c.Valid() && frame == Frame(c)
  {
    hide Checksum, HasPayload, Value, SizeByte;
    SizeOf(frame[2]);
    assert frame[..|frame| - 1] == [COMMAND_SYNC, c.code, SizeByte(|c.payload|)] + c.payload;
    assert frame == frame[..|frame| - 1] + [frame[|frame| - 1]];
  }

  lemma SizeOf(size: Byte)
    ensures SizeByte(Value(size)) == size
  {
    hide Value, SizeByte;
    ValueOfSize(Value(size));
    SameByte(SizeByte(Value(size)), size);
  }

  // ---------------------------------------------------------------- which frames are accepted

  /** All bytes from the front combined by exclusive or. */
  function Combined(bytes: seq<Byte>): Byte
    decreases |bytes|
  {
    if bytes == [] then 0 else bytes[0] ^ Combined(bytes[1..])
  }

  lemma Reorder(a: Byte, b: Byte, c: Byte)
    ensures (a ^ b) ^ c == a ^ (b ^ c)
    ensures a ^ b == 0 <==> a == b
    ensures a ^ 0 == a && 0 ^ a == a
  {
  }

  lemma {:induction false} CombinedBoth(a: seq<Byte>, b: seq<Byte>)
    ensures Combined(a + b) == Combined(a) ^ Combined(b)
    decreases |a|
  {
    if a == [] {
      assert a + b == b;
      Reorder(Combined(b), 0, 0);
    } else {
      assert (a + b)[1..] == a[1..] + b;
      CombinedBoth(a[1..], b);
      Reorder(a[0], Combined(a[1..]), Combined(b));
    }
  }

  lemma {:induction false} ChecksumCombines(bytes: seq<Byte>)
    ensures Checksum(bytes) == Combined(bytes)
    decreases |bytes|
  {
    if bytes != [] {
      var last := |bytes| - 1;
      assert bytes == bytes[..last] + [bytes[last]];
      ChecksumCombines(bytes[..last]);
      CombinedBoth(bytes[..last], [bytes[last]]);
      OneCombined(bytes[last]);
    }
  }

  lemma OneCombined(b: Byte)
    ensures Combined([b]) == b
  {
    assert [b][1..] == [];
    Reorder(b, 0, 0);
  }

  lemma FlagIsTopBit(code: Byte)
    ensures HasPayload(code) <==> code >= 0x80
  {
  }

  /** A frame starts with the sync byte and a code. Codes below 0x80 are the whole frame; after any other comes the size
      of its payload, the payload, and a last byte that makes all bytes together cancel out. */
  lemma AcceptedFrames(frame: seq<Byte>)
    ensures Parse(frame).Some?
       <==> && |frame| >= 2 && frame[0] == 0xa5
            && if frame[1] < 0x80 then |frame| == 2
               else |frame| >= 4 && |frame| == frame[2] as int + 4 && Combined(frame) == 0
    ensures Parse(frame).Some? ==>
              Parse(frame).value == Command(frame[1], if |frame| == 2 then [] else frame[3..|frame| - 1])
  {
    hide Checksum, HasPayload, Combined;
    if |frame| >= 2 {
      FlagIsTopBit(frame[1]);
      var last := |frame| - 1;
      assert frame == frame[..last] + [frame[last]];
      CombinedBoth(frame[..last], [frame[last]]);
      OneCombined(frame[last]);
      ChecksumCombines(frame[..last]);
      Reorder(Checksum(frame[..last]), frame[last], 0);
    }
  }

  // ---------------------------------------------------------------- damaged frames

  lemma Cancel(a: Byte, b: Byte, c: Byte)
    ensures a ^ b == a ^ c ==> b == c
    ensures b ^ a == c ^ a ==> b == c
  {
  }

  /** One different byte makes a different checksum. */
  lemma {:induction false} OneByteShows(bytes: seq<Byte>, k: nat, b: Byte)
    requires k < |bytes| && b != bytes[k]
    ensures Checksum(bytes[k := b]) != Checksum(bytes)
    decreases |bytes|
  {
    var last := |bytes| - 1;
    if k == last {
      assert bytes[k := b][..last] == bytes[..last];
      Cancel(Checksum(bytes[..last]), bytes[last], b);
    } else {
      OneByteShows(bytes[..last], k, b);
      assert bytes[k := b][..last] == bytes[..last][k := b];
      Cancel(bytes[last], Checksum(bytes[..last]), Checksum(bytes[..last][k := b]));
    }
  }

  /** No frame with a payload survives a change of any one byte. */
  lemma OneByteIsDetected(frame: seq<Byte>, k: nat, b: Byte)
    requires Parse(frame).Some? && HasPayload(Parse(frame).value.code) && k < |frame| && b != frame[k]
    ensures Parse(frame[k := b]) == None
  {
    hide Checksum, HasPayload, Value, SizeByte;
    var last := |frame| - 1;
    if k < last {
      OneByteShows(frame[..last], k, b);
      assert frame[k := b][..last] == frame[..last][k := b];
    } else {
      assert frame[k := b][..last] == frame[..last];
    }
  }

  // ---------------------------------------------------------------- the parser as it runs

  method ParseCommand(frame: seq<Byte>) returns (r: Option<Command>)
    ensures r == Parse(frame)
  {
    hide HasPayload, Value;
    if |frame| < 2 || frame[0] != COMMAND_SYNC {
      return None;
    }
    var code := frame[1];
    if !HasPayload(code) {
      return if |frame| == 2 then Some(Command(code, [])) else None;
    }
    if |frame| < 3 || |frame| != Value(frame[2]) + 4 {
      return None;
    }
    var body := frame[..|frame| - 1];
    var checksum: Byte := 0;
    for k := 0 to |body|
      invariant checksum == Checksum(body[..k])
    {
      assert body[..k + 1][..k] == body[..k];
      checksum := checksum ^ body[k];
    }
    assert body[..|body|] == body;
    return if checksum == frame[|frame| - 1] then Some(Command(code, frame[3..|frame| - 1])) else None;
  }
}
