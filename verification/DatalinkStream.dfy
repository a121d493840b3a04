/** The link end to end: the builder and the parser as the drivers run them, the round trip over whole
    streams, detection of corrupted frames, and resynchronisation. */
module DatalinkStream {
  import opened Arithmetic
  import opened Kernel
  import opened Datalink

  // ---- The parser in place.

  /** What a byte did: nothing yet, a frame is complete, or it is to be stored outside the packet. The code does not
      tell the last from the first; what such a store does to the memory behind the packet is not modelled. */
  datatype Verdict = Pending | Complete | Outside

  /** Where the parser can be: the header resets index and sum, and the data phase ends with the last byte. */
  ghost predicate Sound(p: Parser) {
    && |p.data| == MAX_PAYLOAD - 1
    && (p.stage in {CHECKSUM, RSSI, LEN, TYPE} ==> p.index == p.sum == 0)
    && (p.stage == DATA ==> p.index + 1 < Max(p.len, 2))
  }

  /** Every byte keeps it, and only a length byte above 32 leads outside the packet. */
  lemma SoundStep(p: Parser, ch: Byte)
    requires Sound(p)
    ensures InBounds(p) ==> Sound(Parse(p, ch).0)
    ensures !InBounds(p) ==> p.stage == DATA && p.len > MAX_PAYLOAD
    ensures InBounds(p) && Parse(p, ch).1 ==> Parse(p, ch).0.stage == SYNC && Parse(p, ch).0.sum == 0
  {
  }

  /** The static parser of datalink.c with the packet of drv_radio.c. */
  class Link {
    const data: array<Byte>
    var stage: Stage
    var sum: Byte
    var index: nat
    var errors: nat
    var checksum: Byte
    var rssi: Byte
    var len: Byte
    var kind: Byte

    ghost function View(): Parser
      reads this, data
    {
      Parser(stage, sum, index, errors, checksum, rssi, len, kind, data[..])
    }

    ghost predicate Valid()
      reads this, data
    {
      Sound(View())
    }

    constructor ()
      ensures Valid() && fresh(data) && stage == SYNC && errors == 0
    {
      data := new Byte[MAX_PAYLOAD - 1](_ => 0);
      stage, sum, index, errors := SYNC, 0, 0, 0;
      checksum, rssi, len, kind := 0, 0, 0, 0;
    }

    method ParseChar(ch: Byte) returns (v: Verdict)
      requires Valid()
      modifies this, data
      ensures Valid()
      ensures v == Outside <==> !InBounds(old(View()))
      ensures v == Outside ==> len > MAX_PAYLOAD && View() == old(View())
      ensures v != Outside ==> (View(), v == Complete) == Parse(old(View()), ch)
    {
      SoundStep(View(), ch);
      v := Pending;
      match stage
      case SYNC =>
        if ch == MAGIC {
          stage, index, sum := CHECKSUM, 0, 0;
        }
      case CHECKSUM =>
        checksum, stage := ch, RSSI;
      case RSSI =>
        rssi, stage := ch, LEN;
      case LEN =>
        len, stage := ch, TYPE;
      case TYPE =>
        kind := ch;
        sum, stage := Add8(sum, ch), DATA;
      case DATA =>
        if index >= data.Length {
          return Outside;
        }
        data[index] := ch;
        index := index + 1;
        sum := Add8(sum, ch);
        if index + 1 >= len {
          if sum != checksum {
            stage, errors := SYNC, (errors + 1) % 0x1_0000_0000;
            return Pending;
          }
          stage, sum := SYNC, 0;
          return Complete;
        }
    }

    /** The loop of RF_ProcessEvent over the received bytes: it stops behind the first complete frame. */
    method Drain(fifo: seq<Byte>) returns (used: nat, v: Verdict)
      requires Valid()
      modifies this, data
      ensures Valid()
      ensures used <= |fifo| && Fits(old(View()), fifo[..used])
      ensures Feed(old(View()), fifo[..used]).0 == View()
      ensures var out := Feed(old(View()), fifo[..used]).1;
              match v
              case Complete => used > 0 && out[used - 1].Some? && out[..used - 1] == Nones(used - 1)
              case Pending => used == |fifo| && out == Nones(used)
              case Outside => used < |fifo| && out == Nones(used) && !InBounds(View()) && len > MAX_PAYLOAD
    {
      used, v := 0, Pending;
      ghost var p := View();
      assert fifo[..0] == [] && Feed(p, []) == (p, []) && Nones(0) == [];
      while used < |fifo|
        invariant used <= |fifo| && v == Pending && Valid()
        invariant Fits(p, fifo[..used]) && Feed(p, fifo[..used]) == (View(), Nones(used))
      {
        var ch := fifo[used];
        ghost var q := View();
        v := ParseChar(ch);
        if v == Outside {
          return;
        }
        FeedOne(p, fifo[..used], ch);
        assert fifo[..used] + [ch] == fifo[..used + 1];
        used := used + 1;
        if v == Complete {
          return;
        }
        assert Nones(used - 1) + [None] == Nones(used);
      }
      assert fifo[..used] == fifo;
    }
  }

  lemma FeedOne(p: Parser, bs: seq<Byte>, ch: Byte)
    requires Fits(p, bs) && InBounds(Feed(p, bs).0)
    ensures Fits(p, bs + [ch])
    ensures var (q, ok) := Parse(Feed(p, bs).0, ch);
            Feed(p, bs + [ch]) == (q, Feed(p, bs).1 + [if ok then Some(Found(q)) else None])
  {
    var q, ok := Parse(Feed(p, bs).0, ch).0, Parse(Feed(p, bs).0, ch).1;
    assert [ch][1..] == [] && Feed(q, []) == (q, []);
    var f: seq<Option<Frame>> := [if ok then Some(Found(q)) else None];
    assert f + [] == f;
    FeedConcat(p, bs, [ch]);
  }

  // ---- The builder.

  /** The frame the radio driver writes for a payload: type and data. */
  function Encode(rssi: Byte, payload: seq<Byte>): seq<Byte>
    requires |payload| <= MAX_PAYLOAD
  {
    Bytes(Sum(payload), rssi, |payload|, payload)
  }

  /** The transmit side of drv_radio.c: uart is the packed packet magic, checksum, rssi, len, payload. */
  class Radio {
    const uart: array<Byte>
    var failsafe: bool
    var lastUpdate: int

    ghost predicate Valid() {
      uart.Length == 4 + MAX_PAYLOAD
    }

    constructor ()
      ensures Valid() && fresh(uart) && failsafe
    {
      uart := new Byte[4 + MAX_PAYLOAD](_ => 0);
      failsafe, lastUpdate := true, 0;
    }

    /** The branch of RF_2G4StatusCallBack for a packet received without a CRC error: a bind packet is dropped
        while the link is down, any other is written out as one frame and brings the link up. The received length is
        not tested: above 32 the copy leaves the packet, at which the model stops. */
    method OnPacket(rssi: Byte, len: Byte, payload: seq<Byte>, now: int) returns (written: seq<Byte>, outside: bool)
      requires Valid() && |payload| == MAX_PAYLOAD
      modifies this, uart
      ensures outside <==> len > MAX_PAYLOAD && !(payload[0] == DATA_TYPE_BIND && old(failsafe))
      ensures if outside then written == []
              else if payload[0] == DATA_TYPE_BIND && old(failsafe)
              then written == [] && failsafe && lastUpdate == old(lastUpdate)
              else written == Encode(rssi, payload[..len]) && !failsafe && lastUpdate == now
    {
      if payload[0] == DATA_TYPE_BIND && failsafe {
        return [], false;
      }
      uart[0] := MAGIC;
      uart[2] := rssi;
      uart[3] := len;
      if len > MAX_PAYLOAD {
        return [], true;
      }
      outside := false;
      var i := 0;
      while i < len
        invariant i <= len && uart[0] == MAGIC && uart[2] == rssi && uart[3] == len
        invariant uart[4..4 + i] == payload[..i]
      {
        uart[4 + i] := payload[i];
        i := i + 1;
      }
      uart[1] := Checksum(payload, len);
      failsafe, lastUpdate := false, now;
      assert uart[4..4 + len] == payload[..len];
      written := uart[..len + 4];
    }
  }

  /** The parser understands the builder exactly when the payload has at least two bytes, the type and one byte of
      data; after a shorter frame it is still waiting for the rest when the next one starts. */
  lemma BuilderMeetsParser(p: Parser, rssi: Byte, payload: seq<Byte>)
    requires InBounds(p) && p.stage == SYNC && |payload| <= MAX_PAYLOAD
    ensures Fits(p, Encode(rssi, payload))
    ensures var (q, out) := Feed(p, Encode(rssi, payload));
            && (2 <= |payload| <==> q.stage == SYNC)
            && (2 <= |payload| <==> out == Nones(|payload| + 3) + [Some(Frame(rssi, payload))])
            && (2 <= |payload| ==> InBounds(q) && q.errors == p.errors)
  {
    if 2 <= |payload| {
      FrameOutcome(p, Sum(payload), rssi, |payload|, payload);
      assert payload[..|payload|] == payload;
    } else if |payload| == 1 {
      var h := HeadFed(p, Sum(payload), rssi, 1, payload[0]);
      assert Encode(rssi, payload) == [MAGIC, Sum(payload), rssi, 1, payload[0]];
      assert Nones(5)[4] == None;
    } else {
      var h := HeaderFed(p, Sum(payload), rssi, 0);
      assert Encode(rssi, payload) == [MAGIC, Sum(payload), rssi, 0];
      assert Nones(4)[3] == None;
    }
  }

  // ---- Streams.

  /** What may be on the line: a stray byte that starts no frame, or a frame. */
  datatype Item = Junk(b: Byte) | Sent(rssi: Byte, payload: seq<Byte>)

  predicate Proper(i: Item) {
    match i
    case Junk(b) => b != MAGIC
    case Sent(_, payload) => 2 <= |payload| <= MAX_PAYLOAD
  }

  function Line(i: Item): seq<Byte>
    requires Proper(i)
  {
    if i.Junk? then [i.b] else Encode(i.rssi, i.payload)
  }

  function Render(items: seq<Item>): seq<Byte>
    requires forall i <- items :: Proper(i)
  {
    if items == [] then [] else Line(items[0]) + Render(items[1..])
  }

  /** What the parser should say at each byte of an item. */
  function Reply(i: Item): seq<Option<Frame>>
    requires Proper(i)
  {
    if i.Junk? then [None] else Nones(|i.payload| + 3) + [Some(Frame(i.rssi, i.payload))]
  }

  function Replies(items: seq<Item>): seq<Option<Frame>>
    requires forall i <- items :: Proper(i)
  {
    if items == [] then [] else Reply(items[0]) + Replies(items[1..])
  }

  /** The round trip: over any stream of frames and stray bytes the parser completes a frame exactly at the last byte
      of each frame sent, with its rssi and payload, and ends where it can start the next. */
  lemma {:induction false} RoundTrip(p: Parser, items: seq<Item>)
    requires InBounds(p) && p.stage == SYNC && forall i <- items :: Proper(i)
    ensures Fits(p, Render(items))
    ensures var (q, out) := Feed(p, Render(items));
            out == Replies(items) && q.stage == SYNC && q.errors == p.errors
    decreases |items|
  {
    if items != [] {
      var i := items[0];
      var line := Line(i);
      if i.Junk? {
        FeedQuiet(p, i.b, []);
        assert [i.b] + [] == [i.b] && [None] + Feed(p, []).1 == [None];
      } else {
        BuilderMeetsParser(p, i.rssi, i.payload);
      }
      var q := Feed(p, line).0;
      RoundTrip(q, items[1..]);
      FeedConcat(p, line, Render(items[1..]));
    }
  }

  // ---- Errors.

  /** A frame in which one byte of the checksum, the type or the data was changed completes nothing and is counted
      once, and the parser is ready for the next frame. */
  lemma CorruptionDetected(p: Parser, rssi: Byte, payload: seq<Byte>, i: nat, b: Byte)
    requires InBounds(p) && p.stage == SYNC && 2 <= |payload| <= MAX_PAYLOAD
    requires i == 1 || 4 <= i < |payload| + 4
    requires b != Encode(rssi, payload)[i]
    ensures var bad := Encode(rssi, payload)[i := b];
            && Fits(p, bad)
            && var (q, out) := Feed(p, bad);
            q.stage == SYNC && out == Nones(|bad|) && q.errors == (p.errors + 1) % 0x1_0000_0000
  {
    var good := Encode(rssi, payload);
    if i == 1 {
      assert good[i := b] == Bytes(b, rssi, |payload|, payload);
      FrameOutcome(p, b, rssi, |payload|, payload);
    } else {
      var changed := payload[i - 4 := b];
      assert good[i := b] == Bytes(Sum(payload), rssi, |payload|, changed);
      SumDetects(payload, i - 4, b);
      FrameOutcome(p, Sum(payload), rssi, |payload|, changed);
    }
  }

  /** The header without the type byte. */
  lemma HeaderFed(p: Parser, checksum: Byte, rssi: Byte, len: Byte) returns (h: Parser)
    requires InBounds(p) && p.stage == SYNC
    ensures var head := [MAGIC, checksum, rssi, len]; Fits(p, head) && Feed(p, head) == (h, Nones(4))
    ensures h == Parser(TYPE, 0, 0, p.errors, checksum, rssi, len, p.kind, p.data)
  {
    var p1 := Parse(p, MAGIC).0;
    var p2 := Parse(p1, checksum).0;
    var p3 := Parse(p2, rssi).0;
    h := Parse(p3, len).0;
    FeedQuiet(p3, len, []);
    FeedQuiet(p2, rssi, [len]);
    FeedQuiet(p1, checksum, [rssi, len]);
    FeedQuiet(p, MAGIC, [checksum, rssi, len]);
    assert Nones(4) == [None] + ([None] + ([None] + ([None] + [])));
    assert [len] + [] == [len] && [rssi] + [len] == [rssi, len];
    assert [checksum] + [rssi, len] == [checksum, rssi, len];
    assert [MAGIC] + [checksum, rssi, len] == [MAGIC, checksum, rssi, len];
  }

  /** Fewer data bytes than the frame is to have leave the parser in its data phase. */
  lemma {:induction false} DataUnfinished(p: Parser, ds: seq<Byte>)
    requires InBounds(p) && p.stage == DATA && p.index + 1 + |ds| < Max(p.len, 2)
    requires p.index + |ds| <= MAX_PAYLOAD - 1
    ensures Fits(p, ds)
    ensures var (q, out) := Feed(p, ds);
            q.stage == DATA && q.index == p.index + |ds| && q.len == p.len && |q.data| == |p.data| && out == Nones(|ds|)
    decreases |ds|
  {
    if ds != [] {
      var q, rest := Parse(p, ds[0]).0, ds[1..];
      assert ds == [ds[0]] + rest;
      if rest != [] || InBounds(q) {
        DataUnfinished(q, rest);
      }
      FeedQuiet(p, ds[0], rest);
      NonesOneMore(|rest|);
    }
  }

  /** Where the frames of this parser end: the payload of a frame with length byte len keeps inside the packet exactly
      when len is at most 32. A longer one has the parser about to store outside it after 32 bytes. */
  lemma LengthBound(p: Parser, checksum: Byte, rssi: Byte, len: Byte, payload: seq<Byte>)
    requires InBounds(p) && p.stage == SYNC && |payload| == Max(len, 2)
    ensures Fits(p, Bytes(checksum, rssi, len, payload)) <==> len <= MAX_PAYLOAD
  {
    if len <= MAX_PAYLOAD {
      FrameOutcome(p, checksum, rssi, len, payload);
    } else {
      var head, ds, over := [MAGIC, checksum, rssi, len, payload[0]], payload[1..MAX_PAYLOAD], payload[MAX_PAYLOAD..];
      var h := HeadFed(p, checksum, rssi, len, payload[0]);
      DataUnfinished(h, ds);
      FeedConcat(p, head, ds);
      assert Bytes(checksum, rssi, len, payload) == head + ds + over;
      if Fits(p, head + ds + over) {
        FitsSplit(p, head + ds, over);
      }
    }
  }

  lemma {:induction false} FitsSplit(p: Parser, a: seq<Byte>, b: seq<Byte>)
    requires Fits(p, a + b)
    ensures Fits(p, a) && Fits(Feed(p, a).0, b)
    decreases |a|
  {
    if a == [] {
      assert a + b == b;
    } else {
      assert (a + b)[1..] == a[1..] + b;
      FitsSplit(Parse(p, a[0]).0, a[1..], b);
    }
  }

  /** Between its first and its last byte no frame leaves the parser in SYNC, whatever the bytes are: a frame takes
      exactly 4 bytes of header and max(len, 2) of payload. */
  lemma NoEarlySync(p: Parser, checksum: Byte, rssi: Byte, len: Byte, payload: seq<Byte>, k: nat)
    requires InBounds(p) && p.stage == SYNC && len <= MAX_PAYLOAD && |payload| == Max(len, 2)
    requires 1 <= k < |payload| + 4
    ensures var bs := Bytes(checksum, rssi, len, payload)[..k]; Fits(p, bs) && Feed(p, bs).0.stage != SYNC
  {
    if k < 5 {
      var p1 := Parse(p, MAGIC).0;
      var p2 := Parse(p1, checksum).0;
      var p3 := Parse(p2, rssi).0;
      var bs := Bytes(checksum, rssi, len, payload)[..k];
      assert bs == [MAGIC] + [checksum, rssi, len][..k - 1];
      assert k > 1 ==> [checksum, rssi, len][..k - 1] == [checksum] + [rssi, len][..k - 2];
      assert k > 2 ==> [rssi, len][..k - 2] == [rssi] + [len][..k - 3];
      if k == 4 {
        FeedQuiet(p3, len, []);
        assert [len] + [] == [len][..1];
      }
      if k >= 3 {
        FeedQuiet(p2, rssi, [len][..k - 3]);
      }
      if k >= 2 {
        FeedQuiet(p1, checksum, [rssi, len][..k - 2]);
      }
      FeedQuiet(p, MAGIC, [checksum, rssi, len][..k - 1]);
      return;
    }
    var head, ds := [MAGIC, checksum, rssi, len, payload[0]], payload[1..k - 4];
    var h := HeadFed(p, checksum, rssi, len, payload[0]);
    DataUnfinished(h, ds);
    FeedConcat(p, head, ds);
    assert Bytes(checksum, rssi, len, payload)[..k] == head + ds;
  }

  /** How many frames were accepted. */
  function Accepted(out: seq<Option<Frame>>): nat {
    if out == [] then 0 else (if out[0].Some? then 1 else 0) + Accepted(out[1..])
  }

  /** How many frames ended, correct or not. */
  function Completed(p: Parser, bs: seq<Byte>): nat
    requires Fits(p, bs)
    decreases |bs|
  {
    if bs == [] then 0 else
    var q := Parse(p, bs[0]).0;
    (if p.stage == DATA && q.stage == SYNC then 1 else 0) + Completed(q, bs[1..])
  }

  /** Over any bytes: every frame that ends is either delivered or counted as an error, modulo the 32 bits of
      the counter. */
  lemma {:induction false} FramesAccounted(p: Parser, bs: seq<Byte>)
    requires Fits(p, bs) && p.errors < 0x1_0000_0000
    ensures var (q, out) := Feed(p, bs);
            && Accepted(out) <= Completed(p, bs)
            && q.errors == (p.errors + Completed(p, bs) - Accepted(out)) % 0x1_0000_0000
    decreases |bs|
  {
    if bs != [] {
      var q := Parse(p, bs[0]).0;
      FramesAccounted(q, bs[1..]);
      assert Feed(p, bs).1[1..] == Feed(q, bs[1..]).1;
      if q.errors != p.errors {
        ModuloStep(p.errors, Completed(q, bs[1..]) - Accepted(Feed(q, bs[1..]).1));
      }
    }
  }

  lemma ModuloStep(a: int, n: int)
    ensures ((a + 1) % 0x1_0000_0000 + n) % 0x1_0000_0000 == (a + 1 + n) % 0x1_0000_0000
  {
    var k := (a + 1) / 0x1_0000_0000;
    assert (a + 1) % 0x1_0000_0000 + n == a + 1 + n - k * 0x1_0000_0000;
    Shift(a + 1 + n, k);
  }

  lemma Shift(x: int, k: int)
    ensures (x - k * 0x1_0000_0000) % 0x1_0000_0000 == x % 0x1_0000_0000
  {
    var d := x / 0x1_0000_0000;
    assert x - k * 0x1_0000_0000 == (d - k) * 0x1_0000_0000 + x % 0x1_0000_0000;
  }
}
