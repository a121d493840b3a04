/** The byte-at-a-time frame parser of the serial link, and its partner, the frame builder of the radio driver. */
module Datalink {
  import opened Arithmetic
  import opened Kernel

  const MAGIC: Byte := 0xAA
  const MAX_PAYLOAD := 32
  const DATA_TYPE_BIND: Byte := 0x01

  datatype Stage = SYNC | CHECKSUM | RSSI | LEN | TYPE | DATA

  /** parse_state_t and the packet it fills; data is payload.data. */
  datatype Parser = Parser(stage: Stage, sum: Byte, index: nat, errors: nat,
                           checksum: Byte, rssi: Byte, len: Byte, kind: Byte, data: seq<Byte>)

  /** 8-bit addition, which wraps around. */
  function Add8(a: Byte, b: Byte): Byte {
    if a + b < 0x100 then a + b else a + b - 0x100
  }

  /** The byte about to be stored has a place in payload.data. */
  predicate InBounds(p: Parser) {
    |p.data| == MAX_PAYLOAD - 1 && (p.stage == DATA ==> p.index < |p.data|)
  }

  /** datalink_parse_char: the parser after the byte, and whether a frame is complete and correct. */
  function Parse(p: Parser, ch: Byte): (Parser, bool)
    requires InBounds(p)
  {
    match p.stage
    case SYNC => if ch == MAGIC then (p.(stage := CHECKSUM, index := 0, sum := 0), false) else (p, false)
    case CHECKSUM => (p.(checksum := ch, stage := RSSI), false)
    case RSSI => (p.(rssi := ch, stage := LEN), false)
    case LEN => (p.(len := ch, stage := TYPE), false)
    case TYPE => (p.(kind := ch, sum := Add8(p.sum, ch), stage := DATA), false)
    case DATA =>
      var q := p.(data := p.data[p.index := ch], index := p.index + 1, sum := Add8(p.sum, ch));
      if q.index + 1 < q.len then (q, false)
      else if q.sum != q.checksum then (q.(stage := SYNC, errors := (q.errors + 1) % 0x1_0000_0000), false)
      else (q.(stage := SYNC, sum := 0), true)
  }

  /** What the caller finds in the packet when a frame is complete. */
  datatype Frame = Frame(rssi: Byte, payload: seq<Byte>)

  function Found(p: Parser): Frame
    requires InBounds(p) && p.len <= MAX_PAYLOAD
  {
    Frame(p.rssi, ([p.kind] + p.data)[..p.len])
  }

  /** The parser stays in bounds over all of bs. */
  predicate Fits(p: Parser, bs: seq<Byte>)
    decreases |bs|
  {
    bs == [] || (InBounds(p) && Fits(Parse(p, bs[0]).0, bs[1..]))
  }

  /** The parser after bs, and for each byte the frame it completed, if any. */
  function Feed(p: Parser, bs: seq<Byte>): (r: (Parser, seq<Option<Frame>>))
    requires Fits(p, bs)
    ensures |r.1| == |bs|
    decreases |bs|
  {
    if bs == [] then (p, []) else
    var (q, ok) := Parse(p, bs[0]);
    var rest := Feed(q, bs[1..]);
    (rest.0, [if ok then Some(Found(q)) else None] + rest.1)
  }

  // ---- Checksums.

  /** The sum of the bytes, modulo 256. */
  function Sum(bs: seq<Byte>): Byte {
    if bs == [] then 0 else Add8(Sum(bs[..|bs| - 1]), bs[|bs| - 1])
  }

  /** The same as a number. */
  function Total(bs: seq<Byte>): nat {
    if bs == [] then 0 else Total(bs[..|bs| - 1]) + bs[|bs| - 1]
  }

  lemma {:induction false} SumIsTotal(bs: seq<Byte>)
    ensures Sum(bs) == Total(bs) % 0x100
  {
    if bs != [] {
      var t, b := Total(bs[..|bs| - 1]), bs[|bs| - 1];
      SumIsTotal(bs[..|bs| - 1]);
      var q := t / 0x100;
      assert t + b == q * 0x100 + (t % 0x100 + b);
      if t % 0x100 + b < 0x100 {
        ModuloIs(t + b, q, t % 0x100 + b);
      } else {
        ModuloIs(t + b, q + 1, t % 0x100 + b - 0x100);
      }
    }
  }

  lemma ModuloIs(x: nat, q: nat, r: Byte)
    requires x == q * 0x100 + r
    ensures x % 0x100 == r
  {
  }

  /** datalink_checksum. */
  method Checksum(data: seq<Byte>, len: nat) returns (checksum: Byte)
    requires len <= |data|
    ensures checksum == Sum(data[..len])
  {
    checksum := 0;
    var i := 0;
    while i < len
      invariant i <= len && checksum == Sum(data[..i])
    {
      checksum := Add8(checksum, data[i]);
      assert data[..i + 1][..i] == data[..i];
      i := i + 1;
    }
  }

  lemma AddAssociates(a: Byte, b: Byte, c: Byte)
    ensures Add8(Add8(a, b), c) == Add8(a, Add8(b, c))
  {
  }

  lemma SumOne(b: Byte)
    ensures Sum([b]) == b
  {
    assert [b][..0] == [];
  }

  lemma {:induction false} SumAppend(a: seq<Byte>, b: seq<Byte>)
    ensures Sum(a + b) == Add8(Sum(a), Sum(b))
  {
    if b == [] {
      assert a + b == a;
    } else {
      var c := b[..|b| - 1];
      SumAppend(a, c);
      assert (a + b)[..|a + b| - 1] == a + c;
      assert (a + b)[|a + b| - 1] == b[|b| - 1];
      AddAssociates(Sum(a), Sum(c), b[|b| - 1]);
    }
  }

  /** A single changed byte changes the sum. */
  lemma SumDetects(bs: seq<Byte>, i: nat, b: Byte)
    requires i < |bs| && b != bs[i]
    ensures Sum(bs[i := b]) != Sum(bs)
  {
    var l, r := bs[..i], bs[i + 1..];
    assert bs == l + [bs[i]] + r && bs[i := b] == l + [b] + r;
    SumAppend(l + [bs[i]], r);
    SumAppend(l + [b], r);
    SumAppend(l, [bs[i]]);
    SumAppend(l, [b]);
    SumOne(bs[i]);
    SumOne(b);
  }

  // ---- The parser over one frame.

  lemma {:induction false} FeedConcat(p: Parser, a: seq<Byte>, b: seq<Byte>)
    requires Fits(p, a) && Fits(Feed(p, a).0, b)
    ensures Fits(p, a + b)
    ensures Feed(p, a + b) == (Feed(Feed(p, a).0, b).0, Feed(p, a).1 + Feed(Feed(p, a).0, b).1)
    decreases |a|
  {
    if a == [] {
      assert a + b == b && Feed(p, a).1 + Feed(p, b).1 == Feed(p, b).1;
    } else {
      var q := Parse(p, a[0]).0;
      FeedConcat(q, a[1..], b);
      assert (a + b)[0] == a[0] && (a + b)[1..] == a[1..] + b;
      assert Feed(p, a).1 + Feed(Feed(p, a).0, b).1
        == [Feed(p, a).1[0]] + (Feed(q, a[1..]).1 + Feed(Feed(p, a).0, b).1);
    }
  }

  function Nones(n: nat): seq<Option<Frame>> {
    seq(n, _ => None)
  }

  /** A byte that completes nothing, in front of bytes already understood. */
  lemma FeedQuiet(p: Parser, ch: Byte, bs: seq<Byte>)
    requires InBounds(p) && !Parse(p, ch).1 && Fits(Parse(p, ch).0, bs)
    ensures Fits(p, [ch] + bs)
    ensures Feed(p, [ch] + bs) == (Feed(Parse(p, ch).0, bs).0, [None] + Feed(Parse(p, ch).0, bs).1)
  {
    assert ([ch] + bs)[1..] == bs;
  }

  /** What the data phase of a frame ends with. */
  ghost predicate Ended(p: Parser, ds: seq<Byte>, q: Parser, out: seq<Option<Frame>>)
    requires InBounds(q) && q.len <= MAX_PAYLOAD && |ds| > 0
  {
    && q.stage == SYNC && q.rssi == p.rssi && q.len == p.len && q.kind == p.kind
    && (if Add8(p.sum, Sum(ds)) == p.checksum
        then q.errors == p.errors && out == Nones(|ds| - 1) + [Some(Found(q))]
        else q.errors == (p.errors + 1) % 0x1_0000_0000 && out == Nones(|ds|))
  }

  /** The data bytes of a frame: exactly the last of them ends it, and the checksum decides how. */
  lemma {:induction false} DataPhase(p: Parser, ds: seq<Byte>)
    requires InBounds(p) && p.stage == DATA && p.len <= MAX_PAYLOAD
    requires |ds| > 0 && p.index + 1 + |ds| == Max(p.len, 2)
    ensures Fits(p, ds) && InBounds(Feed(p, ds).0) && Feed(p, ds).0.len == p.len
    ensures Ended(p, ds, Feed(p, ds).0, Feed(p, ds).1)
    decreases |ds|
  {
    var q, rest := Parse(p, ds[0]).0, ds[1..];
    assert ds == [ds[0]] + rest;
    if rest == [] {
      SumOne(ds[0]);
      assert Nones(1) == [None] && Nones(0) == [];
      assert Feed(q, []) == (q, []);
      assert Feed(p, ds).1 == [if Parse(p, ds[0]).1 then Some(Found(q)) else None];
    } else {
      DataPhase(q, rest);
      FeedQuiet(p, ds[0], rest);
      SumAppend([ds[0]], rest);
      SumOne(ds[0]);
      AddAssociates(p.sum, ds[0], Sum(rest));
      NonesOneMore(|rest|);
      NonesOneMore(|rest| - 1);
      var r := Feed(q, rest).0;
      assert [None] + (Nones(|rest| - 1) + [Some(Found(r))]) == Nones(|rest|) + [Some(Found(r))];
    }
  }

  /** And they are stored one behind the other. */
  lemma {:induction false} DataStored(p: Parser, ds: seq<Byte>)
    requires InBounds(p) && p.stage == DATA && p.len <= MAX_PAYLOAD
    requires |ds| > 0 && p.index + 1 + |ds| == Max(p.len, 2)
    ensures Fits(p, ds)
    ensures Feed(p, ds).0.data == p.data[..p.index] + ds + p.data[p.index + |ds|..]
    decreases |ds|
  {
    var q, rest := Parse(p, ds[0]).0, ds[1..];
    assert ds == [ds[0]] + rest;
    if rest == [] {
      assert Feed(q, []) == (q, []);
      assert q.data == p.data[..p.index] + ds + p.data[p.index + 1..];
    } else {
      DataStored(q, rest);
      FeedQuiet(p, ds[0], rest);
      assert q.data[..q.index] == p.data[..p.index] + [ds[0]];
      assert q.data[q.index + |rest|..] == p.data[p.index + |ds|..];
      assert p.data[..p.index] + ds == p.data[..p.index] + [ds[0]] + rest;
    }
  }

  lemma NonesOneMore(n: nat)
    ensures Nones(n + 1) == [None] + Nones(n)
  {
  }

  /** The bytes of a frame: whatever header, then the payload. */
  function Bytes(checksum: Byte, rssi: Byte, len: Byte, payload: seq<Byte>): seq<Byte> {
    [MAGIC, checksum, rssi, len] + payload
  }

  /** Any frame whose len is at most 32, its payload as long as the parser takes it to be: the parser is
      back in SYNC after its last byte and not before, delivers it exactly if the checksum is the sum of
      the payload, and otherwise counts one error. */
  lemma FrameOutcome(p: Parser, checksum: Byte, rssi: Byte, len: Byte, payload: seq<Byte>)
    requires InBounds(p) && p.stage == SYNC && len <= MAX_PAYLOAD && |payload| == Max(len, 2)
    ensures Fits(p, Bytes(checksum, rssi, len, payload))
    ensures var (q, out) := Feed(p, Bytes(checksum, rssi, len, payload));
            && InBounds(q) && q.stage == SYNC
            && (if Sum(payload) == checksum
                then q.errors == p.errors && out == Nones(|payload| + 3) + [Some(Frame(rssi, payload[..len]))]
                else q.errors == (p.errors + 1) % 0x1_0000_0000 && out == Nones(|payload| + 4))
  {
    var h, q, out := Parsed(p, checksum, rssi, len, payload);
    var ds := payload[1..];
    DataPhase(h, ds);
    PayloadFound(h, q, payload);
    PayloadSum(payload);
    NonesJoin(5, |ds|);
    NonesJoin(5, |ds| - 1);
    assert Nones(5) + (Nones(|ds| - 1) + [Some(Found(q))]) == Nones(5) + Nones(|ds| - 1) + [Some(Found(q))];
  }

  lemma NonesJoin(m: nat, n: nat)
    ensures Nones(m) + Nones(n) == Nones(m + n)
  {
  }

  lemma PayloadSum(payload: seq<Byte>)
    requires payload != []
    ensures Sum(payload) == Add8(payload[0], Sum(payload[1..]))
  {
    SumAppend([payload[0]], payload[1..]);
    SumOne(payload[0]);
    assert payload == [payload[0]] + payload[1..];
  }

  lemma PayloadFound(h: Parser, q: Parser, payload: seq<Byte>)
    requires InBounds(h) && h.stage == DATA && h.index == 0 && h.len <= MAX_PAYLOAD
    requires |payload| == Max(h.len, 2) && h.kind == payload[0]
    requires Fits(h, payload[1..]) && q == Feed(h, payload[1..]).0 && InBounds(q)
    requires q.rssi == h.rssi && q.kind == h.kind && q.len == h.len
    ensures Found(q) == Frame(h.rssi, payload[..h.len])
  {
    DataStored(h, payload[1..]);
    assert h.data[..0] + payload[1..] == payload[1..];
    assert ([q.kind] + q.data)[..h.len] == payload[..h.len];
  }

  /** The frame in two parts: the bytes up to the type, then the data. */
  lemma Parsed(p: Parser, checksum: Byte, rssi: Byte, len: Byte, payload: seq<Byte>)
    returns (h: Parser, q: Parser, out: seq<Option<Frame>>)
    requires InBounds(p) && p.stage == SYNC && len <= MAX_PAYLOAD && |payload| == Max(len, 2)
    ensures h == Parser(DATA, payload[0], 0, p.errors, checksum, rssi, len, payload[0], p.data)
    ensures Fits(h, payload[1..]) && (q, out) == Feed(h, payload[1..])
    ensures Fits(p, Bytes(checksum, rssi, len, payload))
    ensures Feed(p, Bytes(checksum, rssi, len, payload)) == (q, Nones(5) + out)
  {
    var head, ds := [MAGIC, checksum, rssi, len, payload[0]], payload[1..];
    h := HeadFed(p, checksum, rssi, len, payload[0]);
    DataPhase(h, ds);
    FeedConcat(p, head, ds);
    assert Bytes(checksum, rssi, len, payload) == head + ds;
    q, out := Feed(h, ds).0, Feed(h, ds).1;
  }

  /** The header and the type byte. */
  lemma HeadFed(p: Parser, checksum: Byte, rssi: Byte, len: Byte, kind: Byte) returns (h: Parser)
    requires InBounds(p) && p.stage == SYNC
    ensures var head := [MAGIC, checksum, rssi, len, kind]; Fits(p, head) && Feed(p, head) == (h, Nones(5))
    ensures h == Parser(DATA, kind, 0, p.errors, checksum, rssi, len, kind, p.data)
  {
    var p1 := Parse(p, MAGIC).0;
    var p2 := Parse(p1, checksum).0;
    var p3 := Parse(p2, rssi).0;
    var p4 := Parse(p3, len).0;
    h := Parse(p4, kind).0;
    FeedQuiet(p4, kind, []);
    FeedQuiet(p3, len, [kind]);
    FeedQuiet(p2, rssi, [len, kind]);
    FeedQuiet(p1, checksum, [rssi, len, kind]);
    FeedQuiet(p, MAGIC, [checksum, rssi, len, kind]);
    assert Nones(5) == [None] + ([None] + ([None] + ([None] + ([None] + []))));
    assert [kind] + [] == [kind];
    assert [len] + [kind] == [len, kind];
    assert [rssi] + [len, kind] == [rssi, len, kind];
    assert [checksum] + [rssi, len, kind] == [checksum, rssi, len, kind];
    assert [MAGIC] + [checksum, rssi, len, kind] == [MAGIC, checksum, rssi, len, kind];
  }
}
