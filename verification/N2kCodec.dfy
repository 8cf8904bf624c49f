/** The bytes on the bus: 29-bit identifiers (SAE J1939-21), fast-packet framing, and the route list
    message 129285 with its chunking. */
module N2kCodec {
  import opened Options

  type Byte = b: int | 0 <= b < 256

  // ---- identifiers -------------------------------------------------------------------------------

  /** priority (3) | EDP, DP (2) | PF (8) | PS (8) | SA (8); a PDU1 id carries the destination in PS. */
  function CanId(pgn: bv32, sa: bv32, prio: bv32, dest: bv32): bv32 {
    var p := pgn & 0x3FFFF;
    var dp := (p >> 16) & 0x3;
    var pf := (p >> 8) & 0xFF;
    var ps := if pf >= 240 then p & 0xFF else dest & 0xFF;
    ((prio & 0x7) << 26) | (dp << 24) | (pf << 16) | (ps << 8) | (sa & 0xFF)
  }

  function PgnOf(cid: bv32): bv32 {
    var c := cid & 0x1FFFFFFF;
    var dp := (c >> 24) & 0x3;
    var pf := (c >> 16) & 0xFF;
    var ps := (c >> 8) & 0xFF;
    (dp << 16) | (pf << 8) | (if pf >= 240 then ps else 0)
  }

  /** Every field comes back out of the id: a PGN is recovered EXACTLY WHEN it is PDU2, or PDU1 with a
      zero low byte. */
  lemma IdRoundTrip(pgn: bv32, sa: bv32, prio: bv32, dest: bv32)
    requires pgn <= 0x3FFFF && sa <= 0xFF && prio <= 7 && dest <= 0xFF
    ensures PgnOf(CanId(pgn, sa, prio, dest)) == pgn <==> ((pgn >> 8) & 0xFF >= 240 || pgn & 0xFF == 0)
    ensures CanId(pgn, sa, prio, dest) & 0xFF == sa
    ensures (CanId(pgn, sa, prio, dest) >> 26) & 0x7 == prio
    ensures (pgn >> 8) & 0xFF < 240 ==> (CanId(pgn, sa, prio, dest) >> 8) & 0xFF == dest
    ensures CanId(pgn, sa, prio, dest) <= 0x1FFFFFFF
  {
  }

  /** Where they stand: the data pages and the format next to the priority, and then the group extension
      or the destination. */
  lemma IdFields(pgn: bv32, sa: bv32, prio: bv32, dest: bv32)
    requires pgn <= 0x3FFFF && sa <= 0xFF && prio <= 7 && dest <= 0xFF
    ensures (CanId(pgn, sa, prio, dest) >> 16) & 0x3FF == pgn >> 8
    ensures (pgn >> 8) & 0xFF >= 240 ==> (CanId(pgn, sa, prio, dest) >> 8) & 0xFF == pgn & 0xFF
  {
  }

  // ---- fast packet ---------------------------------------------------------------------------------

  /** One 8-byte frame: a sequence counter (3 bits) and frame counter (5 bits), then data, padded 0xFF. */
  datatype Frame = Frame(header: int, data: seq<int>)

  function Pad(data: seq<int>, n: nat): seq<int>
    requires |data| <= n
  {
    data + seq(n - |data|, i => 0xFF)
  }

  /** The frames after the first: 7 data bytes each, counted from `n`. */
  function Tail(order: int, n: nat, rest: seq<int>): seq<Frame>
    decreases |rest|
  {
    if rest == [] then []
    else if |rest| <= 7 then [Frame(order * 32 + n, Pad(rest, 7))]
    else [Frame(order * 32 + n, rest[..7])] + Tail(order, n + 1, rest[7..])
  }

  /** The first frame: counter 0, the length, 6 data bytes. */
  function FastPacket(order: int, data: seq<int>): seq<Frame> {
    var first := if |data| <= 6 then Pad(data, 6) else data[..6];
    [Frame(order * 32, [|data|] + first)] + (if |data| <= 6 then [] else Tail(order, 1, data[6..]))
  }

  function Joined(frames: seq<Frame>): seq<int> {
    if frames == [] then [] else frames[0].data + Joined(frames[1..])
  }

  /** A receiver: take the length from the first frame, then that many of the bytes that follow. */
  function Reassemble(frames: seq<Frame>): Option<seq<int>> {
    if frames == [] || frames[0].data == [] then None
    else
      var length := frames[0].data[0];
      var bytes := frames[0].data[1..] + Joined(frames[1..]);
      if 0 <= length <= |bytes| then Some(bytes[..length]) else None
  }

  lemma {:induction false} TailJoins(order: int, n: nat, rest: seq<int>)
    ensures rest <= Joined(Tail(order, n, rest))
    ensures forall b :: b in Joined(Tail(order, n, rest))[|rest|..] ==> b == 0xFF
    decreases |rest|
  {
    if |rest| > 7 {
      TailJoins(order, n + 1, rest[7..]);
      var t := Tail(order, n, rest);
      assert t[1..] == Tail(order, n + 1, rest[7..]);
      assert rest == rest[..7] + rest[7..];
      assert Joined(t)[|rest|..] == Joined(t[1..])[|rest[7..]|..];
    } else if rest != [] {
      var t := Tail(order, n, rest);
      assert t[1..] == [];
      assert Joined(t) == Pad(rest, 7) + [];
    }
  }

  lemma {:induction false} TailShape(order: int, n: nat, rest: seq<int>)
    ensures |Tail(order, n, rest)| == (|rest| + 6) / 7
    ensures forall i :: 0 <= i < |Tail(order, n, rest)| ==>
              Tail(order, n, rest)[i].header == order * 32 + n + i && |Tail(order, n, rest)[i].data| == 7
    decreases |rest|
  {
    if |rest| > 7 {
      TailShape(order, n + 1, rest[7..]);
      assert Tail(order, n, rest)[1..] == Tail(order, n + 1, rest[7..]);
      assert |rest| == 7 + |rest[7..]|;
    }
  }

  /** The bytes after the length start with the payload. */
  lemma PayloadLeads(order: int, data: seq<int>)
    ensures data <= FastPacket(order, data)[0].data[1..] + Joined(FastPacket(order, data)[1..])
    ensures forall b :: b in (FastPacket(order, data)[0].data[1..] + Joined(FastPacket(order, data)[1..]))[|data|..] ==>
                          b == 0xFF
  {
    var frames := FastPacket(order, data);
    if |data| > 6 {
      TailJoins(order, 1, data[6..]);
      assert frames[1..] == Tail(order, 1, data[6..]);
      assert frames[0].data[1..] == data[..6];
      assert data == data[..6] + data[6..];
      assert (data[..6] + Joined(frames[1..]))[|data|..] == Joined(frames[1..])[|data[6..]|..];
    } else {
      assert frames[1..] == [];
      assert frames[0].data[1..] == Pad(data, 6);
    }
  }

  /** Any payload comes back from frames of 8 bytes whose counters run 0, 1, 2, ...: the length, the payload
      and 0xFF to the end of the last frame. All the counters fit 5 bits EXACTLY WHEN the payload is at most
      223 bytes. */
  lemma FastPacketRoundTrip(order: int, data: seq<int>)
    ensures Reassemble(FastPacket(order, data)) == Some(data)
    ensures exists pad: seq<int> ::
              Joined(FastPacket(order, data)) == [|data|] + data + pad && forall b :: b in pad ==> b == 0xFF
    ensures forall f :: f in FastPacket(order, data) ==> 1 + |f.data| == 8
    ensures forall i :: 0 <= i < |FastPacket(order, data)| ==> FastPacket(order, data)[i].header == order * 32 + i
    ensures |FastPacket(order, data)| <= 32 <==> |data| <= 223
  {
    var frames := FastPacket(order, data);
    PayloadLeads(order, data);
    var bytes := frames[0].data[1..] + Joined(frames[1..]);
    assert frames[0].data[0] == |data| && bytes[..|data|] == data;
    assert Joined(frames) == [|data|] + bytes == [|data|] + data + bytes[|data|..];
    if |data| > 6 {
      TailShape(order, 1, data[6..]);
      assert frames[1..] == Tail(order, 1, data[6..]);
    }
  }

  /** The loop that sends them, from one sequence counter per PGN. */
  method SendFastPacket(order: int, data: seq<int>) returns (frames: seq<Frame>)
    ensures frames == FastPacket(order, data)
  {
    var first := if |data| <= 6 then Pad(data, 6) else data[..6];
    frames := [Frame(order * 32, [|data|] + first)];
    var rest := if |data| <= 6 then [] else data[6..];
    var n := 1;
    while rest != []
      invariant 1 <= n && FastPacket(order, data) == frames + Tail(order, n, rest)
      decreases |rest|
    {
      ghost var was := frames;
      var chunk := if |rest| <= 7 then Pad(rest, 7) else rest[..7];
      frames := frames + [Frame(order * 32 + n, chunk)];
      var left := if |rest| <= 7 then [] else rest[7..];
      assert Tail(order, n, rest) == [Frame(order * 32 + n, chunk)] + Tail(order, n + 1, left);
      rest := if |rest| <= 7 then [] else rest[7..];
      n := n + 1;
      assert frames + Tail(order, n, rest) == was + ([Frame(order * 32 + n - 1, chunk)] + Tail(order, n, rest));
    }
  }

  // ---- the route list -----------------------------------------------------------------------------

  const MAX_PAYLOAD := 223
  const U16 := 0x1_0000
  const NA_I32 := 0x7FFF_FFFF

  /** A waypoint row; a coordinate is absent, or already scaled to 1e-7 degrees. */
  datatype Waypoint = Waypoint(id: int, name: seq<int>, lat: Option<int>, lon: Option<int>)

  /** A repeating row as a receiver reads it. */
  datatype Item = Item(id: int, name: seq<int>, lat: Option<int>, lon: Option<int>)

  datatype RouteList = RouteList(start: int, route: seq<int>, items: seq<Item>)

  /** The encoder's outcomes: bytes, a field the packer refuses, or a message over the cap. */
  datatype Encoding = Encoded(data: seq<int>) | Unpackable | TooLarge

  function Le16(v: int): seq<int> { [v % 256, v / 256 % 256] }

  function Le32(v: int): seq<int> { [v % 256, v / 256 % 256, v / 0x1_0000 % 256, v / 0x100_0000 % 256] }

  function ReadU16(s: seq<int>): int
    requires |s| >= 2
  {
    s[0] + 256 * s[1]
  }

  function ReadI32(s: seq<int>): int
    requires |s| >= 4
  {
    var u := ReadU16(s) + 0x1_0000 * ReadU16(s[2..]);
    if u >= 0x8000_0000 then u - 0x1_0000_0000 else u
  }

  /** Clamped so that a present coordinate never reads as "not available". */
  function Clamped(v: int): int {
    if v > 0x7FFF_FFFE then 0x7FFF_FFFE else if v < -0x7FFF_FFFF then -0x7FFF_FFFF else v
  }

  function Coordinate(deg: Option<int>): int {
    match deg
    case None => NA_I32
    case Some(v) => Clamped(v)
  }

  function ReadCoordinate(v: int): Option<int> { if v == NA_I32 then None else Some(v) }

  /** The first `n` characters, each replaced by `?` when it is not ASCII. */
  function Ascii(name: seq<int>, n: nat): (r: seq<int>)
    ensures |r| == if |name| <= n then |name| else n
  {
    if name == [] || n == 0 then [] else [if 0 <= name[0] < 128 then name[0] else 63] + Ascii(name[1..], n - 1)
  }

  function Plain(name: seq<int>): seq<int> { Ascii(name, 16) }

  /** A string behind its total length and the ASCII mark. */
  function Lau(name: seq<int>): seq<int> { [|Plain(name)| + 2, 1] + Plain(name) }

  function Row(w: Waypoint): seq<int> {
    Le16(w.id) + Lau(w.name) + Le32(Coordinate(w.lat)) + Le32(Coordinate(w.lon))
  }

  function Rows(ws: seq<Waypoint>): seq<int> {
    if ws == [] then [] else Row(ws[0]) + Rows(ws[1..])
  }

  /** Start, count, database 1, route 1, and the flags. */
  function Fixed(start: int, count: int): seq<int> {
    Le16(start) + Le16(count) + Le16(1) + Le16(1) + [0xE0]
  }

  function Header(routeName: seq<int>, start: int, count: int): seq<int> {
    Fixed(start, count) + Lau(routeName) + [0xFF]
  }

  /** What an unsigned 16-bit field can hold. */
  predicate FitsU16(v: int) { 0 <= v < U16 }

  predicate Packs(start: int, ws: seq<Waypoint>) {
    FitsU16(start) && FitsU16(|ws|) && forall i :: 0 <= i < |ws| ==> FitsU16(ws[i].id)
  }

  function Message(routeName: seq<int>, start: int, ws: seq<Waypoint>): seq<int> {
    Header(routeName, start, |ws|) + Rows(ws)
  }

  /** The packer refuses a field before the size is looked at. */
  method EncodeRouteList(routeName: seq<int>, ws: seq<Waypoint>, start: int) returns (r: Encoding)
    ensures r.Unpackable? <==> !Packs(start, ws)
    ensures r.TooLarge? ==> |Message(routeName, start, ws)| > 223
    ensures r.Encoded? ==> r.data == Message(routeName, start, ws) && |r.data| <= 223
  {
    if !FitsU16(start) || !FitsU16(|ws|) { return Unpackable; }
    var data := Header(routeName, start, |ws|);
    for i := 0 to |ws|
      invariant forall j :: 0 <= j < i ==> FitsU16(ws[j].id)
      invariant data + Rows(ws[i..]) == Message(routeName, start, ws)
    {
      if !FitsU16(ws[i].id) { return Unpackable; }
      assert ws[i..][1..] == ws[i + 1..];
      assert data + Rows(ws[i..]) == (data + Row(ws[i])) + Rows(ws[i + 1..]);
      data := data + Row(ws[i]);
    }
    r := if |data| > MAX_PAYLOAD then TooLarge else Encoded(data);
  }

  // ---- a receiver of the route list ------------------------------------------------------------------

  /** A string and what follows it. */
  function ReadLau(s: seq<int>): Option<(seq<int>, seq<int>)> {
    if |s| >= 2 && s[1] == 1 && 2 <= s[0] <= |s| then Some((s[2..s[0]], s[s[0]..])) else None
  }

  function ReadRow(s: seq<int>): Option<(Item, seq<int>)> {
    if |s| < 2 then None else
      match ReadLau(s[2..])
      case None => None
      case Some((name, more)) =>
        if |more| < 8 then None
        else Some((Item(ReadU16(s), name, ReadCoordinate(ReadI32(more)), ReadCoordinate(ReadI32(more[4..]))),
                   more[8..]))
  }

  function ReadRows(s: seq<int>, n: nat): Option<seq<Item>> {
    if n == 0 then Some([]) else
      match ReadRow(s)
      case None => None
      case Some((item, more)) =>
        match ReadRows(more, n - 1)
        case None => None
        case Some(items) => Some([item] + items)
  }

  function ReadRouteList(s: seq<int>): Option<RouteList> {
    if |s| < 9 then None else
      match ReadLau(s[9..])
      case None => None
      case Some((route, more)) =>
        if more == [] || ReadU16(s[2..]) < 0 then None else
          match ReadRows(more[1..], ReadU16(s[2..]))
          case None => None
          case Some(items) => Some(RouteList(ReadU16(s), route, items))
  }

  /** What a receiver should see of a row. */
  function Seen(w: Waypoint): Item {
    Item(w.id, Plain(w.name),
         if w.lat.None? then None else Some(Clamped(w.lat.value)),
         if w.lon.None? then None else Some(Clamped(w.lon.value)))
  }

  function SeenAll(ws: seq<Waypoint>): seq<Item> {
    seq(|ws|, i requires 0 <= i < |ws| => Seen(ws[i]))
  }

  lemma U16RoundTrip(v: int)
    requires FitsU16(v)
    ensures ReadU16(Le16(v)) == v
  {
  }

  /** The low half first. */
  lemma Le32Halves(v: int)
    ensures Le32(v) == Le16(v % 0x1_0000) + Le16(v / 0x1_0000 % 0x1_0000)
  {
    Digit(v);
    Digit(v / 0x1_0000);
    assert v / 0x1_0000 / 256 == v / 0x100_0000;
  }

  lemma Digit(v: int)
    ensures v % 0x1_0000 % 256 == v % 256 && v % 0x1_0000 / 256 % 256 == v / 256 % 256
  {
    assert v / 256 == 256 * (v / 0x1_0000) + v % 0x1_0000 / 256;
  }

  lemma Le32RoundTrip(v: int)
    requires -0x8000_0000 <= v < 0x8000_0000
    ensures ReadI32(Le32(v)) == v
  {
    var lo, hi := v % 0x1_0000, v / 0x1_0000 % 0x1_0000;
    Le32Halves(v);
    U16RoundTrip(lo);
    U16RoundTrip(hi);
    assert Le32(v)[2..] == Le16(hi);
    assert v == 0x1_0000 * (v / 0x1_0000) + lo && -0x8000 <= v / 0x1_0000 < 0x8000;
  }

  lemma I32RoundTrip(deg: Option<int>)
    ensures ReadCoordinate(ReadI32(Le32(Coordinate(deg)))) == (if deg.None? then None else Some(Clamped(deg.value)))
  {
    Le32RoundTrip(Coordinate(deg));
  }

  lemma LauRoundTrip(name: seq<int>, more: seq<int>)
    ensures ReadLau(Lau(name) + more) == Some((Plain(name), more))
  {
    var s := Lau(name) + more;
    assert s[2..s[0]] == Plain(name) && s[s[0]..] == more;
  }

  lemma RowRoundTrip(w: Waypoint, more: seq<int>)
    requires FitsU16(w.id)
    ensures ReadRow(Row(w) + more) == Some((Seen(w), more))
  {
    var lat, lon := Le32(Coordinate(w.lat)), Le32(Coordinate(w.lon));
    var s, after := Row(w) + more, lat + lon + more;
    assert s[2..] == Lau(w.name) + after;
    LauRoundTrip(w.name, after);
    U16RoundTrip(w.id);
    assert s[0] == Le16(w.id)[0] && s[1] == Le16(w.id)[1];
    assert after[8..] == more && after[..4] == lat && after[4..][..4] == lon;
    Prefix4(after);
    Prefix4(after[4..]);
    I32RoundTrip(w.lat);
    I32RoundTrip(w.lon);
  }

  lemma Prefix4(s: seq<int>)
    requires |s| >= 4
    ensures ReadI32(s) == ReadI32(s[..4])
  {
  }

  lemma {:induction false} RowsRoundTrip(ws: seq<Waypoint>)
    requires forall i :: 0 <= i < |ws| ==> FitsU16(ws[i].id)
    ensures ReadRows(Rows(ws), |ws|) == Some(SeenAll(ws))
  {
    if ws != [] {
      RowRoundTrip(ws[0], Rows(ws[1..]));
      RowsRoundTrip(ws[1..]);
      assert SeenAll(ws) == [Seen(ws[0])] + SeenAll(ws[1..]);
    }
  }

  lemma FixedReads(start: int, count: int, rest: seq<int>)
    requires FitsU16(start) && FitsU16(count)
    ensures |Fixed(start, count)| == 9 && (Fixed(start, count) + rest)[9..] == rest
    ensures ReadU16(Fixed(start, count) + rest) == start
    ensures ReadU16((Fixed(start, count) + rest)[2..]) == count
  {
    var s := Fixed(start, count) + rest;
    U16RoundTrip(start);
    U16RoundTrip(count);
    assert s[0] == Le16(start)[0] && s[1] == Le16(start)[1];
    assert s[2..][0] == Le16(count)[0] && s[2..][1] == Le16(count)[1];
  }

  /** A message that packs reads back as its start, its route name and its waypoints. */
  lemma RouteListRoundTrip(routeName: seq<int>, start: int, ws: seq<Waypoint>)
    requires Packs(start, ws)
    ensures ReadRouteList(Message(routeName, start, ws)) == Some(RouteList(start, Plain(routeName), SeenAll(ws)))
  {
    var tail := [0xFF] + Rows(ws);
    var rest := Lau(routeName) + tail;
    assert Message(routeName, start, ws) == Fixed(start, |ws|) + rest;
    FixedReads(start, |ws|, rest);
    LauRoundTrip(routeName, tail);
    assert tail[1..] == Rows(ws);
    RowsRoundTrip(ws);
  }

  lemma {:induction false} AsciiAt(name: seq<int>, n: nat, i: nat)
    requires i < |name| && i < n
    ensures Ascii(name, n)[i] == if 0 <= name[i] < 128 then name[i] else 63
  {
    if i > 0 {
      AsciiAt(name[1..], n - 1, i - 1);
    }
  }

  lemma PlainIs(name: seq<int>)
    ensures |Plain(name)| == if |name| <= 16 then |name| else 16
    ensures forall i :: 0 <= i < |Plain(name)| ==> Plain(name)[i] == if 0 <= name[i] < 128 then name[i] else 63
  {
    forall i | 0 <= i < |Plain(name)|
      ensures Plain(name)[i] == if 0 <= name[i] < 128 then name[i] else 63
    {
      AsciiAt(name, 16, i);
    }
  }

  /** The bytes of the head, at their places: the numbers with the low byte first, database 1, route 1,
      the flags, the name behind its length and the ASCII mark, and the reserved byte. */
  lemma HeadBytes(routeName: seq<int>, start: int, ws: seq<Waypoint>)
    requires Packs(start, ws)
    ensures Message(routeName, start, ws) ==
            Fixed(start, |ws|) + [|Plain(routeName)| + 2, 1] + Plain(routeName) + [0xFF] + Rows(ws)
    ensures var f := Fixed(start, |ws|);
            && |f| == 9 && f[0] + 256 * f[1] == start && f[2] + 256 * f[3] == |ws|
            && f[4] == 1 && f[5] == 0 && f[6] == 1 && f[7] == 0 && f[8] == 0xE0
            && forall i :: 0 <= i < 9 ==> 0 <= f[i] < 256
  {
    U16RoundTrip(start);
    U16RoundTrip(|ws|);
  }

  /** And those of a row: its number, its name, then latitude before longitude. */
  lemma RowBytes(w: Waypoint)
    requires FitsU16(w.id)
    ensures Row(w) == Le16(w.id) + [|Plain(w.name)| + 2, 1] + Plain(w.name)
                      + Le32(Coordinate(w.lat)) + Le32(Coordinate(w.lon))
    ensures var b := Le16(w.id); |b| == 2 && 0 <= b[0] < 256 && 0 <= b[1] < 256 && b[0] + 256 * b[1] == w.id
  {
  }

  /** Four bytes that add up, the low one first, to `v`, modulo 2^32. */
  lemma Le32Bytes(v: int)
    requires -0x8000_0000 <= v < 0x8000_0000
    ensures var b := Le32(v);
            && |b| == 4 && (forall i :: 0 <= i < 4 ==> 0 <= b[i] < 256)
            && b[0] + 0x100 * b[1] + 0x1_0000 * b[2] + 0x100_0000 * b[3] == if v < 0 then v + 0x1_0000_0000 else v
  {
    var lo, hi := v % 0x1_0000, v / 0x1_0000 % 0x1_0000;
    Le32Halves(v);
    U16RoundTrip(lo);
    U16RoundTrip(hi);
    var b := Le32(v);
    assert b[..2] == Le16(lo) && b[2..] == Le16(hi);
    assert b[0] + 256 * b[1] == lo && b[2] + 256 * b[3] == hi;
    assert v == 0x1_0000 * (v / 0x1_0000) + lo && -0x8000 <= v / 0x1_0000 < 0x8000;
  }

  // ---- chunking -----------------------------------------------------------------------------------------

  /** A waypoint as the caller names it; its name may be missing or empty. */
  datatype Named = Named(name: Option<seq<int>>, lat: Option<int>, lon: Option<int>)

  function Digits(n: nat): seq<int> {
    if n < 10 then [48 + n] else Digits(n / 10) + [48 + n % 10]
  }

  /** What decimal digits stand for. */
  function Decimal(digits: seq<int>): int {
    if digits == [] then 0 else 10 * Decimal(digits[..|digits| - 1]) + digits[|digits| - 1] - 48
  }

  lemma {:induction false} DigitsStandFor(n: nat)
    ensures Decimal(Digits(n)) == n && |Digits(n)| >= 1
    ensures forall d :: d in Digits(n) ==> 48 <= d <= 57
    ensures n > 0 ==> Digits(n)[0] != 48
  {
    if n >= 10 {
      DigitsStandFor(n / 10);
      assert Digits(n)[..|Digits(n)| - 1] == Digits(n / 10);
    } else {
      assert Decimal([]) == 0;
    }
  }

  function Power10(k: nat): nat { if k == 0 then 1 else 10 * Power10(k - 1) }

  lemma {:induction false} FewDigits(n: nat, k: nat)
    requires k >= 1 && n < Power10(k)
    ensures |Digits(n)| <= k
  {
    if n >= 10 {
      FewDigits(n / 10, k - 1);
    }
  }

  /** WP and the number, in at least two digits and without other leading zeros. */
  lemma DefaultNameIs(i: nat)
    requires i < U16
    ensures var name := DefaultName(i);
            && 4 <= |name| <= 16 && name[0] == 87 && name[1] == 80
            && (forall j :: 2 <= j < |name| ==> 48 <= name[j] <= 57)
            && Decimal(name[2..]) == i + 1 && (|name| > 4 ==> name[2] != 48)
  {
    var digits := Digits(i + 1);
    DigitsStandFor(i + 1);
    FewDigits(i + 1, 5);
    var name := DefaultName(i);
    if i + 1 < 10 {
      assert name[2..] == [48] + digits && digits == [48 + i + 1];
      assert name[2..][..1] == [48] && name[2..][..1][..0] == [];
      assert Decimal([48]) == 0;
    } else {
      assert name[2..] == digits;
      assert |digits| == |Digits((i + 1) / 10)| + 1 >= 2;
      forall j | 2 <= j < |name| ensures 48 <= name[j] <= 57 {
        assert name[j] == digits[j - 2] && digits[j - 2] in digits;
      }
    }
  }

  /** WP01, WP02, ... */
  function DefaultName(i: nat): seq<int> {
    [87, 80] + (if i + 1 < 10 then [48] else []) + Digits(i + 1)
  }

  function Numbered(wpts: seq<Named>): seq<Waypoint> {
    seq(|wpts|, i requires 0 <= i < |wpts| =>
      Waypoint(i, if wpts[i].name.None? || wpts[i].name.value == [] then DefaultName(i) else wpts[i].name.value,
               wpts[i].lat, wpts[i].lon))
  }

  /** What the receiver should read of the waypoint at place `i`: that number; its own latitude and its own
      longitude, held between -0x7FFFFFFF and 0x7FFFFFFE, or absent; the first 16 characters of its name with
      `?` for each that is not ASCII; and for a missing or empty name WP and the number from one, in at
      least two digits. */
  predicate Matches(item: Item, i: nat, wpt: Named) {
    && item.id == i
    && (wpt.lat.None? <==> item.lat.None?) && (wpt.lon.None? <==> item.lon.None?)
    && (wpt.lat.Some? ==> Held(item.lat.value, wpt.lat.value))
    && (wpt.lon.Some? ==> Held(item.lon.value, wpt.lon.value))
    && NameMatches(item.name, i, wpt.name)
  }

  predicate NameMatches(shown: seq<int>, i: nat, name: Option<seq<int>>) {
    if name.Some? && name.value != [] then
      && |shown| == (if |name.value| <= 16 then |name.value| else 16)
      && forall j :: 0 <= j < |shown| ==> shown[j] == if 0 <= name.value[j] < 128 then name.value[j] else 63
    else
      && |shown| >= 4 && shown[0] == 87 && shown[1] == 80
      && (forall j :: 2 <= j < |shown| ==> 48 <= shown[j] <= 57)
      && Decimal(shown[2..]) == i + 1 && (|shown| > 4 ==> shown[2] != 48)
  }

  /** The value sent is the value given, or the nearest that can be sent. */
  predicate Held(sent: int, given: int) {
    && -0x7FFF_FFFF <= sent <= 0x7FFF_FFFE
    && (-0x7FFF_FFFF <= given <= 0x7FFF_FFFE ==> sent == given)
    && (given > 0x7FFF_FFFE ==> sent == 0x7FFF_FFFE)
    && (given < -0x7FFF_FFFF ==> sent == -0x7FFF_FFFF)
  }

  lemma ShortName(name: seq<int>)
    requires |name| <= 16 && forall j :: 0 <= j < |name| ==> 0 <= name[j] < 128
    ensures Plain(name) == name
  {
    PlainIs(name);
  }

  lemma NumberedName(wpts: seq<Named>, i: nat)
    requires i < |wpts| && i < U16
    ensures NameMatches(Plain(Numbered(wpts)[i].name), i, wpts[i].name)
  {
    if wpts[i].name.Some? && wpts[i].name.value != [] {
      PlainIs(wpts[i].name.value);
    } else {
      DefaultNameIs(i);
      ShortName(DefaultName(i));
      assert Numbered(wpts)[i].name == DefaultName(i);
    }
  }

  lemma NumberedMatches(wpts: seq<Named>, i: nat)
    requires i < |wpts| && i < U16
    ensures Matches(Seen(Numbered(wpts)[i]), i, wpts[i])
  {
    NumberedName(wpts, i);
  }

  lemma AllMatch(messages: seq<seq<int>>, route: seq<int>, wpts: seq<Named>, perMsg: nat)
    requires |wpts| <= U16 && Delivers(messages, route, SeenAll(Numbered(wpts)), |wpts|, perMsg)
    ensures Received(messages) == SeenAll(Numbered(wpts)) && |Received(messages)| == |wpts|
    ensures forall i :: 0 <= i < |wpts| ==> Matches(Received(messages)[i], i, wpts[i])
  {
    DeliveredIsReceived(messages, route, SeenAll(Numbered(wpts)), |wpts|, perMsg);
    forall i | 0 <= i < |wpts| ensures Matches(SeenAll(Numbered(wpts))[i], i, wpts[i]) {
      NumberedMatches(wpts, i);
    }
  }

  function RowSize(item: Item): nat { 12 + |item.name| }

  /** The last message ends at `upTo`, is within the cap, and holds as many items as it could. */
  predicate EndsAt(last: seq<int>, m: RouteList, route: seq<int>, items: seq<Item>, upTo: int, perMsg: int) {
    && |last| <= 223
    && m.route == route
    && 1 <= |m.items| <= perMsg
    && 0 <= m.start && m.start + |m.items| == upTo <= |items|
    && m.items == items[m.start..upTo]
    && (|m.items| == perMsg || upTo == |items| || |last| + RowSize(items[upTo]) > 223)
  }

  /** Received in order, the messages carry exactly the first `upTo` items, each at its own place. */
  predicate Delivers(messages: seq<seq<int>>, route: seq<int>, items: seq<Item>, upTo: int, perMsg: int) {
    if messages == [] then upTo == 0
    else
      var last := messages[|messages| - 1];
      match ReadRouteList(last)
      case None => false
      case Some(m) =>
        && EndsAt(last, m, route, items, upTo, perMsg)
        && Delivers(messages[..|messages| - 1], route, items, m.start, perMsg)
  }

  function Received(messages: seq<seq<int>>): seq<Item> {
    if messages == [] then []
    else Received(messages[..|messages| - 1]) +
         match ReadRouteList(messages[|messages| - 1]) { case None => [] case Some(m) => m.items }
  }

  /** Messages that deliver are, joined, the items themselves. */
  lemma {:induction false} DeliveredIsReceived(messages: seq<seq<int>>, route: seq<int>, items: seq<Item>, upTo: int,
                                              perMsg: int)
    requires 0 <= upTo <= |items| && Delivers(messages, route, items, upTo, perMsg)
    ensures Received(messages) == items[..upTo]
  {
    if messages != [] {
      var m := ReadRouteList(messages[|messages| - 1]).value;
      ghost var before := messages[..|messages| - 1];
      DeliveredIsReceived(before, route, items, m.start, perMsg);
      assert Received(messages) == Received(before) + m.items;
    }
  }

  lemma {:induction false} RowsGrow(ws: seq<Waypoint>, w: Waypoint)
    ensures |Rows(ws + [w])| == |Rows(ws)| + RowSize(Seen(w))
  {
    if ws != [] {
      RowsGrow(ws[1..], w);
      assert (ws + [w])[1..] == ws[1..] + [w];
    } else {
      assert ([w])[1..] == [];
    }
  }

  /** The largest message of one waypoint is 56 bytes. */
  lemma OneAlwaysFits(routeName: seq<int>, start: int, w: Waypoint)
    ensures |Message(routeName, start, [w])| <= 56
  {
    RowsGrow([], w);
    assert [] + [w] == [w];
  }

  lemma MessageGrows(routeName: seq<int>, start: int, ws: seq<Waypoint>, w: Waypoint)
    ensures |Message(routeName, start, ws + [w])| == |Message(routeName, start, ws)| + RowSize(Seen(w))
  {
    RowsGrow(ws, w);
  }

  /** One waypoint more would not be allowed, would not exist, or would not fit. */
  ghost predicate Full(routeName: seq<int>, rows: seq<Waypoint>, k: nat, n: nat, perMsg: nat)
    requires k + n <= |rows|
  {
    n < perMsg && k + n < |rows| ==> |Message(routeName, k, rows[k..k + n + 1])| > MAX_PAYLOAD
  }

  /** A chunk as long as it can be ends where the next begins. */
  lemma ChunkReads(data: seq<int>, routeName: seq<int>, rows: seq<Waypoint>, k: nat, n: nat, perMsg: nat)
    returns (m: RouteList)
    requires Chunk(data, routeName, rows, k, n, perMsg)
    ensures k < k + n <= |rows| && ReadRouteList(data) == Some(m) && m.start == k
    ensures EndsAt(data, m, Plain(routeName), SeenAll(rows), k + n, perMsg)
  {
    m := RouteList(k, Plain(routeName), SeenAll(rows[k..k + n]));
    RouteListRoundTrip(routeName, k, rows[k..k + n]);
    ChunkEndsAt(data, routeName, rows, k, n, perMsg);
  }

  lemma ChunkEndsAt(data: seq<int>, routeName: seq<int>, rows: seq<Waypoint>, k: nat, n: nat, perMsg: nat)
    requires Chunk(data, routeName, rows, k, n, perMsg)
    ensures EndsAt(data, RouteList(k, Plain(routeName), SeenAll(rows[k..k + n])), Plain(routeName), SeenAll(rows),
                   k + n, perMsg)
  {
    assert SeenAll(rows[k..k + n]) == SeenAll(rows)[k..k + n];
    if n < perMsg && k + n < |rows| {
      MessageGrows(routeName, k, rows[k..k + n], rows[k + n]);
      assert rows[k..k + n] + [rows[k + n]] == rows[k..k + n + 1];
    }
  }

  lemma ShorterIsFull(routeName: seq<int>, rows: seq<Waypoint>, k: nat, n: nat, perMsg: nat)
    requires 1 <= n && k + n <= |rows| && |Message(routeName, k, rows[k..k + n])| > MAX_PAYLOAD
    ensures n > 1 && Full(routeName, rows, k, n - 1, perMsg)
  {
    OneAlwaysFits(routeName, k, rows[k]);
    assert rows[k..k + 1] == [rows[k]];
  }

  predicate InOrder(rows: seq<Waypoint>) { forall i :: 0 <= i < |rows| ==> rows[i].id == i }

  /** A chunk of numbered waypoints packs EXACTLY WHEN its last number, and its length, fit 16 bits. */
  lemma PacksOnlySmall(rows: seq<Waypoint>, k: nat, n: nat)
    requires InOrder(rows) && 1 <= n && k + n <= |rows|
    ensures Packs(k, rows[k..k + n]) <==> k + n <= U16 && n < U16
  {
    assert rows[k..k + n][n - 1].id == k + n - 1;
  }

  function Most(rows: seq<Waypoint>, k: nat, perMsg: nat): nat
    requires k <= |rows|
  {
    if perMsg < |rows| - k then perMsg else |rows| - k
  }

  /** What a chunk of `n` waypoints at `k` must be: packable, within the cap, and as long as it can be. */
  ghost predicate Chunk(data: seq<int>, routeName: seq<int>, rows: seq<Waypoint>, k: nat, n: nat, perMsg: nat) {
    && 1 <= n <= perMsg && k + n <= |rows| && Full(routeName, rows, k, n, perMsg)
    && data == Message(routeName, k, rows[k..k + n]) && |data| <= MAX_PAYLOAD
    && Packs(k, rows[k..k + n])
  }

  /** The longest chunk at `k` that the encoder takes: one waypoint fewer after each one too large.
      It fails only when the first try does not pack. */
  method NextChunk(routeName: seq<int>, rows: seq<Waypoint>, k: nat, perMsg: nat)
    returns (data: Option<seq<int>>, n: nat)
    requires InOrder(rows) && k < |rows| && perMsg >= 1
    ensures data.None? ==> |rows| > U16 || (|rows| == U16 && perMsg >= U16)
    ensures data.Some? ==> k + n <= U16 && (k == 0 && perMsg >= U16 ==> |rows| != U16)
    ensures data.Some? ==> Chunk(data.value, routeName, rows, k, n, perMsg)
  {
    var most := Most(rows, k, perMsg);
    n := most;
    PacksOnlySmall(rows, k, n);
    var r := EncodeRouteList(routeName, rows[k..k + n], k);
    while r.TooLarge?
      invariant 1 <= n <= most && Full(routeName, rows, k, n, perMsg)
      invariant r.TooLarge? ==> |Message(routeName, k, rows[k..k + n])| > MAX_PAYLOAD
      invariant r.Encoded? ==> Chunk(r.data, routeName, rows, k, n, perMsg)
      invariant r.Unpackable? <==> k + most > U16 || most >= U16
      decreases n
    {
      ShorterIsFull(routeName, rows, k, n, perMsg);
      n := n - 1;
      PacksOnlySmall(rows, k, n);
      r := EncodeRouteList(routeName, rows[k..k + n], k);
    }
    data := if r.Encoded? then Some(r.data) else None;
  }

  /** And what a receiver makes of it. */
  method NextMessage(routeName: seq<int>, rows: seq<Waypoint>, k: nat, perMsg: nat)
    returns (data: Option<seq<int>>, next: nat, ghost m: RouteList)
    requires InOrder(rows) && k < |rows| && perMsg >= 1
    ensures data.None? ==> |rows| > U16 || (|rows| == U16 && perMsg >= U16)
    ensures data.Some? ==> k < next <= |rows| && next <= U16 && (k == 0 && perMsg >= U16 ==> |rows| != U16)
    ensures data.Some? ==>
              && ReadRouteList(data.value) == Some(m) && m.start == k
              && EndsAt(data.value, m, Plain(routeName), SeenAll(rows), next, perMsg)
  {
    var n;
    data, n := NextChunk(routeName, rows, k, perMsg);
    next := k + n;
    m := RouteList(k, [], []);
    if data.Some? {
      m := ChunkReads(data.value, routeName, rows, k, n, perMsg);
    }
  }

  lemma DeliverOne(out: seq<seq<int>>, data: seq<int>, m: RouteList, route: seq<int>, items: seq<Item>, upTo: int,
                   perMsg: int)
    requires ReadRouteList(data) == Some(m) && EndsAt(data, m, route, items, upTo, perMsg)
    requires Delivers(out, route, items, m.start, perMsg)
    ensures Delivers(out + [data], route, items, upTo, perMsg)
  {
    assert (out + [data])[..|out|] == out;
  }

  /** Slicing a route. It fails EXACTLY WHEN some field does not fit 16 bits (never for the default of ten
      a message and up to 65536 waypoints), and then with an error the retry does not catch. */
  method ChunkRoute(routeName: seq<int>, wpts: seq<Named>, perMsg: nat) returns (messages: Option<seq<seq<int>>>)
    requires perMsg >= 1
    ensures messages.None? <==> |wpts| > 65536 || (|wpts| == 65536 && perMsg >= 65536)
    ensures messages.Some? ==>
              && |Received(messages.value)| == |wpts|
              && Delivers(messages.value, Plain(routeName), Received(messages.value), |wpts|, perMsg)
              && forall i :: 0 <= i < |wpts| ==> Matches(Received(messages.value)[i], i, wpts[i])
  {
    var rows := Numbered(wpts);
    ghost var route, items := Plain(routeName), SeenAll(rows);
    var out := [];
    var k := 0;
    while k < |rows|
      invariant 0 <= k <= |rows| && k <= U16
      invariant k > 0 && perMsg >= U16 ==> |rows| != U16
      invariant Delivers(out, route, items, k, perMsg)
    {
      var data, next, m := NextMessage(routeName, rows, k, perMsg);
      if data.None? {
        return None;
      }
      DeliverOne(out, data.value, m, route, items, next, perMsg);
      out := out + [data.value];
      k := next;
    }
    AllMatch(out, route, wpts, perMsg);
    messages := Some(out);
  }
}
