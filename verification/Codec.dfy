/** Little-endian bytes, and the writer and reader both envelopes are built on. */
module Bytes {
  import opened Arithmetic
  import opened KeyOrder

  type U64 = v: nat | v < 0x1_0000_0000_0000_0000

  const U32_LIMIT: nat := 0x1_0000_0000

  datatype Error = TooShort | ChecksumMismatch | BadMagic | UnsupportedVersion | UnknownFamily | UnexpectedEnd
                 | TooManyEntries | TrailingBytes | EmptyName | LongName | NotUtf8 | BlankName
                 | WrongAlgorithm | BadCapacity | TooManySlots | BadCount | ErrorAboveCount | DuplicateKey

  datatype Result<T> = Ok(value: T) | Err(error: Error) {
    predicate IsFailure() {
      Err?
    }

    function PropagateFailure<U>(): Result<U>
      requires Err?
    {
      Err(error)
    }

    function Extract(): T
      requires Ok?
    {
      value
    }
  }

  function Pow256(n: nat): (r: nat)
    ensures r > 0
  {
    if n == 0 then 1 else 256 * Pow256(n - 1)
  }

  /** The low `n` bytes of `v`, least significant first; higher bytes are cut off. */
  function Le(v: nat, n: nat): (s: seq<Byte>)
    ensures |s| == n
  {
    if n == 0 then [] else [v % 256] + Le(v / 256, n - 1)
  }

  function FromLe(s: seq<Byte>): nat {
    if s == [] then 0 else s[0] + 256 * FromLe(s[1..])
  }

  /** The least significant byte comes first. */
  lemma {:induction false} LeAt(v: nat, n: nat, i: nat)
    requires i < n
    ensures Le(v, n)[i] == v / Pow256(i) % 256
    decreases i
  {
    if i > 0 {
      LeAt(v / 256, n - 1, i - 1);
      assert Le(v, n)[i] == Le(v / 256, n - 1)[i - 1];
      DivDiv(v, 256, Pow256(i - 1));
    } else {
      assert Pow256(0) == 1;
    }
  }

  lemma {:induction false} DivDiv(v: nat, a: nat, b: nat)
    requires 0 < a && 0 < b
    ensures v / a / b == v / (a * b)
  {
    var q, r := v / a, v % a;
    var p, t := q / b, q % b;
    DivMod(v, a);
    DivMod(q, b);
    Regroup(p, b, t, a);
    MulStrict(t, b, a);
    MulCommutes(a, b);
    DivModUnique(p, t * a + r, b * a);
  }

  lemma {:induction false} Regroup(p: nat, b: nat, t: nat, a: nat)
    ensures (p * b + t) * a == p * (b * a) + t * a
  {
    assert (p * b + t) * a == p * b * a + t * a;
    assert p * b * a == p * (b * a);
  }

  lemma {:induction false} MulCommutes(a: nat, b: nat)
    ensures a * b == b * a
  {
  }

  lemma {:induction false} FromLeOfLe(v: nat, n: nat)
    requires v < Pow256(n)
    ensures FromLe(Le(v, n)) == v
  {
    if n > 0 {
      FromLeOfLe(v / 256, n - 1);
      assert Le(v, n)[1..] == Le(v / 256, n - 1);
    }
  }

  lemma {:induction false} LeOfFromLe(s: seq<Byte>)
    ensures FromLe(s) < Pow256(|s|) && Le(FromLe(s), |s|) == s
  {
    if s != [] {
      LeOfFromLe(s[1..]);
      DivModUnique(FromLe(s[1..]), s[0], 256);
      assert s == [s[0]] + s[1..];
    }
  }

  lemma {:induction false} Widths()
    ensures Pow256(1) == 256 && Pow256(2) == 0x1_0000 && Pow256(4) == U32_LIMIT
    ensures Pow256(8) == 0x1_0000_0000_0000_0000
  {
    assert Pow256(1) == 256 * Pow256(0);
    assert Pow256(2) == 256 * Pow256(1);
    assert Pow256(3) == 256 * Pow256(2);
    assert Pow256(4) == 256 * Pow256(3);
    assert Pow256(5) == 256 * Pow256(4);
    assert Pow256(6) == 256 * Pow256(5);
    assert Pow256(7) == 256 * Pow256(6);
    assert Pow256(8) == 256 * Pow256(7);
  }

  /** A length-prefixed byte string. */
  function Lp(s: seq<Byte>): seq<Byte> {
    Le(|s|, 4) + s
  }

  class Writer {
    var buf: seq<Byte>

    constructor ()
      ensures buf == []
    {
      buf := [];
    }

    method U8(v: Byte)
      modifies this
      ensures buf == old(buf) + Le(v, 1)
    {
      assert Le(v, 1) == [v];
      buf := buf + [v];
    }

    method U16(v: nat)
      modifies this
      ensures buf == old(buf) + Le(v, 2)
    {
      buf := buf + Le(v, 2);
    }

    method U32(v: nat)
      modifies this
      ensures buf == old(buf) + Le(v, 4)
    {
      buf := buf + Le(v, 4);
    }

    method U64(v: nat)
      modifies this
      ensures buf == old(buf) + Le(v, 8)
    {
      buf := buf + Le(v, 8);
    }

    method PutBytes(v: seq<Byte>)
      modifies this
      ensures buf == old(buf) + v
    {
      buf := buf + v;
    }

    method LpBytes(v: seq<Byte>)
      modifies this
      ensures buf == old(buf) + Lp(v)
    {
      U32(|v|);
      PutBytes(v);
    }
  }

  /** What a reader standing at `pos` gets for `n` bytes. */
  function Slice(buf: seq<Byte>, pos: nat, n: nat): Result<seq<Byte>> {
    if |buf| < pos + n then Err(UnexpectedEnd) else Ok(buf[pos..pos + n])
  }

  function Number(buf: seq<Byte>, pos: nat, n: nat): Result<nat> {
    match Slice(buf, pos, n)
    case Err(e) => Err(e)
    case Ok(s) => Ok(FromLe(s))
  }

  /** A length-prefixed byte string at `pos`. */
  function LpAt(buf: seq<Byte>, pos: nat): Result<seq<Byte>> {
    match Number(buf, pos, 4)
    case Err(e) => Err(e)
    case Ok(n) => Slice(buf, pos + 4, n)
  }

  predicate CountFits(remaining: nat, count: nat, minBytesEach: nat) {
    count <= remaining / (if minBytesEach < 1 then 1 else minBytesEach)
  }

  class Reader {
    const buf: seq<Byte>
    var pos: nat

    ghost predicate Valid()
      reads this
    {
      pos <= |buf|
    }

    constructor (buf: seq<Byte>)
      ensures Valid() && this.buf == buf && pos == 0
    {
      this.buf, pos := buf, 0;
    }

    method Remaining() returns (n: nat)
      requires Valid()
      ensures n == |buf| - pos
    {
      n := |buf| - pos;
    }

    method Take(n: nat) returns (r: Result<seq<Byte>>)
      requires Valid()
      modifies this
      ensures Valid() && r == Slice(buf, old(pos), n)
      ensures pos == old(pos) + if r.Ok? then n else 0
    {
      var remaining := Remaining();
      if remaining < n {
        return Err(UnexpectedEnd);
      }
      r := Ok(buf[pos..pos + n]);
      pos := pos + n;
    }

    method TakeNumber(n: nat) returns (r: Result<nat>)
      requires Valid()
      modifies this
      ensures Valid() && r == Number(buf, old(pos), n)
      ensures pos == old(pos) + if r.Ok? then n else 0
    {
      var s := Take(n);
      r := match s case Err(e) => Err(e) case Ok(v) => Ok(FromLe(v));
    }

    /** A declared count must fit in the bytes that are left. */
    method CheckCount(count: nat, minBytesEach: nat) returns (ok: bool)
      requires Valid()
      ensures ok <==> CountFits(|buf| - pos, count, minBytesEach)
    {
      var remaining := Remaining();
      ok := count <= remaining / (if minBytesEach < 1 then 1 else minBytesEach);
    }

    method LpBytes() returns (r: Result<seq<Byte>>)
      requires Valid()
      modifies this
      ensures Valid() && r == LpAt(buf, old(pos))
      ensures r.Ok? ==> pos == old(pos) + 4 + |r.value|
    {
      var n := TakeNumber(4);
      if n.Err? {
        return Err(n.error);
      }
      r := Take(n.value);
    }
  }

  // --- reading what was written ---

  lemma {:induction false} SliceMiddle(a: seq<Byte>, s: seq<Byte>, b: seq<Byte>)
    ensures Slice(a + s + b, |a|, |s|) == Ok(s)
  {
    assert (a + s + b)[|a|..|a| + |s|] == s;
  }

  lemma {:induction false} NumberMiddle(a: seq<Byte>, v: nat, n: nat, b: seq<Byte>)
    requires v < Pow256(n)
    ensures Number(a + Le(v, n) + b, |a|, n) == Ok(v)
  {
    SliceMiddle(a, Le(v, n), b);
    FromLeOfLe(v, n);
  }

  lemma {:induction false} LpMiddle(a: seq<Byte>, s: seq<Byte>, b: seq<Byte>)
    requires |s| < U32_LIMIT
    ensures LpAt(a + Lp(s) + b, |a|) == Ok(s)
  {
    hide Pow256, Le, FromLe;
    Widths();
    NumberMiddle(a, |s|, 4, s + b);
    assert a + Lp(s) + b == a + Le(|s|, 4) + (s + b);
    SliceMiddle(a + Le(|s|, 4), s, b);
    assert a + Lp(s) + b == a + Le(|s|, 4) + s + b;
  }

  /** A number read is the bytes it was read from. */
  lemma {:induction false} NumberBytes(buf: seq<Byte>, pos: nat, n: nat)
    requires Number(buf, pos, n).Ok?
    ensures pos + n <= |buf| && buf[..pos + n] == buf[..pos] + Le(Number(buf, pos, n).value, n)
    ensures Number(buf, pos, n).value < Pow256(n)
  {
    LeOfFromLe(buf[pos..pos + n]);
    assert buf[..pos + n] == buf[..pos] + buf[pos..pos + n];
  }

  lemma {:induction false} SliceBytes(buf: seq<Byte>, pos: nat, n: nat)
    requires Slice(buf, pos, n).Ok?
    ensures pos + n <= |buf| && buf[..pos + n] == buf[..pos] + Slice(buf, pos, n).value
    ensures |Slice(buf, pos, n).value| == n
  {
  }

  lemma {:induction false} LpBytesAt(buf: seq<Byte>, pos: nat)
    requires LpAt(buf, pos).Ok?
    ensures var s := LpAt(buf, pos).value;
      && |s| < U32_LIMIT && pos + 4 + |s| <= |buf|
      && buf[..pos + 4 + |s|] == buf[..pos] + Lp(s)
  {
    hide Pow256, Le, FromLe;
    Widths();
    NumberBytes(buf, pos, 4);
    SliceBytes(buf, pos + 4, Number(buf, pos, 4).value);
  }

  // --- checksums ---

  /** A body followed by its checksum. */
  function Sealed(hash: seq<Byte> -> U64, body: seq<Byte>): seq<Byte> {
    body + Le(hash(body), 8)
  }

  function Unsealed(hash: seq<Byte> -> U64, bytes: seq<Byte>, shortest: nat): Result<seq<Byte>>
    requires 8 <= shortest
  {
    if |bytes| < shortest then Err(TooShort)
    else
      var body, tail := bytes[..|bytes| - 8], bytes[|bytes| - 8..];
      if hash(body) != FromLe(tail) then Err(ChecksumMismatch) else Ok(body)
  }

  lemma {:induction false} UnsealedSealed(hash: seq<Byte> -> U64, body: seq<Byte>, shortest: nat)
    requires 8 <= shortest <= |body| + 8
    ensures Unsealed(hash, Sealed(hash, body), shortest) == Ok(body)
  {
    hide Pow256, Le, FromLe;
    var bytes := Sealed(hash, body);
    assert bytes[..|bytes| - 8] == body && bytes[|bytes| - 8..] == Le(hash(body), 8);
    Widths();
    FromLeOfLe(hash(body), 8);
  }

  lemma {:induction false} SealedUnsealed(hash: seq<Byte> -> U64, bytes: seq<Byte>, shortest: nat)
    requires 8 <= shortest && Unsealed(hash, bytes, shortest).Ok?
    ensures Sealed(hash, Unsealed(hash, bytes, shortest).value) == bytes
  {
    hide Pow256, Le, FromLe;
    LeOfFromLe(bytes[|bytes| - 8..]);
  }
}

/** The `FSK1` snapshot envelope. */
module SnapshotCodec {
  import opened Bytes
  import opened HashSpecs
  import opened KeyOrder

  const MAGIC: seq<Byte> := [70, 83, 75, 49]
  const SNAPSHOT_VERSION: nat := 2
  const SHORTEST: nat := 4 + 2 + 2 + 11 + 16 + 8 + 8

  datatype Header = Header(version: nat, algorithmId: nat, hash: HashSpec, windowStart: nat, windowEnd: nat)

  datatype Snapshot = Snapshot(header: Header, params: seq<Byte>, payload: seq<Byte>)

  function FamilyByte(f: HashFamily): Byte {
    match f case Fsk1 => 0
  }

  /** The fields up to the parameters. */
  function HeaderBytes(h: Header): seq<Byte> {
    MAGIC + Le(h.version, 2) + Le(h.algorithmId, 2) + Le(FamilyByte(h.hash.family), 1) + Le(h.hash.seed, 8)
    + Le(h.hash.version, 2) + Le(h.windowStart, 8) + Le(h.windowEnd, 8)
  }

  function Body(s: Snapshot): seq<Byte> {
    HeaderBytes(s.header) + Lp(s.params) + Lp(s.payload)
  }

  /** Every field fits its width. */
  predicate Fits(s: Snapshot) {
    && s.header.version < 0x1_0000 && s.header.algorithmId < 0x1_0000 && s.header.hash.version < 0x1_0000
    && s.header.hash.seed < 0x1_0000_0000_0000_0000
    && s.header.windowStart < 0x1_0000_0000_0000_0000 && s.header.windowEnd < 0x1_0000_0000_0000_0000
    && |s.params| < U32_LIMIT && |s.payload| < U32_LIMIT
  }

  method WriteSnapshot(hash: seq<Byte> -> U64, h: Header, params: seq<Byte>, payload: seq<Byte>)
    returns (bytes: seq<Byte>)
    ensures bytes == Sealed(hash, Body(Snapshot(h, params, payload)))
  {
    hide Le, FromLe;
    var w := new Writer();
    w.PutBytes(MAGIC);
    w.U16(h.version);
    w.U16(h.algorithmId);
    w.U8(FamilyByte(h.hash.family));
    w.U64(h.hash.seed);
    w.U16(h.hash.version);
    w.U64(h.windowStart);
    w.U64(h.windowEnd);
    w.LpBytes(params);
    w.LpBytes(payload);
    assert w.buf == Body(Snapshot(h, params, payload));
    w.U64(hash(w.buf));
    bytes := w.buf;
  }

  /** What reading returns, field by field and error by error. */
  function Parse(hash: seq<Byte> -> U64, bytes: seq<Byte>): Result<Snapshot> {
    match Unsealed(hash, bytes, SHORTEST)
    case Err(e) => Err(e)
    case Ok(body) => ParseBody(body)
  }

  function ParseBody(body: seq<Byte>): Result<Snapshot> {
    var magic :- Slice(body, 0, 4);
    if magic != MAGIC then Err(BadMagic)
    else
      var version :- Number(body, 4, 2);
      if version != SNAPSHOT_VERSION then Err(UnsupportedVersion)
      else
        var algorithmId :- Number(body, 6, 2);
        var family :- Number(body, 8, 1);
        if family != FamilyByte(Fsk1) then Err(UnknownFamily)
        else
          var seed :- Number(body, 9, 8);
          var hashVersion :- Number(body, 17, 2);
          var windowStart :- Number(body, 19, 8);
          var windowEnd :- Number(body, 27, 8);
          var params :- LpAt(body, 35);
          var payload :- LpAt(body, 39 + |params|);
          Ok(Snapshot(Header(version, algorithmId, HashSpec(Fsk1, seed, hashVersion), windowStart, windowEnd),
                      params, payload))
  }

  /** What the fixed fields hold, however the rest reads. */
  function ParseHeader(body: seq<Byte>): Header
    requires 35 <= |body|
  {
    Header(FromLe(body[4..6]), FromLe(body[6..8]), HashSpec(Fsk1, FromLe(body[9..17]), FromLe(body[17..19])),
           FromLe(body[19..27]), FromLe(body[27..35]))
  }

  method ReadSnapshot(hash: seq<Byte> -> U64, bytes: seq<Byte>) returns (r: Result<Snapshot>)
    ensures r == Parse(hash, bytes)
  {
    hide Le, FromLe, Slice, Number, LpAt;
    if |bytes| < SHORTEST {
      return Err(TooShort);
    }
    var body, tail := bytes[..|bytes| - 8], bytes[|bytes| - 8..];
    if hash(body) != FromLe(tail) {
      return Err(ChecksumMismatch);
    }
    var reader := new Reader(body);
    var magic :- reader.Take(4);
    if magic != MAGIC {
      return Err(BadMagic);
    }
    var version :- reader.TakeNumber(2);
    if version != SNAPSHOT_VERSION {
      return Err(UnsupportedVersion);
    }
    var algorithmId :- reader.TakeNumber(2);
    var family :- reader.TakeNumber(1);
    if family != FamilyByte(Fsk1) {
      return Err(UnknownFamily);
    }
    var seed :- reader.TakeNumber(8);
    var hashVersion :- reader.TakeNumber(2);
    var windowStart :- reader.TakeNumber(8);
    var windowEnd :- reader.TakeNumber(8);
    var params :- reader.LpBytes();
    var payload :- reader.LpBytes();
    r := Ok(Snapshot(Header(version, algorithmId, HashSpec(Fsk1, seed, hashVersion), windowStart, windowEnd), params, payload));
  }

  // --- reading undoes writing ---

  lemma {:induction false} HeaderSize(h: Header)
    ensures |HeaderBytes(h)| == 35
  {
  }

  lemma {:induction false} HeaderPieces(h: Header, rest: seq<Byte>)
    ensures var b := HeaderBytes(h) + rest;
      && b[..4] == MAGIC && b[4..6] == Le(h.version, 2) && b[6..8] == Le(h.algorithmId, 2)
      && b[8..9] == Le(FamilyByte(h.hash.family), 1) && b[9..17] == Le(h.hash.seed, 8)
      && b[17..19] == Le(h.hash.version, 2) && b[19..27] == Le(h.windowStart, 8) && b[27..35] == Le(h.windowEnd, 8)
  {
    hide Le;
  }

  /** Where every field of an encoding lies: magic, version, algorithm, hash family, seed and
      version, window bounds, the two length-prefixed strings, and the checksum of all before it. */
  lemma {:induction false} Layout(hash: seq<Byte> -> U64, s: Snapshot)
    ensures var b, h, n, m := Sealed(hash, Body(s)), s.header, |s.params|, |s.payload|;
      && |b| == 51 + n + m && b[..4] == [70, 83, 75, 49]
      && b[4..6] == Le(h.version, 2) && b[6..8] == Le(h.algorithmId, 2) && b[8..9] == [0]
      && b[9..17] == Le(h.hash.seed, 8) && b[17..19] == Le(h.hash.version, 2)
      && b[19..27] == Le(h.windowStart, 8) && b[27..35] == Le(h.windowEnd, 8)
      && b[35..39] == Le(n, 4) && b[39..39 + n] == s.params
      && b[39 + n..43 + n] == Le(m, 4) && b[43 + n..43 + n + m] == s.payload
      && b[43 + n + m..] == Le(hash(b[..43 + n + m]), 8)
  {
    hide Le, HeaderBytes;
    var b, n, m := Sealed(hash, Body(s)), |s.params|, |s.payload|;
    var head := HeaderBytes(s.header);
    HeaderSize(s.header);
    HeaderPieces(s.header, Lp(s.params) + Lp(s.payload) + Le(hash(Body(s)), 8));
    assert b == head + (Lp(s.params) + Lp(s.payload) + Le(hash(Body(s)), 8));
    FamilyZero();
    assert b[..43 + n + m] == Body(s);
    assert b == head + Le(n, 4) + s.params + Le(m, 4) + s.payload + Le(hash(Body(s)), 8);
  }

  lemma {:induction false} FamilyZero()
    ensures Le(FamilyByte(Fsk1), 1) == [0]
  {
    assert Le(0, 1) == [0] + Le(0, 0);
  }

  /** Which error a reader reports: the first of these that applies. */
  lemma {:induction false} ErrorsAre(hash: seq<Byte> -> U64, bytes: seq<Byte>)
    ensures var r, n := Parse(hash, bytes), |bytes|;
      && (r == Err(TooShort) <==> n < 51)
      && (n >= 51 ==> (r == Err(ChecksumMismatch) <==> hash(bytes[..n - 8]) != FromLe(bytes[n - 8..])))
      && (n >= 51 && hash(bytes[..n - 8]) == FromLe(bytes[n - 8..]) ==>
            && (r == Err(BadMagic) <==> bytes[..4] != [70, 83, 75, 49])
            && (bytes[..4] == [70, 83, 75, 49] ==> (r == Err(UnsupportedVersion) <==> FromLe(bytes[4..6]) != 2))
            && (bytes[..4] == [70, 83, 75, 49] && FromLe(bytes[4..6]) == 2 ==>
                  (r == Err(UnknownFamily) <==> FromLe(bytes[8..9]) != 0)))
      && (r.Err? ==> r.error in {TooShort, ChecksumMismatch, BadMagic, UnsupportedVersion, UnknownFamily, UnexpectedEnd})
  {
    hide Le, FromLe, LpAt, Slice, Number;
    if 51 <= |bytes| {
      var body := bytes[..|bytes| - 8];
      FixedFields(body);
      LpErrors(body, 35);
      assert body[..4] == bytes[..4] && body[4..6] == bytes[4..6] && body[8..9] == bytes[8..9];
      if LpAt(body, 35).Ok? {
        LpErrors(body, 39 + |LpAt(body, 35).value|);
      }
    }
  }

  lemma {:induction false} LpErrors(buf: seq<Byte>, pos: nat)
    ensures LpAt(buf, pos).Err? ==> LpAt(buf, pos).error == UnexpectedEnd
  {
  }

  lemma {:induction false} ParsesHeader(s: Snapshot, rest: seq<Byte>)
    requires Fits(s)
    ensures var b := HeaderBytes(s.header) + rest;
      && |b| >= 35 && b[..4] == MAGIC && FromLe(b[4..6]) == s.header.version
      && FromLe(b[8..9]) == FamilyByte(Fsk1) && ParseHeader(b) == s.header
  {
    hide Le, FromLe, HeaderBytes, Pow256;
    var h := s.header;
    HeaderSize(h);
    HeaderPieces(h, rest);
    Widths();
    FromLeOfLe(h.version, 2);
    FromLeOfLe(h.algorithmId, 2);
    FromLeOfLe(FamilyByte(h.hash.family), 1);
    FromLeOfLe(h.hash.seed, 8);
    FromLeOfLe(h.hash.version, 2);
    FromLeOfLe(h.windowStart, 8);
    FromLeOfLe(h.windowEnd, 8);
  }

  /** The fixed fields read in order. */
  lemma {:induction false} FixedFields(body: seq<Byte>)
    requires 35 <= |body|
    ensures var h := ParseHeader(body);
      && Slice(body, 0, 4) == Ok(body[..4]) && Number(body, 4, 2) == Ok(h.version)
      && Number(body, 6, 2) == Ok(h.algorithmId) && Number(body, 8, 1) == Ok(FromLe(body[8..9]))
      && Number(body, 9, 8) == Ok(h.hash.seed) && Number(body, 17, 2) == Ok(h.hash.version)
      && Number(body, 19, 8) == Ok(h.windowStart) && Number(body, 27, 8) == Ok(h.windowEnd)
      && h.hash.family == Fsk1
  {
    hide FromLe;
  }

  lemma {:induction false} ParsesBody(s: Snapshot, extra: seq<Byte>)
    requires Fits(s) && s.header.version == SNAPSHOT_VERSION
    ensures SHORTEST - 8 <= |Body(s)| && ParseBody(Body(s) + extra) == Ok(s)
  {
    hide Le, FromLe, HeaderBytes, LpAt, ParseHeader, Slice, Number;
    var head, rest := HeaderBytes(s.header), Lp(s.payload) + extra;
    var body := Body(s) + extra;
    HeaderSize(s.header);
    assert body == head + (Lp(s.params) + rest);
    ParsesHeader(s, Lp(s.params) + rest);
    FixedFields(body);
    LpMiddle(head, s.params, rest);
    assert body == head + Lp(s.params) + rest;
    LpMiddle(head + Lp(s.params), s.payload, extra);
    assert body == head + Lp(s.params) + Lp(s.payload) + extra;
  }

  /** Bytes between the payload and the checksum change nothing of what is read. */
  lemma {:induction false} ExtraIgnored(hash: seq<Byte> -> U64, s: Snapshot, extra: seq<Byte>)
    requires Fits(s) && s.header.version == SNAPSHOT_VERSION
    ensures Parse(hash, Sealed(hash, Body(s) + extra)) == Ok(s)
  {
    hide ParseBody, Body, Sealed, Unsealed;
    ParsesBody(s, extra);
    UnsealedSealed(hash, Body(s) + extra, SHORTEST);
  }

  /** Reading undoes writing for every header of the current version whose fields fit. */
  lemma {:induction false} ReadUndoesWrite(hash: seq<Byte> -> U64, s: Snapshot)
    requires Fits(s) && s.header.version == SNAPSHOT_VERSION
    ensures Parse(hash, Sealed(hash, Body(s))) == Ok(s)
  {
    hide Parse, Body, Sealed, Fits;
    ExtraIgnored(hash, s, []);
    assert Body(s) + [] == Body(s);
  }

  lemma {:induction false} HeaderFromBytes(body: seq<Byte>)
    requires 35 <= |body| && body[..4] == MAGIC && FromLe(body[8..9]) == FamilyByte(Fsk1)
    ensures HeaderBytes(ParseHeader(body)) == body[..35]
  {
    hide Le, FromLe;
    LeOfFromLe(body[4..6]);
    LeOfFromLe(body[6..8]);
    LeOfFromLe(body[8..9]);
    LeOfFromLe(body[9..17]);
    LeOfFromLe(body[17..19]);
    LeOfFromLe(body[19..27]);
    LeOfFromLe(body[27..35]);
    assert body[..35] == body[..4] + body[4..6] + body[6..8] + body[8..9] + body[9..17] + body[17..19]
                       + body[19..27] + body[27..35];
  }

  lemma {:induction false} HeaderFits(body: seq<Byte>)
    requires 35 <= |body|
    ensures var h := ParseHeader(body);
      && h.version < 0x1_0000 && h.algorithmId < 0x1_0000 && h.hash.version < 0x1_0000
      && h.hash.seed < 0x1_0000_0000_0000_0000
      && h.windowStart < 0x1_0000_0000_0000_0000 && h.windowEnd < 0x1_0000_0000_0000_0000
  {
    hide Le, FromLe, Pow256;
    Widths();
    LeOfFromLe(body[4..6]);
    LeOfFromLe(body[6..8]);
    LeOfFromLe(body[9..17]);
    LeOfFromLe(body[17..19]);
    LeOfFromLe(body[19..27]);
    LeOfFromLe(body[27..35]);
  }

  /** Whatever is read fits, is of the current version, and was written that way: the bytes
      are its own encoding, with more bytes after the payload or none. */
  lemma {:induction false} WriteUndoesRead(hash: seq<Byte> -> U64, bytes: seq<Byte>) returns (extra: seq<Byte>)
    requires Parse(hash, bytes).Ok?
    ensures var s := Parse(hash, bytes).value;
      && Fits(s) && s.header.version == SNAPSHOT_VERSION
      && bytes == Sealed(hash, Body(s) + extra)
  {
    hide Le, FromLe, LpAt, ParseHeader, HeaderBytes, Sealed, Lp, Slice, Number;
    var body := Unsealed(hash, bytes, SHORTEST).value;
    var s := Parse(hash, bytes).value;
    SealedUnsealed(hash, bytes, SHORTEST);
    FixedFields(body);
    HeaderFromBytes(body);
    HeaderFits(body);
    LpBytesAt(body, 35);
    LpBytesAt(body, 39 + |s.params|);
    var end := 43 + |s.params| + |s.payload|;
    assert Body(s) == body[..end];
    extra := body[end..];
    assert body == Body(s) + extra;
  }

  /** Exactly what is read as `s`: its encoding, with any bytes between payload and checksum. */
  lemma {:induction false} ReadsExactly(hash: seq<Byte> -> U64, bytes: seq<Byte>, s: Snapshot)
    ensures Parse(hash, bytes) == Ok(s)
       <==> Fits(s) && s.header.version == SNAPSHOT_VERSION && exists extra :: bytes == Sealed(hash, Body(s) + extra)
  {
    hide Parse, Fits, Body, Sealed;
    if Parse(hash, bytes) == Ok(s) {
      var extra := WriteUndoesRead(hash, bytes);
      assert bytes == Sealed(hash, Body(s) + extra);
    }
    if Fits(s) && s.header.version == SNAPSHOT_VERSION {
      forall extra | bytes == Sealed(hash, Body(s) + extra)
        ensures Parse(hash, bytes) == Ok(s)
      {
        ExtraIgnored(hash, s, extra);
      }
    }
  }

  lemma {:induction false} EncodingSize(hash: seq<Byte> -> U64, s: Snapshot, extra: seq<Byte>)
    ensures |Sealed(hash, Body(s) + extra)| == 51 + |s.params| + |s.payload| + |extra|
  {
    hide Le, HeaderBytes;
    HeaderSize(s.header);
  }

  /** Writing again what was read gives the same bytes back exactly when they are as many as
      the two length fields account for. */
  lemma {:induction false} RewritesExactly(hash: seq<Byte> -> U64, bytes: seq<Byte>)
    requires Parse(hash, bytes).Ok?
    ensures var s := Parse(hash, bytes).value;
      Sealed(hash, Body(s)) == bytes <==> |bytes| == 51 + |s.params| + |s.payload|
  {
    hide Parse, Fits, Body, Sealed;
    var s := Parse(hash, bytes).value;
    var extra := WriteUndoesRead(hash, bytes);
    EncodingSize(hash, s, extra);
    EncodingSize(hash, s, []);
    assert Body(s) + [] == Body(s);
  }

  /** So a byte before the checksum is lost: the input is read, and is not what is written. */
  lemma {:induction false} OneByteLost(hash: seq<Byte> -> U64, s: Snapshot)
    requires Fits(s) && s.header.version == SNAPSHOT_VERSION
    ensures var bytes := Sealed(hash, Body(s) + [0]);
      Parse(hash, bytes) == Ok(s) && Sealed(hash, Body(s)) != bytes
  {
    hide Parse, Fits, Body, Sealed;
    ExtraIgnored(hash, s, [0]);
    EncodingSize(hash, s, [0]);
    RewritesExactly(hash, Sealed(hash, Body(s) + [0]));
  }

  /** Two snapshots that fit and share an encoding are the same snapshot. */
  lemma {:induction false} EncodingIsInjective(hash: seq<Byte> -> U64, s: Snapshot, t: Snapshot)
    requires Fits(s) && Fits(t) && s.header.version == SNAPSHOT_VERSION == t.header.version
    requires Sealed(hash, Body(s)) == Sealed(hash, Body(t))
    ensures s == t
  {
    hide Parse, Sealed, Body, Fits;
    ReadUndoesWrite(hash, s);
    ReadUndoesWrite(hash, t);
  }
}

/** The `FSKB` push-batch envelope. Names are byte strings; what is UTF-8 and what trims
    to nothing are parameters. */
module BatchCodec {
  import opened Bytes
  import opened KeyOrder

  const MAGIC: seq<Byte> := [70, 83, 75, 66]
  const BATCH_VERSION: nat := 1
  const MAX_ENTRIES: nat := 4096
  const MAX_NODE_NAME_BYTES: nat := 253
  const MAX_QUERY_NAME_BYTES: nat := 256
  const MAX_COMPONENT_NAME_BYTES: nat := 128
  const SHORTEST: nat := 4 + 2 + 4 + 4 + 8

  datatype PushEntry = PushEntry(queryName: seq<Byte>, component: seq<Byte>, snapshot: seq<Byte>)

  datatype PushBatch = PushBatch(node: seq<Byte>, entries: seq<PushEntry>)

  datatype Library = Library(hash: seq<Byte> -> U64, isUtf8: seq<Byte> -> bool, isBlank: seq<Byte> -> bool)

  /** A bounded, non-blank UTF-8 name, or the first reason it is not one. */
  function Utf8Bounded(lib: Library, bytes: seq<Byte>, maxBytes: nat): Result<seq<Byte>> {
    if bytes == [] then Err(EmptyName)
    else if |bytes| > maxBytes then Err(LongName)
    else if !lib.isUtf8(bytes) then Err(NotUtf8)
    else if lib.isBlank(bytes) then Err(BlankName)
    else Ok(bytes)
  }

  predicate GoodName(lib: Library, bytes: seq<Byte>, maxBytes: nat) {
    0 < |bytes| <= maxBytes && lib.isUtf8(bytes) && !lib.isBlank(bytes)
  }

  predicate GoodEntry(lib: Library, e: PushEntry) {
    && GoodName(lib, e.queryName, MAX_QUERY_NAME_BYTES) && GoodName(lib, e.component, MAX_COMPONENT_NAME_BYTES)
    && |e.snapshot| < U32_LIMIT
  }

  predicate WellFormed(lib: Library, b: PushBatch) {
    && GoodName(lib, b.node, MAX_NODE_NAME_BYTES) && |b.entries| <= MAX_ENTRIES
    && forall i :: 0 <= i < |b.entries| ==> GoodEntry(lib, b.entries[i])
  }

  function EntryBytes(e: PushEntry): seq<Byte> {
    Lp(e.queryName) + Lp(e.component) + Lp(e.snapshot)
  }

  function EntriesBytes(entries: seq<PushEntry>): seq<Byte> {
    if entries == [] then []
    else EntriesBytes(entries[..|entries| - 1]) + EntryBytes(entries[|entries| - 1])
  }

  function Front(b: PushBatch): seq<Byte> {
    MAGIC + Le(BATCH_VERSION, 2) + Lp(b.node) + Le(|b.entries|, 4)
  }

  function Body(b: PushBatch): seq<Byte> {
    Front(b) + EntriesBytes(b.entries)
  }

  /** Where the front of an encoding lies: magic, version, the node's name and the number of
      entries; then the entries, query, component and snapshot each, and the checksum. */
  lemma {:induction false} Layout(lib: Library, b: PushBatch)
    ensures var x, n := Sealed(lib.hash, Body(b)), |b.node|;
      && |x| == 22 + n + |EntriesBytes(b.entries)| && x[..4] == [70, 83, 75, 66] && x[4..6] == Le(1, 2)
      && x[6..10] == Le(n, 4) && x[10..10 + n] == b.node && x[10 + n..14 + n] == Le(|b.entries|, 4)
      && x[14 + n..|x| - 8] == EntriesBytes(b.entries) && x[|x| - 8..] == Le(lib.hash(x[..|x| - 8]), 8)
    ensures b.entries != [] ==>
      var e := b.entries[|b.entries| - 1];
      EntriesBytes(b.entries) == EntriesBytes(b.entries[..|b.entries| - 1])
        + (Le(|e.queryName|, 4) + e.queryName + Le(|e.component|, 4) + e.component + Le(|e.snapshot|, 4) + e.snapshot)
  {
    hide Le, EntriesBytes;
    var x, n := Sealed(lib.hash, Body(b)), |b.node|;
    var rest := EntriesBytes(b.entries) + Le(lib.hash(Body(b)), 8);
    var head := MAGIC + Le(1, 2);
    assert x == head + Le(n, 4) + b.node + Le(|b.entries|, 4) + rest;
    Middle(head, Le(n, 4), b.node + Le(|b.entries|, 4) + rest);
    assert x == head + Le(n, 4) + (b.node + Le(|b.entries|, 4) + rest);
    Middle(head + Le(n, 4), b.node, Le(|b.entries|, 4) + rest);
    assert x == head + Le(n, 4) + b.node + (Le(|b.entries|, 4) + rest);
    Middle(head + Le(n, 4) + b.node, Le(|b.entries|, 4), rest);
    Middle(head + Le(n, 4) + b.node + Le(|b.entries|, 4), EntriesBytes(b.entries), Le(lib.hash(Body(b)), 8));
    assert x[..|x| - 8] == Body(b);
    if b.entries != [] {
      LastEntryBytes(b.entries);
    }
  }

  lemma {:induction false} Middle(a: seq<Byte>, s: seq<Byte>, b: seq<Byte>)
    ensures (a + s + b)[|a|..|a| + |s|] == s
  {
  }

  lemma {:induction false} LastEntryBytes(entries: seq<PushEntry>)
    requires entries != []
    ensures var e := entries[|entries| - 1];
      EntriesBytes(entries) == EntriesBytes(entries[..|entries| - 1])
        + (Le(|e.queryName|, 4) + e.queryName + Le(|e.component|, 4) + e.component + Le(|e.snapshot|, 4) + e.snapshot)
  {
    hide Le;
    var e := entries[|entries| - 1];
    assert EntryBytes(e) == Le(|e.queryName|, 4) + e.queryName + Le(|e.component|, 4) + e.component + Le(|e.snapshot|, 4) + e.snapshot;
  }

  method Encode(lib: Library, b: PushBatch) returns (bytes: seq<Byte>)
    ensures bytes == Sealed(lib.hash, Body(b))
  {
    hide Le, Lp, EntryBytes;
    var w := new Writer();
    w.PutBytes(MAGIC);
    w.U16(BATCH_VERSION);
    w.LpBytes(b.node);
    w.U32(|b.entries|);
    for i := 0 to |b.entries|
      invariant w.buf == Front(b) + EntriesBytes(b.entries[..i])
    {
      var e := b.entries[i];
      w.LpBytes(e.queryName);
      w.LpBytes(e.component);
      w.LpBytes(e.snapshot);
      NextEntryBytes(b.entries, i);
    }
    assert b.entries[..|b.entries|] == b.entries;
    w.U64(lib.hash(w.buf));
    bytes := w.buf;
  }

  lemma {:induction false} NextEntryBytes(entries: seq<PushEntry>, i: nat)
    requires i < |entries|
    ensures var e := entries[i];
      EntriesBytes(entries[..i + 1]) == EntriesBytes(entries[..i]) + (Lp(e.queryName) + Lp(e.component) + Lp(e.snapshot))
  {
    assert entries[..i + 1][..i] == entries[..i];
  }

  // --- decoding ---

  datatype Step = Step(entry: PushEntry, next: nat)

  function EntryAt(lib: Library, body: seq<Byte>, pos: nat): Result<Step> {
    var queryBytes :- LpAt(body, pos);
    var query :- Utf8Bounded(lib, queryBytes, MAX_QUERY_NAME_BYTES);
    var componentBytes :- LpAt(body, pos + 4 + |queryBytes|);
    var component :- Utf8Bounded(lib, componentBytes, MAX_COMPONENT_NAME_BYTES);
    var snapshot :- LpAt(body, pos + 8 + |queryBytes| + |componentBytes|);
    Ok(Step(PushEntry(query, component, snapshot), pos + 12 + |queryBytes| + |componentBytes| + |snapshot|))
  }

  datatype Parsed = Parsed(entries: seq<PushEntry>, next: nat)

  /** `count` entries from `pos` on. */
  function EntriesAt(lib: Library, body: seq<Byte>, pos: nat, count: nat): Result<Parsed> {
    if count == 0 then Ok(Parsed([], pos))
    else
      var before :- EntriesAt(lib, body, pos, count - 1);
      var last :- EntryAt(lib, body, before.next);
      Ok(Parsed(before.entries + [last.entry], last.next))
  }

  function Parse(lib: Library, bytes: seq<Byte>): Result<PushBatch> {
    var body :- Unsealed(lib.hash, bytes, SHORTEST);
    ParseBody(lib, body)
  }

  function ParseBody(lib: Library, body: seq<Byte>): Result<PushBatch> {
    var magic :- Slice(body, 0, 4);
    if magic != MAGIC then Err(BadMagic)
    else
      var version :- Number(body, 4, 2);
      if version != BATCH_VERSION then Err(UnsupportedVersion)
      else
        var nodeBytes :- LpAt(body, 6);
        var node :- Utf8Bounded(lib, nodeBytes, MAX_NODE_NAME_BYTES);
        var count :- Number(body, 10 + |nodeBytes|, 4);
        if count > MAX_ENTRIES then Err(TooManyEntries)
        else
          var parsed :- EntriesAt(lib, body, 14 + |nodeBytes|, count);
          if parsed.next != |body| then Err(TrailingBytes) else Ok(PushBatch(node, parsed.entries))
  }

  method Decode(lib: Library, bytes: seq<Byte>) returns (r: Result<PushBatch>)
    ensures r == Parse(lib, bytes)
  {
    hide Le, FromLe, ParseBody;
    if |bytes| < SHORTEST {
      return Err(TooShort);
    }
    var body, tail := bytes[..|bytes| - 8], bytes[|bytes| - 8..];
    if lib.hash(body) != FromLe(tail) {
      return Err(ChecksumMismatch);
    }
    r := DecodeBody(lib, body);
  }

  method DecodeBody(lib: Library, body: seq<Byte>) returns (r: Result<PushBatch>)
    ensures r == ParseBody(lib, body)
  {
    hide FromLe, Utf8Bounded, LpAt, Slice, Number, EntriesAt;
    var reader := new Reader(body);
    var magic :- reader.Take(4);
    if magic != MAGIC {
      return Err(BadMagic);
    }
    var version :- reader.TakeNumber(2);
    if version != BATCH_VERSION {
      return Err(UnsupportedVersion);
    }
    var nodeBytes :- reader.LpBytes();
    var node :- Utf8Bounded(lib, nodeBytes, MAX_NODE_NAME_BYTES);
    var count :- reader.TakeNumber(4);
    if count > MAX_ENTRIES {
      return Err(TooManyEntries);
    }
    var entries :- DecodeEntries(lib, reader, count);
    var remaining := reader.Remaining();
    if remaining != 0 {
      return Err(TrailingBytes);
    }
    r := Ok(PushBatch(node, entries));
  }

  method DecodeEntries(lib: Library, reader: Reader, count: nat) returns (r: Result<seq<PushEntry>>)
    requires reader.Valid()
    modifies reader
    ensures reader.Valid()
    ensures match EntriesAt(lib, reader.buf, old(reader.pos), count)
      case Err(e) => r == Err(e)
      case Ok(parsed) => r == Ok(parsed.entries) && reader.pos == parsed.next
  {
    hide EntryAt;
    ghost var start := reader.pos;
    var entries: seq<PushEntry> := [];
    for i := 0 to count
      invariant reader.Valid() && EntriesAt(lib, reader.buf, start, i) == Ok(Parsed(entries, reader.pos))
    {
      var step := DecodeEntry(lib, reader);
      LaterError(lib, reader.buf, start, i, count);
      var e :- step;
      entries := entries + [e];
    }
    r := Ok(entries);
  }

  method DecodeEntry(lib: Library, reader: Reader) returns (r: Result<PushEntry>)
    requires reader.Valid()
    modifies reader
    ensures reader.Valid()
    ensures match EntryAt(lib, reader.buf, old(reader.pos))
      case Err(e) => r == Err(e)
      case Ok(step) => r == Ok(step.entry) && reader.pos == step.next
  {
    hide FromLe, Utf8Bounded, LpAt;
    var queryBytes :- reader.LpBytes();
    var query :- Utf8Bounded(lib, queryBytes, MAX_QUERY_NAME_BYTES);
    var componentBytes :- reader.LpBytes();
    var component :- Utf8Bounded(lib, componentBytes, MAX_COMPONENT_NAME_BYTES);
    var snapshot :- reader.LpBytes();
    r := Ok(PushEntry(query, component, snapshot));
  }

  /** The first entry that fails decides the error of the whole list. */
  lemma {:induction false} LaterError(lib: Library, body: seq<Byte>, pos: nat, i: nat, count: nat)
    requires i < count
    ensures EntriesAt(lib, body, pos, i + 1).Err? ==>
      EntriesAt(lib, body, pos, count) == Err(EntriesAt(lib, body, pos, i + 1).error)
    decreases count
  {
    hide EntryAt;
    if i + 1 < count {
      LaterError(lib, body, pos, i, count - 1);
    }
  }

  // --- round trips ---

  /** Why a name is refused: the first of these that applies. */
  lemma {:induction false} NameErrorsAre(lib: Library, bytes: seq<Byte>, maxBytes: nat)
    ensures var r := Utf8Bounded(lib, bytes, maxBytes);
      && (r == Err(EmptyName) <==> |bytes| == 0)
      && (r == Err(LongName) <==> 0 < |bytes| && maxBytes < |bytes|)
      && (r == Err(NotUtf8) <==> 0 < |bytes| <= maxBytes && !lib.isUtf8(bytes))
      && (r == Err(BlankName) <==> 0 < |bytes| <= maxBytes && lib.isUtf8(bytes) && lib.isBlank(bytes))
      && (r.Ok? <==> GoodName(lib, bytes, maxBytes))
  {
  }

  /** Which error refuses a push before its entries are looked at. */
  lemma {:induction false} ErrorsAre(lib: Library, bytes: seq<Byte>)
    ensures var r, n := Parse(lib, bytes), |bytes|;
      && (n < 22 ==> r == Err(TooShort))
      && (n >= 22 && lib.hash(bytes[..n - 8]) != FromLe(bytes[n - 8..]) ==> r == Err(ChecksumMismatch))
      && (n >= 22 && lib.hash(bytes[..n - 8]) == FromLe(bytes[n - 8..]) ==>
            && (bytes[..4] != [70, 83, 75, 66] ==> r == Err(BadMagic))
            && (bytes[..4] == [70, 83, 75, 66] && FromLe(bytes[4..6]) != 1 ==> r == Err(UnsupportedVersion)))
  {
    hide FromLe, LpAt, Utf8Bounded, EntriesAt;
    if 22 <= |bytes| {
      var body := bytes[..|bytes| - 8];
      assert body[..4] == bytes[..4] && body[4..6] == bytes[4..6];
    }
  }

  /** With a good front, a push is refused for its number of entries, for the first entry
      that cannot be read, or for what is left after them. */
  lemma {:induction false} EntryErrorsAre(lib: Library, body: seq<Byte>, node: seq<Byte>, count: nat)
    requires 14 + |node| <= |body| && body[10 + |node|..14 + |node|] == Le(count, 4) && count < U32_LIMIT
    requires body[..10 + |node|] == MAGIC + Le(1, 2) + Lp(node) && GoodName(lib, node, MAX_NODE_NAME_BYTES)
    ensures var r, entries := ParseBody(lib, body), EntriesAt(lib, body, 14 + |node|, count);
      && (4096 < count ==> r == Err(TooManyEntries))
      && (count <= 4096 && entries.Err? ==> r == Err(entries.error))
      && (count <= 4096 && entries.Ok? && entries.value.next != |body| ==> r == Err(TrailingBytes))
      && (count <= 4096 && entries.Ok? && entries.value.next == |body| ==> r == Ok(PushBatch(node, entries.value.entries)))
  {
    hide FromLe, Le, Lp, LpAt, Utf8Bounded, EntriesAt, Slice, Number;
    FrontReads(lib, body, node, count);
  }

  lemma {:induction false} FrontReads(lib: Library, body: seq<Byte>, node: seq<Byte>, count: nat)
    requires 14 + |node| <= |body|
    requires body[..10 + |node|] == MAGIC + Le(1, 2) + Lp(node) && GoodName(lib, node, MAX_NODE_NAME_BYTES)
    requires body[10 + |node|..14 + |node|] == Le(count, 4) && count < U32_LIMIT
    ensures Slice(body, 0, 4) == Ok(MAGIC) && Number(body, 4, 2) == Ok(1) && LpAt(body, 6) == Ok(node)
    ensures Utf8Bounded(lib, node, MAX_NODE_NAME_BYTES) == Ok(node) && Number(body, 10 + |node|, 4) == Ok(count)
  {
    hide FromLe, Le;
    Widths();
    var rest := body[14 + |node|..];
    var head := MAGIC + Le(1, 2);
    assert body == head + Lp(node) + Le(count, 4) + rest;
    assert body == MAGIC + Le(1, 2) + (Lp(node) + Le(count, 4) + rest);
    SliceMiddle([], MAGIC, body[4..]);
    assert body == [] + MAGIC + body[4..];
    NumberMiddle(MAGIC, 1, 2, Lp(node) + Le(count, 4) + rest);
    LpMiddle(head, node, Le(count, 4) + rest);
    assert body == head + Lp(node) + (Le(count, 4) + rest);
    NumberMiddle(head + Lp(node), count, 4, rest);
    GoodNameIsKept(lib, node, MAX_NODE_NAME_BYTES);
  }

  lemma {:induction false} GoodNameIsKept(lib: Library, bytes: seq<Byte>, maxBytes: nat)
    ensures GoodName(lib, bytes, maxBytes) ==> Utf8Bounded(lib, bytes, maxBytes) == Ok(bytes)
    ensures Utf8Bounded(lib, bytes, maxBytes).Ok? ==>
      GoodName(lib, bytes, maxBytes) && Utf8Bounded(lib, bytes, maxBytes).value == bytes
  {
  }

  lemma {:induction false} EntryDecodes(lib: Library, before: seq<Byte>, e: PushEntry, after: seq<Byte>)
    requires GoodEntry(lib, e)
    ensures EntryAt(lib, before + EntryBytes(e) + after, |before|) == Ok(Step(e, |before + EntryBytes(e)|))
  {
    hide Lp, LpAt, Utf8Bounded;
    LpSize(e.queryName);
    LpSize(e.component);
    LpSize(e.snapshot);
    var body := before + EntryBytes(e) + after;
    var q, c, s := Lp(e.queryName), Lp(e.component), Lp(e.snapshot);
    assert body == before + q + (c + s + after);
    LpMiddle(before, e.queryName, c + s + after);
    assert body == (before + q) + c + (s + after);
    LpMiddle(before + q, e.component, s + after);
    assert body == (before + q + c) + s + after;
    LpMiddle(before + q + c, e.snapshot, after);
    GoodNameIsKept(lib, e.queryName, MAX_QUERY_NAME_BYTES);
    GoodNameIsKept(lib, e.component, MAX_COMPONENT_NAME_BYTES);
  }

  lemma {:induction false} LpSize(s: seq<Byte>)
    ensures |Lp(s)| == 4 + |s|
  {
  }

  lemma {:induction false} EntriesDecode(lib: Library, before: seq<Byte>, entries: seq<PushEntry>, after: seq<Byte>)
    requires forall i :: 0 <= i < |entries| ==> GoodEntry(lib, entries[i])
    ensures EntriesAt(lib, before + EntriesBytes(entries) + after, |before|, |entries|)
         == Ok(Parsed(entries, |before + EntriesBytes(entries)|))
    decreases |entries|
  {
    hide EntryAt, GoodEntry, EntryBytes;
    if entries == [] {
      assert before + [] == before;
    } else {
      var init, last := entries[..|entries| - 1], entries[|entries| - 1];
      assert entries == init + [last];
      EntriesDecode(lib, before, init, EntryBytes(last) + after);
      assert before + EntriesBytes(entries) + after == before + EntriesBytes(init) + (EntryBytes(last) + after);
      EntryDecodes(lib, before + EntriesBytes(init), last, after);
      assert before + EntriesBytes(entries) + after == (before + EntriesBytes(init)) + EntryBytes(last) + after;
      assert before + EntriesBytes(entries) == before + EntriesBytes(init) + EntryBytes(last);
    }
  }

  lemma {:induction false} FrontParses(lib: Library, b: PushBatch, rest: seq<Byte>)
    requires WellFormed(lib, b)
    ensures var body := Front(b) + rest;
      && SHORTEST - 8 <= |body| && Slice(body, 0, 4) == Ok(MAGIC) && Number(body, 4, 2) == Ok(BATCH_VERSION)
      && LpAt(body, 6) == Ok(b.node) && Number(body, 10 + |b.node|, 4) == Ok(|b.entries|)
      && |Front(b)| == 14 + |b.node|
  {
    hide Le, FromLe, LpAt, Number, Pow256, GoodEntry;
    var body := Front(b) + rest;
    var head := MAGIC + Le(BATCH_VERSION, 2);
    LpSize(b.node);
    Widths();
    assert body == [] + MAGIC + (Le(BATCH_VERSION, 2) + Lp(b.node) + Le(|b.entries|, 4) + rest);
    SliceMiddle([], MAGIC, Le(BATCH_VERSION, 2) + Lp(b.node) + Le(|b.entries|, 4) + rest);
    assert body == MAGIC + Le(BATCH_VERSION, 2) + (Lp(b.node) + Le(|b.entries|, 4) + rest);
    NumberMiddle(MAGIC, BATCH_VERSION, 2, Lp(b.node) + Le(|b.entries|, 4) + rest);
    assert body == head + Lp(b.node) + (Le(|b.entries|, 4) + rest);
    LpMiddle(head, b.node, Le(|b.entries|, 4) + rest);
    assert body == (head + Lp(b.node)) + Le(|b.entries|, 4) + rest;
    NumberMiddle(head + Lp(b.node), |b.entries|, 4, rest);
  }

  lemma {:induction false} DecodeUndoesEncode(lib: Library, b: PushBatch)
    requires WellFormed(lib, b)
    ensures Parse(lib, Sealed(lib.hash, Body(b))) == Ok(b)
  {
    hide Le, FromLe, LpAt, Number, Slice, EntriesAt, EntriesBytes, Sealed, Unsealed, Front, GoodEntry, Utf8Bounded;
    var body := Body(b);
    FrontParses(lib, b, EntriesBytes(b.entries));
    UnsealedSealed(lib.hash, body, SHORTEST);
    GoodNameIsKept(lib, b.node, MAX_NODE_NAME_BYTES);
    EntriesDecode(lib, Front(b), b.entries, []);
    assert Front(b) + EntriesBytes(b.entries) + [] == body;
  }

  lemma {:induction false} EntryEncodes(lib: Library, body: seq<Byte>, pos: nat)
    requires EntryAt(lib, body, pos).Ok?
    ensures var step := EntryAt(lib, body, pos).value;
      && GoodEntry(lib, step.entry) && pos <= step.next <= |body|
      && body[..step.next] == body[..pos] + EntryBytes(step.entry)
  {
    hide Lp, LpAt, Utf8Bounded;
    var step := EntryAt(lib, body, pos).value;
    var q, c, s := step.entry.queryName, step.entry.component, step.entry.snapshot;
    var queryBytes := LpAt(body, pos).value;
    GoodNameIsKept(lib, queryBytes, MAX_QUERY_NAME_BYTES);
    LpBytesAt(body, pos);
    var componentBytes := LpAt(body, pos + 4 + |q|).value;
    GoodNameIsKept(lib, componentBytes, MAX_COMPONENT_NAME_BYTES);
    LpBytesAt(body, pos + 4 + |q|);
    LpBytesAt(body, pos + 8 + |q| + |c|);
    assert body[..step.next] == body[..pos] + (Lp(q) + Lp(c) + Lp(s));
  }

  lemma {:induction false} NoEntries()
    ensures EntriesBytes([]) == []
  {
  }

  lemma {:induction false} EntriesSnoc(entries: seq<PushEntry>, e: PushEntry)
    ensures EntriesBytes(entries + [e]) == EntriesBytes(entries) + EntryBytes(e)
  {
    assert (entries + [e])[..|entries|] == entries;
  }

  lemma {:induction false} EntriesEncode(lib: Library, body: seq<Byte>, pos: nat, count: nat)
    requires pos <= |body| && EntriesAt(lib, body, pos, count).Ok?
    ensures var p := EntriesAt(lib, body, pos, count).value;
      && |p.entries| == count && (forall i :: 0 <= i < count ==> GoodEntry(lib, p.entries[i]))
      && p.next <= |body| && body[..p.next] == body[..pos] + EntriesBytes(p.entries)
    decreases count
  {
    hide EntryAt, GoodEntry, EntryBytes, EntriesBytes;
    NoEntries();
    if count > 0 {
      var before := EntriesAt(lib, body, pos, count - 1).value;
      EntriesEncode(lib, body, pos, count - 1);
      EntryEncodes(lib, body, before.next);
      EntriesSnoc(before.entries, EntryAt(lib, body, before.next).value.entry);
      assert body[..pos] + EntriesBytes(before.entries) + EntryBytes(EntryAt(lib, body, before.next).value.entry)
          == body[..pos] + (EntriesBytes(before.entries) + EntryBytes(EntryAt(lib, body, before.next).value.entry));
    } else {
      assert body[..pos] + [] == body[..pos];
    }
  }

  /** Every successful decode is of a well-formed batch, and encoding that batch gives the
      same bytes back. */
  lemma {:induction false} EncodeUndoesDecode(lib: Library, bytes: seq<Byte>)
    requires Parse(lib, bytes).Ok?
    ensures var b := Parse(lib, bytes).value;
      WellFormed(lib, b) && Sealed(lib.hash, Body(b)) == bytes
  {
    hide Le, FromLe, ParseBody, Sealed, Body, WellFormed;
    var body := Unsealed(lib.hash, bytes, SHORTEST).value;
    SealedUnsealed(lib.hash, bytes, SHORTEST);
    BodyEncodes(lib, body);
  }

  lemma {:induction false} BodyEncodes(lib: Library, body: seq<Byte>)
    requires ParseBody(lib, body).Ok?
    ensures WellFormed(lib, ParseBody(lib, body).value) && Body(ParseBody(lib, body).value) == body
  {
    hide Le, FromLe, LpAt, Number, Slice, EntriesAt, EntriesBytes, Lp, GoodEntry, Utf8Bounded;
    var b := ParseBody(lib, body).value;
    var nodeBytes := LpAt(body, 6).value;
    SliceBytes(body, 0, 4);
    NumberBytes(body, 4, 2);
    LpBytesAt(body, 6);
    GoodNameIsKept(lib, nodeBytes, MAX_NODE_NAME_BYTES);
    NumberBytes(body, 10 + |nodeBytes|, 4);
    var count := Number(body, 10 + |nodeBytes|, 4).value;
    EntriesEncode(lib, body, 14 + |nodeBytes|, count);
    assert body[..0] == [] && [] + MAGIC == MAGIC;
    assert body[..14 + |nodeBytes|] == Front(b);
    assert body[..|body|] == body;
  }

  /** Decoding an encoded batch gives it back exactly when the batch is well-formed. */
  lemma {:induction false} RoundTripExactly(lib: Library, b: PushBatch)
    ensures Parse(lib, Sealed(lib.hash, Body(b))) == Ok(b) <==> WellFormed(lib, b)
  {
    hide Parse, Sealed, Body, WellFormed;
    if WellFormed(lib, b) {
      DecodeUndoesEncode(lib, b);
    }
    if Parse(lib, Sealed(lib.hash, Body(b))) == Ok(b) {
      EncodeUndoesDecode(lib, Sealed(lib.hash, Body(b)));
    }
  }
}
