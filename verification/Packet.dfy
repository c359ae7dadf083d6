// The TilePacket binary format: packet/encode.go writes it, packet/packet.go reads it.

module Packet {
  import opened Wrappers

  type byte = b: int | 0 <= b < 256
  type Bytes = seq<byte>

  // Any function with 32-byte results; the program uses SHA-256.
  type Digest = f: Bytes -> Bytes | forall b :: |f(b)| == 32
    witness (b: Bytes) => seq(32, (i: nat) => 0)

  // ---- encoding/binary, little endian -------------------------------------------------------

  function PutUint16(n: nat): (b: Bytes)
    requires n < 0x1_0000
    ensures |b| == 2
  {
    [n % 256, n / 256]
  }

  function Uint16(b: Bytes): (n: nat)
    requires |b| == 2
    ensures n < 0x1_0000
  {
    b[0] as int + 256 * (b[1] as int)
  }

  function PutUint32(n: nat): (b: Bytes)
    requires n < 0x1_0000_0000
    ensures |b| == 4
  {
    PutUint16(n % 0x1_0000) + PutUint16(n / 0x1_0000)
  }

  function Uint32(b: Bytes): (n: nat)
    requires |b| == 4
    ensures n < 0x1_0000_0000
  {
    Uint16(b[..2]) + 0x1_0000 * Uint16(b[2..])
  }

  lemma Uint16Inverse(n: nat, b: Bytes)
    requires n < 0x1_0000 && |b| == 2
    ensures PutUint16(n) == b <==> Uint16(b) == n
  {
    assert b == [b[0], b[1]];
  }

  lemma Uint32Inverse(n: nat, b: Bytes)
    requires n < 0x1_0000_0000 && |b| == 4
    ensures PutUint32(n) == b <==> Uint32(b) == n
  {
    Uint16Inverse(n % 0x1_0000, b[..2]);
    Uint16Inverse(n / 0x1_0000, b[2..]);
    assert b == b[..2] + b[2..];
    var (l, r) := (PutUint16(n % 0x1_0000), PutUint16(n / 0x1_0000));
    assert (l + r)[..2] == l && (l + r)[2..] == r;
  }

  // ---- What a packet is made of -------------------------------------------------------------

  type Headers = map<Bytes, Bytes>

  datatype Entry = Entry(key: Bytes, val: Bytes)

  // Go ranges over a map in an arbitrary order; es is one such order for m.
  ghost predicate Enumerates(es: seq<Entry>, m: Headers) {
    Distinct(es) && ToMap(es) == m
  }

  ghost predicate Distinct(es: seq<Entry>) {
    forall i, j :: 0 <= i < j < |es| ==> es[i].key != es[j].key
  }

  function Front<T>(s: seq<T>): seq<T>
    requires s != []
  {
    s[..|s| - 1]
  }

  function Last<T>(s: seq<T>): T
    requires s != []
  {
    s[|s| - 1]
  }

  // The map left by assigning the entries one after the other.
  function ToMap(es: seq<Entry>): Headers {
    if es == [] then map[] else ToMap(Front(es))[Last(es).key := Last(es).val]
  }

  function EntryBytes(e: Entry): Bytes {
    PutUint16(|e.key| % 0x1_0000) + e.key + PutUint16(|e.val| % 0x1_0000) + e.val
  }

  function EntriesBytes(es: seq<Entry>): Bytes {
    if es == [] then [] else EntriesBytes(Front(es)) + EntryBytes(Last(es))
  }

  // Everything after the checksum.
  function Payload(tile: Bytes, es: seq<Entry>): Bytes {
    PutUint32(|tile| % 0x1_0000_0000) + [|es| % 0x100] + EntriesBytes(es) + tile
  }

  function PacketOf(h: Digest, tile: Bytes, es: seq<Entry>): Bytes {
    h(Payload(tile, es)) + Payload(tile, es)
  }

  // ---- Encode -------------------------------------------------------------------------------

  method Encode(h: Digest, tile: Bytes, headers: Headers) returns (packet: Bytes, ghost order: seq<Entry>)
    ensures Enumerates(order, headers)
    ensures packet == PacketOf(h, tile, order)
    ensures Decode(h, packet) == Decoded(tile, headers) <==> WithinLimits(tile, headers)
  {
    hide Enumerates, EntryBytes, EntriesBytes, PutUint16, PutUint32, Payload, Decode, WithinLimits;
    var checksum: Bytes := seq(32, (i: nat) => 0);
    packet := checksum;
    packet := packet + PutUint32(|tile| % 0x1_0000_0000);
    packet := packet + [|headers| % 0x100];
    order := [];
    NothingEnumerated(headers);
    ghost var start := packet;
    var rest := headers.Keys;
    while rest != {}
      invariant rest <= headers.Keys
      invariant Enumerates(order, headers - rest)
      invariant packet == start + EntriesBytes(order)
      decreases rest
    {
      var key :| key in rest;
      packet := AppendHeader(packet, key, headers[key]);
      EnumerateOneMore(order, headers, rest, key);
      ConcatAssociates(start, EntriesBytes(order), EntryBytes(Entry(key, headers[key])));
      order := order + [Entry(key, headers[key])];
      rest := rest - {key};
    }
    assert headers - rest == headers;
    packet := packet + tile;
    PayloadAssembled(checksum, tile, headers, order);
    assert packet[32..] == Payload(tile, order);
    packet := SetChecksum(packet, h(packet[32..]));
    RoundTrip(h, tile, headers, order);
  }

  // The body of Encode's header loop.
  method AppendHeader(packet: Bytes, key: Bytes, val: Bytes) returns (r: Bytes)
    ensures r == packet + EntryBytes(Entry(key, val))
  {
    hide PutUint16;
    r := packet + PutUint16(|key| % 0x1_0000);
    r := r + key;
    r := r + PutUint16(|val| % 0x1_0000);
    r := r + val;
  }

  // The closing loop of Encode: the computed checksum overwrites the space kept for it.
  method SetChecksum(packet: Bytes, computed: Bytes) returns (r: Bytes)
    requires |packet| >= 32 == |computed|
    ensures r == computed + packet[32..]
  {
    r := packet;
    for i := 0 to 32
      invariant r == computed[..i] + packet[i..]
    {
      r := r[i := computed[i]];
    }
  }

  lemma ConcatAssociates<T>(a: seq<T>, b: seq<T>, c: seq<T>)
    ensures a + b + c == a + (b + c)
  {
  }

  lemma NothingEnumerated(m: Headers)
    ensures Enumerates([], m - m.Keys) && EntriesBytes([]) == []
  {
  }

  lemma PayloadAssembled(checksum: Bytes, tile: Bytes, m: Headers, es: seq<Entry>)
    requires Enumerates(es, m)
    ensures checksum + PutUint32(|tile| % 0x1_0000_0000) + [|m| % 0x100] + EntriesBytes(es) + tile
         == checksum + Payload(tile, es)
  {
    SizeOfMap(es);
  }

  lemma EnumerateOneMore(es: seq<Entry>, m: Headers, rest: set<Bytes>, key: Bytes)
    requires Enumerates(es, m - rest) && key in rest && rest <= m.Keys
    ensures Enumerates(es + [Entry(key, m[key])], m - (rest - {key}))
    ensures EntriesBytes(es + [Entry(key, m[key])]) == EntriesBytes(es) + EntryBytes(Entry(key, m[key]))
  {
    hide EntriesBytes, EntryBytes, ToMap, Distinct;
    var e := Entry(key, m[key]);
    EntriesBytesOneMore(es, e);
    ToMapOneMore(es, e);
    OneKeyLess(m, rest, key);
    KeysOfMap(es);
    assert key !in m - rest;
    DistinctOneMore(es, e);
  }

  lemma EntriesBytesOneMore(es: seq<Entry>, e: Entry)
    ensures EntriesBytes(es + [e]) == EntriesBytes(es) + EntryBytes(e)
  {
    hide EntryBytes;
    assert Front(es + [e]) == es && Last(es + [e]) == e;
  }

  lemma OneKeyLess(m: Headers, rest: set<Bytes>, key: Bytes)
    requires key in rest && rest <= m.Keys
    ensures m - (rest - {key}) == (m - rest)[key := m[key]]
  {
  }

  lemma DistinctOneMore(es: seq<Entry>, e: Entry)
    requires Distinct(es) && forall e' <- es :: e'.key != e.key
    ensures Distinct(es + [e])
  {
  }

  lemma {:induction false} KeysOfMap(es: seq<Entry>)
    ensures forall e <- es :: e.key in ToMap(es)
    ensures forall k <- ToMap(es) :: exists e <- es :: e.key == k && e.val == ToMap(es)[k]
    ensures |ToMap(es)| <= |es|
  {
    if es != [] {
      KeysOfMap(Front(es));
      assert es == Front(es) + [Last(es)];
      forall k <- ToMap(es) ensures exists e <- es :: e.key == k && e.val == ToMap(es)[k] {
        if k == Last(es).key { assert Last(es) in es; }
      }
    }
  }

  lemma {:induction false} SizeOfMap(es: seq<Entry>)
    requires Distinct(es)
    ensures |ToMap(es)| == |es|
  {
    if es != [] {
      SizeOfMap(Front(es));
      KeysOfMap(Front(es));
    }
  }

  // ---- Reading: the functions of packet.go --------------------------------------------------

  predicate Valid(h: Digest, t: Bytes) {
    |t| >= 32 && h(t[32..]) == t[..32]
  }

  // None stands for a read beyond the end of the packet.
  function TileDataSize(t: Bytes): Option<nat> {
    if |t| < 36 then None else Some(Uint32(t[32..36]))
  }

  function LenHeaders(t: Bytes): Option<nat> {
    if |t| < 37 then None else Some(t[36] as int)
  }

  function TileData(t: Bytes): Option<Bytes> {
    var size := TileDataSize(t);
    if size.None? || size.value > |t| then None else Some(t[|t| - size.value..])
  }

  // Fetch can hand the packet out: it validates and its size field is there to be read.
  predicate Usable(h: Digest, t: Bytes) {
    Valid(h, t) && TileDataSize(t).Some?
  }

  lemma UsableIsValid(h: Digest, t: Bytes)
    ensures Usable(h, t) ==> Valid(h, t)
  {
  }

  datatype Walk = Walk(entries: seq<Entry>, offset: nat)

  // One turn of the loop of Headers.
  function ReadEntry(t: Bytes, offset: nat): (r: Option<Walk>)
    ensures r.Some? ==> |r.value.entries| == 1 && offset < r.value.offset <= |t|
  {
    if offset + 2 > |t| then None else
    var keyEnd := offset + 2 + Uint16(t[offset..offset + 2]);
    if keyEnd + 2 > |t| then None else
    var valEnd := keyEnd + 2 + Uint16(t[keyEnd..keyEnd + 2]);
    if valEnd > |t| then None else
    Some(Walk([Entry(t[offset + 2..keyEnd], t[keyEnd + 2..valEnd])], valEnd))
  }

  function ReadEntries(t: Bytes, count: nat): (r: Option<Walk>)
    ensures r.Some? ==> |r.value.entries| == count && 37 <= r.value.offset && (count > 0 ==> r.value.offset <= |t|)
  {
    if count == 0 then Some(Walk([], 37)) else
    var before := ReadEntries(t, count - 1);
    if before.None? then None else
    var one := ReadEntry(t, before.value.offset);
    if one.None? then None else Some(Walk(before.value.entries + one.value.entries, one.value.offset))
  }

  function HeadersOf(t: Bytes): Option<Headers> {
    var count := LenHeaders(t);
    if count.None? then None else
    var walk := ReadEntries(t, count.value);
    if walk.None? then None else Some(ToMap(walk.value.entries))
  }

  datatype DecodeResult = Decoded(tile: Bytes, headers: Headers) | Corrupted | OutOfBounds

  function Decode(h: Digest, t: Bytes): DecodeResult {
    if !Valid(h, t) then Corrupted else
    var (tile, headers) := (TileData(t), HeadersOf(t));
    if tile.None? || headers.None? then OutOfBounds else Decoded(tile.value, headers.value)
  }

  // t is some payload with its own checksum in front.
  ghost predicate Checksummed(h: Digest, t: Bytes) {
    exists p: Bytes :: t == h(p) + p
  }

  lemma ValidIffChecksummed(h: Digest, t: Bytes)
    ensures Valid(h, t) <==> Checksummed(h, t)
    ensures Checksummed(h, t) <==> exists p :: t == h(p) + p
  {
    if Valid(h, t) {
      assert t == h(t[32..]) + t[32..];
    }
    forall p: Bytes | t == h(p) + p ensures Valid(h, t) {
      assert t[..32] == h(p) && t[32..] == p;
    }
  }

  lemma UsableIff(h: Digest, t: Bytes)
    ensures Usable(h, t) <==> (exists p :: t == h(p) + p) && |t| >= 36
  {
    hide Valid;
    ValidIffChecksummed(h, t);
  }

  method Validate(h: Digest, t: Bytes) returns (valid: bool)
    ensures valid == Valid(h, t)
    ensures valid <==> exists p :: t == h(p) + p
  {
    ValidIffChecksummed(h, t);
    if |t| < 32 { return false; }
    var checksum := h(t[32..]);
    var stored := new byte[32];
    for i := 0 to 32
      invariant stored[..i] == t[..i]
    {
      stored[i] := t[i];
    }
    assert stored[..] == t[..32];
    valid := checksum == stored[..];
  }

  // FromBytes: the packet itself, or nothing when the checksum does not match.
  method FromBytes(h: Digest, data: Bytes) returns (r: Option<Bytes>)
    ensures r == if Valid(h, data) then Some(data) else None
    ensures r.Some? <==> exists p :: data == h(p) + p
  {
    var valid := Validate(h, data);
    r := if valid then Some(data) else None;
  }

  method ParseHeaders(t: Bytes) returns (r: Option<Headers>)
    ensures r == HeadersOf(t)
  {
    if |t| < 37 { return None; }
    hide Uint16, ReadEntry, ReadEntries, ToMap;
    var offset := 37;
    var headers: Headers := map[];
    var count := 0;
    WalkStarts(t);
    while count < t[36] as int
      invariant count <= t[36] as int
      invariant Walked(t, count, offset, headers)
    {
      WalkGoesOn(t, count, offset, headers, t[36] as int);
      var one := ParseHeader(t, offset);
      if one.None? { return None; }
      var (key, val, next) := one.value;
      offset := next;
      headers := headers[key := val];
      count := count + 1;
    }
    r := Some(headers);
  }

  // After count turns of the loop the walk stands at offset, having collected headers.
  ghost predicate Walked(t: Bytes, count: nat, offset: nat, headers: Headers) {
    var walk := ReadEntries(t, count);
    walk.Some? && offset == walk.value.offset && headers == ToMap(walk.value.entries)
  }

  lemma WalkStarts(t: Bytes)
    ensures Walked(t, 0, 37, map[])
  {
  }

  lemma WalkGoesOn(t: Bytes, count: nat, offset: nat, headers: Headers, total: nat)
    requires Walked(t, count, offset, headers) && count < total
    ensures var one := ReadEntry(t, offset);
            if one.None? then ReadEntries(t, total).None?
            else var e := one.value.entries[0]; Walked(t, count + 1, one.value.offset, headers[e.key := e.val])
  {
    hide ReadEntry, ReadEntries, ToMap;
    ReadOneMore(t, count);
    ReadEntriesFailsOn(t, count + 1, total);
    var one := ReadEntry(t, offset);
    if one.Some? {
      var e := one.value.entries[0];
      assert one.value.entries == [e];
      ToMapOneMore(ReadEntries(t, count).value.entries, e);
    }
  }

  lemma ReadOneMore(t: Bytes, count: nat)
    requires ReadEntries(t, count).Some?
    ensures var (before, one) := (ReadEntries(t, count).value, ReadEntry(t, ReadEntries(t, count).value.offset));
            ReadEntries(t, count + 1) ==
            if one.None? then None else Some(Walk(before.entries + one.value.entries, one.value.offset))
  {
    hide ReadEntry;
  }

  lemma ToMapOneMore(es: seq<Entry>, e: Entry)
    ensures ToMap(es + [e]) == ToMap(es)[e.key := e.val]
  {
    assert Front(es + [e]) == es && Last(es + [e]) == e;
  }

  // The body of that loop: one key and one value, and the offset behind them.
  method ParseHeader(t: Bytes, start: nat) returns (r: Option<(Bytes, Bytes, nat)>)
    ensures r.None? <==> ReadEntry(t, start).None?
    ensures r.Some? ==> ReadEntry(t, start) == Some(Walk([Entry(r.value.0, r.value.1)], r.value.2))
  {
    hide Uint16;
    var offset := start;
    if offset + 2 > |t| { return None; }
    var keyLen := Uint16(t[offset..offset + 2]);
    offset := offset + 2;
    if offset + keyLen > |t| { return None; }
    var key := t[offset..offset + keyLen];
    offset := offset + keyLen;
    if offset + 2 > |t| { return None; }
    var valLen := Uint16(t[offset..offset + 2]);
    offset := offset + 2;
    if offset + valLen > |t| { return None; }
    var val := t[offset..offset + valLen];
    offset := offset + valLen;
    r := Some((key, val, offset));
  }

  // Once the walk has run off the end it stays off.
  lemma {:induction false} ReadEntriesFailsOn(t: Bytes, n: nat, m: nat)
    requires n <= m
    ensures ReadEntries(t, n).None? ==> ReadEntries(t, m).None?
    decreases m
  {
    if n < m { ReadEntriesFailsOn(t, n, m - 1); }
  }

  // ---- Main results -------------------------------------------------------------------------

  predicate Small(e: Entry) {
    |e.key| < 0x1_0000 && |e.val| < 0x1_0000
  }

  predicate AllSmall(es: seq<Entry>) {
    forall e <- es :: Small(e)
  }

  lemma SliceOfSlice<T>(s: seq<T>, a: nat, b: nat, i: nat, j: nat)
    requires a <= b <= |s| && i <= j <= b - a
    ensures s[a..b][i..j] == s[a + i..a + j]
  {
    var (l, r) := (s[a..b][i..j], s[a + i..a + j]);
    assert |l| == |r| && forall k :: 0 <= k < |l| ==> l[k] == r[k];
  }

  // Where the parts of a packet lie.
  lemma PayloadParts(tile: Bytes, es: seq<Entry>)
    ensures var p := Payload(tile, es);
            && |p| == 5 + |EntriesBytes(es)| + |tile|
            && p[..4] == PutUint32(|tile| % 0x1_0000_0000) && p[4] == |es| % 0x100
            && p[5..] == EntriesBytes(es) + tile
  {
    hide PutUint32, EntriesBytes;
    var (size, count, entries) := (PutUint32(|tile| % 0x1_0000_0000), [|es| % 0x100], EntriesBytes(es));
    ConcatAssociates(size + count, entries, tile);
    assert Payload(tile, es) == (size + count) + (entries + tile);
  }

  lemma PacketParts(h: Digest, tile: Bytes, es: seq<Entry>)
    ensures var (t, p) := (PacketOf(h, tile, es), Payload(tile, es));
            |t| == 32 + |p| && t[..32] == h(p) && t[32..] == p && Valid(h, t)
  {
    hide Payload;
  }

  lemma PacketIsUsable(h: Digest, tile: Bytes, es: seq<Entry>)
    ensures Usable(h, PacketOf(h, tile, es)) && Valid(h, PacketOf(h, tile, es))
  {
    hide PacketOf, Payload, Valid;
    PacketParts(h, tile, es);
    PayloadParts(tile, es);
  }

  lemma SmallMod(n: nat, m: nat)
    requires n < m
    ensures n % m == n
  {
  }

  // The bytes b stand in t at the given offset.
  predicate StandsAt(t: Bytes, offset: nat, b: Bytes) {
    offset + |b| <= |t| && t[offset..offset + |b|] == b
  }

  // The size field, the count and the header bytes, as the reading functions find them.
  lemma HeadOfPacket(h: Digest, tile: Bytes, es: seq<Entry>)
    ensures var t := PacketOf(h, tile, es);
            && |t| == 37 + |EntriesBytes(es)| + |tile|
            && t[32..36] == PutUint32(|tile| % 0x1_0000_0000) && LenHeaders(t) == Some(|es| % 0x100)
            && StandsAt(t, 37, EntriesBytes(es))
  {
    hide Payload, PacketOf, PutUint32, EntriesBytes, Valid;
    PayloadParts(tile, es);
    PacketParts(h, tile, es);
    var (t, p) := (PacketOf(h, tile, es), Payload(tile, es));
    var n := |EntriesBytes(es)|;
    SliceOfSlice(t, 32, |t|, 0, 4);
    SliceOfSlice(t, 32, |t|, 5, 5 + n);
    SliceOfSlice(p, 5, |p|, 0, n);
    assert (EntriesBytes(es) + tile)[0..n] == EntriesBytes(es);
    assert t[36] == t[32..][4];
  }

  lemma TailOfPacket(h: Digest, tile: Bytes, es: seq<Entry>)
    ensures var t := PacketOf(h, tile, es); |tile| <= |t| && LastBytes(t, |tile|) == tile
  {
    hide Payload, PacketOf, PutUint32, EntriesBytes, Valid;
    PayloadParts(tile, es);
    PacketParts(h, tile, es);
    var (t, p) := (PacketOf(h, tile, es), Payload(tile, es));
    LastOfLast(t, |p|, |tile|);
    assert LastBytes(t, |p|) == p;
    LastOfLast(p, |p| - 5, |tile|);
    assert LastBytes(p, |p| - 5) == p[5..];
    assert LastBytes(p[5..], |tile|) == tile;
  }

  function LastBytes(s: Bytes, n: nat): Bytes
    requires n <= |s|
  {
    s[|s| - n..]
  }

  // As much of a tile as its size field accounts for.
  function Kept(tile: Bytes): Bytes {
    LastBytes(tile, |tile| % 0x1_0000_0000)
  }

  lemma LastOfLast(s: Bytes, m: nat, n: nat)
    requires n <= m <= |s|
    ensures LastBytes(LastBytes(s, m), n) == LastBytes(s, n)
  {
    SliceOfSlice(s, |s| - m, |s|, m - n, m);
  }

  lemma SizeOfPacket(h: Digest, tile: Bytes, es: seq<Entry>)
    ensures TileDataSize(PacketOf(h, tile, es)) == Some(|tile| % 0x1_0000_0000)
  {
    hide PacketOf, EntriesBytes, PutUint32, Uint32;
    HeadOfPacket(h, tile, es);
    Uint32Inverse(|tile| % 0x1_0000_0000, PacketOf(h, tile, es)[32..36]);
  }

  // Without any limits: what Encode writes always validates, and TileData gives the last
  // |tile| mod 2^32 bytes of the tile.
  lemma TileDataOfPacket(h: Digest, tile: Bytes, es: seq<Entry>)
    ensures Valid(h, PacketOf(h, tile, es))
    ensures TileData(PacketOf(h, tile, es)) == Some(Kept(tile))
  {
    hide PacketOf, TileDataSize, Valid, Payload;
    PacketParts(h, tile, es);
    TailOfPacket(h, tile, es);
    SizeOfPacket(h, tile, es);
    var size := |tile| % 0x1_0000_0000;
    LastOfLast(PacketOf(h, tile, es), |tile|, size);
  }

  lemma ReadEntryAt(t: Bytes, offset: nat, e: Entry)
    requires Small(e) && StandsAt(t, offset, EntryBytes(e))
    ensures ReadEntry(t, offset) == Some(Walk([e], offset + |EntryBytes(e)|))
  {
    hide PutUint16, Uint16;
    var (kl, vl) := (PutUint16(|e.key|), PutUint16(|e.val|));
    var b := EntryBytes(e);
    var keyEnd := 2 + |e.key|;
    assert b == kl + e.key + vl + e.val;
    assert b[0..2] == kl && b[2..keyEnd] == e.key && b[keyEnd..keyEnd + 2] == vl && b[keyEnd + 2..|b|] == e.val;
    SliceOfSlice(t, offset, offset + |b|, 0, 2);
    SliceOfSlice(t, offset, offset + |b|, 2, keyEnd);
    SliceOfSlice(t, offset, offset + |b|, keyEnd, keyEnd + 2);
    SliceOfSlice(t, offset, offset + |b|, keyEnd + 2, |b|);
    Uint16Inverse(|e.key|, kl);
    Uint16Inverse(|e.val|, vl);
  }

  lemma {:induction false} EntriesPrefix(es: seq<Entry>, n: nat)
    requires n <= |es|
    ensures EntriesBytes(es[..n]) <= EntriesBytes(es)
    decreases |es|
  {
    if n < |es| {
      assert Front(es)[..n] == es[..n];
      EntriesPrefix(Front(es), n);
    } else {
      assert es[..n] == es;
    }
  }

  // The next entry lies right behind the ones already walked.
  lemma NextEntry(t: Bytes, es: seq<Entry>, n: nat)
    requires StandsAt(t, 37, EntriesBytes(es)) && 0 < n <= |es|
    ensures StandsAt(t, 37 + |EntriesBytes(es[..n - 1])|, EntryBytes(es[n - 1]))
    ensures EntriesBytes(es[..n]) == EntriesBytes(es[..n - 1]) + EntryBytes(es[n - 1])
  {
    hide EntryBytes;
    var (done, b, all) := (EntriesBytes(es[..n - 1]), EntryBytes(es[n - 1]), EntriesBytes(es));
    assert Front(es[..n]) == es[..n - 1] && Last(es[..n]) == es[n - 1];
    EntriesPrefix(es, n);
    assert all[|done|..|done| + |b|] == b;
    SliceOfSlice(t, 37, 37 + |all|, |done|, |done| + |b|);
  }

  // Walking a packet yields its entries, as far as the walk goes and its entries are small.
  lemma {:induction false} ReadEntriesOfPacket(t: Bytes, es: seq<Entry>, n: nat)
    requires StandsAt(t, 37, EntriesBytes(es)) && n <= |es| && AllSmall(es[..n])
    ensures ReadEntries(t, n) == Some(Walk(es[..n], 37 + |EntriesBytes(es[..n])|))
    decreases n
  {
    hide EntryBytes, ReadEntry, EntriesBytes, StandsAt;
    if n == 0 {
      assert EntriesBytes([]) == [] by { NothingEnumerated(map[]); }
    } else {
      assert es[..n][..n - 1] == es[..n - 1];
      assert forall e <- es[..n - 1] :: e in es[..n];
      ReadEntriesOfPacket(t, es, n - 1);
      NextEntry(t, es, n);
      assert es[n - 1] in es[..n];
      ReadEntryAt(t, 37 + |EntriesBytes(es[..n - 1])|, es[n - 1]);
      assert es[..n] == es[..n - 1] + [es[n - 1]];
    }
  }

  lemma ReadAllEntries(t: Bytes, es: seq<Entry>)
    requires StandsAt(t, 37, EntriesBytes(es)) && AllSmall(es)
    ensures ReadEntries(t, |es|) == Some(Walk(es, 37 + |EntriesBytes(es)|))
  {
    hide StandsAt, AllSmall, ReadEntries, EntriesBytes;
    AllOf(es, |es|);
    ReadEntriesOfPacket(t, es, |es|);
  }

  lemma HeadersFromWalk(t: Bytes, es: seq<Entry>, count: nat, offset: nat)
    requires LenHeaders(t) == Some(count) && ReadEntries(t, count) == Some(Walk(es, offset))
    ensures HeadersOf(t) == Some(ToMap(es))
  {
    hide ToMap, ReadEntries;
  }

  // With small entries, Headers gives the first |headers| mod 256 entries in iteration order.
  lemma HeadersOfPacket(h: Digest, tile: Bytes, es: seq<Entry>)
    requires AllSmall(es[..|es| % 0x100])
    ensures HeadersOf(PacketOf(h, tile, es)) == Some(ToMap(es[..|es| % 0x100]))
  {
    hide PacketOf, EntriesBytes, ToMap, ReadEntries, PutUint32, StandsAt, AllSmall, LenHeaders, HeadersOf;
    var n := |es| % 0x100;
    HeadOfPacket(h, tile, es);
    ReadEntriesOfPacket(PacketOf(h, tile, es), es, n);
    HeadersFromWalk(PacketOf(h, tile, es), es[..n], n, 37 + |EntriesBytes(es[..n])|);
  }

  lemma FourSlices<T>(s: seq<T>, a: nat, b: nat, c: nat, d: nat, e: nat)
    requires a <= b <= c <= d <= e <= |s|
    ensures s[a..e] == s[a..b] + s[b..c] + s[c..d] + s[d..e]
  {
    assert s[a..c] == s[a..b] + s[b..c];
    assert s[a..d] == s[a..c] + s[c..d];
    assert s[a..e] == s[a..d] + s[d..e];
  }

  lemma ReadEntryInverse(t: Bytes, offset: nat)
    requires ReadEntry(t, offset).Some?
    ensures var walk := ReadEntry(t, offset).value;
            Small(walk.entries[0]) && t[offset..walk.offset] == EntryBytes(walk.entries[0])
  {
    hide PutUint16, Uint16;
    var walk := ReadEntry(t, offset).value;
    var e := walk.entries[0];
    var keyEnd := offset + 2 + |e.key|;
    Uint16Inverse(|e.key|, t[offset..offset + 2]);
    Uint16Inverse(|e.val|, t[keyEnd..keyEnd + 2]);
    FourSlices(t, offset, offset + 2, keyEnd, keyEnd + 2, walk.offset);
  }

  // What the walk read is what the walked bytes encode, and its entries are small.
  lemma {:induction false} ReadEntriesInverse(t: Bytes, n: nat)
    requires |t| >= 37 && ReadEntries(t, n).Some?
    ensures var walk := ReadEntries(t, n).value;
            AllSmall(walk.entries) && t[37..walk.offset] == EntriesBytes(walk.entries)
  {
    hide EntryBytes, ReadEntry;
    if n > 0 {
      ReadEntriesInverse(t, n - 1);
      var before := ReadEntries(t, n - 1).value;
      var walk := ReadEntries(t, n).value;
      ReadEntryInverse(t, before.offset);
      assert Front(walk.entries) == before.entries;
      assert t[37..walk.offset] == t[37..before.offset] + t[before.offset..walk.offset];
    }
  }

  // The limits of the format's length fields.
  predicate WithinLimits(tile: Bytes, m: Headers) {
    |tile| < 0x1_0000_0000 && |m| < 0x100 && forall k <- m :: |k| < 0x1_0000 && |m[k]| < 0x1_0000
  }

  lemma LimitsOfEntries(es: seq<Entry>, m: Headers)
    requires Enumerates(es, m)
    ensures AllSmall(es) <==> forall k <- m :: |k| < 0x1_0000 && |m[k]| < 0x1_0000
    ensures |m| == |es|
  {
    SizeOfMap(es);
    KeysOfMap(es);
    ValuesOfMap(es);
  }

  lemma {:induction false} ValuesOfMap(es: seq<Entry>)
    requires Distinct(es)
    ensures forall e <- es :: e.key in ToMap(es) && ToMap(es)[e.key] == e.val
  {
    if es != [] {
      ValuesOfMap(Front(es));
      assert es == Front(es) + [Last(es)];
    }
  }

  lemma AllOf<T>(s: seq<T>, n: nat)
    requires n == |s|
    ensures s[..n] == s && s[|s| - n..] == s
  {
  }

  lemma GoodRoundTrip(h: Digest, tile: Bytes, m: Headers, es: seq<Entry>)
    requires Enumerates(es, m) && WithinLimits(tile, m)
    ensures Valid(h, PacketOf(h, tile, es))
    ensures TileData(PacketOf(h, tile, es)) == Some(tile) && HeadersOf(PacketOf(h, tile, es)) == Some(m)
  {
    hide PacketOf, Valid, TileData, EntriesBytes, ReadEntries, ToMap, Distinct, AllSmall, StandsAt, PutUint32;
    hide HeadersOf, LenHeaders;
    TileDataOfPacket(h, tile, es);
    AllOf(tile, |tile|);
    LimitsOfEntries(es, m);
    HeadOfPacket(h, tile, es);
    SmallMod(|es|, 0x100);
    ReadAllEntries(PacketOf(h, tile, es), es);
    HeadersFromWalk(PacketOf(h, tile, es), es, |es|, 37 + |EntriesBytes(es)|);
  }

  // The round trip, for every map and every iteration order: decoding gives back tile and headers
  // exactly when the lengths fit their fields.
  lemma RoundTrip(h: Digest, tile: Bytes, m: Headers, es: seq<Entry>)
    requires Enumerates(es, m)
    ensures Decode(h, PacketOf(h, tile, es)) == Decoded(tile, m) <==> WithinLimits(tile, m)
  {
    hide PacketOf, Valid, TileData, HeadersOf, ToMap, Distinct;
    if WithinLimits(tile, m) {
      GoodRoundTrip(h, tile, m, es);
    } else {
      TileDataOfPacket(h, tile, es);
      if HeadersOf(PacketOf(h, tile, es)).Some? { HeadersAreWithinLimits(PacketOf(h, tile, es)); }
    }
  }

  // Whatever bytes they are read from, headers never exceed the limits.
  lemma HeadersAreWithinLimits(t: Bytes)
    requires HeadersOf(t).Some?
    ensures WithinLimits([], HeadersOf(t).value)
  {
    var n := LenHeaders(t).value;
    ReadEntriesInverse(t, n);
    KeysOfMap(ReadEntries(t, n).value.entries);
  }

  // t parses into distinct headers that end exactly where the tile data begins.
  ghost predicate WellFormed(h: Digest, t: Bytes) {
    Valid(h, t) && |t| >= 37 &&
    var walk := ReadEntries(t, LenHeaders(t).value);
    walk.Some? && Distinct(walk.value.entries) && walk.value.offset + TileDataSize(t).value == |t|
  }

  // The layout read backwards: four size bytes, the count, the header bytes, the tile.
  lemma PayloadFromParts(t: Bytes, es: seq<Entry>, offset: nat)
    requires |t| >= 37 && 37 <= offset <= |t| && t[37..offset] == EntriesBytes(es) && |es| == LenHeaders(t).value
    requires Uint32(t[32..36]) == |t| - offset
    ensures Payload(t[offset..], es) == t[32..]
  {
    hide EntriesBytes, PutUint32, Uint32;
    var tile := t[offset..];
    Uint32Inverse(|tile|, t[32..36]);
    assert t[32..] == t[32..36] + [t[36]] + t[37..offset] + tile;
  }

  // A well-formed packet is what Encode makes of its tile data and headers under some order.
  lemma DecodeThenEncode(h: Digest, t: Bytes) returns (es: seq<Entry>)
    requires WellFormed(h, t)
    ensures TileData(t).Some? && HeadersOf(t).Some?
    ensures Enumerates(es, HeadersOf(t).value) && WithinLimits(TileData(t).value, HeadersOf(t).value)
    ensures PacketOf(h, TileData(t).value, es) == t
  {
    hide EntriesBytes, ToMap, ReadEntries, Payload, Uint32, Distinct, WithinLimits, AllSmall;
    var walk := ReadEntries(t, LenHeaders(t).value).value;
    es := walk.entries;
    ReadEntriesInverse(t, LenHeaders(t).value);
    HeadersAreWithinLimits(t);
    OtherTile([], t[walk.offset..], ToMap(es));
    PayloadFromParts(t, es, walk.offset);
    HeadAndTail(t, 32);
  }

  lemma OtherTile(a: Bytes, b: Bytes, m: Headers)
    requires WithinLimits(a, m) && |b| < 0x1_0000_0000
    ensures WithinLimits(b, m)
  {
  }

  lemma HeadAndTail<T>(s: seq<T>, n: nat)
    requires n <= |s|
    ensures s == s[..n] + s[n..]
  {
  }

  lemma PacketIsWellFormed(h: Digest, tile: Bytes, es: seq<Entry>)
    requires Distinct(es) && WithinLimits(tile, ToMap(es))
    ensures WellFormed(h, PacketOf(h, tile, es))
  {
    hide PacketOf, ToMap, EntriesBytes, ReadEntries, Payload, Valid, Distinct, TileDataSize, AllSmall;
    hide PutUint32, StandsAt, LenHeaders;
    LimitsOfEntries(es, ToMap(es));
    PacketParts(h, tile, es);
    HeadOfPacket(h, tile, es);
    SizeOfPacket(h, tile, es);
    SmallMod(|es|, 0x100);
    SmallMod(|tile|, 0x1_0000_0000);
    ReadAllEntries(PacketOf(h, tile, es), es);
  }

  // The image of Encode within the limits is exactly the well-formed packets.
  lemma EncodeImage(h: Digest, t: Bytes)
    ensures WellFormed(h, t) <==>
            exists tile, es :: Distinct(es) && WithinLimits(tile, ToMap(es)) && t == PacketOf(h, tile, es)
  {
    hide PacketOf, ToMap, WellFormed, WithinLimits, Distinct;
    if WellFormed(h, t) {
      var es := DecodeThenEncode(h, t);
    }
    forall tile, es | Distinct(es) && WithinLimits(tile, ToMap(es)) && t == PacketOf(h, tile, es)
      ensures WellFormed(h, t)
    {
      PacketIsWellFormed(h, tile, es);
    }
  }

  // Validation alone does not make the other reads safe: the shortest packet that validates
  // holds nothing but the checksum of nothing.
  lemma ValidButTooShort(h: Digest)
    ensures Valid(h, h([])) && Decode(h, h([])) == OutOfBounds
  {
    assert h([])[32..] == [];
  }

  // Decode reports corruption exactly for what is not a payload with its checksum in front.
  lemma CorruptedIff(h: Digest, t: Bytes)
    ensures Decode(h, t) == Corrupted <==> !Checksummed(h, t)
  {
    hide Valid;
    ValidIffChecksummed(h, t);
  }

  // ---- Byte by byte -------------------------------------------------------------------------

  // Quotient and remainder are the ones that fit.
  lemma Split(n: nat, q: nat, m: nat, r: nat)
    requires m > 0 && n == q * m + r && r < m
    ensures n / m == q && n % m == r
  {
    QuotientsAgree(n / m, q, m, n % m, r);
  }

  lemma QuotientsAgree(p: nat, q: nat, m: nat, r: nat, s: nat)
    requires p * m + r == q * m + s && r < m && s < m
    ensures p == q && r == s
  {
    if p > q { AtLeastOnce(p, q, m); }
    if p < q { AtLeastOnce(q, p, m); }
  }

  lemma AtLeastOnce(p: nat, q: nat, m: nat)
    requires p > q
    ensures p * m >= q * m + m
  {
    assert p * m == q * m + (p - q) * m;
    var more := p - q - 1;
    assert (p - q) * m == more * m + m;
    assert more * m >= 0;
  }

  lemma Uint16Bytes(n: nat)
    ensures PutUint16(n % 0x1_0000) == [n % 0x100, n / 0x100 % 0x100]
  {
    var (high, low) := (n / 0x100, n % 0x100);
    assert n == high * 0x100 + low;
    var (top, mid) := (high / 0x100, high % 0x100);
    assert n == top * 0x1_0000 + (mid * 0x100 + low);
    Split(n, top, 0x1_0000, mid * 0x100 + low);
    Split(n % 0x1_0000, mid, 0x100, low);
  }

  lemma Uint32Bytes(n: nat)
    ensures PutUint32(n % 0x1_0000_0000) ==
            [n % 0x100, n / 0x100 % 0x100, n / 0x1_0000 % 0x100, n / 0x100_0000 % 0x100]
  {
    hide PutUint16;
    Halves(n);
    Uint16Bytes(n);
    Uint16Bytes(n / 0x1_0000);
    DivTwice(n);
  }

  lemma Halves(n: nat)
    ensures n % 0x1_0000_0000 % 0x1_0000 == n % 0x1_0000
    ensures n % 0x1_0000_0000 / 0x1_0000 == n / 0x1_0000 % 0x1_0000
  {
    var (high, low) := (n / 0x1_0000, n % 0x1_0000);
    var (top, mid) := (high / 0x1_0000, high % 0x1_0000);
    assert n == top * 0x1_0000_0000 + (mid * 0x1_0000 + low);
    Split(n, top, 0x1_0000_0000, mid * 0x1_0000 + low);
    Split(n % 0x1_0000_0000, mid, 0x1_0000, low);
  }

  lemma DivTwice(n: nat)
    ensures n / 0x1_0000 / 0x100 == n / 0x100_0000
  {
    var (high, low) := (n / 0x1_0000, n % 0x1_0000);
    var (top, mid) := (high / 0x100, high % 0x100);
    assert n == top * 0x100_0000 + (mid * 0x1_0000 + low);
    Split(n, top, 0x100_0000, mid * 0x1_0000 + low);
  }

  // The fixed part of a packet and its tile: 32 bytes of checksum, four of tile size, one of header
  // count; the tile stands at the end.
  lemma EncodedBytes(h: Digest, tile: Bytes, es: seq<Entry>)
    ensures var t := PacketOf(h, tile, es);
            && |t| >= 37 + |tile| && t[..32] == h(t[32..])
            && t[32] == |tile| % 0x100 && t[33] == |tile| / 0x100 % 0x100
            && t[34] == |tile| / 0x1_0000 % 0x100 && t[35] == |tile| / 0x100_0000 % 0x100
            && t[36] == |es| % 0x100 && t[|t| - |tile|..] == tile
  {
    hide PacketOf, Payload, PutUint32, EntriesBytes;
    PacketParts(h, tile, es);
    HeadOfPacket(h, tile, es);
    TailOfPacket(h, tile, es);
    Uint32Bytes(|tile|);
    var t := PacketOf(h, tile, es);
    assert t[32..36][0] == t[32] && t[32..36][1] == t[33] && t[32..36][2] == t[34] && t[32..36][3] == t[35];
  }

  // Bytes taken up by headers.
  function HeaderLength(es: seq<Entry>): nat {
    if es == [] then 0 else HeaderLength(es[..|es| - 1]) + 4 + |es[|es| - 1].key| + |es[|es| - 1].val|
  }

  lemma {:induction false} EntriesLength(es: seq<Entry>)
    ensures |EntriesBytes(es)| == HeaderLength(es)
  {
    if es != [] { EntriesLength(Front(es)); }
  }

  // Each header: two bytes of key length, the key, two bytes of value length, the value.
  lemma EntryLayout(e: Entry)
    ensures var (b, k) := (EntryBytes(e), |e.key|);
            && |b| == 4 + k + |e.val|
            && b[0] == k % 0x100 && b[1] == k / 0x100 % 0x100 && b[2..2 + k] == e.key
            && b[2 + k] == |e.val| % 0x100 && b[3 + k] == |e.val| / 0x100 % 0x100 && b[4 + k..] == e.val
  {
    Uint16Bytes(|e.key|);
    Uint16Bytes(|e.val|);
    hide PutUint16;
    FourParts(PutUint16(|e.key| % 0x1_0000), e.key, PutUint16(|e.val| % 0x1_0000), e.val);
  }

  lemma FourParts(kl: Bytes, key: Bytes, vl: Bytes, val: Bytes)
    requires |kl| == |vl| == 2
    ensures var (b, k) := (kl + key + vl + val, |key|);
            && b[0] == kl[0] && b[1] == kl[1] && b[2..2 + k] == key
            && b[2 + k] == vl[0] && b[3 + k] == vl[1] && b[4 + k..] == val
  {
  }

  // Header number i stands behind the fixed part and the headers before it.
  lemma EncodedHeader(h: Digest, tile: Bytes, es: seq<Entry>, i: nat)
    requires i < |es|
    ensures var (t, o, e) := (PacketOf(h, tile, es), 37 + HeaderLength(es[..i]), es[i]);
            var (k, v) := (|e.key|, |e.val|);
            && o + 4 + k + v + |tile| <= |t|
            && t[o] == k % 0x100 && t[o + 1] == k / 0x100 % 0x100 && t[o + 2..o + 2 + k] == e.key
            && t[o + 2 + k] == v % 0x100 && t[o + 3 + k] == v / 0x100 % 0x100
            && t[o + 4 + k..o + 4 + k + v] == e.val
  {
    hide PacketOf, EntriesBytes, EntryBytes, HeaderLength, StandsAt;
    HeaderIsThere(h, tile, es, i);
    HeaderStands(PacketOf(h, tile, es), 37 + HeaderLength(es[..i]), es[i]);
  }

  lemma HeaderIsThere(h: Digest, tile: Bytes, es: seq<Entry>, i: nat)
    requires i < |es|
    ensures var (t, o) := (PacketOf(h, tile, es), 37 + HeaderLength(es[..i]));
            StandsAt(t, o, EntryBytes(es[i])) && o + |EntryBytes(es[i])| + |tile| <= |t|
  {
    hide PacketOf, EntriesBytes, EntryBytes, HeaderLength, StandsAt, LenHeaders, PutUint32;
    HeadOfPacket(h, tile, es);
    NextEntry(PacketOf(h, tile, es), es, i + 1);
    EntriesLength(es[..i]);
    HeaderFits(es, i);
  }

  lemma HeaderStands(t: Bytes, o: nat, e: Entry)
    requires StandsAt(t, o, EntryBytes(e))
    ensures var (k, v) := (|e.key|, |e.val|);
            && |EntryBytes(e)| == 4 + k + v && o + 4 + k + v <= |t|
            && t[o] == k % 0x100 && t[o + 1] == k / 0x100 % 0x100 && t[o + 2..o + 2 + k] == e.key
            && t[o + 2 + k] == v % 0x100 && t[o + 3 + k] == v / 0x100 % 0x100
            && t[o + 4 + k..o + 4 + k + v] == e.val
  {
    hide EntryBytes;
    EntryLayout(e);
    BytesStand(t, o, EntryBytes(e), |e.key|);
  }

  lemma HeaderFits(es: seq<Entry>, i: nat)
    requires i < |es|
    ensures |EntriesBytes(es[..i])| + |EntryBytes(es[i])| <= |EntriesBytes(es)|
  {
    hide EntryBytes;
    assert Front(es[..i + 1]) == es[..i] && Last(es[..i + 1]) == es[i];
    EntriesPrefix(es, i + 1);
  }

  // A piece of a stretch that stands in t.
  lemma BytesStand(t: Bytes, o: nat, b: Bytes, k: nat)
    requires StandsAt(t, o, b) && 4 + k <= |b|
    ensures t[o] == b[0] && t[o + 1] == b[1] && t[o + 2..o + 2 + k] == b[2..2 + k]
    ensures t[o + 2 + k] == b[2 + k] && t[o + 3 + k] == b[3 + k] && t[o + 4 + k..o + |b|] == b[4 + k..]
  {
    SliceOfSlice(t, o, o + |b|, 2, 2 + k);
    SliceOfSlice(t, o, o + |b|, 4 + k, |b|);
  }

  // What decoding any packet gives: as many of its last bytes as the size field says, and for each
  // name among the entries behind the fixed part the value that comes last.
  lemma DecodedParts(h: Digest, t: Bytes, tile: Bytes, headers: Headers) returns (es: seq<Entry>)
    requires Decode(h, t) == Decoded(tile, headers)
    ensures |t| >= 37 && |tile| <= |t| && tile == t[|t| - |tile|..]
    ensures |tile| == t[32] as int + 0x100 * t[33] as int + 0x1_0000 * t[34] as int + 0x100_0000 * t[35] as int
    ensures |es| == t[36] && StandsAt(t, 37, EntriesBytes(es)) && AllSmall(es)
    ensures HoldsLastOf(headers, es)
  {
    hide EntriesBytes, ReadEntries, Valid, AllSmall, ToMap, HoldsLastOf;
    var walk := ReadEntries(t, t[36]).value;
    es := walk.entries;
    ReadEntriesInverse(t, t[36]);
    if t[36] == 0 { NothingEnumerated(map[]); }
    LastCounts(es);
  }

  ghost predicate HoldsLastOf(m: Headers, es: seq<Entry>) {
    && (forall i: nat | i < |es| && (forall j :: i < j < |es| ==> es[j].key != es[i].key) ::
          es[i].key in m && m[es[i].key] == es[i].val)
    && (forall k <- m :: exists e <- es :: e.key == k)
  }

  lemma {:induction false} LastCounts(es: seq<Entry>)
    ensures HoldsLastOf(ToMap(es), es)
  {
    KeysOfMap(es);
    if es != [] {
      LastCounts(Front(es));
      forall i: nat | i < |es| && (forall j :: i < j < |es| ==> es[j].key != es[i].key)
        ensures es[i].key in ToMap(es) && ToMap(es)[es[i].key] == es[i].val
      {
        assert i < |es| - 1 ==> Front(es)[i] == es[i];
      }
    }
  }

  // Exactly when decoding stays within the packet: the size field fits, and the announced number of
  // header entries stands behind the fixed part.
  lemma SafeToRead(h: Digest, t: Bytes)
    ensures Decode(h, t) != OutOfBounds <==>
            (Valid(h, t) ==>
              && |t| >= 37 && Uint32(t[32..36]) <= |t|
              && exists es :: |es| == t[36] as int && AllSmall(es) && StandsAt(t, 37, EntriesBytes(es)))
  {
    hide Valid, EntriesBytes, AllSmall, ReadEntries, ToMap;
    if |t| >= 37 {
      EntriesInside(t, t[36] as int);
    }
  }

  lemma EntriesInside(t: Bytes, n: nat)
    requires |t| >= 37
    ensures ReadEntries(t, n).Some? <==> exists es :: |es| == n && AllSmall(es) && StandsAt(t, 37, EntriesBytes(es))
  {
    hide EntriesBytes, AllSmall;
    if ReadEntries(t, n).Some? {
      var walk := ReadEntries(t, n).value;
      ReadEntriesInverse(t, n);
      if n == 0 { NothingEnumerated(map[]); }
      assert StandsAt(t, 37, EntriesBytes(walk.entries));
    }
    forall es | |es| == n && AllSmall(es) && StandsAt(t, 37, EntriesBytes(es)) ensures ReadEntries(t, n).Some? {
      ReadAllEntries(t, es);
    }
  }
}
