// Directory listing (vfs_ramfs.c, filesystem.c): RAMFS records are converted to a byte stream of
// directory entries, which fs_dir_read takes apart again.  Layouts are those of a 64-bit target.
module DirStream {
  type Bytes = seq<nat>

  // A field of n bytes, least significant first.
  function Enc(x: nat, n: nat): (s: Bytes)
    ensures |s| == n
  {
    if n == 0 then [] else [x % 256] + Enc(x / 256, n - 1)
  }

  function Dec(s: Bytes): nat { if s == [] then 0 else s[0] + 256 * Dec(s[1..]) }

  function Limit(n: nat): nat { if n == 0 then 1 else 256 * Limit(n - 1) }

  lemma {:induction false} DecEnc(x: nat, n: nat)
    requires x < Limit(n)
    ensures Dec(Enc(x, n)) == x
  {
    if n > 0 {
      DecEnc(x / 256, n - 1);
      assert Enc(x, n)[1..] == Enc(x / 256, n - 1);
    }
  }

  lemma LimitOf8()
    ensures Limit(8) == 0x1_0000_0000_0000_0000
  {
    assert Limit(4) == 256 * Limit(3) == 0x1_0000 * Limit(2) == 0x100_0000 * Limit(1) == 0x1_0000_0000;
    assert Limit(8) == 256 * Limit(7) == 0x1_0000 * Limit(6) == 0x100_0000 * Limit(5) == 0x1_0000_0000 * Limit(4);
  }

  datatype Kind = Reg | Dir | Link

  // A RAMFS directory entry and the entry shown to the reader.
  datatype RamEntry = RamEntry(size: nat, inode: nat, name: Bytes)
  datatype DirEntry = DirEntry(recordLen: nat, inode: nat, isDir: bool, isSymlink: bool, name: Bytes)

  const NAME_MAX := 255
  const RAM_HEADER := 24
  const HEADER := 32

  // Sizes are rounded up to a multiple of 8: x += (~x + 1) % 8.
  function Round8(x: nat): (r: nat)
    ensures x <= r < x + 8 && r % 8 == 0
  {
    x + (-(x as int)) % 8
  }

  // The least multiple of 8 that holds header, name and terminator.
  function RecordLen(nameLen: nat): (r: nat)
    ensures r % 8 == 0 && r - 8 < HEADER + nameLen + 1 <= r
  {
    Round8(HEADER + nameLen + 1)
  }

  predicate GoodName(name: Bytes) {
    |name| <= NAME_MAX && 0 !in name && '/' as nat !in name
  }

  function Convert(e: RamEntry, kinds: seq<Kind>): DirEntry {
    var k := if e.inode < |kinds| then kinds[e.inode] else Reg;
    DirEntry(RecordLen(|e.name|), e.inode, k == Dir, k == Link, e.name)
  }

  // The bytes r are the record of e.
  predicate IsRecord(r: Bytes, e: RamEntry) {
    && |r| == e.size && RAM_HEADER + |e.name| + 1 <= e.size
    && Dec(r[0..8]) == e.size && Dec(r[8..16]) == e.inode && Dec(r[16..24]) == |e.name|
    && r[24..24 + |e.name|] == e.name && r[24 + |e.name|] == 0
  }

  // The buffer holds the records of es, one after the other.
  predicate Records(buf: Bytes, es: seq<RamEntry>)
    decreases |es|
  {
    if es == [] then buf == []
    else es[0].size <= |buf| && IsRecord(buf[..es[0].size], es[0]) && Records(buf[es[0].size..], es[1..])
  }

  function Flag(b: bool): nat { if b then 1 else 0 }

  // The bytes t are the directory entry e.  Padding may hold anything.
  predicate IsDirent(t: Bytes, e: DirEntry) {
    && |t| == e.recordLen == RecordLen(|e.name|)
    && Dec(t[0..8]) == e.recordLen && Dec(t[8..16]) == e.inode && t[16] == (if e.isDir then 1 else 0) && t[17] == (if e.isSymlink then 1 else 0)
    && Dec(t[24..32]) == |e.name| && t[32..32 + |e.name|] == e.name && t[32 + |e.name|] == 0
  }

  predicate Stream(s: Bytes, es: seq<DirEntry>)
    decreases |es|
  {
    if es == [] then s == []
    else es[0].recordLen <= |s| && IsDirent(s[..es[0].recordLen], es[0]) && Stream(s[es[0].recordLen..], es[1..])
  }

  lemma {:induction false} StreamAppend(s: Bytes, es: seq<DirEntry>, t: Bytes, e: DirEntry)
    requires Stream(s, es) && IsDirent(t, e)
    ensures Stream(s + t, es + [e])
    decreases |es|
  {
    hide IsDirent;
    if es == [] {
      DirentLength(t, e);
      assert s + t == t && (s + t)[..e.recordLen] == t && (s + t)[e.recordLen..] == [];
      assert Stream([], []);
      assert (es + [e])[1..] == [];
    } else {
      var n := es[0].recordLen;
      StreamAppend(s[n..], es[1..], t, e);
      assert (s + t)[..n] == s[..n] && (s + t)[n..] == s[n..] + t;
      assert (es + [e])[1..] == es[1..] + [e];
    }
  }

  lemma DirentLength(t: Bytes, e: DirEntry)
    requires IsDirent(t, e)
    ensures |t| == e.recordLen
  {
  }

  function ConvertAll(es: seq<RamEntry>, kinds: seq<Kind>): (r: seq<DirEntry>)
    ensures |r| == |es|
  {
    seq(|es|, i requires 0 <= i < |es| => Convert(es[i], kinds))
  }

  function TotalLen(es: seq<RamEntry>): nat {
    if es == [] then 0 else RecordLen(|es[0].name|) + TotalLen(es[1..])
  }

  // ---------------------------------------------------------------- generating the stream

  // measure_dirent over the whole buffer.
  method Measure(buf: Bytes, ghost es: seq<RamEntry>) returns (cap: nat)
    requires Records(buf, es)
    ensures cap == TotalLen(es)
  {
    hide IsRecord, Records, Dec, TotalLen, RecordLen;
    var off := 0;
    ghost var k := 0;
    cap := 0;
    assert buf[0..] == buf && es[0..] == es;
    while off < |buf|
      invariant off <= |buf| && k <= |es| && Records(buf[off..], es[k..])
      invariant cap + TotalLen(es[k..]) == TotalLen(es)
    {
      NextRecord(buf, off, es, k);
      cap := cap + RecordLen(Dec(buf[off + 16..off + 24]));
      off := off + Dec(buf[off..off + 8]);
      k := k + 1;
    }
    assert buf[off..] == [];
    NoRecords(es[k..]);
  }

  lemma NoRecords(es: seq<RamEntry>)
    requires Records([], es)
    ensures es == [] && TotalLen(es) == 0
  {
  }

  // What the loops read of the record at off.
  lemma NextRecord(buf: Bytes, off: nat, es: seq<RamEntry>, k: nat)
    requires off < |buf| && k <= |es| && Records(buf[off..], es[k..])
    ensures k < |es| && RAM_HEADER < es[k].size && off + es[k].size <= |buf|
    ensures RAM_HEADER + |es[k].name| + 1 <= es[k].size
    ensures Dec(buf[off..off + 8]) == es[k].size && Dec(buf[off + 8..off + 16]) == es[k].inode
    ensures Dec(buf[off + 16..off + 24]) == |es[k].name|
    ensures buf[off + 24..off + 24 + |es[k].name|] == es[k].name && buf[off + 24 + |es[k].name|] == 0
    ensures Records(buf[off + es[k].size..], es[k + 1..]) && IsRecord(buf[off..off + es[k].size], es[k])
    ensures TotalLen(es[k..]) == RecordLen(|es[k].name|) + TotalLen(es[k + 1..])
  {
    var t := buf[off..];
    assert es[k..] != [];
    assert es[k..][0] == es[k] && es[k..][1..] == es[k + 1..];
    var n, r := es[k].size, t[..es[k].size];
    assert t[n..] == buf[off + n..] && r == buf[off..off + n];
    assert r[0..8] == buf[off..off + 8] && r[8..16] == buf[off + 8..off + 16] && r[16..24] == buf[off + 16..off + 24];
    assert r[24..24 + |es[k].name|] == buf[off + 24..off + 24 + |es[k].name|];
  }

  // A field is stored.
  method PutField(a: array<nat>, off: nat, x: nat)
    requires off + 8 <= a.Length && x < Limit(8)
    modifies a
    ensures Dec(a[off..off + 8]) == x
    ensures forall i :: 0 <= i < a.Length && !(off <= i < off + 8) ==> a[i] == old(a[i])
  {
    hide Dec, Enc, Limit;
    var s := Enc(x, 8);
    forall i | off <= i < off + 8 {
      a[i] := s[i - off];
    }
    assert a[off..off + 8] == s;
    DecEnc(x, 8);
  }

  // convert_dirent, for the record at off.
  method ConvertDirent(cache: array<nat>, out: nat, buf: Bytes, off: nat, kinds: seq<Kind>, ghost e: RamEntry)
    requires off + e.size <= |buf| && IsRecord(buf[off..off + e.size], e) && GoodEntry(e, kinds)
    requires out + RecordLen(|e.name|) <= cache.Length
    modifies cache
    ensures IsDirent(cache[out..out + RecordLen(|e.name|)], Convert(e, kinds))
    ensures cache[..out] == old(cache[..out])
  {
    hide Dec, Limit, IsRecord, IsDirent, Convert, Flag;
    LimitOf8();
    RecordParts(buf, off, e);
    var nameLen, n := Dec(buf[off + 16..off + 24]), RecordLen(Dec(buf[off + 16..off + 24]));
    PutField(cache, out, n);
    ghost var f0 := cache[out..out + 8];
    PutField(cache, out + 8, Dec(buf[off + 8..off + 16]));
    ghost var f1 := cache[out + 8..out + 16];
    cache[out + 16] := Flag(kinds[Dec(buf[off + 8..off + 16])] == Dir);
    cache[out + 17] := Flag(kinds[Dec(buf[off + 8..off + 16])] == Link);
    PutField(cache, out + 24, nameLen);
    ghost var f2 := cache[out + 24..out + 32];
    forall i | out + 32 <= i < out + 32 + nameLen + 1 {
      cache[i] := buf[off + 24 + (i - (out + 32))];
    }
    assert cache[out..out + 8] == f0 && cache[out + 8..out + 16] == f1 && cache[out + 24..out + 32] == f2;
    assert cache[out + 32..out + 32 + nameLen] == buf[off + 24..off + 24 + nameLen];
    Assembled(cache[..], out, e, kinds);
    assert cache[out..out + n] == cache[..][out..out + n];
  }

  lemma Assembled(c: Bytes, out: nat, e: RamEntry, kinds: seq<Kind>)
    requires out + RecordLen(|e.name|) <= |c| && GoodEntry(e, kinds)
    requires Dec(c[out..out + 8]) == RecordLen(|e.name|) && Dec(c[out + 8..out + 16]) == e.inode
    requires c[out + 16] == Flag(kinds[e.inode] == Dir) && c[out + 17] == Flag(kinds[e.inode] == Link)
    requires Dec(c[out + 24..out + 32]) == |e.name| && c[out + 32..out + 32 + |e.name|] == e.name && c[out + 32 + |e.name|] == 0
    ensures IsDirent(c[out..out + RecordLen(|e.name|)], Convert(e, kinds))
  {
    hide Dec;
    DirentSlices(c, out, RecordLen(|e.name|), |e.name|);
  }

  lemma DirentSlices(c: Bytes, out: nat, n: nat, nameLen: nat)
    requires out + n <= |c| && HEADER + nameLen <= n
    ensures var t := c[out..out + n];
      && t[0..8] == c[out..out + 8] && t[8..16] == c[out + 8..out + 16] && t[24..32] == c[out + 24..out + 32]
      && t[32..32 + nameLen] == c[out + 32..out + 32 + nameLen]
  {
    Slice(c, out, out + n, 0, 8);
    Slice(c, out, out + n, 8, 16);
    Slice(c, out, out + n, 24, 32);
    Slice(c, out, out + n, 32, 32 + nameLen);
  }

  lemma Slice(s: Bytes, a: nat, b: nat, i: nat, j: nat)
    requires a <= b <= |s| && i <= j <= b - a
    ensures s[a..b][i..j] == s[a + i..a + j]
  {
    forall k | 0 <= k < j - i ensures s[a..b][i..j][k] == s[a + i..a + j][k] {
      assert s[a..b][i + k] == s[a + i + k];
    }
  }

  predicate GoodEntry(e: RamEntry, kinds: seq<Kind>) {
    GoodName(e.name) && e.inode < |kinds| && |kinds| < 0x1_0000_0000_0000_0000
  }

  lemma RecordParts(buf: Bytes, off: nat, e: RamEntry)
    requires off + e.size <= |buf| && IsRecord(buf[off..off + e.size], e)
    ensures RAM_HEADER + |e.name| + 1 <= e.size
    ensures Dec(buf[off + 8..off + 16]) == e.inode && Dec(buf[off + 16..off + 24]) == |e.name|
    ensures buf[off + 24..off + 24 + |e.name|] == e.name && buf[off + 24 + |e.name|] == 0
  {
    Slice(buf, off, off + e.size, 8, 16);
    Slice(buf, off, off + e.size, 16, 24);
    Slice(buf, off, off + e.size, 24, 24 + |e.name|);
  }

  ghost predicate GoodEntries(es: seq<RamEntry>, kinds: seq<Kind>) {
    forall i :: 0 <= i < |es| ==> GoodEntry(es[i], kinds)
  }

  // vfs_ramfs_dir_read: the stream fills exactly the memory that was measured for it.
  method DirRead(buf: Bytes, kinds: seq<Kind>, ghost es: seq<RamEntry>) returns (cache: array<nat>)
    requires Records(buf, es) && GoodEntries(es, kinds)
    ensures fresh(cache) && cache.Length == TotalLen(es) && Stream(cache[..], ConvertAll(es, kinds))
  {
    hide IsRecord, Records, Dec, TotalLen, RecordLen, IsDirent, Stream, Convert, GoodEntry;
    var cap := Measure(buf, es);
    cache := new nat[cap];
    var off: nat, out: nat := 0, 0;
    ghost var k := 0;
    assert buf[0..] == buf && es[0..] == es && es[..0] == [];
    EmptyStream(cache[..0]);
    while off < |buf|
      invariant off <= |buf| && k <= |es| && Records(buf[off..], es[k..])
      invariant out + TotalLen(es[k..]) == cap == cache.Length
      invariant Stream(cache[..out], ConvertAll(es[..k], kinds))
    {
      NextRecord(buf, off, es, k);
      ghost var e := es[k];
      ghost var done := cache[..out];
      ConvertDirent(cache, out, buf, off, kinds, e);
      ghost var n := RecordLen(|e.name|);
      StreamAppend(done, ConvertAll(es[..k], kinds), cache[out..out + n], Convert(e, kinds));
      assert cache[..out + n] == done + cache[out..out + n];
      assert ConvertAll(es[..k + 1], kinds) == ConvertAll(es[..k], kinds) + [Convert(e, kinds)];
      out := out + RecordLen(Dec(buf[off + 16..off + 24]));
      off := off + Dec(buf[off..off + 8]);
      k := k + 1;
    }
    assert buf[off..] == [];
    NoRecords(es[k..]);
    assert es[..k] == es && cache[..out] == cache[..];
  }

  lemma EmptyStream(s: Bytes)
    requires s == []
    ensures Stream(s, []) && forall kinds :: ConvertAll([], kinds) == []
  {
  }

  // ---------------------------------------------------------------- reading it

  datatype ReadResult = Entry(e: DirEntry) | AtEnd | Error

  // An open directory: the handle's position and cache, over the directory's present contents.
  class DirHandle {
    const buf: Bytes
    const kinds: seq<Kind>
    var offset: nat
    var cache: Bytes
    ghost const es: seq<RamEntry>
    ghost var rest: seq<DirEntry>

    // rest is what is still to be read.  At offset 0 the cache is rebuilt first.
    ghost predicate Valid()
      reads this
    {
      && Records(buf, es) && GoodEntries(es, kinds)
      && (forall i :: 0 <= i < |rest| ==> GoodName(rest[i].name))
      && (if offset == 0 then rest == ConvertAll(es, kinds) else offset <= |cache| && Stream(cache[offset..], rest))
    }

    constructor (b: Bytes, k: seq<Kind>, ghost entries: seq<RamEntry>)
      requires Records(b, entries) && GoodEntries(entries, k)
      ensures Valid() && offset == 0 && rest == ConvertAll(entries, k) && es == entries && kinds == k
    {
      buf, kinds, es := b, k, entries;
      offset, cache := 0, [];
      rest := ConvertAll(entries, k);
    }

    // fs_read of a directory.
    method Read(n: nat) returns (data: Bytes)
      requires Records(buf, es) && GoodEntries(es, kinds) && offset <= |cache|
      modifies this`offset, this`cache
      ensures old(offset) == 0 ==> Stream(cache, ConvertAll(es, kinds))
      ensures old(offset) != 0 ==> cache == old(cache)
      ensures old(offset) <= |cache| && offset == old(offset) + |data| <= |cache| && data == cache[old(offset)..offset]
      ensures |data| == if n + old(offset) > |cache| then |cache| - old(offset) else n
    {
      hide Records, Stream, GoodEntries;
      if offset == 0 {
        var mem := DirRead(buf, kinds, es);
        cache := mem[..];
      }
      var len := if n + offset > |cache| then |cache| - offset else n;
      data := cache[offset..offset + len];
      offset := offset + len;
    }

    // fs_seek to an absolute position.
    method Seek(off: nat)
      modifies this`offset
      ensures offset == if off > |cache| then |cache| else off
    {
      offset := if off > |cache| then |cache| else off;
    }

    // fs_dir_read: the next entry, or the end.
    method DirNext() returns (r: ReadResult)
      requires Valid()
      modifies this`offset, this`cache, this`rest
      ensures Valid()
      ensures if old(rest) == [] then r == AtEnd && rest == [] else r == Entry(old(rest)[0]) && rest == old(rest)[1..]
    {
      hide Records, GoodEntries, Stream, Dec, ConvertAll, IsDirent, RecordLen, Flag, Round8;
      var pos := offset;
      var head := Read(HEADER);
      assert Stream(cache[pos..], rest) by {
        if pos == 0 {
          assert cache[0..] == cache;
        }
      }
      if |head| == 0 {
        NothingLeft(cache, pos, rest);
        return AtEnd;
      }
      HeaderOf(cache, pos, rest, head);
      var recordLen, nameLen := Dec(head[0..8]), Dec(head[24..32]);
      if nameLen > NAME_MAX || recordLen < HEADER + nameLen {
        assert false;
      }
      var name := Read(nameLen);
      if |name| != nameLen || '/' as nat in name || 0 in name {
        assert false;
      }
      Seek(pos + recordLen);
      r := Entry(DirEntry(recordLen, Dec(head[8..16]), head[16] != 0, head[17] != 0, name));
      rest := rest[1..];
    }
  }

  lemma NothingLeft(c: Bytes, pos: nat, rest: seq<DirEntry>)
    requires pos == |c| && Stream(c[pos..], rest)
    ensures rest == []
  {
  }

  lemma StreamHead(c: Bytes, pos: nat, rest: seq<DirEntry>)
    requires pos < |c| && Stream(c[pos..], rest)
    ensures rest != []
    ensures var e := rest[0]; var n := e.recordLen;
      && pos + n <= |c| && HEADER + |e.name| + 1 <= n
      && Dec(c[pos..pos + 8]) == n && Dec(c[pos + 8..pos + 16]) == e.inode && Dec(c[pos + 24..pos + 32]) == |e.name|
      && c[pos + 16] == Flag(e.isDir) && c[pos + 17] == Flag(e.isSymlink) && c[pos + 32..pos + 32 + |e.name|] == e.name
      && Stream(c[pos + n..], rest[1..])
  {
    hide Dec;
    var e, n := rest[0], rest[0].recordLen;
    assert c[pos..][..n] == c[pos..pos + n] && c[pos..][n..] == c[pos + n..];
    DirentSlices(c, pos, n, |e.name|);
  }

  // What the header read at pos tells.
  lemma HeaderOf(c: Bytes, pos: nat, rest: seq<DirEntry>, head: Bytes)
    requires pos < |c| && Stream(c[pos..], rest) && (pos + HEADER <= |c| ==> head == c[pos..pos + HEADER])
    ensures rest != [] && |head| == HEADER
    ensures var e := rest[0];
      && pos + e.recordLen <= |c| && HEADER + |e.name| < e.recordLen
      && Dec(head[0..8]) == e.recordLen && Dec(head[8..16]) == e.inode && Dec(head[24..32]) == |e.name|
      && (head[16] != 0) == e.isDir && (head[17] != 0) == e.isSymlink && c[pos + 32..pos + 32 + |e.name|] == e.name
      && Stream(c[pos + e.recordLen..], rest[1..])
  {
    hide Dec, Stream, IsDirent;
    StreamHead(c, pos, rest);
    Slice(c, pos, pos + HEADER, 0, 8);
    Slice(c, pos, pos + HEADER, 8, 16);
    Slice(c, pos, pos + HEADER, 24, 32);
  }

  // Reading from offset 0 until the end gives exactly the directory's entries, in order.
  method ListAll(h: DirHandle) returns (all: seq<DirEntry>)
    requires h.Valid() && h.offset == 0
    modifies h
    ensures all == ConvertAll(h.es, h.kinds)
  {
    hide *;
    all := [];
    ghost var expected := ConvertAll(h.es, h.kinds);
    Fresh(h);
    while true
      invariant h.Valid() && all + h.rest == expected
      decreases |h.rest|
    {
      ghost var before := h.rest;
      var r := h.DirNext();
      if r == AtEnd {
        assert all + [] == all;
        break;
      }
      assert before == [before[0]] + before[1..];
      all := all + [r.e];
    }
  }

  lemma Fresh(h: DirHandle)
    requires h.Valid() && h.offset == 0
    ensures h.rest == ConvertAll(h.es, h.kinds) && [] + h.rest == h.rest
  {
  }
}
