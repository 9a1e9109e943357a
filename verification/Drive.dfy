/** The contract of the low-level disk driver (`diskio.h`) and the memory helpers of `ff.c`. */
module Disk {
  import opened Words

  /** The result codes of the modelled operations. */
  datatype FResult = Ok | DiskErr | IntErr | NoFile | Denied | InvalidName

  /** The buffer b with x stored from offset at on, if it fits. */
  function Splice(b: seq<byte>, at: nat, x: seq<byte>): (r: seq<byte>)
    ensures |r| == |b|
  {
    if at + |x| <= |b| then b[..at] + x + b[at + |x|..] else b
  }

  /** Storing in a stretch just stored is storing a changed stretch. */
  lemma SpliceInside(b: seq<byte>, at: nat, x: seq<byte>, i: nat, y: seq<byte>)
    requires at + |x| <= |b| && i + |y| <= |x|
    ensures Splice(Splice(b, at, x), at + i, y) == Splice(b, at, Splice(x, i, y))
  {
  }

  lemma SpliceNext(b: seq<byte>, at: nat, x: seq<byte>, y: byte)
    requires at + |x| < |b|
    ensures Splice(b, at, x)[at + |x| := y] == Splice(b, at, x + [y])
  {
  }

  lemma SpliceMore(b: seq<byte>, at: nat, x: seq<byte>, y: seq<byte>)
    requires at + |x| + |y| <= |b|
    ensures Splice(Splice(b, at, x), at + |x|, y) == Splice(b, at, x + y)
  {
  }

  lemma SpliceNothing(b: seq<byte>, at: nat)
    requires at <= |b|
    ensures Splice(b, at, []) == b
  {
  }

  /** mem_cpy: cnt bytes of src, from offset off, to dst at offset at. */
  method MemCpy(dst: array<byte>, at: nat, src: seq<byte>, off: nat, cnt: nat)
    requires at + cnt <= dst.Length && off + cnt <= |src|
    modifies dst
    ensures dst[..] == Splice(old(dst[..]), at, src[off..off + cnt])
  {
    hide Splice;
    var i := 0;
    SpliceNothing(dst[..], at);
    assert src[off..off] == [];
    while i < cnt
      invariant 0 <= i <= cnt
      invariant dst[..] == Splice(old(dst[..]), at, src[off..off + i])
    {
      SpliceNext(old(dst[..]), at, src[off..off + i], src[off + i]);
      assert src[off..off + i] + [src[off + i]] == src[off..off + (i + 1)];
      dst[at + i] := src[off + i];
      i := i + 1;
    }
  }

  /** mem_set: cnt bytes of dst, from offset at, become val. */
  method MemSet(dst: array<byte>, at: nat, val: byte, cnt: nat)
    requires at + cnt <= dst.Length
    modifies dst
    ensures forall k :: 0 <= k < dst.Length ==> dst[k] == if at <= k < at + cnt then val else old(dst[k])
  {
    var i := 0;
    while i < cnt
      invariant 0 <= i <= cnt
      invariant forall k :: 0 <= k < dst.Length ==> dst[k] == if at <= k < at + i then val else old(dst[k])
    {
      dst[at + i] := val;
      i := i + 1;
    }
  }

  /** The bytes of count consecutive sectors. */
  ghost function Run(image: seq<Sector>, sector: nat, count: nat): (r: seq<byte>)
    requires sector + count <= |image|
    ensures |r| == 512 * count
  {
    if count == 0 then [] else Run(image, sector, count - 1) + image[sector + count - 1]
  }

  lemma {:induction false} RunAt(image: seq<Sector>, sector: nat, count: nat, i: nat)
    requires sector + count <= |image| && i < 512 * count
    ensures Run(image, sector, count)[i] == image[sector + i / 512][i % 512]
  {
    if i < 512 * (count - 1) {
      RunAt(image, sector, count - 1, i);
    }
  }

  /** The image after data (whole sectors) is stored from sector on. */
  ghost function Overwrite(image: seq<Sector>, sector: nat, data: seq<byte>): (r: seq<Sector>)
    requires |data| % 512 == 0 && sector + |data| / 512 <= |image|
    ensures |r| == |image|
    ensures forall s :: 0 <= s < |image| ==>
              r[s] == if sector <= s < sector + |data| / 512 then data[512 * (s - sector)..512 * (s - sector) + 512]
                      else image[s]
  {
    seq(|image|, s requires 0 <= s < |image| =>
      if sector <= s < sector + |data| / 512 then data[512 * (s - sector)..512 * (s - sector) + 512] else image[s])
  }

  /**
    A physical drive. A transfer outside the medium fails; any other transfer may fail too unless the
    drive is reliable. What a failed read leaves in the buffer, and a failed write on its target
    sectors, is not promised.
   */
  class Drive {
    const reliable: bool
    var sectors: seq<Sector>

    constructor (image: seq<Sector>, reliable: bool)
      ensures sectors == image && this.reliable == reliable
    {
      sectors := image;
      this.reliable := reliable;
    }

    /** disk_read of one sector into a sector buffer. */
    method ReadSector(buff: array<byte>, sector: nat) returns (ok: bool)
      requires buff.Length == 512
      modifies buff
      ensures ok ==> sector < |sectors| && buff[..] == sectors[sector]
      ensures reliable && sector < |sectors| ==> ok
    {
      var fault: bool := *;
      ok := sector < |sectors| && (reliable || !fault);
      if ok {
        MemCpy(buff, 0, sectors[sector], 0, 512);
      }
    }

    /** disk_write of one sector. */
    method WriteSector(data: Sector, sector: nat) returns (ok: bool)
      modifies this
      ensures |sectors| == |old(sectors)|
      ensures ok ==> sector < |sectors| && sectors == old(sectors)[sector := data]
      ensures !ok ==> forall s :: 0 <= s < |sectors| && s != sector ==> sectors[s] == old(sectors)[s]
      ensures reliable && sector < |sectors| ==> ok
    {
      var fault: bool := *;
      ok := sector < |sectors| && (reliable || !fault);
      if ok {
        sectors := sectors[sector := data];
      }
    }

    /** disk_read of count sectors into a caller's buffer at offset at. */
    method ReadRun(buff: array<byte>, at: nat, sector: nat, count: nat) returns (ok: bool)
      requires at + 512 * count <= buff.Length
      modifies buff
      ensures ok ==> sector + count <= |sectors|
                     && buff[..] == Splice(old(buff[..]), at, Run(sectors, sector, count))
      ensures !ok ==> buff[..at] == old(buff[..])[..at] && buff[at + 512 * count..] == old(buff[..])[at + 512 * count..]
      ensures reliable && sector + count <= |sectors| ==> ok
    {
      hide Splice;
      var fault: bool := *;
      ok := sector + count <= |sectors| && (reliable || !fault);
      if ok {
        var i := 0;
        SpliceNothing(buff[..], at);
        while i < count
          invariant 0 <= i <= count
          invariant buff[..] == Splice(old(buff[..]), at, Run(sectors, sector, i))
        {
          SpliceMore(old(buff[..]), at, Run(sectors, sector, i), sectors[sector + i]);
          assert sectors[sector + i][0..512] == sectors[sector + i];
          MemCpy(buff, at + 512 * i, sectors[sector + i], 0, 512);
          i := i + 1;
        }
      }
    }

    /** disk_write of consecutive sectors. */
    method WriteRun(data: seq<byte>, sector: nat) returns (ok: bool)
      requires |data| % 512 == 0
      modifies this
      ensures |sectors| == |old(sectors)|
      ensures ok ==> sector + |data| / 512 <= |sectors| && sectors == Overwrite(old(sectors), sector, data)
      ensures !ok ==> forall s :: 0 <= s < |sectors| && !(sector <= s < sector + |data| / 512) ==>
                        sectors[s] == old(sectors)[s]
      ensures reliable && sector + |data| / 512 <= |sectors| ==> ok
    {
      var fault: bool := *;
      ok := sector + |data| / 512 <= |sectors| && (reliable || !fault);
      if ok {
        var n := |data| / 512;
        var i := 0;
        while i < n
          invariant 0 <= i <= n && |sectors| == |old(sectors)|
          invariant forall s :: 0 <= s < |sectors| ==>
                      sectors[s] == if sector <= s < sector + i
                                    then data[512 * (s - sector)..512 * (s - sector) + 512]
                                    else old(sectors)[s]
        {
          sectors := sectors[sector + i := data[512 * i..512 * i + 512]];
          i := i + 1;
        }
      }
    }

    /** disk_ioctl(CTRL_SYNC). */
    method Sync() returns (ok: bool)
      ensures reliable ==> ok
    {
      var fault: bool := *;
      ok := reliable || !fault;
    }
  }
}
