/** The FAT32 reader and the file layer above it, over one shared sector buffer. */
module Fat32 {
  import opened FatLayout
  import opened Fat32Spec

  lemma Remainder(k: int, b: nat, r: nat)
    requires r == 512 * k + b && b < 512
    ensures r % 512 == b
  {
  }

  lemma OffsetInTable(c: nat)
    ensures 4 * c % Word % 512 == TableOffset(c)
  {
    var q, r := 4 * c / Word, 4 * c % Word;
    assert 4 * c == Word * q + r;
    var a, b := c / 128, c % 128;
    assert c == 128 * a + b;
    Remainder(a - 0x80_0000 * q, 4 * b, r);
  }

  /** The first loop of `path_to_83`: the base name. */
  method PutBase(name: seq<byte>, out: array<byte>) returns (i: nat)
    requires out.Length == 11 && forall k :: 0 <= k < 11 ==> out[k] == 0x20
    modifies out
    ensures i == BaseLength(name, 0)
    ensures forall k :: 0 <= k < 11 ==> out[k] == if k < i then Upper(name[k]) else 0x20
  {
    i := 0;
    var j := 0;
    while i < |name| && name[i] != 0x2E && j < 8
      invariant i == j <= 8 && i <= |name|
      invariant BaseLength(name, 0) == BaseLength(name, i)
      invariant forall k :: 0 <= k < 11 ==> out[k] == if k < i then Upper(name[k]) else 0x20
    {
      out[j] := Upper(name[i]);
      i, j := i + 1, j + 1;
    }
  }

  /** The second loop: the extension after the dot at `n`. */
  method PutExtension(name: seq<byte>, n: nat, out: array<byte>)
    requires out.Length == 11 && n < |name|
    requires forall k :: 8 <= k < 11 ==> out[k] == 0x20
    modifies out
    ensures forall k :: 0 <= k < 8 ==> out[k] == old(out[k])
    ensures forall k :: 8 <= k < 11 ==> out[k] == if n + k - 7 < |name| then Upper(name[n + k - 7]) else 0x20
  {
    var i, j := n + 1, 8;
    while i < |name| && j < 11
      invariant 8 <= j <= 11 && i <= |name| && i == n + j - 7
      invariant forall k :: 0 <= k < 8 ==> out[k] == old(out[k])
      invariant forall k :: j <= k < 11 ==> out[k] == 0x20
      invariant forall k :: 8 <= k < j ==> out[k] == Upper(name[n + k - 7])
    {
      out[j] := Upper(name[i]);
      i, j := i + 1, j + 1;
    }
  }

  /** `path_to_83`. */
  method PathTo83(path: seq<byte>) returns (out: array<byte>)
    ensures fresh(out) && out.Length == 11 && out[..] == To83(path)
  {
    hide BaseLength, Upper;
    out := new byte[11](_ => 0x20);
    var name := path;
    if |path| > 0 && path[0] == 0x2F {
      name := path[1..];
    }
    var i := PutBase(name, out);
    if i < |name| && name[i] == 0x2E {
      PutExtension(name, i, out);
    }
  }

  class Volume {
    /** The device; a sector beyond its end cannot be read. */
    const disk: seq<byte>
    const buffer: array<byte>
    var ready: bool
    var mount: Mount

    ghost predicate Valid()
      reads this
    {
      buffer.Length == 512 && (ready ==> MountOf(disk) == Some(mount))
    }

    constructor (disk: seq<byte>)
      ensures Valid() && !ready && this.disk == disk && fresh(buffer)
    {
      this.disk := disk;
      buffer := new byte[512];
      ready := false;
      mount := Mount(0, 0, 0, 0);
    }

    /** `read_sector`. */
    method ReadSector(lba: nat) returns (ok: bool)
      requires buffer.Length == 512
      modifies buffer
      ensures ok <==> Readable(disk, lba)
      ensures ok ==> buffer[..] == SectorAt(disk, lba)
    {
      ok := 512 * lba + 512 <= |disk|;
      if ok {
        forall i | 0 <= i < 512 {
          buffer[i] := disk[512 * lba + i];
        }
      }
    }

    /** `fat32_init`. */
    method Init() returns (ok: bool)
      requires Valid()
      modifies this, buffer
      ensures Valid() && ready == ok
      ensures ok <==> MountOf(disk).Some?
    {
      var read := ReadSector(0);
      if !read {
        return false;
      }
      if U16(buffer[..], 11) != 512 {
        return false;
      }
      if U32(buffer[..], 36) == 0 {
        return false;
      }
      var fatStart := U16(buffer[..], 14);
      mount := Mount(buffer[13], fatStart, U32(buffer[..], 44), (fatStart + (buffer[16] as int) * U32(buffer[..], 36)) % Word);
      ready := true;
      return true;
    }

    /** `fat_next`. */
    method FatNext(c: nat) returns (next: nat)
      requires Valid()
      modifies buffer
      ensures next == Next(disk, mount, c)
    {
      OffsetInTable(c);
      var fatOffset := c * 4 % Word;
      var ok := ReadSector((mount.fatStart + fatOffset / 512) % Word);
      if !ok {
        return EndMark;
      }
      next := U32(buffer[..], fatOffset % 512) % 0x1000_0000;
    }

    // ---- Reading -------------------------------------------------------------------------

    /** The sectors of one cluster into `buf` from `done` on. */
    method ReadCluster(lba: nat, buf: array<byte>, done0: nat, len: nat) returns (done: nat, ok: bool)
      requires Valid() && buf != buffer && done0 <= len <= buf.Length
      modifies buffer, buf
      ensures var g := FromSectors(disk, mount, lba, 0, len - done0);
              done == done0 + |g.bytes| && ok == g.ok && buf[..done] == old(buf[..done0]) + g.bytes
      ensures done <= len && buf[len..] == old(buf[len..])
    {
      hide FromSectors, SectorAt, Readable;
      ghost var g := FromSectors(disk, mount, lba, 0, len - done0);
      ghost var first := buf[..done0];
      done, ok := done0, true;
      var s := 0;
      while s < mount.spc && done < len
        invariant done0 <= done <= len
        invariant var r := FromSectors(disk, mount, lba, s, len - done);
                  g.ok == r.ok && first + g.bytes == buf[..done] + r.bytes
        invariant buf[len..] == old(buf[len..])
        decreases mount.spc - s
      {
        SectorsStep(disk, mount, lba, s, len - done);
        var read := ReadSector((lba + s) % Word);
        if !read {
          ok := false;
          return;
        }
        var chunk := if done + 512 > len then len - done else 512;
        ghost var rest := FromSectors(disk, mount, lba, s + 1, len - done - chunk).bytes;
        JoinTwice(buf[..done], buffer[..chunk], rest);
        Copy(buf, done, chunk, len);
        done := done + chunk;
        s := s + 1;
      }
      SectorsStep(disk, mount, lba, s, len - done);
    }

    /** The first `chunk` bytes of the sector buffer to `buf` from `done` on. */
    method Copy(buf: array<byte>, done: nat, chunk: nat, len: nat)
      requires Valid() && buf != buffer && done + chunk <= len <= buf.Length && chunk <= 512
      modifies buf
      ensures buf[..done + chunk] == old(buf[..done]) + buffer[..chunk]
      ensures buf[len..] == old(buf[len..])
    {
      for k := 0 to chunk
        invariant buf[..done + k] == old(buf[..done]) + buffer[..k]
        invariant buf[len..] == old(buf[len..])
      {
        buf[done + k] := buffer[k];
      }
    }

    /** `fat32_read`: the bytes along the chain. */
    method Read(startCluster: nat, buf: array<byte>, len: nat) returns (done: nat)
      requires Valid() && buf != buffer && len <= buf.Length
      requires ready ==> mount.spc > 0
      modifies buffer, buf
      ensures done <= len && buf[len..] == old(buf[len..])
      ensures !ready ==> done == 0
      ensures ready ==> buf[..done] == FromChain(disk, mount, startCluster, len)
    {
      hide FromSectors, FromChain, Next, Lba;
      done := 0;
      if !ready {
        return;
      }
      ghost var all := FromChain(disk, mount, startCluster, len);
      var cluster := startCluster;
      while !IsEof(cluster) && done < len
        invariant done <= len
        invariant all == buf[..done] + FromChain(disk, mount, cluster, len - done)
        invariant buf[len..] == old(buf[len..])
        decreases len - done
      {
        ghost var was := buf[..done];
        ghost var g := FromSectors(disk, mount, Lba(mount, cluster), 0, len - done);
        ChainStep(disk, mount, cluster, len - done);
        var ok;
        done, ok := ReadCluster(Lba(mount, cluster), buf, done, len);
        if !ok {
          return;
        }
        cluster := FatNext(cluster);
        JoinTwice(was, g.bytes, FromChain(disk, mount, cluster, len - done));
      }
      ChainStep(disk, mount, cluster, len - done);
    }

    // ---- Opening -------------------------------------------------------------------------

    /** The entries of the buffered sector. */
    method ScanBuffer(target: seq<byte>) returns (r: Scan)
      requires Valid() && |target| == 11
      ensures r == ScanFrom(buffer[..], target, 0)
    {
      hide U16, U32;
      for e := 0 to 16
        invariant ScanFrom(buffer[..], target, 0) == ScanFrom(buffer[..], target, e)
      {
        if buffer[32 * e] == 0 {
          return Stop;
        }
        if buffer[32 * e] == 0xE5 || buffer[32 * e + 11] == 0x0F || buffer[32 * e + 11] / 8 % 2 == 1 {
          continue;
        }
        var same := NameIs(32 * e, target);
        if same {
          var cluster := 0x1_0000 * U16(buffer[..], 32 * e + 20) + U16(buffer[..], 32 * e + 26);
          return Match(cluster, U32(buffer[..], 32 * e + 28));
        }
      }
      return More;
    }

    /** `name83_eq`. */
    method NameIs(at: nat, target: seq<byte>) returns (same: bool)
      requires Valid() && |target| == 11 && at + 11 <= 512
      ensures same <==> buffer[..][at..at + 11] == target
    {
      var i := 0;
      while i < 11
        invariant 0 <= i <= 11
        invariant forall k :: 0 <= k < i ==> buffer[at + k] == target[k]
      {
        if buffer[at + i] != target[i] {
          assert buffer[..][at..at + 11][i] == buffer[at + i];
          return false;
        }
        i := i + 1;
      }
      return true;
    }

    /** `fat32_open`: what the search of the root directory gives. */
    method Open(path: seq<byte>, ghost k: nat) returns (ok: bool, cluster: nat, size: nat)
      requires Valid()
      requires ready ==> Settles(disk, mount, To83(path), mount.root, k)
      modifies buffer
      ensures !ready ==> !ok
      ensures ready ==> var r := Find(disk, mount, To83(path), mount.root, k); ok == r.Match? && (ok ==> r == Match(cluster, size))
    {
      hide Next, Lba, To83, ScanFrom;
      ok, cluster, size := false, 0, 0;
      if !ready {
        return;
      }
      var out := PathTo83(path);
      var target := out[..];
      ghost var all := Find(disk, mount, target, mount.root, k);
      var c := mount.root;
      ghost var left := k;
      while !IsEof(c)
        invariant Settles(disk, mount, target, c, left)
        invariant all == Find(disk, mount, target, c, left)
        decreases left
      {
        var r := ScanChain(target, Lba(mount, c));
        if r.Match? {
          return true, r.cluster, r.size;
        }
        if r.Stop? {
          return;
        }
        c := FatNext(c);
        left := left - 1;
      }
    }

    /** The sectors of one directory cluster. */
    method ScanChain(target: seq<byte>, lba: nat) returns (r: Scan)
      requires Valid() && |target| == 11
      modifies buffer
      ensures r == ScanSectors(disk, mount, target, lba, 0)
    {
      hide ScanFrom;
      var s := 0;
      while s < mount.spc
        invariant ScanSectors(disk, mount, target, lba, 0) == ScanSectors(disk, mount, target, lba, s)
        decreases mount.spc - s
      {
        var ok := ReadSector((lba + s) % Word);
        if !ok {
          return Stop;
        }
        r := ScanBuffer(target);
        if r != More {
          return;
        }
        s := s + 1;
      }
      return More;
    }
  }

  // ---- vfs.c -----------------------------------------------------------------------------

  datatype Node = Node(startCluster: nat, size: nat, valid: bool)

  class FileSystem {
    const volume: Volume
    var ready: bool

    ghost predicate Valid()
      reads this, volume
    {
      volume.Valid() && ready == volume.ready
    }

    constructor (volume: Volume)
      requires volume.Valid() && !volume.ready
      ensures Valid() && !ready && this.volume == volume
    {
      this.volume := volume;
      ready := false;
    }

    /** `vfs_init`. */
    method Init()
      requires Valid()
      modifies this, volume, volume.buffer
      ensures Valid() && (ready <==> MountOf(volume.disk).Some?)
    {
      ready := volume.Init();
    }

    /** `vfs_open`. */
    method Open(path: seq<byte>, ghost k: nat) returns (ok: bool, node: Node)
      requires Valid()
      requires ready ==> Settles(volume.disk, volume.mount, To83(path), volume.mount.root, k)
      modifies volume.buffer
      ensures node.valid == ok
      ensures !ready ==> !ok
      ensures ready ==> var r := Find(volume.disk, volume.mount, To83(path), volume.mount.root, k);
                        ok == r.Match? && (ok ==> node == Node(r.cluster, r.size, true))
    {
      hide Find, Settles, To83;
      node := Node(0, 0, false);
      ok := false;
      if !ready {
        return;
      }
      var found, cluster, size := volume.Open(path, k);
      if found {
        ok, node := true, Node(cluster, size, true);
      }
    }

    /** `vfs_read`: no more than the file holds. */
    method Read(node: Node, buf: array<byte>, len: nat) returns (done: nat)
      requires Valid() && buf != volume.buffer && len <= buf.Length
      requires ready ==> volume.mount.spc > 0
      modifies volume.buffer, buf
      ensures done <= len && done <= node.size
      ensures !node.valid || !ready ==> done == 0
      ensures node.valid && ready ==> buf[..done] == FromChain(volume.disk, volume.mount, node.startCluster, Min(len, node.size))
    {
      hide FromChain;
      done := 0;
      if !node.valid {
        return;
      }
      var n := if len > node.size then node.size else len;
      done := volume.Read(node.startCluster, buf, n);
    }
  }
}
