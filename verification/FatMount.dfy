/**
 * Mounting a volume: where its regions are, by its boot sector ("FAT: General Overview of On-Disk Format",
 * sections "Boot Sector and BPB" and "FAT Type Determination").
 */
module FatMount {
  import opened Options
  import opened Bytes
  import opened FatTable
  import opened FatFile

  /** The fields of the boot sector that place things. */
  datatype Boot = Boot(
    bytsPerSec: nat,
    secPerClus: nat,
    resvdSecCnt: nat,
    numFATs: nat,
    rootEntCnt: nat,
    totSec16: nat,
    totSec32: nat,
    fatSz16: nat,
    fatSz32: nat
  )

  datatype Mounted = Mounted(g: Layout, countofClusters: int, t: FatType, fatSectors: nat)

  /** A field that is zero in its 16-bit form is in its 32-bit form. */
  function TotSec(b: Boot): nat { if b.totSec16 != 0 then b.totSec16 else b.totSec32 }

  function FatSz(b: Boot): nat { if b.fatSz16 != 0 then b.fatSz16 else b.fatSz32 }

  /** None when the volume is refused. */
  method Mount(b: Boot, sectorSize: nat, numSectors: nat) returns (r: Option<Mounted>)
    requires b.secPerClus > 0
    ensures r.Some? <==>
      && b.bytsPerSec != 0 && b.bytsPerSec == sectorSize
      && (if b.totSec16 == 0 then b.totSec32 else b.totSec16) <= numSectors
    ensures r.Some? ==> Placed(b, r.value)
    ensures r.Some? ==>
      && (r.value.t == Fat12 <==> r.value.countofClusters < 4085)
      && (r.value.t == Fat16 <==> 4085 <= r.value.countofClusters < 65525)
      && (r.value.countofClusters >= 0 ==> r.value.t == TypeOf(r.value.countofClusters))
  {
    if b.bytsPerSec == 0 || b.bytsPerSec != sectorSize {
      return None;
    }
    var rootDirSectors := CeilDiv(b.rootEntCnt * 32, b.bytsPerSec);
    assert rootDirSectors >= 0 by {
      assert rootDirSectors < 0 ==> b.bytsPerSec * rootDirSectors < 0;
    }
    var firstDataSector := b.resvdSecCnt + b.numFATs * FatSz(b) + rootDirSectors;
    var dataSec := TotSec(b) - firstDataSector;
    var countofClusters := dataSec / b.secPerClus;
    if TotSec(b) > numSectors {
      return None;
    }
    var t := if countofClusters < 4085 then Fat12 else if countofClusters < 65525 then Fat16 else Fat32;
    r := Some(Mounted(Layout(firstDataSector, b.secPerClus), countofClusters, t, FatSz(b)));
    assert dataSec == b.secPerClus * countofClusters + dataSec % b.secPerClus;
  }

  /**
   * After the reserved sectors and the tables comes the root directory, in the fewest sectors that hold it, and
   * after that as many whole clusters as the volume has sectors for.
   */
  ghost predicate Placed(b: Boot, m: Mounted) {
    && m.g.sectorsPerCluster == b.secPerClus && b.bytsPerSec > 0
    && m.fatSectors == (if b.fatSz16 == 0 then b.fatSz32 else b.fatSz16)
    && var root := m.g.firstDataSector - (b.resvdSecCnt + b.numFATs * m.fatSectors);
    && root >= 0 && b.bytsPerSec * (root - 1) < 32 * b.rootEntCnt <= b.bytsPerSec * root
    && var sectors := (if b.totSec16 == 0 then b.totSec32 else b.totSec16) - m.g.firstDataSector;
    && b.secPerClus * m.countofClusters <= sectors < b.secPerClus * (m.countofClusters + 1)
  }

  /**
   * Cluster `n` is on the volume if and only if it is one of the `countofClusters` from 2 on: so the numbers up to
   * `countofClusters + 1` name clusters, of which the allocator never takes the last two.
   */
  lemma ClusterExists(b: Boot, m: Mounted, n: nat)
    requires b.secPerClus > 0 && Placed(b, m) && n >= 2
    ensures FirstSectorOfCluster(m.g, n) + m.g.sectorsPerCluster <= TotSec(b) <==> n <= m.countofClusters + 1
  {
    ClusterPlaces(m.g, n);
    var spc: nat, sectors: int := b.secPerClus, TotSec(b) - m.g.firstDataSector;
    hide *;
    Multiples(spc, n - 1, m.countofClusters, sectors);
    assert (n - 2) * spc + spc == spc * (n - 1);
  }

  lemma Multiples(spc: nat, k: int, count: int, sectors: int)
    requires spc > 0 && spc * count <= sectors < spc * (count + 1)
    ensures spc * k <= sectors <==> k <= count
  {
    if k <= count {
      var n: nat := count - k;
      assert spc * count == spc * k + spc * n;
    } else {
      var n: nat := k - (count + 1);
      assert spc * k == spc * (count + 1) + spc * n;
    }
  }

  /** All clusters that the table can give out are on a device that has the volume. */
  lemma RoomForAll(b: Boot, m: Mounted, numSectors: nat, c: nat)
    requires b.secPerClus > 0 && Placed(b, m) && TotSec(b) <= numSectors && 2 <= c < m.countofClusters
    ensures OnDevice(m.g, [c], numSectors)
  {
    ClusterExists(b, m, c);
  }
}
