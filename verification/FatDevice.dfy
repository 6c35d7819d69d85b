/** The block device under a volume and the sector cache in front of it. */
module FatDevice {
  import opened Bytes

  type Sector = Buffer

  class Device {
    const sectorSize: nat
    /** Sector by sector; a buffer of whole sectors is the list of them. */
    var sectors: seq<Sector>
    /** The number of writes before it stops. */
    var steps: nat

    ghost predicate Valid()
      reads this
    {
      sectorSize > 0 && AllSized(sectors, sectorSize)
    }

    constructor (sectorSize: nat, sectors: seq<Sector>, steps: nat)
      requires sectorSize > 0 && AllSized(sectors, sectorSize)
      ensures Valid() && this.sectorSize == sectorSize && this.sectors == sectors && this.steps == steps
    {
      this.sectorSize, this.sectors, this.steps := sectorSize, sectors, steps;
    }
  }

  ghost predicate AllSized(ss: seq<Sector>, size: nat) { forall k | 0 <= k < |ss| :: |ss[k]| == size }

  /** `ss` stands at `at` in `after`, which is otherwise as `before`. */
  ghost predicate Placed(before: seq<Sector>, after: seq<Sector>, at: nat, ss: seq<Sector>) {
    && |after| == |before| && at + |ss| <= |before|
    && (forall k | 0 <= k < |ss| :: after[at + k] == ss[k])
    && (forall k | 0 <= k < |before| && !(at <= k < at + |ss|) :: after[k] == before[k])
  }

  /** What the cache knows is what the device holds. */
  ghost predicate Agrees(cache: map<nat, seq<Sector>>, sectors: seq<Sector>) {
    forall i | i in cache :: i < |sectors| && cache[i] != [] && cache[i][0] == sectors[i]
  }

  /** The same, but for the `n` sectors from `at` on, which have just changed. */
  ghost predicate AgreesElsewhere(cache: map<nat, seq<Sector>>, sectors: seq<Sector>, at: nat, n: nat) {
    forall i | i in cache && !(at <= i < at + n) :: i < |sectors| && cache[i] != [] && cache[i][0] == sectors[i]
  }

  class SectorCache {
    const device: Device
    const maxSectors: nat
    /**
     * From the number of a sector to what was transferred from there on: only the first sector of
     * that is up to date, and only that one is ever used.
     */
    var cache: map<nat, seq<Sector>>
    /** With the advice SEQUENTIAL or NOREUSE nothing is kept. */
    var keeping: bool

    ghost predicate Valid()
      reads this, device
    {
      device.Valid() && Agrees(cache, device.sectors) && (!keeping ==> cache == map[])
    }

    constructor (device: Device, maxSectors: nat)
      requires device.Valid()
      ensures Valid() && this.device == device && this.maxSectors == maxSectors && keeping && cache == map[]
    {
      this.device, this.maxSectors, cache, keeping := device, maxSectors, map[], true;
    }

    method Advise(keeping: bool)
      requires Valid()
      modifies this
      ensures Valid() && this.keeping == keeping && (!keeping ==> cache == map[])
    {
      this.keeping := keeping;
      if !keeping {
        cache := map[];
      }
    }

    /** Some sectors are dropped when there are too many; which ones does not matter. */
    method Evict()
      requires Valid()
      modifies this`cache
      ensures Valid() && |cache| <= maxSectors
    {
      while |cache| > maxSectors
        invariant Valid()
        decreases |cache|
      {
        var i :| i in cache;
        ghost var before := cache;
        cache := cache - {i};
        assert cache.Keys == before.Keys - {i} && |cache.Keys| < |before.Keys|;
      }
    }

    /** Keeps what was just transferred, each sector with the rest of the transfer behind it. */
    method AddToCache(i: nat, data: seq<Sector>)
      requires device.Valid() && (!keeping ==> cache == map[]) && AgreesElsewhere(cache, device.sectors, i, |data|)
      requires data != [] && i + |data| <= |device.sectors|
      requires forall k | 0 <= k < |data| :: data[k] == device.sectors[i + k]
      modifies this`cache
      ensures Valid() && (|old(cache)| <= maxSectors ==> |cache| <= maxSectors)
    {
      if !keeping {
        return;
      }
      cache := cache[i := data];
      var k := 0;
      while |data| - k > 1
        invariant 0 <= k < |data|
        invariant AgreesElsewhere(cache, device.sectors, i + k + 1, |data| - k - 1)
      {
        k := k + 1;
        cache := cache[i + k := data[k..]];
      }
      Evict();
    }

    method ReadSectors(i: nat, n: nat) returns (dest: seq<Sector>)
      requires Valid() && n > 0 && i + n <= |device.sectors|
      modifies this`cache
      ensures Valid() && dest == device.sectors[i..i + n]
    {
      if i in cache && n == 1 {
        return [cache[i][0]];
      }
      dest := device.sectors[i..i + n];
      AddToCache(i, dest);
    }

    /** What was written is kept only if the device took it. */
    method WriteSectors(i: nat, data: seq<Sector>) returns (ok: bool)
      requires Valid() && data != [] && i + |data| <= |device.sectors| && AllSized(data, device.sectorSize)
      modifies this`cache, device
      ensures Valid() && ok == (old(device.steps) > 0)
      ensures ok ==> Placed(old(device.sectors), device.sectors, i, data) && device.steps == old(device.steps) - 1
      ensures !ok ==> device.sectors == old(device.sectors) && device.steps == old(device.steps)
    {
      ok := device.steps > 0;
      if ok {
        device.steps := device.steps - 1;
        device.sectors := device.sectors[..i] + data + device.sectors[i + |data|..];
        AddToCache(i, data);
      }
    }
  }
}
