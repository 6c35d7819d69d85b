/**
 * Cylinders, heads and sectors for a disk size ("Virtual Hard Disk Image Format Specification",
 * appendix "CHS Calculation"). The code divides numbers; here every comparison of quotients is
 * multiplied out, so that all values are integers.
 */
module Geometry {
  import opened Bytes
  import opened VhdFormat

  const MAX_SECTORS: int := 65535 * 16 * 255

  datatype Geometry = Geometry(cylinders: nat, heads: nat, sectorsPerTrackCylinder: nat, actualSize: nat)

  function TotalSectors(size: nat): nat { Min(CeilDiv(size, SECTOR), MAX_SECTORS) }

  /** The fields fit their widths, and the geometry is the least one that covers the disk, up to a cylinder. */
  ghost predicate Covers(g: Geometry, size: nat) {
    && g.cylinders <= 65535 && 4 <= g.heads <= 16 && g.sectorsPerTrackCylinder in {17, 31, 63, 255}
    && g.actualSize == g.cylinders * (g.heads * g.sectorsPerTrackCylinder) * SECTOR
    && SECTOR * TotalSectors(size)
      <= g.actualSize < SECTOR * TotalSectors(size) + g.heads * g.sectorsPerTrackCylinder * SECTOR
  }

  /** Tracks of 17 sectors will do: 1024 cylinders with the fewest heads, from 4 to 16, have a track to spare. */
  predicate Few(totalSectors: nat) {
    totalSectors < 17 * 1024 * 16 && (totalSectors < 17 * 1024 * 4 || totalSectors % (17 * 1024) >= 17)
  }

  method ComputeGeometryForSize(size: nat) returns (g: Geometry)
    ensures Covers(g, size)
    ensures g.sectorsPerTrackCylinder == 255 <==> TotalSectors(size) >= 65535 * 16 * 63
    ensures g.sectorsPerTrackCylinder < 63 ==> g.cylinders <= 1024
    ensures g.sectorsPerTrackCylinder == 17 <==> Few(TotalSectors(size))
    ensures g.sectorsPerTrackCylinder == 31 <==> !Few(TotalSectors(size)) && TotalSectors(size) < 1024 * 16 * 31
    ensures if Few(TotalSectors(size)) then g.heads == 4 || 17 * 1024 * (g.heads - 1) < TotalSectors(size)
      else g.heads == 16
  {
    hide Few;
    var totalSectors := TotalSectors(size);
    var sectorsPerTrackCylinder, heads: nat;
    FewIsLittle(totalSectors);
    if totalSectors >= 65535 * 16 * 63 {
      sectorsPerTrackCylinder, heads := 255, 16;
    } else {
      sectorsPerTrackCylinder := 17;
      heads := (totalSectors + 1023 * 17) / (1024 * 17);
      if heads < 4 {
        heads := 4;
      }
      FewWhen(totalSectors, heads);
      if totalSectors >= heads * 1024 * 17 || heads > 16 {
        sectorsPerTrackCylinder, heads := 31, 16;
      }
      if totalSectors >= heads * 1024 * sectorsPerTrackCylinder {
        sectorsPerTrackCylinder, heads := 63, 16;
      }
    }
    var perCylinder := heads * sectorsPerTrackCylinder;
    var cylinders := CeilDiv(totalSectors, perCylinder);
    CylindersFit(totalSectors, perCylinder, cylinders, if sectorsPerTrackCylinder < 63 then 1024 else 65535);
    g := Geometry(cylinders, heads, sectorsPerTrackCylinder, cylinders * perCylinder * SECTOR);
  }

  /** A sector for each 512 bytes, even the last few, up to the limit. */
  lemma SectorsOfSize(size: nat)
    ensures TotalSectors(size) <= 65535 * 16 * 255 && 512 * TotalSectors(size) < size + 512
    ensures size <= 512 * TotalSectors(size) <==> size <= 512 * 65535 * 16 * 255
    ensures size > 512 * 65535 * 16 * 255 ==> TotalSectors(size) == 65535 * 16 * 255
  {
  }

  /** In bytes: the disk is covered up to the limit of the fields, with less than a sector and a cylinder to spare. */
  lemma CoversDisk(g: Geometry, size: nat)
    requires Covers(g, size)
    ensures size <= g.actualSize <==> size <= 512 * 65535 * 16 * 255
    ensures g.actualSize < size + 512 + 512 * (g.heads * g.sectorsPerTrackCylinder)
    ensures size > 512 * 65535 * 16 * 255 ==> g.actualSize == 512 * 65535 * 16 * 255
  {
    SectorsOfSize(size);
    CylinderBound(g.cylinders, g.heads * g.sectorsPerTrackCylinder);
  }

  lemma CylinderBound(cylinders: nat, perCylinder: nat)
    requires cylinders <= 65535 && perCylinder <= 16 * 255
    ensures cylinders * perCylinder <= 65535 * 16 * 255
  {
    var spare: nat := 65535 - cylinders;
    assert 65535 * perCylinder == cylinders * perCylinder + spare * perCylinder;
    assert spare * perCylinder >= 0;
  }

  lemma FewWhen(totalSectors: nat, heads: nat)
    requires heads == Max(4, (totalSectors + 1023 * 17) / (1024 * 17))
    ensures totalSectors < heads * 1024 * 17 && heads <= 16 <==> Few(totalSectors)
    ensures Few(totalSectors) ==> heads == 4 || 17 * 1024 * (heads - 1) < totalSectors
  {
  }

  lemma FewIsLittle(totalSectors: nat)
    ensures Few(totalSectors) ==> totalSectors < 17 * 1024 * 16
  {
  }

  lemma CylindersFit(totalSectors: nat, perCylinder: nat, cylinders: int, most: nat)
    requires perCylinder > 0 && cylinders == CeilDiv(totalSectors, perCylinder) && totalSectors <= perCylinder * most
    ensures 0 <= cylinders <= most
    ensures totalSectors <= cylinders * perCylinder < totalSectors + perCylinder
  {
    Positive(perCylinder, cylinders - 1 - most);
    Positive(perCylinder, -cylinders);
  }

  lemma Positive(a: nat, b: int)
    ensures b >= 0 ==> a * b >= 0
    ensures a > 0 && b > 0 ==> a * b > 0
  {
  }

  const BLOCK_SIZE: int := 0x20_0000

  /** A table with one more entry than the size asks for covers the enlarged disk. */
  lemma TableCovers(g: Geometry, size: nat)
    requires Covers(g, size)
    ensures (CeilDiv(size, BLOCK_SIZE) + 1) * BLOCK_SIZE >= g.actualSize
  {
    assert g.heads * g.sectorsPerTrackCylinder <= 16 * 255 by {
      assert g.heads * g.sectorsPerTrackCylinder <= 16 * g.sectorsPerTrackCylinder;
    }
  }
}
