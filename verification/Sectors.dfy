/** The disk as the file system sees it: an array of sectors, each read or written whole.

  SynchDisk's calls return only when their request has completed (module SynchDiskProtocol), so to one
  caller the disk is a store that changes between calls and not during them. */
module Sectors {
  import opened Bytes

  const SECTOR_SIZE: nat := 128
  const NUM_SECTORS: nat := 1024

  const BLANK: Sector := seq(128, _ => 0)

  type Sector = s: seq<byte> | |s| == 128 witness seq(128, _ => 0)
  type Store = d: seq<Sector> | |d| == 1024 witness seq<Sector>(1024, _ => BLANK)

  class SynchDisk {
    var sectors: Store

    constructor (d: Store)
      ensures sectors == d
    {
      sectors := d;
    }

    method ReadSector(sectorNumber: nat, data: array<byte>, at: nat)
      requires sectorNumber < NUM_SECTORS && at + SECTOR_SIZE <= data.Length
      modifies data
      ensures data[..] == Splice(old(data[..]), at, sectors[sectorNumber])
    {
      BCopySeq(sectors[sectorNumber], data, at);
    }

    method WriteSector(sectorNumber: nat, data: array<byte>, at: nat)
      requires sectorNumber < NUM_SECTORS && at + SECTOR_SIZE <= data.Length
      modifies this
      ensures sectors == old(sectors)[sectorNumber := data[at..at + SECTOR_SIZE]]
    {
      sectors := sectors[sectorNumber := data[at..at + SECTOR_SIZE]];
    }
  }

  /** bcopy into a buffer. */
  method BCopySeq(from: seq<byte>, into: array<byte>, at: nat)
    requires at + |from| <= into.Length
    modifies into
    ensures into[..] == Splice(old(into[..]), at, from)
  {
    forall k | 0 <= k < |from| {
      into[at + k] := from[k];
    }
  }
}
