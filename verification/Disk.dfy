/** The block device.  The disk works in 512-byte sectors and a file-system block is
    two of them, so writing a block is two separate commands with a possible crash
    between them. */
module Disk {
  /** The contents in the units of whoever wrote it: 128 words for the log header and for inodes, 512 bytes
      for data and for the free map. */
  datatype Sector = Sector(words: seq<int>)

  /** Sectors 2b and 2b+1 of the device are the halves of block b. */
  datatype Block = Block(lo: Sector, hi: Sector) {
    function Half(second: bool): Sector
    {
      if second then hi else lo
    }
  }

  type Image = seq<Block>

  /** One write command: the unit that a crash cannot split. */
  datatype SectorWrite = SectorWrite(block: int, second: bool, data: Sector) {
    function Number(): int
    {
      2 * block + if second then 1 else 0
    }
  }

  function Put(d: Image, w: SectorWrite): (r: Image)
    ensures |r| == |d|
  {
    if 0 <= w.block < |d| then
      d[w.block := if w.second then d[w.block].(hi := w.data) else d[w.block].(lo := w.data)]
    else
      d
  }

  function PutAll(d: Image, ws: seq<SectorWrite>): (r: Image)
    ensures |r| == |d|
  {
    if |ws| == 0 then d else Put(PutAll(d, ws[..|ws| - 1]), ws[|ws| - 1])
  }

  function BlockWrites(b: int, data: Block): seq<SectorWrite>
  {
    [SectorWrite(b, false, data.lo), SectorWrite(b, true, data.hi)]
  }

  lemma PutAllNone(d: Image)
    ensures PutAll(d, []) == d
  {
  }

  lemma {:induction false} PutAllAppend(d: Image, ws: seq<SectorWrite>, us: seq<SectorWrite>)
    ensures PutAll(d, ws + us) == PutAll(PutAll(d, ws), us)
    decreases |us|
  {
    if |us| == 0 {
      assert ws + us == ws;
    } else {
      PutAllAppend(d, ws, us[..|us| - 1]);
      assert (ws + us)[..|ws + us| - 1] == ws + us[..|us| - 1];
    }
  }

  /** Where a crash after k writes of ws + us leaves the disk. */
  lemma PutAllPrefix(d: Image, ws: seq<SectorWrite>, us: seq<SectorWrite>, k: nat)
    requires k <= |ws| + |us|
    ensures PutAll(d, (ws + us)[..k])
            == if k <= |ws| then PutAll(d, ws[..k]) else PutAll(PutAll(d, ws), us[..k - |ws|])
  {
    if k <= |ws| {
      assert (ws + us)[..k] == ws[..k];
    } else {
      assert (ws + us)[..k] == ws + us[..k - |ws|];
      PutAllAppend(d, ws, us[..k - |ws|]);
    }
  }

  /** Both halves of one block write. */
  lemma PutBlockPrefix(d: Image, b: int, data: Block)
    ensures var ws := BlockWrites(b, data);
            && PutAll(d, ws[..0]) == d && PutAll(d, ws[..1]) == Put(d, ws[0])
            && PutAll(d, ws[..2]) == PutAll(d, ws) == Put(Put(d, ws[0]), ws[1])
  {
    var ws := BlockWrites(b, data);
    assert ws[..1][..0] == [] && ws[..1][0] == ws[0];
    assert ws[..2] == ws && ws[..1] == ws[..2][..1];
  }

  /** Two sector commands amount to one block update. */
  lemma PutBlock(d: Image, b: int, data: Block)
    requires 0 <= b < |d|
    ensures PutAll(d, BlockWrites(b, data)) == d[b := data]
  {
    PutBlockPrefix(d, b, data);
  }

  /** A history of whole-block writes, as the file system issues them. */
  datatype Trace = Start | Then(prev: Trace, block: int, data: Block)

  /** The sector commands behind a history. */
  function Commands(t: Trace): seq<SectorWrite>
  {
    match t
    case Start => []
    case Then(prev, b, data) => Commands(prev) + BlockWrites(b, data)
  }

  /** The driver.  `trace` records every block write; the sector commands issued so far
      are Commands(trace). */
  class Device {
    var sectors: Image
    ghost var trace: Trace

    constructor (image: Image)
      ensures sectors == image && trace == Start
    {
      sectors := image;
      trace := Start;
    }

    /** One command of the device: write the sector with this number. */
    method Command(sector: nat, data: Sector) returns (ghost w: SectorWrite)
      requires sector < 2 * |sectors|
      modifies `sectors
      ensures w == SectorWrite(sector / 2, sector % 2 == 1, data) && w.Number() == sector
      ensures sectors == Put(old(sectors), w)
    {
      w := SectorWrite(sector / 2, sector % 2 == 1, data);
      var b := sectors[sector / 2];
      sectors := sectors[sector / 2 := if sector % 2 == 1 then b.(hi := data) else b.(lo := data)];
    }

    /** `virtio_disk_rw(b, 1)`: one command per sector, from the bounce buffer. */
    method WriteBlock(b: nat, data: Block) returns (ghost commands: seq<SectorWrite>)
      requires b < |sectors|
      modifies this
      ensures commands == BlockWrites(b, data)
      ensures trace == Then(old(trace), b, data)
      ensures sectors == old(sectors)[b := data]
    {
      var bounce := data;
      commands := [];
      for s := 0 to 2
        invariant trace == old(trace) && |sectors| == old(|sectors|)
        invariant commands == BlockWrites(b, data)[..s]
        invariant sectors == PutAll(old(sectors), commands)
      {
        ghost var w := Command(b * 2 + s, bounce.Half(s == 1));
        assert (commands + [w])[..s] == commands;
        commands := commands + [w];
      }
      trace := Then(trace, b, data);
      PutBlock(old(sectors), b, data);
    }

    /** `virtio_disk_rw(b, 0)`. */
    method ReadBlock(b: nat) returns (data: Block)
      requires b < |sectors|
      ensures data == sectors[b]
    {
      var bounce := [];
      for s := 0 to 2
        invariant bounce == [sectors[b].lo, sectors[b].hi][..s]
      {
        var sector := b * 2 + s;
        bounce := bounce + [sectors[sector / 2].Half(sector % 2 == 1)];
      }
      data := Block(bounce[0], bounce[1]);
    }
  }
}
