/** The configuration zone: block and word addressing, writes that skip the words the chip refuses, read-back, and the
    serial cache. */
module ConfigZone {
  import opened Bytes
  import opened Errors
  import opened Messages
  import opened Atecc

  const CONFIG_ZONE_BLOCK_COUNT: nat := 4

  type Zone = z: seq<byte> | |z| == 128 witness seq(128, _ => 0)

  // ---------------------------------------------------------------- addressing

  /** Word offset in bits 0 to 2, block in bits 3 and 4; higher bits of either argument are dropped. */
  function ConfigAddress(blockIndex: nat, offset: nat): Word {
    Binary(offset % 8, 3) + Binary(blockIndex % 4, 2) + Binary(0, 11)
  }

  /** The word of the zone a chip reads out of an address. */
  function AddressedWord(address: Word): nat {
    8 * Number(address[3..5]) + Number(address[0..3])
  }

  lemma AddressParts(low: seq<bool>, middle: seq<bool>, high: seq<bool>)
    requires |low| == 3 && |middle| == 2 && |high| == 11
    ensures AddressedWord(low + middle + high) == 8 * Number(middle) + Number(low)
  {
    var address: Word := low + middle + high;
    assert address[0..3] == low && address[3..5] == middle;
  }

  lemma NoHighBits()
    ensures Number(Binary(0, 11)) == 0
  {
    NumberOfBinary(0, 11);
  }

  lemma SmallNumbers(n: nat, width: nat)
    requires 2 <= width <= 3 && n < (if width == 2 then 4 else 8)
    ensures Number(Binary(n, width)) == n
  {
    assert Pow2(2) == 4 && Pow2(3) == 8;
    NumberOfBinary(n, width);
  }

  lemma AddressSum(offset: nat, blockIndex: nat, high: seq<bool>)
    requires offset < 8 && blockIndex < 4 && Number(high) == 0
    ensures Number(Binary(offset, 3) + Binary(blockIndex, 2) + high) == 8 * blockIndex + offset
  {
    var low, middle := Binary(offset, 3), Binary(blockIndex, 2);
    assert Pow2(3) == 8;
    NumberConcat(low + middle, high);
    NumberConcat(low, middle);
    SmallNumbers(offset, 3);
    SmallNumbers(blockIndex, 2);
  }

  /** The chip addresses the word the driver named. */
  lemma AddressNamesWord(blockIndex: nat, offset: nat)
    requires blockIndex < 4 && offset < 8
    ensures AddressedWord(ConfigAddress(blockIndex, offset)) == 8 * blockIndex + offset < 32
  {
    var low, middle, high := Binary(offset % 8, 3), Binary(blockIndex % 4, 2), Binary(0, 11);
    AddressParts(low, middle, high);
    SmallNumbers(offset % 8, 3);
    SmallNumbers(blockIndex % 4, 2);
  }

  /** As a number the address is eight times the block plus the offset, each cut to its field. */
  lemma AddressNumber(blockIndex: nat, offset: nat)
    ensures Number(ConfigAddress(blockIndex, offset)) == 8 * (blockIndex % 4) + offset % 8
  {
    NoHighBits();
    AddressSum(offset % 8, blockIndex % 4, Binary(0, 11));
  }

  method Address(blockIndex: nat, offset: nat) returns (address: Word)
    requires blockIndex < 4 && offset < 8
    ensures AddressedWord(address) == 8 * blockIndex + offset < 32
  {
    AddressNamesWord(blockIndex, offset);
    address := ConfigAddress(blockIndex, offset);
  }

  // ---------------------------------------------------------------- what the chip refuses

  /** Factory area, and the word of UserExtra, Selector and the lock bytes. */
  predicate ProtectedWord(w: nat) {
    w < 4 || w == 21
  }

  /** The same in bytes: 0 to 15 and 84 to 87. */
  predicate ProtectedByte(i: nat) {
    i < 16 || 84 <= i < 88
  }

  function Overlaid(z: Zone, from: nat, data: seq<byte>): (r: Zone)
    requires from + |data| <= 128
    ensures forall i :: 0 <= i < 128 ==> r[i] == if from <= i < from + |data| then data[i - from] else z[i]
  {
    z[..from] + data + z[from + |data|..]
  }

  // ---------------------------------------------------------------- the service's tables

  predicate CanWriteBlockInOneTransfer(blockIndex: nat) {
    blockIndex == 1 || blockIndex == 3
  }

  function WritableWordsInBlock(blockIndex: nat): (words: seq<nat>)
    ensures forall j :: 0 <= j < |words| ==> words[j] < 8
  {
    if blockIndex == 0 then [4, 5, 6, 7]
    else if blockIndex == 2 then [0, 1, 2, 3, 4, 6, 7]
    else []
  }

  /** The tables name exactly the words the chip accepts: one transfer when a block has no protected word, otherwise
      every word that is not protected, and each only once. */
  lemma TablesMatchChip(blockIndex: nat, offset: nat)
    requires blockIndex < 4 && offset < 8
    ensures CanWriteBlockInOneTransfer(blockIndex) <==>
              forall w :: 8 * blockIndex <= w < 8 * blockIndex + 8 ==> !ProtectedWord(w)
    ensures !CanWriteBlockInOneTransfer(blockIndex) ==>
              (offset in WritableWordsInBlock(blockIndex) <==> !ProtectedWord(8 * blockIndex + offset))
    ensures var words := WritableWordsInBlock(blockIndex); forall i, j :: 0 <= i < j < |words| ==> words[i] < words[j]
  {
    var words := WritableWordsInBlock(blockIndex);
    if blockIndex == 0 {
      assert ProtectedWord(0);
      assert words[0] == 4 && words[1] == 5 && words[2] == 6 && words[3] == 7;
    } else if blockIndex == 2 {
      assert ProtectedWord(21);
      assert words[0] == 0 && words[1] == 1 && words[2] == 2 && words[3] == 3 && words[4] == 4 && words[5] == 6 && words[6] == 7;
    }
  }

  // ---------------------------------------------------------------- the effect of block writes

  /** One block of `data` written, protected bytes aside. */
  function Written(z: Zone, blockIndex: nat, data: Block): (r: Zone)
    ensures forall i :: 0 <= i < 128 ==>
              r[i] == if 32 * blockIndex <= i < 32 * blockIndex + 32 && !ProtectedByte(i) then data[i - 32 * blockIndex] else z[i]
  {
    seq(128, i requires 0 <= i < 128 =>
      if 32 * blockIndex <= i < 32 * blockIndex + 32 && !ProtectedByte(i) then data[i - 32 * blockIndex] else z[i])
  }

  /** Some words of a block written, one after the other. */
  function WordsWritten(z: Zone, blockIndex: nat, data: Block, words: seq<nat>): Zone
    requires blockIndex < 4 && forall j :: 0 <= j < |words| ==> words[j] < 8
  {
    if words == [] then z
    else
      var w := words[|words| - 1];
      Overlaid(WordsWritten(z, blockIndex, data, words[..|words| - 1]), 32 * blockIndex + 4 * w, data[4 * w..4 * w + 4])
  }

  /** Byte by byte: a written word's bytes come from the data, all others stay. */
  lemma {:induction false} WordsWrittenAt(z: Zone, blockIndex: nat, data: Block, words: seq<nat>, i: nat)
    requires blockIndex < 4 && i < 128 && forall j :: 0 <= j < |words| ==> words[j] < 8
    ensures WordsWritten(z, blockIndex, data, words)[i] ==
            if 32 * blockIndex <= i < 32 * blockIndex + 32 && (i - 32 * blockIndex) / 4 in words
            then data[i - 32 * blockIndex] else z[i]
  {
    if words != [] {
      var n := |words| - 1;
      WordsWrittenAt(z, blockIndex, data, words[..n], i);
      assert words == words[..n] + [words[n]];
      var w := words[n];
      assert 32 * blockIndex + 4 * w <= i < 32 * blockIndex + 4 * w + 4 <==>
             32 * blockIndex <= i < 32 * blockIndex + 32 && (i - 32 * blockIndex) / 4 == w;
    }
  }

  /** Writing the tabled words of a block is writing the block, protected bytes aside. */
  lemma TabledWordsWriteBlock(z: Zone, blockIndex: nat, data: Block)
    requires blockIndex == 0 || blockIndex == 2
    ensures WordsWritten(z, blockIndex, data, WritableWordsInBlock(blockIndex)) == Written(z, blockIndex, data)
  {
    var words := WritableWordsInBlock(blockIndex);
    forall i | 0 <= i < 128
      ensures WordsWritten(z, blockIndex, data, words)[i] == Written(z, blockIndex, data)[i]
    {
      WordsWrittenAt(z, blockIndex, data, words, i);
      if 32 * blockIndex <= i < 32 * blockIndex + 32 {
        TablesMatchChip(blockIndex, (i - 32 * blockIndex) / 4);
      }
    }
  }

  lemma WholeBlockIsWritten(z: Zone, blockIndex: nat, data: Block)
    requires blockIndex == 1 || blockIndex == 3
    ensures Overlaid(z, 32 * blockIndex, data) == Written(z, blockIndex, data)
  {
  }

  /** A blob over a zone: everything but the protected bytes. */
  function Merged(z: Zone, blob: Zone): (r: Zone)
    ensures r[..16] == z[..16] && r[16..84] == blob[16..84] && r[84..88] == z[84..88] && r[88..] == blob[88..]
  {
    z[..16] + blob[16..84] + z[84..88] + blob[88..]
  }

  function BlockOf(blob: Zone, k: nat): Block
    requires k < 4
  {
    blob[32 * k..32 * k + 32]
  }

  /** The first `n` blocks of a blob written in order. */
  function BlocksWritten(z: Zone, blob: Zone, n: nat): Zone
    requires n <= 4
  {
    if n == 0 then z else Written(BlocksWritten(z, blob, n - 1), n - 1, BlockOf(blob, n - 1))
  }

  lemma {:induction false} BlocksWrittenAt(z: Zone, blob: Zone, n: nat, i: nat)
    requires n <= 4 && i < 128
    ensures BlocksWritten(z, blob, n)[i] == if i < 32 * n && !ProtectedByte(i) then blob[i] else z[i]
  {
    if n > 0 {
      BlocksWrittenAt(z, blob, n - 1, i);
    }
  }

  /** Blocks 0 to 3 of any blob over any zone: the blob at 16..84 and 88..128, the zone's own bytes elsewhere. */
  lemma AllBlocksMerge(z: Zone, blob: Zone)
    ensures BlocksWritten(z, blob, 4) == Merged(z, blob)
  {
    forall i | 0 <= i < 128
      ensures BlocksWritten(z, blob, 4)[i] == Merged(z, blob)[i]
    {
      BlocksWrittenAt(z, blob, 4, i);
    }
  }

  // ---------------------------------------------------------------- the serial number

  function SerialOf(z: Zone): Serial {
    z[0..4] + z[8..13]
  }

  /** No byte of the serial number can be written. */
  lemma SerialIsProtected(z: Zone, z': Zone)
    requires forall i :: 0 <= i < 128 && ProtectedByte(i) ==> z'[i] == z[i]
    ensures SerialOf(z') == SerialOf(z)
  {
    assert z'[0..4] == z[0..4] && z'[8..13] == z[8..13];
  }

  // ---------------------------------------------------------------- chip and service

  /** The chip's side of Read and Write on this zone, over a bus that may lose any exchange. */
  class ConfigChip {
    const fault: nat -> Fault
    const locked: bool
    var zone: Zone
    var step: nat
    /** Writes the chip turned down because of what they address. */
    ghost var refusals: nat

    constructor (fault: nat -> Fault, locked: bool, zone: Zone)
      ensures this.fault == fault && this.locked == locked && this.zone == zone && refusals == 0
    {
      this.fault, this.locked, this.zone, this.step, this.refusals := fault, locked, zone, 0, 0;
    }

    ghost predicate FaultFree() {
      forall i :: fault(i) == Clean
    }

    /** A wake or idle: lost or not, it leaves the zone alone. */
    method Exchange() returns (r: Result<(), AteccError>)
      modifies this`step
      ensures FaultFree() ==> r.Ok?
    {
      var f := fault(step);
      step := step + 1;
      r := if f.Lost? then Err(f.error) else Ok(());
    }

    method Read32(address: Word) returns (r: Result<Block, AteccError>)
      modifies this`step
      ensures AddressedWord(address) in {0, 8, 16, 24} && r.Ok? ==> r.value == zone[4 * AddressedWord(address)..4 * AddressedWord(address) + 32]
      ensures AddressedWord(address) in {0, 8, 16, 24} && FaultFree() ==> r.Ok?
    {
      var f := fault(step);
      step := step + 1;
      var w := AddressedWord(address);
      if f.Lost? {
        r := Err(f.error);
      } else if w == 0 || w == 8 || w == 16 || w == 24 {
        r := Ok(zone[4 * w..4 * w + 32]);
      } else {
        r := Err(Chip(ParseError));
      }
    }

    /** A 32-byte write is refused when it is not aligned or covers a protected word. */
    method Write32(address: Word, data: Block) returns (r: Result<(), AteccError>)
      modifies this
      ensures var w := AddressedWord(address);
              if locked || (w != 8 && w != 24) then zone == old(zone) && r.Err?
              else
                && refusals == old(refusals)
                && (zone == old(zone) || zone == Overlaid(old(zone), 4 * w, data))
                && (r.Ok? ==> zone == Overlaid(old(zone), 4 * w, data))
                && (FaultFree() ==> r.Ok?)
    {
      var f := fault(step);
      step := step + 1;
      if f.Lost? && !f.took {
        return Err(f.error);
      }
      var w := AddressedWord(address);
      if locked || (w != 8 && w != 24) {
        refusals := refusals + 1;
        return if f.Lost? then Err(f.error) else Err(Chip(ParseError));
      }
      zone := Overlaid(zone, 4 * w, data);
      r := if f.Lost? then Err(f.error) else Ok(());
    }

    method Write4(address: Word, data: seq<byte>) returns (r: Result<(), AteccError>)
      requires |data| == 4
      modifies this
      ensures var w := AddressedWord(address);
              if locked || w >= 32 || ProtectedWord(w) then zone == old(zone) && r.Err?
              else
                && refusals == old(refusals)
                && (zone == old(zone) || zone == Overlaid(old(zone), 4 * w, data))
                && (r.Ok? ==> zone == Overlaid(old(zone), 4 * w, data))
                && (FaultFree() ==> r.Ok?)
    {
      var f := fault(step);
      step := step + 1;
      if f.Lost? && !f.took {
        return Err(f.error);
      }
      var w := AddressedWord(address);
      if locked || w >= 32 || ProtectedWord(w) {
        refusals := refusals + 1;
        return if f.Lost? then Err(f.error) else Err(Chip(ParseError));
      }
      zone := Overlaid(zone, 4 * w, data);
      r := if f.Lost? then Err(f.error) else Ok(());
    }
  }

  datatype ConfigError = InvalidFormat(format: FormatError) | Driver(cause: AteccError)

  /** What any attempt at a block write may leave behind. */
  ghost predicate WrittenInPart(z: Zone, z': Zone, blockIndex: nat, data: Block) {
    forall i :: 0 <= i < 128 ==> z'[i] == z[i] || z'[i] == Written(z, blockIndex, data)[i]
  }

  method CopyBlock(out: array<byte>, from: nat, chunk: Block)
    requires from + 32 <= out.Length
    modifies out
    ensures out[..from + 32] == old(out[..from]) + chunk
  {
    for j := 0 to 32
      invariant out[..from + j] == old(out[..from]) + chunk[..j]
    {
      out[from + j] := chunk[j];
    }
  }

  class ConfigService {
    const chip: ConfigChip
    var serial: Option<Serial>

    constructor (chip: ConfigChip)
      ensures this.chip == chip && Valid()
    {
      this.chip, this.serial := chip, None;
    }

    /** A cached serial number is the one the chip would give now. */
    ghost predicate Valid()
      reads this, chip
    {
      serial.Some? ==> serial.value == SerialOf(chip.zone)
    }

    method ReadBlock(k: nat) returns (r: Result<Block, AteccError>)
      requires k < 4
      modifies chip`step
      ensures r.Ok? ==> r.value == chip.zone[32 * k..32 * k + 32]
      ensures chip.FaultFree() ==> r.Ok?
    {
      var address := Address(k, 0);
      r := chip.Read32(address);
    }

    /** Four block reads into a buffer. */
    method ReadConfigZone() returns (r: Result<Zone, AteccError>)
      modifies chip`step
      ensures r.Ok? ==> r.value == chip.zone
      ensures chip.FaultFree() ==> r.Ok?
    {
      var out := new byte[128];
      for k := 0 to CONFIG_ZONE_BLOCK_COUNT
        invariant out[..32 * k] == chip.zone[..32 * k]
      {
        var chunk := ReadBlock(k);
        if chunk.Err? {
          return Err(chunk.error);
        }
        assert chip.zone[..32 * k] + chunk.value == chip.zone[..32 * (k + 1)];
        CopyBlock(out, 32 * k, chunk.value);
      }
      r := Ok(out[..]);
    }

    method CachedSerial() returns (r: Result<Serial, AteccError>)
      requires Valid()
      modifies this, chip`step
      ensures Valid()
      ensures r.Ok? ==> r.value == SerialOf(chip.zone) && serial == Some(r.value)
      ensures r.Ok? ==> r.value[0..4] == chip.zone[0..4] && r.value[4..9] == chip.zone[8..13]
      ensures chip.FaultFree() ==> r.Ok?
    {
      if serial.Some? {
        return Ok(serial.value);
      }
      var woke := chip.Exchange();
      if woke.Err? {
        return Err(woke.error);
      }
      var config := ReadConfigZone();
      if config.Err? {
        return Err(config.error);
      }
      var closed := chip.Exchange();
      if closed.Err? {
        return Err(closed.error);
      }
      serial := Some(SerialOf(config.value));
      r := Ok(SerialOf(config.value));
    }

    /** One word outside the protected ones: the chip never refuses it for its address. */
    method WriteWord(blockIndex: nat, offset: nat, data: seq<byte>) returns (r: Result<(), AteccError>)
      requires blockIndex < 4 && offset < 8 && !ProtectedWord(8 * blockIndex + offset) && |data| == 4
      modifies chip
      ensures !chip.locked ==> chip.refusals == old(chip.refusals)
      ensures chip.zone == old(chip.zone) || chip.zone == Overlaid(old(chip.zone), 32 * blockIndex + 4 * offset, data)
      ensures r.Ok? ==> chip.zone == Overlaid(old(chip.zone), 32 * blockIndex + 4 * offset, data)
      ensures chip.FaultFree() && !chip.locked ==> r.Ok?
    {
      var address := Address(blockIndex, offset);
      r := WriteAt(address, 8 * blockIndex + offset, data);
    }

    method WriteAt(address: Word, ghost w: nat, data: seq<byte>) returns (r: Result<(), AteccError>)
      requires AddressedWord(address) == w < 32 && !ProtectedWord(w) && |data| == 4
      modifies chip
      ensures !chip.locked ==> chip.refusals == old(chip.refusals)
      ensures chip.zone == old(chip.zone) || chip.zone == Overlaid(old(chip.zone), 4 * w, data)
      ensures r.Ok? ==> chip.zone == Overlaid(old(chip.zone), 4 * w, data)
      ensures chip.FaultFree() && !chip.locked ==> r.Ok?
    {
      r := chip.Write4(address, data);
    }

    /** The word-by-word path. */
    method WriteWords(blockIndex: nat, data: Block) returns (r: Result<(), AteccError>)
      requires blockIndex == 0 || blockIndex == 2
      modifies chip
      ensures !chip.locked ==> chip.refusals == old(chip.refusals)
      ensures WrittenInPart(old(chip.zone), chip.zone, blockIndex, data)
      ensures r.Ok? ==> chip.zone == Written(old(chip.zone), blockIndex, data)
      ensures chip.FaultFree() && !chip.locked ==> r.Ok?
    {
      ghost var z := chip.zone;
      var words := WritableWordsInBlock(blockIndex);
      for k := 0 to |words|
        invariant !chip.locked ==> chip.refusals == old(chip.refusals)
        invariant chip.zone == WordsWritten(z, blockIndex, data, words[..k])
      {
        var offset := words[k];
        TablesMatchChip(blockIndex, offset);
        NextWordWritten(z, blockIndex, data, k);
        r := WriteWord(blockIndex, offset, data[4 * offset..4 * offset + 4]);
        if r.Err? {
          return;
        }
      }
      assert words[..|words|] == words;
      TabledWordsWriteBlock(z, blockIndex, data);
      r := Ok(());
    }

    /** The one-transfer path. */
    method WriteWhole(blockIndex: nat, data: Block) returns (r: Result<(), AteccError>)
      requires blockIndex == 1 || blockIndex == 3
      modifies chip
      ensures !chip.locked ==> chip.refusals == old(chip.refusals)
      ensures chip.zone == old(chip.zone) || chip.zone == Written(old(chip.zone), blockIndex, data)
      ensures r.Ok? ==> chip.zone == Written(old(chip.zone), blockIndex, data)
      ensures chip.FaultFree() && !chip.locked ==> r.Ok?
    {
      var address := Address(blockIndex, 0);
      WholeBlockIsWritten(chip.zone, blockIndex, data);
      r := chip.Write32(address, data);
    }

    method WriteConfigBlock(blockIndex: nat, data: Block) returns (r: Result<(), ConfigError>)
      requires Valid()
      modifies chip
      ensures Valid() && (!chip.locked ==> chip.refusals == old(chip.refusals))
      ensures blockIndex > 3 ==> r == Err(InvalidFormat(OutOfRange)) && chip.zone == old(chip.zone)
      ensures WrittenInPart(old(chip.zone), chip.zone, blockIndex, data)
      ensures r.Ok? ==> chip.zone == Written(old(chip.zone), blockIndex, data)
      ensures chip.FaultFree() && !chip.locked && blockIndex <= 3 ==> r.Ok?
    {
      if blockIndex > 3 {
        return Err(InvalidFormat(OutOfRange));
      }
      ghost var z := chip.zone;
      var woke := chip.Exchange();
      if woke.Err? {
        return Err(Driver(woke.error));
      }
      var wrote;
      if CanWriteBlockInOneTransfer(blockIndex) {
        wrote := WriteWhole(blockIndex, data);
      } else {
        wrote := WriteWords(blockIndex, data);
      }
      SerialIsProtected(z, chip.zone);
      if wrote.Err? {
        return Err(Driver(wrote.error));
      }
      var closed := chip.Exchange();
      r := if closed.Err? then Err(Driver(closed.error)) else Ok(());
    }

    /** Blocks 0 to 3 of a blob, as provisioning sends them. */
    method WriteAllBlocks(blob: Zone) returns (r: Result<(), ConfigError>)
      requires Valid()
      modifies chip
      ensures Valid() && (!chip.locked ==> chip.refusals == old(chip.refusals))
      ensures r.Ok? ==> chip.zone == Merged(old(chip.zone), blob)
      ensures chip.FaultFree() && !chip.locked ==> r.Ok?
    {
      for k := 0 to CONFIG_ZONE_BLOCK_COUNT
        invariant Valid() && (!chip.locked ==> chip.refusals == old(chip.refusals))
        invariant chip.zone == BlocksWritten(old(chip.zone), blob, k)
      {
        r := WriteConfigBlock(k, BlockOf(blob, k));
        if r.Err? {
          return;
        }
      }
      AllBlocksMerge(old(chip.zone), blob);
      r := Ok(());
    }
  }

  /** Any prefix of the tabled words changes only what the whole block write changes. */
  lemma PrefixWritten(z: Zone, blockIndex: nat, data: Block, k: nat)
    requires (blockIndex == 0 || blockIndex == 2) && k <= |WritableWordsInBlock(blockIndex)|
    ensures WrittenInPart(z, WordsWritten(z, blockIndex, data, WritableWordsInBlock(blockIndex)[..k]), blockIndex, data)
  {
    var words := WritableWordsInBlock(blockIndex);
    forall i | 0 <= i < 128
      ensures var x := WordsWritten(z, blockIndex, data, words[..k])[i]; x == z[i] || x == Written(z, blockIndex, data)[i]
    {
      WordsWrittenAt(z, blockIndex, data, words[..k], i);
      if 32 * blockIndex <= i < 32 * blockIndex + 32 {
        TablesMatchChip(blockIndex, (i - 32 * blockIndex) / 4);
      }
    }
  }

  /** One more tabled word. */
  lemma NextWordWritten(z: Zone, blockIndex: nat, data: Block, k: nat)
    requires (blockIndex == 0 || blockIndex == 2) && k < |WritableWordsInBlock(blockIndex)|
    ensures var words := WritableWordsInBlock(blockIndex);
            var before, after := WordsWritten(z, blockIndex, data, words[..k]), WordsWritten(z, blockIndex, data, words[..k + 1]);
            && after == Overlaid(before, 32 * blockIndex + 4 * words[k], data[4 * words[k]..4 * words[k] + 4])
            && WrittenInPart(z, before, blockIndex, data) && WrittenInPart(z, after, blockIndex, data)
  {
    var words := WritableWordsInBlock(blockIndex);
    assert words[..k + 1][..k] == words[..k];
    PrefixWritten(z, blockIndex, data, k);
    PrefixWritten(z, blockIndex, data, k + 1);
  }
}
