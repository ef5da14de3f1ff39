/**
 The block-sparse memory of src/vm/main_memory.cpp and include/vm/main_memory.h, and its refinement
 to a flat map from addresses to bytes that is zero by default.
 */
module MainMemory {
  import opened Bits

  newtype Byte = b: int | 0 <= b < 256

  type Blocks = map<nat, seq<Byte>>

  /** A byte for every address; what was never mapped is zero. */
  type FlatMemory = imap<nat, Byte>

  const ADDRESSES: nat := 0x1_0000_0000_0000_0000

  predicate WellFormed(blocks: Blocks, blockSize: nat) {
    blockSize > 0 && forall k :: k in blocks ==> |blocks[k]| == blockSize
  }

  function ByteAt(blocks: Blocks, blockSize: nat, address: nat): Byte
    requires WellFormed(blocks, blockSize)
  {
    if address / blockSize in blocks then blocks[address / blockSize][address % blockSize] else 0
  }

  function ZeroBlock(blockSize: nat): seq<Byte> {
    seq(blockSize, _ => 0)
  }

  function BlockOf(blocks: Blocks, blockSize: nat, k: nat): seq<Byte> {
    if k in blocks then blocks[k] else ZeroBlock(blockSize)
  }

  function PutByte(blocks: Blocks, blockSize: nat, address: nat, value: Byte): (r: Blocks)
    requires WellFormed(blocks, blockSize)
    ensures WellFormed(r, blockSize)
  {
    var k := address / blockSize;
    var data: seq<Byte> := BlockOf(blocks, blockSize, k);
    blocks[k := data[address % blockSize := value]]
  }

  /** static_cast<uint8_t>(value >> (8 * i)), shifting one byte at a time. */
  function ByteOf(value: nat, i: nat): Byte
    decreases i
  {
    if i == 0 then (value % 256) as Byte else ByteOf(value / 256, i - 1)
  }

  /** The n low bytes of a value, least significant first. */
  function BytesOf(value: nat, n: nat): (bytes: seq<Byte>)
    ensures |bytes| == n
  {
    seq(n, i requires 0 <= i < n => ByteOf(value, i))
  }

  /** The value of bytes given least significant first. */
  function ValueOf(bytes: seq<Byte>): nat {
    if bytes == [] then 0 else bytes[0] as nat + 256 * ValueOf(bytes[1..])
  }

  function PutBytes(blocks: Blocks, blockSize: nat, address: nat, bytes: seq<Byte>): (r: Blocks)
    requires WellFormed(blocks, blockSize)
    ensures WellFormed(r, blockSize)
  {
    if bytes == [] then blocks
    else
      var n := |bytes| - 1;
      PutByte(PutBytes(blocks, blockSize, address, bytes[..n]), blockSize, address + n, bytes[n])
  }

  function GetBytes(blocks: Blocks, blockSize: nat, address: nat, n: nat): (bytes: seq<Byte>)
    requires WellFormed(blocks, blockSize)
    ensures |bytes| == n
  {
    seq(n, i requires 0 <= i < n => ByteAt(blocks, blockSize, address + i))
  }

  /** The guard of the sized accessors: address < memory_size_ - (n - 1) in unsigned 64-bit arithmetic. */
  predicate Accepts(size: nat, address: nat, n: nat) {
    address < (size - (n - 1)) % ADDRESSES
  }

  /** The guard and every byte access of a sized read pass. */
  predicate Readable(size: nat, address: nat, n: nat) {
    Accepts(size, address, n) && address + n <= size
  }

  /** How many bytes a sized write stores before the byte accessor throws, if it does. */
  function Stored(size: nat, address: nat, n: nat): (k: nat)
    ensures k <= n
  {
    if Accepts(size, address, n) then Reachable(size, address, n) else 0
  }

  /** How many of n consecutive bytes lie inside the memory. */
  function Reachable(size: nat, address: nat, n: nat): (k: nat)
    ensures k <= n
  {
    if address + n <= size then n else if address < size then size - address else 0
  }

  datatype Access = Load(address: nat, width: nat) | Store(address: nat, width: nat, value: nat) | Clear

  datatype Response = Done | Loaded(value: nat) | OutOfRange

  predicate IsWidth(n: nat) {
    n in {1, 2, 4, 8}
  }

  /** One access on blocks. */
  function Perform(blocks: Blocks, blockSize: nat, size: nat, op: Access): (r: (Blocks, Response))
    requires WellFormed(blocks, blockSize)
    ensures WellFormed(r.0, blockSize)
  {
    match op
    case Load(address, n) =>
      (blocks,
       if Readable(size, address, n) then Loaded(ValueOf(GetBytes(blocks, blockSize, address, n))) else OutOfRange)
    case Store(address, n, value) =>
      var k := Stored(size, address, n);
      (PutBytes(blocks, blockSize, address, BytesOf(value, n)[..k]), if k == n then Done else OutOfRange)
    case Clear => (map[], Done)
  }

  class Memory {
    const blockSize: nat
    const memorySize: nat
    var blocks: Blocks

    ghost predicate Valid()
      reads this
    {
      memorySize < ADDRESSES && WellFormed(blocks, blockSize)
    }

    constructor (blockSize: nat, memorySize: nat)
      requires blockSize > 0 && memorySize < ADDRESSES
      ensures Valid() && blocks == map[]
      ensures this.blockSize == blockSize && this.memorySize == memorySize
    {
      this.blockSize, this.memorySize := blockSize, memorySize;
      blocks := map[];
    }

    method Reset()
      requires Valid()
      modifies this
      ensures Valid() && (blocks, Done) == Perform(old(blocks), blockSize, memorySize, Clear)
    {
      blocks := map[];
    }

    /** None is the out_of_range exception. */
    method Read(address: nat) returns (ok: bool, value: Byte)
      requires Valid()
      ensures ok <==> address < memorySize
      ensures ok ==> value == ByteAt(blocks, blockSize, address)
    {
      if address >= memorySize {
        return false, 0;
      }
      var blockIndex := address / blockSize;
      var offset := address % blockSize;
      if blockIndex !in blocks {
        return true, 0;
      }
      return true, blocks[blockIndex][offset];
    }

    method EnsureBlockExists(blockIndex: nat)
      requires Valid()
      modifies this
      ensures Valid() && blocks == old(blocks)[blockIndex := BlockOf(old(blocks), blockSize, blockIndex)]
    {
      if blockIndex !in blocks {
        blocks := blocks[blockIndex := ZeroBlock(blockSize)];
      }
    }

    method Write(address: nat, value: Byte) returns (ok: bool)
      requires Valid()
      modifies this
      ensures Valid() && (ok <==> address < memorySize)
      ensures blocks == if ok then PutByte(old(blocks), blockSize, address, value) else old(blocks)
    {
      if address >= memorySize {
        return false;
      }
      var blockIndex := address / blockSize;
      var offset := address % blockSize;
      EnsureBlockExists(blockIndex);
      var data: seq<Byte> := blocks[blockIndex];
      blocks := blocks[blockIndex := data[offset := value]];
      return true;
    }

    /** The loop of ReadGeneric, whose or-ed bytes do not overlap. */
    method ReadGeneric(address: nat, n: nat) returns (ok: bool, value: nat)
      requires Valid() && address < ADDRESSES && IsWidth(n)
      ensures ok <==> address + n <= memorySize
      ensures ok ==> value == ValueOf(GetBytes(blocks, blockSize, address, n))
    {
      value := 0;
      ghost var bytes := GetBytes(blocks, blockSize, address, n);
      for i := 0 to n
        invariant address + i <= memorySize || i == 0
        invariant value == ValueOf(bytes[..i])
      {
        var current := (address + i) % ADDRESSES;
        assert current == address + i;
        var b: Byte;
        ok, b := Read(current);
        if !ok {
          return;
        }
        ValueExtends(bytes, i);
        value := value + b as nat * Pow2(8 * i);
      }
      assert bytes[..n] == bytes;
      ok := true;
    }

    /** The sized readers: the guard, then ReadGeneric. */
    method ReadSized(address: nat, n: nat) returns (r: Response)
      requires Valid() && address < ADDRESSES && IsWidth(n)
      ensures (blocks, r) == Perform(blocks, blockSize, memorySize, Load(address, n))
    {
      if address >= (memorySize - (n - 1)) % ADDRESSES {
        return OutOfRange;
      }
      var ok, value := ReadGeneric(address, n);
      return if ok then Loaded(value) else OutOfRange;
    }

    /** The loop of WriteGeneric, which an exception can leave half way. */
    method WriteGeneric(address: nat, n: nat, value: nat) returns (ok: bool)
      requires Valid() && address < ADDRESSES && IsWidth(n)
      modifies this
      ensures Valid() && (ok <==> Reachable(memorySize, address, n) == n)
      ensures var k := Reachable(memorySize, address, n);
        blocks == PutBytes(old(blocks), blockSize, address, BytesOf(value, n)[..k])
    {
      ghost var bytes := BytesOf(value, n);
      for i := 0 to n
        invariant Valid()
        invariant i == 0 || address + i <= memorySize
        invariant blocks == PutBytes(old(blocks), blockSize, address, bytes[..i])
      {
        PutOneMore(old(blocks), blockSize, address, bytes, i);
        var current := (address + i) % ADDRESSES;
        assert current == address + i;
        ok := Write(current, ByteOf(value, i));
        if !ok {
          assert Reachable(memorySize, address, n) == i;
          return;
        }
      }
      assert bytes[..n] == bytes;
      ok := true;
    }

    /** The sized writers: the guard, then WriteGeneric. */
    method WriteSized(address: nat, n: nat, value: nat) returns (r: Response)
      requires Valid() && address < ADDRESSES && IsWidth(n)
      modifies this
      ensures Valid() && (blocks, r) == Perform(old(blocks), blockSize, memorySize, Store(address, n, value))
    {
      if address >= (memorySize - (n - 1)) % ADDRESSES {
        return OutOfRange;
      }
      var ok := WriteGeneric(address, n, value);
      return if ok then Done else OutOfRange;
    }
  }

  // Refinement to a flat memory

  ghost function Flat(blocks: Blocks, blockSize: nat): FlatMemory
    requires WellFormed(blocks, blockSize)
  {
    imap a: nat :: ByteAt(blocks, blockSize, a)
  }

  ghost function At(m: FlatMemory, a: nat): Byte {
    if a in m then m[a] else 0
  }

  ghost function FlatWrite(m: FlatMemory, address: nat, bytes: seq<Byte>): FlatMemory
    decreases |bytes|
  {
    if bytes == [] then m
    else
      var n := |bytes| - 1;
      FlatWrite(m, address, bytes[..n])[address + n := bytes[n]]
  }

  ghost function FlatRead(m: FlatMemory, address: nat, n: nat): (bytes: seq<Byte>)
    ensures |bytes| == n
  {
    seq(n, i requires 0 <= i < n => At(m, address + i))
  }

  function ZeroByte(a: nat): Byte {
    0
  }

  /** The same access on a flat memory. */
  ghost function FlatPerform(m: FlatMemory, size: nat, op: Access): (FlatMemory, Response) {
    match op
    case Load(address, n) =>
      (m, if Readable(size, address, n) then Loaded(ValueOf(FlatRead(m, address, n))) else OutOfRange)
    case Store(address, n, value) =>
      var k := Stored(size, address, n);
      (FlatWrite(m, address, BytesOf(value, n)[..k]), if k == n then Done else OutOfRange)
    case Clear => (imap a: nat :: ZeroByte(a), Done)
  }

  lemma {:induction false} PutOneMore(blocks: Blocks, blockSize: nat, address: nat, bytes: seq<Byte>, i: nat)
    requires WellFormed(blocks, blockSize) && i < |bytes|
    ensures PutBytes(blocks, blockSize, address, bytes[..i + 1])
         == PutByte(PutBytes(blocks, blockSize, address, bytes[..i]), blockSize, address + i, bytes[i])
  {
    assert bytes[..i + 1][..i] == bytes[..i];
  }

  lemma {:induction false} PutByteAt(blocks: Blocks, blockSize: nat, address: nat, value: Byte, x: nat)
    requires WellFormed(blocks, blockSize)
    ensures ByteAt(PutByte(blocks, blockSize, address, value), blockSize, x)
         == if x == address then value else ByteAt(blocks, blockSize, x)
  {
  }

  lemma {:induction false} PutByteFlat(blocks: Blocks, blockSize: nat, address: nat, value: Byte)
    requires WellFormed(blocks, blockSize)
    ensures Flat(PutByte(blocks, blockSize, address, value), blockSize) == Flat(blocks, blockSize)[address := value]
  {
    forall x: nat
      ensures ByteAt(PutByte(blocks, blockSize, address, value), blockSize, x)
           == if x == address then value else ByteAt(blocks, blockSize, x)
    {
      PutByteAt(blocks, blockSize, address, value, x);
    }
  }

  lemma {:induction false} PutBytesFlat(blocks: Blocks, blockSize: nat, address: nat, bytes: seq<Byte>)
    requires WellFormed(blocks, blockSize)
    ensures Flat(PutBytes(blocks, blockSize, address, bytes), blockSize)
         == FlatWrite(Flat(blocks, blockSize), address, bytes)
    decreases |bytes|
  {
    if bytes != [] {
      var n := |bytes| - 1;
      PutBytesFlat(blocks, blockSize, address, bytes[..n]);
      PutByteFlat(PutBytes(blocks, blockSize, address, bytes[..n]), blockSize, address + n, bytes[n]);
    }
  }

  lemma {:induction false} GetBytesFlat(blocks: Blocks, blockSize: nat, address: nat, n: nat)
    requires WellFormed(blocks, blockSize)
    ensures GetBytes(blocks, blockSize, address, n) == FlatRead(Flat(blocks, blockSize), address, n)
  {
    forall x: nat
      ensures At(Flat(blocks, blockSize), x) == ByteAt(blocks, blockSize, x)
    {
      FlatAt(blocks, blockSize, x);
    }
  }

  lemma {:induction false} FlatAt(blocks: Blocks, blockSize: nat, a: nat)
    requires WellFormed(blocks, blockSize)
    ensures At(Flat(blocks, blockSize), a) == ByteAt(blocks, blockSize, a)
  {
  }

  /** A write replaces the bytes of its range and no others, whatever blocks the range touches. */
  lemma {:induction false} FlatWriteAt(m: FlatMemory, address: nat, bytes: seq<Byte>, a: nat)
    ensures At(FlatWrite(m, address, bytes), a)
         == if address <= a < address + |bytes| then bytes[a - address] else At(m, a)
    decreases |bytes|
  {
    if bytes != [] {
      FlatWriteAt(m, address, bytes[..|bytes| - 1], a);
    }
  }

  lemma {:induction false} PerformRefines(blocks: Blocks, blockSize: nat, size: nat, op: Access)
    requires WellFormed(blocks, blockSize)
    ensures var (b, r) := Perform(blocks, blockSize, size, op);
      (Flat(b, blockSize), r) == FlatPerform(Flat(blocks, blockSize), size, op)
  {
    match op
    case Load(address, n) => GetBytesFlat(blocks, blockSize, address, n);
    case Store(address, n, value) =>
      PutBytesFlat(blocks, blockSize, address, BytesOf(value, n)[..Stored(size, address, n)]);
    case Clear => EmptyIsZero(blockSize);
  }

  lemma {:induction false} EmptyIsZero(blockSize: nat)
    requires blockSize > 0
    ensures Flat(map[], blockSize) == imap a: nat :: ZeroByte(a)
  {
  }

  /** The responses to a sequence of accesses, on blocks. */
  function Run(blocks: Blocks, blockSize: nat, size: nat, ops: seq<Access>): (r: (Blocks, seq<Response>))
    requires WellFormed(blocks, blockSize)
    ensures WellFormed(r.0, blockSize)
    decreases |ops|
  {
    if ops == [] then (blocks, [])
    else
      var (b, first) := Perform(blocks, blockSize, size, ops[0]);
      var (c, rest) := Run(b, blockSize, size, ops[1..]);
      (c, [first] + rest)
  }

  ghost function FlatRun(m: FlatMemory, size: nat, ops: seq<Access>): (FlatMemory, seq<Response>)
    decreases |ops|
  {
    if ops == [] then (m, [])
    else
      var (n, first) := FlatPerform(m, size, ops[0]);
      var (o, rest) := FlatRun(n, size, ops[1..]);
      (o, [first] + rest)
  }

  /** No sequence of accesses can tell the blocks, of whatever size, from a flat memory. */
  lemma {:induction false} RunRefines(blocks: Blocks, blockSize: nat, size: nat, ops: seq<Access>)
    requires WellFormed(blocks, blockSize)
    ensures var (b, responses) := Run(blocks, blockSize, size, ops);
      (Flat(b, blockSize), responses) == FlatRun(Flat(blocks, blockSize), size, ops)
    decreases |ops|
  {
    if ops != [] {
      PerformRefines(blocks, blockSize, size, ops[0]);
      RunRefines(Perform(blocks, blockSize, size, ops[0]).0, blockSize, size, ops[1..]);
    }
  }

  // What a flat memory promises

  lemma {:induction false} ValueAppend(bytes: seq<Byte>, b: Byte)
    ensures ValueOf(bytes + [b]) == ValueOf(bytes) + b as nat * Pow2(8 * |bytes|)
  {
    if bytes == [] {
      assert [b][1..] == [];
    } else {
      assert (bytes + [b])[1..] == bytes[1..] + [b];
      ValueAppend(bytes[1..], b);
      Pow2Add(8, 8 * (|bytes| - 1));
      Pow2Words();
      ShiftProduct(b as nat, Pow2(8 * (|bytes| - 1)));
    }
  }

  lemma {:induction false} ValueExtends(bytes: seq<Byte>, i: nat)
    requires i < |bytes|
    ensures ValueOf(bytes[..i + 1]) == ValueOf(bytes[..i]) + bytes[i] as nat * Pow2(8 * i)
  {
    assert bytes[..i + 1] == bytes[..i] + [bytes[i]];
    ValueAppend(bytes[..i], bytes[i]);
  }

  lemma {:induction false} ShiftProduct(b: int, p: int)
    ensures 256 * (b * p) == b * (256 * p)
  {
  }

  lemma {:induction false} BytesTail(value: nat, n: nat)
    requires n > 0
    ensures BytesOf(value, n) == [(value % 256) as Byte] + BytesOf(value / 256, n - 1)
  {
  }

  /** The bytes of a value, read back, are the value truncated to their number. */
  lemma {:induction false} ValueOfBytes(value: nat, n: nat)
    ensures ValueOf(BytesOf(value, n)) == value % Pow2(8 * n)
    decreases n
  {
    if n != 0 {
      BytesTail(value, n);
      ValueOfBytes(value / 256, n - 1);
      Pow2Add(8, 8 * (n - 1));
      Pow2Words();
      ModOfProduct(value, Pow2(8 * (n - 1)));
    }
  }

  lemma {:induction false} ModOfProduct(v: nat, p: nat)
    requires p > 0
    ensures v % (256 * p) == v % 256 + 256 * (v / 256 % p)
  {
    var q, r := v / 256 / p, v / 256 % p;
    assert v / 256 == p * q + r;
    assert 256 * (p * q) == (256 * p) * q;
    DivModUnique(v, 256 * p, q, v % 256 + 256 * r);
  }

  /** The bytes are found at the address. */
  ghost predicate Holds(m: FlatMemory, address: nat, bytes: seq<Byte>) {
    forall x: nat :: address <= x < address + |bytes| ==> At(m, x) == bytes[x - address]
  }

  lemma {:induction false} HoldsReads(m: FlatMemory, address: nat, bytes: seq<Byte>)
    requires Holds(m, address, bytes)
    ensures FlatRead(m, address, |bytes|) == bytes
  {
  }

  lemma {:induction false} HoldsWritten(m: FlatMemory, address: nat, bytes: seq<Byte>)
    ensures Holds(FlatWrite(m, address, bytes), address, bytes)
  {
    forall x: nat
      ensures At(FlatWrite(m, address, bytes), x)
           == if address <= x < address + |bytes| then bytes[x - address] else At(m, x)
    {
      FlatWriteAt(m, address, bytes, x);
    }
  }

  lemma {:induction false} HoldsElsewhere(m: FlatMemory, address: nat, bytes: seq<Byte>, other: nat, held: seq<Byte>)
    requires Holds(m, other, held) && (other + |held| <= address || address + |bytes| <= other)
    ensures Holds(FlatWrite(m, address, bytes), other, held)
  {
    forall x: nat
      ensures At(FlatWrite(m, address, bytes), x)
           == if address <= x < address + |bytes| then bytes[x - address] else At(m, x)
    {
      FlatWriteAt(m, address, bytes, x);
    }
  }

  /** A stored value reads back, truncated to its width. */
  lemma {:induction false} ReadBack(m: FlatMemory, address: nat, value: nat, n: nat)
    ensures ValueOf(FlatRead(FlatWrite(m, address, BytesOf(value, n)), address, n)) == value % Pow2(8 * n)
  {
    HoldsWritten(m, address, BytesOf(value, n));
    HoldsReads(FlatWrite(m, address, BytesOf(value, n)), address, BytesOf(value, n));
    ValueOfBytes(value, n);
  }

  /**
   A rejected write leaves every byte unchanged except in one case: when the memory is smaller than
   the width, so that the guard wraps around, and the address is below its size, the bytes up to the
   end are stored before the exception.
   */
  lemma {:induction false} RejectedWriteStoresNothing(size: nat, address: nat, n: nat)
    requires IsWidth(n) && size < ADDRESSES && address < ADDRESSES
    ensures Stored(size, address, n) == n || Stored(size, address, n) == 0 <==> !(address < size < n - 1)
    ensures size >= n - 1 ==> (Stored(size, address, n) == n <==> address + n <= size)
  {
  }

  /** If the access was rejected, the memory is still m. */
  ghost predicate Unharmed(m: FlatMemory, after: (FlatMemory, Response)) {
    after.1 == OutOfRange ==> after.0 == m
  }

  /** Whatever the memory holds and whatever is stored, a rejected store changes nothing. */
  ghost predicate RejectionHarmless(size: nat, address: nat, n: nat) {
    forall m: FlatMemory, value: nat ::
      Unharmed(m, FlatPerform(m, size, Store(address, n, value)))
  }

  /**
   Rejected stores change nothing exactly when the address does not lie inside a memory smaller than
   the width minus one.
   */
  lemma {:induction false} RejectionHarmlessExactly(size: nat, address: nat, n: nat)
    requires IsWidth(n) && size < ADDRESSES && address < ADDRESSES
    ensures RejectionHarmless(size, address, n) <==> !(address < size < n - 1)
  {
    RejectedWriteStoresNothing(size, address, n);
    if address < size < n - 1 {
      HarmfulRejection(size, address, n);
    } else {
      forall m: FlatMemory, value: nat
        ensures Unharmed(m, FlatPerform(m, size, Store(address, n, value)))
      {
        NothingStored(m, size, address, n, value);
      }
    }
  }

  lemma {:induction false} NothingStored(m: FlatMemory, size: nat, address: nat, n: nat, value: nat)
    requires Stored(size, address, n) == n || Stored(size, address, n) == 0
    ensures Unharmed(m, FlatPerform(m, size, Store(address, n, value)))
  {
    assert BytesOf(value, n)[..0] == [];
  }

  /** A zero memory and the value 1 show the partial write. */
  lemma {:induction false} HarmfulRejection(size: nat, address: nat, n: nat)
    requires IsWidth(n) && address < size < n - 1
    ensures !RejectionHarmless(size, address, n)
  {
    var m: FlatMemory := imap a: nat :: ZeroByte(a);
    var k := Stored(size, address, n);
    assert 0 < k < n;
    FlatWriteAt(m, address, BytesOf(1, n)[..k], address);
    assert BytesOf(1, n)[..k][0] == 1;
    assert FlatPerform(m, size, Store(address, n, 1)).1 == OutOfRange;
    assert At(m, address) == 0;
  }

  /** Such a partial write: a double word at address 0 of a memory of three bytes. */
  lemma {:induction false} PartialWrite(m: FlatMemory)
    ensures FlatPerform(m, 3, Store(0, 8, 0xFFFF_FFFF_FFFF_FFFF))
         == (FlatWrite(m, 0, BytesOf(0xFFFF_FFFF_FFFF_FFFF, 8)[..3]), OutOfRange)
  {
  }

  // What the accesses answer

  /** A sized read succeeds exactly within the memory, and answers the value of the bytes there. */
  lemma {:induction false} LoadAnswers(m: FlatMemory, size: nat, address: nat, n: nat)
    requires IsWidth(n) && size < ADDRESSES && address < ADDRESSES
    ensures FlatPerform(m, size, Load(address, n))
         == (m, if address + n <= size then Loaded(ValueOf(FlatRead(m, address, n))) else OutOfRange)
  {
  }

  /** A sized write succeeds exactly within the memory, and then replaces the bytes there. */
  lemma {:induction false} StoreAnswers(m: FlatMemory, size: nat, address: nat, n: nat, value: nat)
    requires IsWidth(n) && size < ADDRESSES && address < ADDRESSES
    ensures var (after, response) := FlatPerform(m, size, Store(address, n, value));
      if address + n <= size then response == Done && after == FlatWrite(m, address, BytesOf(value, n))
      else response == OutOfRange
  {
    assert BytesOf(value, n)[..n] == BytesOf(value, n);
    StoredWithin(size, address, n);
  }

  lemma {:induction false} StoredWithin(size: nat, address: nat, n: nat)
    requires IsWidth(n) && size < ADDRESSES && address < ADDRESSES
    ensures Stored(size, address, n) == n <==> address + n <= size
  {
  }

  /** A stored value is answered by the same read, truncated to its width. */
  lemma {:induction false} StoredLoads(m: FlatMemory, size: nat, address: nat, n: nat, value: nat)
    requires IsWidth(n) && size < ADDRESSES && address < ADDRESSES
    ensures var (after, response) := FlatPerform(m, size, Store(address, n, value));
      response == Done ==> FlatPerform(after, size, Load(address, n)).1 == Loaded(value % Pow2(8 * n))
  {
    StoreAnswers(m, size, address, n, value);
    if address + n <= size {
      LoadAnswers(FlatWrite(m, address, BytesOf(value, n)), size, address, n);
      ReadBack(m, address, value, n);
    }
  }

  /** A read of other addresses answers the same before and after a write. */
  lemma {:induction false} ElsewhereLoads(
    m: FlatMemory, size: nat, address: nat, n: nat, value: nat, other: nat, k: nat
  )
    requires IsWidth(n) && IsWidth(k) && size < ADDRESSES && address < ADDRESSES && other < ADDRESSES
    requires other + k <= address || address + n <= other
    ensures FlatPerform(FlatPerform(m, size, Store(address, n, value)).0, size, Load(other, k)).1
         == FlatPerform(m, size, Load(other, k)).1
  {
    var bytes := BytesOf(value, n)[..Stored(size, address, n)];
    HoldsElsewhere(m, address, bytes, other, FlatRead(m, other, k));
    HoldsReads(FlatWrite(m, address, bytes), other, FlatRead(m, other, k));
    LoadAnswers(m, size, other, k);
    LoadAnswers(FlatWrite(m, address, bytes), size, other, k);
  }

  /** After a reset every read within the memory answers zero. */
  lemma {:induction false} ClearedLoads(m: FlatMemory, size: nat, address: nat, n: nat)
    requires IsWidth(n) && size < ADDRESSES && address + n <= size
    ensures FlatPerform(FlatPerform(m, size, Clear).0, size, Load(address, n)).1 == Loaded(0)
  {
    var after := FlatPerform(m, size, Clear).0;
    LoadAnswers(after, size, address, n);
    assert forall a: nat :: At(after, a) == 0;
    ZeroValue(FlatRead(after, address, n));
  }

  lemma {:induction false} ZeroValue(bytes: seq<Byte>)
    requires forall i :: 0 <= i < |bytes| ==> bytes[i] == 0
    ensures ValueOf(bytes) == 0
  {
    if bytes != [] {
      ZeroValue(bytes[1..]);
    }
  }

  /** Byte i of a stored value is at the i-th address: its bits 8i to 8i + 7. */
  lemma {:induction false} LittleEndian(m: FlatMemory, address: nat, value: nat, n: nat, i: nat)
    requires i < n
    ensures At(FlatWrite(m, address, BytesOf(value, n)), address + i) as nat == value / Pow2(8 * i) % 256
  {
    FlatWriteAt(m, address, BytesOf(value, n), address + i);
    ByteIs(value, i);
  }

  lemma {:induction false} ByteIs(value: nat, i: nat)
    ensures ByteOf(value, i) as nat == value / Pow2(8 * i) % 256
    decreases i
  {
    if i != 0 {
      ByteIs(value / 256, i - 1);
      Pow2Add(8, 8 * (i - 1));
      Pow2Words();
      DivDiv(value, 256, Pow2(8 * (i - 1)));
    }
  }
}
