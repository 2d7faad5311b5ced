/** Values shared by every part of the ArcFS model: results, the records a volume is made of,
    and the sectors they are stored in. */
module ArcTypes {

  /** An octet. */
  type byte = x: int | 0 <= x < 256

  datatype Option<+T> = None | Some(value: T)

  /** Why an operation was refused. One constructor per family of exceptions in the source. */
  datatype Error =
    | ShortRead          // a read past the end of the block source
    | BadChecksum        // a record whose checksum does not match
    | BadNode            // a tree node with an impossible shape
    | TooDeep            // a chain of tree nodes longer than the disk, hence a cycle
    | TooMany            // a count above the reader's limit
    | BadTree            // a root or a count that contradicts its tree
    | BadRow             // a row that cannot be decoded
    | NoRootDirectory
    | MissingObject      // a row naming an object that does not exist
    | NoSuperblock
    | InvalidName
    | NotADirectory
    | NotAFile
    | NameExists
    | NoSuchChild
    | NotEmpty
    | TooLarge
    | BufferTooLong      // a buffer no host can hold
    | VolumeFull
    | MissingExtent
    | NotClean
    | LabelTooLong
    | NoSuchSnapshot

  /** A failure-compatible result: the value, or the exception the source would throw. */
  datatype Result<+T> = Ok(value: T) | Err(error: Error) {
    predicate IsFailure() {
      Err?
    }

    function PropagateFailure<U>(): Result<U>
      requires Err?
    {
      Err(error)
    }

    function Extract(): T
      requires Ok?
    {
      value
    }
  }

  const SECTOR_SIZE: nat := 512
  const NODE_SECTORS: nat := 8
  const CHUNK_SIZE: nat := 4096
  const FANOUT: nat := 4
  const BITMAP_SPAN: nat := 508
  const RING_SLOTS: nat := 4
  const MAX_OBJECTS: nat := 2048
  const MAX_NAMES: nat := 4096
  const MAX_ATTRIBUTES: nat := 4096
  const MAX_SNAPSHOTS: nat := 4096
  const MAX_LABEL: nat := 56
  const MAX_NAME: nat := 32
  const FILE: nat := 1
  const DIRECTORY: nat := 2
  const ROOT_OID: nat := 1

  type Name = seq<byte>

  datatype Object = Object(oid: nat, oidHigh: nat, kind: nat, size: nat, dataSlot: nat)

  datatype DirEntry = DirEntry(parent: nat, name: Name, child: nat)

  datatype Attribute = Attribute(oid: nat, oidHigh: nat, id: nat, kind: nat, low: nat, high: nat)

  /** Chunk number `chunk` of data slot `slot` lives in the eight sectors from `sector` on. */
  datatype Extent = Extent(slot: nat, chunk: nat, sector: nat)

  datatype Snapshot = Snapshot(id: nat, generation: nat, checkpointSector: nat, createdAt: nat, flags: nat,
      labelText: seq<byte>)

  /** One row of one of the five trees of a generation. */
  datatype Row =
    | ObjectRow(obj: Object)
    | NameRow(entry: DirEntry)
    | ExtentRow(extent: Extent)
    | AttributeRow(attr: Attribute)
    | SnapshotRow(snap: Snapshot)

  /** A tree node: up to four rows, or up to four child sectors with their separator keys. */
  datatype Node = Leaf(rows: seq<Row>) | Inner(keys: seq<nat>, children: seq<nat>)

  /** The payload of a checkpoint sector. */
  datatype CheckpointRecord = CheckpointRecord(
    generation: nat,
    objectRoot: nat, objectCount: nat,
    nameRoot: nat, nameCount: nat,
    previous: nat, bitmapSector: nat, highWater: nat,
    attributeRoot: nat, attributeCount: nat,
    extentRoot: nat, extentCount: nat,
    snapshotRoot: nat, snapshotCount: nat)

  datatype Checkpoint = Checkpoint(sector: nat, record: CheckpointRecord)

  /** The payload of a ring sector. */
  datatype SuperRecord = SuperRecord(volumeId: nat, total: nat, flags: nat, checkpointSector: nat)

  /** What one 512-byte sector holds. `Junk` is anything that passes no checksum: never written,
      torn, or foreign. A tree node fills eight consecutive sectors. */
  datatype Sector =
    | Super(super: SuperRecord)
    | Check(record: CheckpointRecord)
    | NodePart(node: Node, part: nat)
    | Data(bytes: seq<byte>)
    | Bitmap(marks: seq<bool>)
    | Junk

  type Disk = seq<Sector>

  /** The state of the four trees of a generation that make up its file system. */
  datatype View = View(objects: map<nat, Object>, names: seq<DirEntry>, extents: map<(nat, nat), nat>,
      attributes: seq<Attribute>)

  /** The superblock a mount selected: its slot and its payload. */
  datatype Superblock = Superblock(slot: nat, record: SuperRecord)

  /** The state of a mounted volume. */
  datatype Vol = Vol(
    super: Superblock,
    checkpoint: Checkpoint,
    view: View,
    dirty: map<nat, seq<byte>>,
    snapshots: seq<Snapshot>,
    nextOid: nat,
    nextSnapshot: nat,
    metadataDirty: bool)
  {
    predicate Clean() {
      !metadataDirty && dirty == map[]
    }

    function Total(): nat {
      super.record.total
    }

    function HighWater(): nat {
      checkpoint.record.highWater
    }
  }

  function Min(a: nat, b: nat): nat {
    if a < b then a else b
  }

  /** The number of 4096-byte chunks that hold `size` bytes. */
  function Chunks(size: nat): nat {
    (size + CHUNK_SIZE - 1) / CHUNK_SIZE
  }

  /** The bytes a name may not contain when it is read back: NUL and ':'. */
  predicate Readable(name: Name) {
    |name| <= MAX_NAME && forall i | 0 <= i < |name| :: name[i] != 0 && name[i] != 58
  }

  /** What `validate_name` accepts. */
  predicate ValidName(name: Name) {
    |name| != 0 && |name| <= MAX_NAME && forall i | 0 <= i < |name| :: name[i] != 47 && name[i] != 58 && name[i] != 0
  }
}
