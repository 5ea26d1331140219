/**
 The data the epoch ledger of `audit/worm_logger.py` keeps in Redis, and the commands and
 scripts it sends there. One function here is one atomic Redis command or Lua script.
 */
module WormStore {
  import opened Bytes
  import opened Merkle
  import opened Wrappers

  const GENESIS := "GENESIS"
  const WORM_HOT_EPOCHS := 32
  const WORM_MAX_EPOCH_LEAVES := 4096

  /** A stream id, by its rank in stream order. */
  type StreamId = nat

  /** One entry of the event buffer. */
  datatype Event = Event(sid: StreamId, seqNo: int, id: string, record: Bytes)

  /** The header fields the epoch hash commits to. */
  datatype Core = Core(
    epoch: int, start: int, end: int, count: int, timestamp: int,
    root: string, prev: string, first: StreamId, last: StreamId)

  /** The messages the ledger key signs, one constructor per signature domain. */
  datatype Message =
    | EpochMessage(hash: string)
    | AnchorMessage(epoch: int, hash: string)
    | CheckpointMessage(epoch: int, hash: string, end: int)

  /** A signature is identified with the message it was made for. */
  type Signature = Message

  datatype Header = Header(core: Core, hash: string, signature: Signature)

  /** Header fields as stored: when they do not all parse, some may still do so one by one. */
  datatype Fields =
    | Unreadable(epochField: Option<int>, endField: Option<int>, hashField: Option<string>)
    | Readable(header: Header)

  datatype EpochEntry = EpochEntry(sid: StreamId, fields: Fields)

  datatype Location = Location(epoch: int, index: int, sid: StreamId)

  datatype Checkpoint = Checkpoint(epoch: int, hash: string, end: int)

  datatype CheckpointCell = Absent | Garbled | Stored(checkpoint: Checkpoint, signature: Signature)

  /** Every key of the epoch model. */
  datatype Redis = Redis(
    seqNo: int,
    events: seq<Event>,
    epochs: seq<EpochEntry>,
    index: map<int, Fields>,
    streamId: map<int, StreamId>,
    leaves: map<int, seq<Bytes>>,
    eventLoc: map<string, Location>,
    num: Option<int>,
    head: Option<string>,
    lastSeq: Option<int>,
    cursor: Option<StreamId>,
    checkpoint: CheckpointCell)

  /**
   The hashes in use: the tree's hash over tagged inputs, the root text over a list of
   records, and the hash text over a header core.
   */
  datatype Crypto = Crypto(tree: Hash, root: seq<Bytes> -> string, core: Core -> string)

  /** The root text is the hexadecimal Merkle root over the records' leaf digests. */
  ghost predicate Merkled(c: Crypto) {
    forall records :: c.root(records) == Hex(RootOf(c.tree, LeafDigests(c.tree, records)))
  }

  /** `_hash_epoch_leaves`: the leaf digests and the root over them. */
  method HashEpochLeaves(c: Crypto, records: seq<Bytes>) returns (leaves: seq<Bytes>, root: string)
    requires Merkled(c)
    ensures leaves == LeafDigests(c.tree, records) && root == c.root(records)
  {
    leaves := [];
    for i := 0 to |records|
      invariant leaves == LeafDigests(c.tree, records)[..i]
    {
      leaves := leaves + [c.tree(Leaf(records[i]))];
    }
    var digest := MerkleRoot(c.tree, leaves);
    root := Hex(digest);
  }

  // ----- streams ---------------------------------------------------------------------

  function Select(events: seq<Event>, keep: Event -> bool): seq<Event> {
    if events == [] then []
    else (if keep(events[0]) then [events[0]] else []) + Select(events[1..], keep)
  }

  function IsAfter(sid: StreamId): Event -> bool { (e: Event) => e.sid > sid }
  function IsBetween(lo: StreamId, hi: StreamId): Event -> bool { (e: Event) => lo <= e.sid <= hi }
  function IsFrom(sid: StreamId): Event -> bool { (e: Event) => e.sid >= sid }
  function IsAbove(seqNo: int): Event -> bool { (e: Event) => e.seqNo > seqNo }

  /** XRANGE with an exclusive lower bound. */
  function After(events: seq<Event>, sid: StreamId): seq<Event> { Select(events, IsAfter(sid)) }

  /** XRANGE with inclusive bounds. */
  function Between(events: seq<Event>, lo: StreamId, hi: StreamId): seq<Event> { Select(events, IsBetween(lo, hi)) }

  /** XTRIM MINID: what survives. */
  function From(events: seq<Event>, sid: StreamId): seq<Event> { Select(events, IsFrom(sid)) }

  /** The loop that keeps entries above the last sealed sequence number. */
  function Above(events: seq<Event>, seqNo: int): seq<Event> { Select(events, IsAbove(seqNo)) }

  function InsertBySeq(e: Event, sorted: seq<Event>): seq<Event> {
    if sorted == [] || e.seqNo <= sorted[0].seqNo then [e] + sorted
    else [sorted[0]] + InsertBySeq(e, sorted[1..])
  }

  /** `pending.sort(key=seq)`: a stable sort. */
  function SortBySeq(events: seq<Event>): seq<Event> {
    if events == [] then [] else InsertBySeq(events[0], SortBySeq(events[1..]))
  }

  /** At most the leaf cap, from the front. */
  function Capped(events: seq<Event>): (capped: seq<Event>)
    ensures |capped| == (if |events| < WORM_MAX_EPOCH_LEAVES then |events| else WORM_MAX_EPOCH_LEAVES)
    ensures capped <= events
  {
    if |events| > WORM_MAX_EPOCH_LEAVES then events[..WORM_MAX_EPOCH_LEAVES] else events
  }

  function Records(events: seq<Event>): (records: seq<Bytes>)
    ensures |records| == |events|
    ensures forall i :: 0 <= i < |events| ==> records[i] == events[i].record
  {
    seq(|events|, i requires 0 <= i < |events| => events[i].record)
  }

  function Ids(events: seq<Event>): set<string> {
    set e | e in events :: e.id
  }

  // ----- commands ----------------------------------------------------------------------

  /** The emit script: allocate the next sequence number and append, in one step. */
  function EmitScript(db: Redis, sid: StreamId, id: string, record: Bytes): Redis {
    db.(seqNo := db.seqNo + 1, events := db.events + [Event(sid, db.seqNo + 1, id, record)])
  }

  /** The unsealed tail as close_epoch reads it. */
  function ReadTail(db: Redis, cursor: Option<StreamId>): seq<Event> {
    match cursor
    case Some(sid) => After(db.events, sid)
    case None => db.events
  }

  function Located(epoch: int, pending: seq<Event>, index: nat): map<string, Location>
    requires index <= |pending|
  {
    if index == 0 then map[]
    else Located(epoch, pending, index - 1)[pending[index - 1].id := Location(epoch, index - 1, pending[index - 1].sid)]
  }

  /**
   The close-commit script: append the header, write every index and advance the four
   linkage counters together; do nothing when the epoch number was already reached.
   */
  function CommitScript(
    db: Redis, sid: StreamId, header: Header, leaves: seq<Bytes>, locations: map<string, Location>): Redis {
    var epoch := header.core.epoch;
    if db.num.GetOr(-1) >= epoch then db
    else db.(
      epochs := db.epochs + [EpochEntry(sid, Readable(header))],
      index := db.index[epoch := Readable(header)],
      streamId := db.streamId[epoch := sid],
      eventLoc := db.eventLoc + locations,
      leaves := db.leaves[epoch := leaves],
      num := Some(epoch),
      head := Some(header.hash),
      lastSeq := Some(header.core.end),
      cursor := Some(header.core.last))
  }

  /** The stream id the script replies with. */
  function CommitReply(db: Redis, sid: StreamId, header: Header): Option<StreamId> {
    if db.num.GetOr(-1) < header.core.epoch then Some(sid)
    else if header.core.epoch in db.streamId then Some(db.streamId[header.core.epoch])
    else None
  }

  /** Sending one commit twice is sending it once: same store, same reply. */
  lemma CommitIdempotent(
    db: Redis, sid: StreamId, sid': StreamId, header: Header, leaves: seq<Bytes>, locations: map<string, Location>)
    ensures var once := CommitScript(db, sid, header, leaves, locations);
      && CommitScript(once, sid', header, leaves, locations) == once
      && CommitReply(once, sid', header) == CommitReply(db, sid, header)
  {
  }

  function ReadHeader(db: Redis, epoch: int): Option<Header> {
    if epoch in db.index && db.index[epoch].Readable? then Some(db.index[epoch].header) else None
  }

  function DropLocations(db: Redis, ids: set<string>): Redis { db.(eventLoc := db.eventLoc - ids) }
  function DropLeaves(db: Redis, epochs: set<int>): Redis { db.(leaves := db.leaves - epochs) }
  function TrimEvents(db: Redis, minId: StreamId): Redis { db.(events := From(db.events, minId)) }

  function EpochField(f: Fields): Option<int> {
    match f
    case Unreadable(epoch, _, _) => epoch
    case Readable(h) => Some(h.core.epoch)
  }

  /** The entries a compaction scan marks for deletion. */
  predicate Folded(e: EpochEntry, target: int) {
    EpochField(e.fields).Some? && EpochField(e.fields).value <= target
  }

  function FoldedEpochs(entries: seq<EpochEntry>, target: int): set<int> {
    set e | e in entries && Folded(e, target) :: EpochField(e.fields).value
  }

  function FoldedSids(entries: seq<EpochEntry>, target: int): set<StreamId> {
    set e | e in entries && Folded(e, target) :: e.sid
  }

  /** XDEL on the epochs stream. */
  function Without(entries: seq<EpochEntry>, sids: set<StreamId>): seq<EpochEntry> {
    if entries == [] then []
    else (if entries[0].sid in sids then [] else [entries[0]]) + Without(entries[1..], sids)
  }

  function DeleteEntries(db: Redis, sids: set<StreamId>): Redis { db.(epochs := Without(db.epochs, sids)) }
  function DropIndex(db: Redis, epochs: set<int>): Redis { db.(index := db.index - epochs) }
  function DropStreamIds(db: Redis, epochs: set<int>): Redis { db.(streamId := db.streamId - epochs) }
  function SetCheckpoint(db: Redis, cp: Checkpoint): Redis {
    db.(checkpoint := Stored(cp, CheckpointMessage(cp.epoch, cp.hash, cp.end)))
  }

  // ----- the header a close builds ---------------------------------------------------------

  /** The core close_epoch signs for the pending events. */
  function NewCore(c: Crypto, pending: seq<Event>, prev: string, epoch: int, timestamp: int): Core
    requires pending != []
  {
    Core(epoch, pending[0].seqNo, pending[|pending| - 1].seqNo, |pending|, timestamp,
         c.root(Records(pending)), prev,
         pending[0].sid, pending[|pending| - 1].sid)
  }

  function NewHeader(c: Crypto, pending: seq<Event>, prev: string, epoch: int, timestamp: int): Header
    requires pending != []
  {
    var core := NewCore(c, pending, prev, epoch, timestamp);
    Header(core, c.core(core), EpochMessage(c.core(core)))
  }
}
