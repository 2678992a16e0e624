/** A directory listing of lore-io, resolved a chunk at a time. The walk underneath is the sequence of
    what it has yet to yield; dispatching to the pool is a call. */
module DirStream {
  import opened Wrappers

  const CHUNK: nat := 256

  datatype Stat = Stat(isSymlink: bool, size: nat)

  /** A name of the walk, with what a stat of the name itself and of what it points at would give. */
  datatype RawEntry = RawEntry(fileName: string, own: Option<Stat>, target: Option<Stat>)

  datatype DirEntry = DirEntry(fileName: string, metadata: Option<Stat>, isSymlink: bool)

  type Raw = Result<RawEntry, string>

  type Entry = Result<DirEntry, string>

  /** A link is described by its target, an entry that cannot be described by nothing. */
  function Resolve(entry: RawEntry): (described: DirEntry)
    ensures described.fileName == entry.fileName
    ensures described.isSymlink <==> entry.own.Some? && entry.own.value.isSymlink
    ensures described.metadata == if described.isSymlink then entry.target else entry.own
  {
    match entry.own
    case None => DirEntry(entry.fileName, None, false)
    case Some(stat) =>
      if stat.isSymlink then DirEntry(entry.fileName, entry.target, true)
          else DirEntry(entry.fileName, Some(stat), false)
  }

  /** An entry that could not be read stays an error. */
  function Describe(raw: Raw): Entry {
    match raw
    case Ok(entry) => Ok(Resolve(entry))
    case Err(e) => Err(e)
  }

  function Described(walk: seq<Raw>): (entries: seq<Entry>)
    ensures |entries| == |walk| && forall i :: 0 <= i < |walk| ==> entries[i] == Describe(walk[i])
  {
    seq(|walk|, i requires 0 <= i < |walk| => Describe(walk[i]))
  }

  /** What a walk yields next, at most a chunk. */
  function Size(walk: seq<Raw>): nat {
    if |walk| < CHUNK then |walk| else CHUNK
  }

  /** `read_std_chunk`: the walk is handed back unless its end was seen. */
  method ReadChunk(walk: seq<Raw>) returns (reader: Option<seq<Raw>>, chunk: seq<Entry>)
    ensures chunk == Described(walk[..Size(walk)])
    ensures if |walk| >= CHUNK then reader == Some(walk[CHUNK..]) else reader == None
  {
    chunk := [];
    for i := 0 to CHUNK
      invariant i <= |walk| && chunk == Described(walk[..i])
    {
      if i == |walk| { return None, chunk; }
      chunk := chunk + [Describe(walk[i])];
    }
    reader := Some(walk[CHUNK..]);
  }

  lemma ChunkThenRest(walk: seq<Raw>)
    ensures Described(walk[..Size(walk)]) + (if |walk| >= CHUNK then Described(walk[CHUNK..])
        else []) == Described(walk)
  {
    assert walk[..Size(walk)] + walk[Size(walk)..] == walk;
  }

  class Stream {
    var reader: Option<seq<Raw>>
    var buffered: seq<Entry>
    /** The chunks read so far. */
    ghost var dispatches: nat

    /** The entries still to come. */
    ghost function Remaining(): seq<Entry>
      reads this
    {
      buffered + (if reader.Some? then Described(reader.value) else [])
    }

    /** At most a chunk is held. */
    ghost predicate Valid()
      reads this
    {
      |buffered| <= CHUNK
    }

    /** `dispatches` so far are what `walk` needs: a full chunk each, and one that sees the end. */
    ghost predicate Accounts(walk: seq<Raw>)
      reads this
    {
      match reader
      case Some(rest) => |walk| == CHUNK * dispatches + |rest|
      case None => dispatches == |walk| / CHUNK + 1
    }

    /** `open`, of a directory that could be opened: the first chunk is read with it. */
    constructor (walk: seq<Raw>)
      ensures Valid() && Remaining() == Described(walk) && Accounts(walk)
      ensures buffered == Described(walk[..Size(walk)])
      ensures reader == if |walk| >= CHUNK then Some(walk[CHUNK..]) else None
    {
      var rest, chunk := ReadChunk(walk);
      reader, buffered, dispatches := rest, chunk, 1;
      new;
      ChunkThenRest(walk);
      Chunked(|walk|, 0, |walk|);
    }

    /** `next`: the entries of the walk one by one and in order, then nothing for ever. */
    method Next(ghost walk: seq<Raw>) returns (entry: Option<Entry>)
      requires Valid()
      modifies this
      ensures Valid() && (old(Accounts(walk)) ==> Accounts(walk))
      ensures old(Remaining()) == [] ==> entry == None && Remaining() == [] && reader == None
      ensures old(Remaining()) != [] ==> entry == Some(old(Remaining())[0]) && Remaining() == old(Remaining())[1..]
      // An entry at hand is given without a dispatch.
      ensures old(buffered) != [] ==> buffered == old(buffered)[1..] && reader == old(reader)
    {
      while true
        invariant Valid() && (old(Accounts(walk)) ==> Accounts(walk)) && Remaining() == old(Remaining())
        invariant old(buffered) != [] ==> buffered == old(buffered) && reader == old(reader)
        decreases |buffered| == 0, if reader.Some? then |reader.value| + 1 else 0
      {
        if |buffered| > 0 {
          entry := Some(buffered[0]);
          buffered := buffered[1..];
          return;
        }
        if reader.None? { return None; }
        var rest := reader.value;
        reader := None;
        var more, chunk := ReadChunk(rest);
        dispatches := dispatches + 1;
        if old(Accounts(walk)) { Chunked(|walk|, dispatches - 1, |rest|); }
        if |chunk| == 0 { return None; }
        reader, buffered := more, chunk;
        ChunkThenRest(rest);
      }
    }

    /** `next` dropped before it gave an answer. With an entry at hand, or past the end, it has no point
        to be dropped at once it has begun; with a chunk to read it has handed the walk over, and the
        walk goes with it. Entries are lost exactly when the walk had any left. */
    method NextDropped()
      requires Valid()
      modifies this
      ensures Valid() && buffered == old(buffered)
      ensures Remaining() != old(Remaining()) <==> old(buffered) == [] && old(reader).Some? && |old(reader).value| > 0
      ensures Remaining() != old(Remaining()) ==> Remaining() == [] && reader == None
    {
      if |buffered| == 0 && reader.Some? {
        assert |Described(reader.value)| == |reader.value|;
        reader := None;
      }
    }

    /** A consumer that reads to the end. */
    method Drain(ghost walk: seq<Raw>) returns (entries: seq<Entry>)
      requires Valid() && Accounts(walk)
      modifies this
      ensures entries == old(Remaining()) && Remaining() == [] && reader == None
      ensures dispatches == |walk| / CHUNK + 1
    {
      entries := [];
      while true
        invariant Valid() && Accounts(walk) && entries + Remaining() == old(Remaining())
        decreases |Remaining()|
      {
        ghost var rest := Remaining();
        var next := Next(walk);
        if next.None? { break; }
        OneMore(entries, rest);
        entries := entries + [next.value];
      }
    }
  }

  lemma OneMore(entries: seq<Entry>, rest: seq<Entry>)
    requires rest != []
    ensures entries + rest == entries + [rest[0]] + rest[1..]
  {
  }

  lemma Chunked(total: nat, dispatches: nat, rest: nat)
    requires total == CHUNK * dispatches + rest
    ensures rest < CHUNK ==> dispatches + 1 == total / CHUNK + 1
    ensures rest >= CHUNK ==> total == CHUNK * (dispatches + 1) + (rest - CHUNK)
  {
  }

  /** A directory of one entry more than a chunk, whose last entry a dropped `next` loses. */
  method LosesTheLastEntry(walk: seq<Raw>) returns (seen: seq<Entry>, after: Option<Entry>)
    requires |walk| == CHUNK + 1
    ensures seen == Described(walk[..CHUNK]) && after == None
  {
    var stream := new Stream(walk);
    seen := [];
    for i := 0 to CHUNK
      invariant stream.Valid() && stream.Accounts(walk) && fresh(stream)
      invariant |stream.buffered| == CHUNK - i && stream.reader == Some(walk[CHUNK..])
      invariant seen + stream.buffered == Described(walk[..CHUNK])
    {
      OneMore(seen, stream.buffered);
      var entry := stream.Next(walk);
      seen := seen + [entry.value];
    }
    stream.NextDropped();
    after := stream.Next(walk);
  }
}
