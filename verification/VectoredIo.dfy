/** Scatter and gather I/O of lore-io on Unix: the loops that finish short transfers, and the system
    calls' view of the buffers as at most 1024 iovecs. Buffers are values, as they move through the
    calls by value; the kernel is a parameter that may cut any transfer short or fail. */
module VectoredIo {
  import opened Wrappers

  type Bytes = seq<int>

  const MAX_IO_SEGMENTS: nat := 1024

  /** `iov_base` as a segment and a position in it. */
  datatype Iovec = Iovec(segment: nat, start: nat, len: nat)

  datatype IoError = UnexpectedEof | WriteZero | Os

  /** What a system call does: move about `n` bytes, or fail. */
  datatype Answer = Moved(n: nat) | Failed

  function Min(a: nat, b: nat): nat {
    if a <= b then a else b
  }

  /** The bytes of the segments from the `i`th on. */
  function FlatFrom(segments: seq<Bytes>, i: nat): Bytes
    decreases |segments| - i
  {
    if i >= |segments| then [] else segments[i] + FlatFrom(segments, i + 1)
  }

  function Flat(segments: seq<Bytes>): Bytes {
    FlatFrom(segments, 0)
  }

  function Sizes(segments: seq<Bytes>): seq<nat> {
    seq(|segments|, i requires 0 <= i < |segments| => |segments[i]|)
  }

  /** The same number of segments, of the same sizes. */
  ghost predicate SameShape(a: seq<Bytes>, b: seq<Bytes>) {
    Sizes(a) == Sizes(b)
  }

  lemma SizesAt(a: seq<Bytes>, b: seq<Bytes>, i: nat)
    requires SameShape(a, b) && i < |a|
    ensures |a| == |b| && |a[i]| == |b[i]|
  {
    assert |Sizes(a)| == |a| && |Sizes(b)| == |b|;
    assert Sizes(a)[i] == |a[i]| && Sizes(b)[i] == |b[i]|;
  }

  lemma SizesUpdate(segments: seq<Bytes>, i: nat, segment: Bytes)
    requires i < |segments| && |segment| == |segments[i]|
    ensures SameShape(segments[i := segment], segments)
  {
  }

  // ---------------------------------------------------------------------------
  // Iovecs
  // ---------------------------------------------------------------------------

  /** The iovecs for what follows `skip` bytes of the segments from the `i`th on. */
  function Iovecs(segments: seq<Bytes>, i: nat, skip: nat, room: nat): seq<Iovec>
    decreases |segments| - i
  {
    if i >= |segments| || room == 0 then []
    else if skip >= |segments[i]| then Iovecs(segments, i + 1, skip - |segments[i]|, room)
    else [Iovec(i, skip, |segments[i]| - skip)] + Iovecs(segments, i + 1, 0, room - 1)
  }

  /** The gathering loop of both calls. */
  method GatherIovecs(segments: seq<Bytes>, skip: nat) returns (iovecs: seq<Iovec>)
    ensures iovecs == Iovecs(segments, 0, skip, MAX_IO_SEGMENTS)
  {
    iovecs := [];
    var remainingSkip: nat := skip;
    var i := 0;
    while i < |segments| && |iovecs| != MAX_IO_SEGMENTS
      invariant i <= |segments| && |iovecs| <= MAX_IO_SEGMENTS
      invariant iovecs + Iovecs(segments, i, remainingSkip, MAX_IO_SEGMENTS - |iovecs|)
             == Iovecs(segments, 0, skip, MAX_IO_SEGMENTS)
    {
      var len := |segments[i]|;
      if remainingSkip >= len {
        remainingSkip := remainingSkip - len;
      } else {
        iovecs := iovecs + [Iovec(i, remainingSkip, len - remainingSkip)];
        remainingSkip := 0;
      }
      i := i + 1;
    }
  }

  ghost predicate InBounds(segments: seq<Bytes>, iovecs: seq<Iovec>) {
    iovecs == [] ||
    var v := iovecs[0];
    v.segment < |segments| && v.start + v.len <= |segments[v.segment]| && InBounds(segments, iovecs[1..])
  }

  /** The bytes iovecs point at, in order. */
  function Addressed(segments: seq<Bytes>, iovecs: seq<Iovec>): Bytes
    requires InBounds(segments, iovecs)
  {
    if iovecs == [] then []
    else
      var v := iovecs[0];
      segments[v.segment][v.start..v.start + v.len] + Addressed(segments, iovecs[1..])
  }

  /** The same bytes by recursion on the segments. */
  function Reach(segments: seq<Bytes>, i: nat, skip: nat, room: nat): Bytes
    decreases |segments| - i
  {
    if i >= |segments| || room == 0 then []
    else if skip >= |segments[i]| then Reach(segments, i + 1, skip - |segments[i]|, room)
    else segments[i][skip..] + Reach(segments, i + 1, 0, room - 1)
  }

  lemma {:induction false} IovecsCount(segments: seq<Bytes>, i: nat, skip: nat, room: nat)
    ensures |Iovecs(segments, i, skip, room)| <= room
    ensures Iovecs(segments, i, skip, room) == [] <==> Reach(segments, i, skip, room) == []
    decreases |segments| - i
  {
    if i < |segments| && room > 0 {
      if skip >= |segments[i]| {
        IovecsCount(segments, i + 1, skip - |segments[i]|, room);
      } else {
        IovecsCount(segments, i + 1, 0, room - 1);
      }
    }
  }

  lemma AddressedStep(segments: seq<Bytes>, v: Iovec, rest: seq<Iovec>)
    requires InBounds(segments, rest) && v.segment < |segments| && v.start + v.len == |segments[v.segment]|
    ensures InBounds(segments, [v] + rest)
    ensures Addressed(segments, [v] + rest) == segments[v.segment][v.start..] + Addressed(segments, rest)
  {
    assert ([v] + rest)[1..] == rest;
    assert segments[v.segment][v.start..v.start + v.len] == segments[v.segment][v.start..];
  }

  lemma {:induction false} IovecsAddress(segments: seq<Bytes>, i: nat, skip: nat, room: nat)
    ensures InBounds(segments, Iovecs(segments, i, skip, room))
    ensures Addressed(segments, Iovecs(segments, i, skip, room)) == Reach(segments, i, skip, room)
    decreases |segments| - i
  {
    if i < |segments| && room > 0 {
      if skip >= |segments[i]| {
        IovecsAddress(segments, i + 1, skip - |segments[i]|, room);
      } else {
        IovecsAddress(segments, i + 1, 0, room - 1);
        AddressedStep(segments, Iovec(i, skip, |segments[i]| - skip), Iovecs(segments, i + 1, 0, room - 1));
      }
    }
  }

  /** Iovecs point at the next bytes after the skipped ones, and at none only when none are left. */
  lemma {:induction false} ReachIsNext(segments: seq<Bytes>, i: nat, skip: nat, room: nat)
    requires room > 0
    ensures var flat := FlatFrom(segments, i);
            if skip >= |flat| then Reach(segments, i, skip, room) == []
            else Reach(segments, i, skip, room) != [] && Reach(segments, i, skip, room) <= flat[skip..]
    decreases |segments| - i
  {
    if i < |segments| {
      var flat, rest := FlatFrom(segments, i), FlatFrom(segments, i + 1);
      if skip >= |segments[i]| {
        ReachIsNext(segments, i + 1, skip - |segments[i]|, room);
        if skip < |flat| { assert flat[skip..] == rest[skip - |segments[i]|..]; }
      } else {
        assert flat[skip..] == segments[i][skip..] + rest;
        if room > 1 {
          ReachIsNext(segments, i + 1, 0, room - 1);
          assert rest[0..] == rest;
        }
      }
    }
  }

  // ---------------------------------------------------------------------------
  // Scattering
  // ---------------------------------------------------------------------------

  function Overwrite(segment: Bytes, start: nat, data: Bytes): Bytes
    requires start + |data| <= |segment|
  {
    segment[..start] + data + segment[start + |data|..]
  }

  lemma {:induction false} InBoundsKept(a: seq<Bytes>, b: seq<Bytes>, iovecs: seq<Iovec>)
    requires SameShape(a, b) && InBounds(a, iovecs)
    ensures InBounds(b, iovecs)
  {
    if iovecs != [] {
      InBoundsKept(a, b, iovecs[1..]);
      SizesAt(a, b, iovecs[0].segment);
    }
  }

  /** `preadv`: data goes into the iovecs in order. */
  function Scatter(segments: seq<Bytes>, iovecs: seq<Iovec>, data: Bytes): seq<Bytes>
    requires InBounds(segments, iovecs)
    decreases |iovecs|
  {
    if iovecs == [] || data == [] then segments
    else
      var v := iovecs[0];
      var n := Min(v.len, |data|);
      var next := segments[v.segment := Overwrite(segments[v.segment], v.start, data[..n])];
      SizesUpdate(segments, v.segment, next[v.segment]);
      InBoundsKept(segments, next, iovecs[1..]);
      Scatter(next, iovecs[1..], data[n..])
  }

  /** The same by recursion on the segments. */
  function Placed(segments: seq<Bytes>, i: nat, skip: nat, room: nat, data: Bytes): seq<Bytes>
    decreases |segments| - i
  {
    if i >= |segments| || room == 0 || data == [] then segments
    else if skip >= |segments[i]| then Placed(segments, i + 1, skip - |segments[i]|, room, data)
    else
      var n := Min(|segments[i]| - skip, |data|);
      Placed(segments[i := Overwrite(segments[i], skip, data[..n])], i + 1, 0, room - 1, data[n..])
  }

  /** A change to a segment before the `i`th. */
  lemma {:induction false} UpdateBefore(segments: seq<Bytes>, k: nat, segment: Bytes, i: nat, skip: nat, room: nat)
    requires k < |segments| && k < i
    ensures Iovecs(segments[k := segment], i, skip, room) == Iovecs(segments, i, skip, room)
    ensures Reach(segments[k := segment], i, skip, room) == Reach(segments, i, skip, room)
    ensures FlatFrom(segments[k := segment], i) == FlatFrom(segments, i)
    decreases |segments| - i
  {
    if i < |segments| {
      if skip >= |segments[i]| {
        UpdateBefore(segments, k, segment, i + 1, skip - |segments[i]|, room);
      } else {
        UpdateBefore(segments, k, segment, i + 1, 0, if room > 0 then room - 1 else 0);
      }
    }
  }

  lemma {:induction false} ScatterPlaces(segments: seq<Bytes>, i: nat, skip: nat, room: nat, data: Bytes)
    requires InBounds(segments, Iovecs(segments, i, skip, room))
    ensures Scatter(segments, Iovecs(segments, i, skip, room), data) == Placed(segments, i, skip, room, data)
    decreases |segments| - i
  {
    if i < |segments| && room > 0 && data != [] {
      if skip >= |segments[i]| {
        ScatterPlaces(segments, i + 1, skip - |segments[i]|, room, data);
      } else {
        var n := Min(|segments[i]| - skip, |data|);
        var next := segments[i := Overwrite(segments[i], skip, data[..n])];
        assert Iovecs(segments, i, skip, room)[1..] == Iovecs(segments, i + 1, 0, room - 1);
        UpdateBefore(segments, i, next[i], i + 1, 0, room - 1);
        IovecsAddress(next, i + 1, 0, room - 1);
        ScatterPlaces(next, i + 1, 0, room - 1, data[n..]);
      }
    }
  }

  lemma {:induction false} PlacedKeeps(segments: seq<Bytes>, i: nat, skip: nat, room: nat, data: Bytes)
    ensures |Placed(segments, i, skip, room, data)| == |segments|
    ensures SameShape(Placed(segments, i, skip, room, data), segments)
    ensures i <= |segments| ==> Placed(segments, i, skip, room, data)[..i] == segments[..i]
    decreases |segments| - i
  {
    if i < |segments| && room > 0 && data != [] {
      if skip >= |segments[i]| {
        PlacedKeeps(segments, i + 1, skip - |segments[i]|, room, data);
        ShorterPrefix(Placed(segments, i, skip, room, data), segments, i);
      } else {
        var n := Min(|segments[i]| - skip, |data|);
        var next := segments[i := Overwrite(segments[i], skip, data[..n])];
        PlacedKeeps(next, i + 1, 0, room - 1, data[n..]);
        SizesUpdate(segments, i, next[i]);
        ShorterPrefix(Placed(segments, i, skip, room, data), next, i);
      }
    }
  }

  lemma ShorterPrefix(a: seq<Bytes>, b: seq<Bytes>, i: nat)
    requires i < |a| == |b| && a[..i + 1] == b[..i + 1]
    ensures a[..i] == b[..i] && a[i] == b[i]
  {
    assert a[..i + 1][..i] == a[..i] && b[..i + 1][..i] == b[..i];
    assert a[..i + 1][i] == b[..i + 1][i];
  }

  /** Placing data replaces the flat bytes after the skipped ones. */
  lemma {:induction false} PlacedFlat(segments: seq<Bytes>, i: nat, skip: nat, room: nat, data: Bytes)
    requires |data| <= |Reach(segments, i, skip, room)| && skip + |data| <= |FlatFrom(segments, i)|
    ensures FlatFrom(Placed(segments, i, skip, room, data), i) == Overwrite(FlatFrom(segments, i), skip, data)
    decreases |segments| - i
  {
    if i >= |segments| || room == 0 || data == [] {
      assert Overwrite(FlatFrom(segments, i), skip, []) == FlatFrom(segments, i);
    } else if skip >= |segments[i]| {
      PlacedFlat(segments, i + 1, skip - |segments[i]|, room, data);
      PlacedKeeps(segments, i + 1, skip - |segments[i]|, room, data);
      FlatFirst(Placed(segments, i, skip, room, data), segments, i);
      OverwriteAfter(segments[i], FlatFrom(segments, i + 1), skip - |segments[i]|, data);
    } else {
      var n := Min(|segments[i]| - skip, |data|);
      var next := segments[i := Overwrite(segments[i], skip, data[..n])];
      var out, rest := Placed(segments, i, skip, room, data), FlatFrom(segments, i + 1);
      assert FlatFrom(out, i + 1) == Overwrite(rest, 0, data[n..]) by {
        UpdateBefore(segments, i, next[i], i + 1, 0, room - 1);
        PlacedFlat(next, i + 1, 0, room - 1, data[n..]);
      }
      assert FlatFrom(out, i) == next[i] + FlatFrom(out, i + 1) by {
        PlacedKeeps(next, i + 1, 0, room - 1, data[n..]);
        FlatFirst(out, next, i);
      }
      OverwriteAcross(segments[i], rest, skip, data, n);
    }
  }

  lemma FlatFirst(a: seq<Bytes>, b: seq<Bytes>, i: nat)
    requires i < |a| == |b| && a[..i + 1] == b[..i + 1]
    ensures FlatFrom(a, i) == b[i] + FlatFrom(a, i + 1)
  {
    ShorterPrefix(a, b, i);
  }

  lemma OverwriteAfter(a: Bytes, b: Bytes, skip: nat, data: Bytes)
    requires skip + |data| <= |b|
    ensures Overwrite(a + b, |a| + skip, data) == a + Overwrite(b, skip, data)
  {
  }

  lemma OverwriteAcross(a: Bytes, b: Bytes, skip: nat, data: Bytes, n: nat)
    requires skip < |a| && n == Min(|a| - skip, |data|) && |data| - n <= |b|
    ensures Overwrite(a + b, skip, data) == Overwrite(a, skip, data[..n]) + Overwrite(b, 0, data[n..])
  {
    assert data == data[..n] + data[n..];
  }

  /** What one call sees: the bytes after the skipped ones, none only when none are left. */
  lemma Gathered(segments: seq<Bytes>, skip: nat)
    ensures var iovecs := Iovecs(segments, 0, skip, MAX_IO_SEGMENTS);
            && |iovecs| <= MAX_IO_SEGMENTS && InBounds(segments, iovecs)
            && (iovecs == [] <==> skip >= |Flat(segments)|)
            && (iovecs != [] ==>
                  Addressed(segments, iovecs) != [] && Addressed(segments, iovecs) <= Flat(segments)[skip..])
  {
    IovecsCount(segments, 0, skip, MAX_IO_SEGMENTS);
    IovecsAddress(segments, 0, skip, MAX_IO_SEGMENTS);
    ReachIsNext(segments, 0, skip, MAX_IO_SEGMENTS);
  }

  /** What a call that fills them leaves. */
  lemma Scattered(segments: seq<Bytes>, skip: nat, data: Bytes)
    requires InBounds(segments, Iovecs(segments, 0, skip, MAX_IO_SEGMENTS))
    requires |data| <= |Addressed(segments, Iovecs(segments, 0, skip, MAX_IO_SEGMENTS))|
    requires skip < |Flat(segments)|
    ensures var out := Scatter(segments, Iovecs(segments, 0, skip, MAX_IO_SEGMENTS), data);
            && SameShape(out, segments) && skip + |data| <= |Flat(segments)|
            && Flat(out) == Overwrite(Flat(segments), skip, data)
  {
    Gathered(segments, skip);
    IovecsAddress(segments, 0, skip, MAX_IO_SEGMENTS);
    ScatterPlaces(segments, 0, skip, MAX_IO_SEGMENTS, data);
    PlacedFlat(segments, 0, skip, MAX_IO_SEGMENTS, data);
    PlacedKeeps(segments, 0, skip, MAX_IO_SEGMENTS, data);
  }

  // ---------------------------------------------------------------------------
  // Reading
  // ---------------------------------------------------------------------------

  /** How much a read moves: at least a byte while there is one to move and room for it. */
  function ReadAmount(n: nat, limit: nat): nat {
    if n == 0 then Min(1, limit) else Min(n, limit)
  }

  function Available(file: Bytes, offset: nat): nat {
    if offset < |file| then |file| - offset else 0
  }

  /** `read_vectored_impl`. It moves nothing only when nothing is left to fill or past the end of the
      file. */
  method ReadVectored(file: Bytes, segments: seq<Bytes>, skip: nat, offset: nat, kernel: Answer)
    returns (r: Result<nat, IoError>, out: seq<Bytes>)
    ensures skip >= |Flat(segments)| ==> r == Ok(0) && out == segments
    ensures skip < |Flat(segments)| && kernel.Failed? ==> r == Err(Os)
    ensures skip < |Flat(segments)| && kernel.Moved? ==>
              && r.Ok? && SameShape(out, segments) && (r.value == 0 <==> offset >= |file|)
              && skip + r.value <= |Flat(segments)| && (offset < |file| ==> offset + r.value <= |file|)
              && Flat(out) == Overwrite(Flat(segments), skip, Read(file, offset, r.value))
  {
    var iovecs := GatherIovecs(segments, skip);
    Gathered(segments, skip);
    if |iovecs| == 0 { return Ok(0), segments; }
    if kernel.Failed? { return Err(Os), segments; }
    var limit := Min(|Addressed(segments, iovecs)|, Available(file, offset));
    var read := ReadAmount(kernel.n, limit);
    var data := Read(file, offset, read);
    Scattered(segments, skip, data);
    return Ok(read), Scatter(segments, iovecs, data);
  }

  /** Up to `n` bytes of a file from `offset`. */
  function Read(file: Bytes, offset: nat, n: nat): (data: Bytes)
    ensures |data| == Min(n, Available(file, offset))
  {
    if offset >= |file| then [] else file[offset..offset + Min(n, |file| - offset)]
  }

  /** The first `done` bytes of the buffers hold the file's. */
  ghost predicate Filled(out: seq<Bytes>, buffers: seq<Bytes>, file: Bytes, offset: nat, done: nat) {
    && SameShape(out, buffers) && |Flat(out)| == |Flat(buffers)|
    && Holds(Flat(out), file, offset, done)
  }

  ghost predicate Holds(flat: Bytes, file: Bytes, offset: nat, done: nat) {
    done <= |flat| && (done > 0 ==> offset + done <= |file|) && flat[..done] == Read(file, offset, done)
  }

  lemma HoldsOn(flat: Bytes, next: Bytes, file: Bytes, offset: nat, done: nat, read: nat)
    requires Holds(flat, file, offset, done)
    requires read > 0 && done + read <= |flat| && offset + done + read <= |file|
    requires next == Overwrite(flat, done, Read(file, offset + done, read))
    ensures |next| == |flat| && Holds(next, file, offset, done + read)
  {
    assert Read(file, offset, done) + Read(file, offset + done, read) == Read(file, offset, done + read);
    assert next[..done + read] == flat[..done] + Read(file, offset + done, read);
  }

  /** `read_exact_vectored_at`: fills every segment from the file whatever the transfers' sizes, or
      reports the end of a file too short to do so; the system's own error is the only other way out. */
  method ReadExactVectoredAt(file: Bytes, buffers: seq<Bytes>, offset: nat, kernel: nat -> Answer)
    returns (r: Result<seq<Bytes>, IoError>)
    ensures r.Ok? ==>
              && SameShape(r.value, buffers) && Flat(r.value) == Read(file, offset, |Flat(buffers)|)
              && |Flat(r.value)| == |Flat(buffers)|
    ensures r.Err? && r.error == UnexpectedEof ==> 0 < |Flat(buffers)| && |file| < offset + |Flat(buffers)|
    ensures r.Err? ==> r.error == UnexpectedEof || (r.error == Os && exists i :: kernel(i).Failed?)
  {
    var out := buffers;
    var total := |Flat(buffers)|;
    var done, calls := 0, 0;
    while done < total
      invariant Filled(out, buffers, file, offset, done)
    {
      var step, next := ReadVectored(file, out, done, offset + done, kernel(calls));
      if step.Err? { return Err(step.error); }
      if step.value == 0 { return Err(UnexpectedEof); }
      HoldsOn(Flat(out), Flat(next), file, offset, done, step.value);
      out, done, calls := next, done + step.value, calls + 1;
    }
    assert Flat(out)[..done] == Flat(out);
    r := Ok(out);
  }

  // ---------------------------------------------------------------------------
  // Writing
  // ---------------------------------------------------------------------------

  function Zeros(n: nat): (zeros: Bytes)
    ensures |zeros| == n && forall i :: 0 <= i < n ==> zeros[i] == 0
  {
    seq(n, _ => 0)
  }

  /** `pwritev`: a write of some bytes past the end leaves zeros in the gap. */
  function Written(file: Bytes, offset: nat, data: Bytes): Bytes {
    if data == [] then file
    else if offset + |data| < |file| then Overwrite(file, offset, data)
    else if offset <= |file| then file[..offset] + data
    else file + Zeros(offset - |file|) + data
  }

  /** Exactly the bytes from `offset` on are `data`, every other is as it was. */
  ghost predicate WrittenTo(after: Bytes, file: Bytes, offset: nat, data: Bytes) {
    if data == [] then after == file
    else
      && |after| == (if offset + |data| < |file| then |file| else offset + |data|)
      && forall i :: 0 <= i < |after| ==>
           after[i] == if offset <= i < offset + |data| then data[i - offset] else if i < |file| then file[i] else 0
  }

  lemma WrittenIs(file: Bytes, offset: nat, data: Bytes)
    ensures WrittenTo(Written(file, offset, data), file, offset, data)
  {
  }

  /** The first `sent` bytes have reached the file and nothing else has. */
  ghost predicate Reached(after: Bytes, file: Bytes, offset: nat, flat: Bytes, sent: nat) {
    sent <= |flat| && WrittenTo(after, file, offset, flat[..sent])
  }

  lemma ReachedOn(after: Bytes, next: Bytes, file: Bytes, offset: nat, flat: Bytes, sent: nat, n: nat)
    requires Reached(after, file, offset, flat, sent) && sent + n <= |flat|
    requires WrittenTo(next, after, offset + sent, flat[sent..sent + n])
    ensures Reached(next, file, offset, flat, sent + n)
  {
  }

  lemma PrefixOfTail(flat: Bytes, skip: nat, gathered: Bytes, n: nat)
    requires skip <= |flat| && gathered <= flat[skip..] && n <= |gathered|
    ensures gathered[..n] == flat[skip..skip + n]
  {
  }

  /** `write_vectored_impl`. It moves nothing only when the kernel takes nothing. */
  method WriteVectored(file: Bytes, segments: seq<Bytes>, skip: nat, offset: nat, kernel: Answer)
    returns (r: Result<nat, IoError>, after: Bytes)
    ensures skip >= |Flat(segments)| ==> r == Ok(0) && after == file
    ensures skip < |Flat(segments)| && kernel.Failed? ==> r == Err(Os) && after == file
    ensures skip < |Flat(segments)| && kernel.Moved? ==>
              && r.Ok? && skip + r.value <= |Flat(segments)| && (r.value == 0 <==> kernel.n == 0)
              && WrittenTo(after, file, offset, Flat(segments)[skip..skip + r.value])
  {
    var iovecs := GatherIovecs(segments, skip);
    Gathered(segments, skip);
    if |iovecs| == 0 { return Ok(0), file; }
    if kernel.Failed? { return Err(Os), file; }
    var gathered := Addressed(segments, iovecs);
    var written := Min(kernel.n, |gathered|);
    PrefixOfTail(Flat(segments), skip, gathered, written);
    WrittenIs(file, offset, gathered[..written]);
    return Ok(written), Written(file, offset, gathered[..written]);
  }

  /** `write_all_vectored_at`: what has reached the file is always a prefix of the buffers in order,
      all of them exactly on success; a refusal to write any more is an error. */
  method WriteAllVectoredAt(file: Bytes, buffers: seq<Bytes>, offset: nat, kernel: nat -> Answer)
    returns (r: Result<seq<Bytes>, IoError>, after: Bytes, ghost done: nat)
    ensures Reached(after, file, offset, Flat(buffers), done)
    ensures r.Ok? <==> done == |Flat(buffers)|
    ensures r.Ok? ==> r.value == buffers
    ensures r.Err? ==> if r.error == WriteZero then exists i :: kernel(i) == Moved(0)
                       else r.error == Os && exists i :: kernel(i).Failed?
  {
    var total := |Flat(buffers)|;
    var sent, calls := 0, 0;
    after := file;
    while sent < total
      invariant Reached(after, file, offset, Flat(buffers), sent)
    {
      var step, next := WriteVectored(after, buffers, sent, offset + sent, kernel(calls));
      if step.Err? { return Err(step.error), after, sent; }
      if step.value == 0 {
        assert kernel(calls) == Moved(0);
        return Err(WriteZero), after, sent;
      }
      ReachedOn(after, next, file, offset, Flat(buffers), sent, step.value);
      after, sent, calls := next, sent + step.value, calls + 1;
    }
    return Ok(buffers), after, sent;
  }

  lemma {:induction false} ShapeAndBytes(a: seq<Bytes>, b: seq<Bytes>, i: nat)
    requires SameShape(a, b) && |a| == |b| && i <= |a| && FlatFrom(a, i) == FlatFrom(b, i)
    ensures a[i..] == b[i..]
    decreases |a| - i
  {
    if i < |a| {
      SizesAt(a, b, i);
      assert FlatFrom(a, i)[..|a[i]|] == a[i] && FlatFrom(b, i)[..|b[i]|] == b[i];
      assert FlatFrom(a, i)[|a[i]|..] == FlatFrom(a, i + 1) && FlatFrom(b, i)[|b[i]|..] == FlatFrom(b, i + 1);
      ShapeAndBytes(a, b, i + 1);
      assert a[i..] == [a[i]] + a[i + 1..] && b[i..] == [b[i]] + b[i + 1..];
    }
  }

  /** A vectored write followed by a vectored read of the same range into buffers of the same sizes
      gives every segment back. */
  lemma WriteThenRead(file: Bytes, after: Bytes, offset: nat, buffers: seq<Bytes>, out: seq<Bytes>)
    requires Reached(after, file, offset, Flat(buffers), |Flat(buffers)|)
    requires SameShape(out, buffers) && Flat(out) == Read(after, offset, |Flat(buffers)|)
    ensures out == buffers
  {
    assert Flat(buffers)[..|Flat(buffers)|] == Flat(buffers);
    assert Read(after, offset, |Flat(buffers)|) == Flat(buffers);
    assert |Sizes(out)| == |out| && |Sizes(buffers)| == |buffers|;
    ShapeAndBytes(out, buffers, 0);
    assert out[0..] == out && buffers[0..] == buffers;
  }
}
