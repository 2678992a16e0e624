/** Finding a mount by its source in `/proc/self/mountinfo`, over bytes. The rendering of a table is
    the partner: lines as the lookup's own documentation describes them. */
module MountTable {
  import opened Wrappers

  type Byte = b: int | 0 <= b < 256
  type Bytes = seq<Byte>

  const SPACE: Byte := 32
  const NEWLINE: Byte := 10
  const BACKSLASH: Byte := 92
  const DASH: Bytes := [45]

  // ---------------------------------------------------------------------------
  // Escapes
  // ---------------------------------------------------------------------------

  predicate Special(b: Byte) {
    b == SPACE || b == 9 || b == NEWLINE || b == BACKSLASH
  }

  /** A backslash and three octal digits. */
  function Octal(b: Byte): Bytes {
    [BACKSLASH, 48 + b / 64, 48 + b / 8 % 8, 48 + b % 8]
  }

  function EscapeByte(b: Byte): Bytes {
    if Special(b) then Octal(b) else [b]
  }

  function Escape(s: Bytes): Bytes {
    if s == [] then [] else EscapeByte(s[0]) + Escape(s[1..])
  }

  lemma {:induction false} EscapeAppend(s: Bytes, b: Byte)
    ensures Escape(s + [b]) == Escape(s) + EscapeByte(b)
  {
    if s == [] {
      assert (s + [b])[1..] == [];
    } else {
      EscapeAppend(s[1..], b);
      assert (s + [b])[1..] == s[1..] + [b] && (s + [b])[0] == s[0];
      Associate(EscapeByte(s[0]), Escape(s[1..]), EscapeByte(b));
    }
  }

  lemma Associate(a: Bytes, b: Bytes, c: Bytes)
    ensures a + (b + c) == a + b + c
  {
  }

  /** `mountinfo_escaped`. */
  method MountinfoEscaped(bytes: Bytes) returns (escaped: Bytes)
    ensures escaped == Escape(bytes)
  {
    escaped := [];
    for i := 0 to |bytes|
      invariant escaped == Escape(bytes[..i])
    {
      EscapeAppend(bytes[..i], bytes[i]);
      assert bytes[..i + 1] == bytes[..i] + [bytes[i]];
      escaped := escaped + (if Special(bytes[i]) then Octal(bytes[i]) else [bytes[i]]);
    }
    assert bytes[..|bytes|] == bytes;
  }

  /** What the kernel's reader sees: three octal digits after a backslash are a byte. */
  function Unescape(s: seq<int>): seq<int> {
    if s == [] then []
    else if s[0] == BACKSLASH && |s| >= 4 then
      [(s[1] - 48) * 64 + (s[2] - 48) * 8 + (s[3] - 48)] + Unescape(s[4..])
    else [s[0]] + Unescape(s[1..])
  }

  lemma OctalRoundTrip(b: Byte)
    requires Special(b)
    ensures var o := Octal(b); (o[1] - 48) * 64 + (o[2] - 48) * 8 + (o[3] - 48) == b
    ensures Octal(b)[1] >= 48 && Octal(b)[2] >= 48 && Octal(b)[3] >= 48
  {
  }

  lemma {:induction false} EscapeRoundTrip(s: Bytes)
    ensures Unescape(Escape(s)) == s
  {
    if s != [] {
      EscapeRoundTrip(s[1..]);
      if Special(s[0]) {
        OctalRoundTrip(s[0]);
        assert Escape(s)[4..] == Escape(s[1..]);
      } else {
        assert Escape(s)[1..] == Escape(s[1..]);
      }
    }
  }

  /** A source is written as it is exactly when it holds no space, tab, newline or backslash. */
  lemma {:induction false} EscapedOnlyWhereNeeded(s: Bytes)
    ensures |Escape(s)| >= |s|
    ensures Escape(s) == s <==> 32 !in s && 9 !in s && 10 !in s && 92 !in s
  {
    if s != [] {
      EscapedOnlyWhereNeeded(s[1..]);
      assert s == [s[0]] + s[1..];
      if !Special(s[0]) { assert Escape(s)[1..] == Escape(s[1..]); }
    }
  }

  lemma EscapeInjective(a: Bytes, b: Bytes)
    requires Escape(a) == Escape(b)
    ensures a == b
  {
    EscapeRoundTrip(a);
    EscapeRoundTrip(b);
  }

  lemma {:induction false} EscapedIsOneField(s: Bytes)
    ensures SPACE !in Escape(s) && NEWLINE !in Escape(s) && 9 !in Escape(s)
  {
    if s != [] {
      EscapedIsOneField(s[1..]);
      if Special(s[0]) { OctalRoundTrip(s[0]); }
    }
  }

  // ---------------------------------------------------------------------------
  // Splitting
  // ---------------------------------------------------------------------------

  /** `slice::split`: always at least one piece. */
  function Split(s: Bytes, sep: Byte): (pieces: seq<Bytes>)
    ensures |pieces| >= 1
  {
    if s == [] then [[]]
    else
      var rest := Split(s[1..], sep);
      if s[0] == sep then [[]] + rest else [[s[0]] + rest[0]] + rest[1..]
  }

  function Join(pieces: seq<Bytes>, sep: Byte): Bytes
    requires |pieces| >= 1
  {
    if |pieces| == 1 then pieces[0] else pieces[0] + [sep] + Join(pieces[1..], sep)
  }

  lemma {:induction false} SplitFirst(piece: Bytes, sep: Byte, rest: Bytes)
    requires sep !in piece
    ensures Split(piece + [sep] + rest, sep) == [piece] + Split(rest, sep)
  {
    var s := piece + [sep] + rest;
    if piece == [] {
      assert s[1..] == rest;
    } else {
      SplitFirst(piece[1..], sep, rest);
      assert s[1..] == piece[1..] + [sep] + rest && s[0] == piece[0];
      assert piece == [piece[0]] + piece[1..];
    }
  }

  lemma {:induction false} SplitWhole(piece: Bytes, sep: Byte)
    requires sep !in piece
    ensures Split(piece, sep) == [piece]
  {
    if piece != [] {
      SplitWhole(piece[1..], sep);
      assert piece == [piece[0]] + piece[1..];
    }
  }

  lemma {:induction false} SplitJoin(pieces: seq<Bytes>, sep: Byte)
    requires |pieces| >= 1 && forall p :: p in pieces ==> sep !in p
    ensures Split(Join(pieces, sep), sep) == pieces
  {
    if |pieces| == 1 {
      SplitWhole(pieces[0], sep);
    } else {
      SplitJoin(pieces[1..], sep);
      SplitFirst(pieces[0], sep, Join(pieces[1..], sep));
    }
  }

  // ---------------------------------------------------------------------------
  // The lookup
  // ---------------------------------------------------------------------------

  /** What follows the first ` - ` of a line. */
  function AfterSeparator(line: Bytes): Option<Bytes> {
    if |line| < 3 then None
    else if line[0] == SPACE && line[1] == 45 && line[2] == SPACE then Some(line[3..])
    else AfterSeparator(line[1..])
  }

  predicate LineLists(line: Bytes, escaped: Bytes) {
    var after := AfterSeparator(line);
    after.Some? && var fields := Split(after.value, SPACE); |fields| > 1 && fields[1] == escaped
  }

  /** `mount_table_lists`. */
  predicate MountTableLists(table: Bytes, source: Bytes) {
    exists line :: line in Split(table, NEWLINE) && LineLists(line, Escape(source))
  }

  // ---------------------------------------------------------------------------
  // Tables
  // ---------------------------------------------------------------------------

  /** A mount: the fields before the separator, and the three after it. */
  datatype Mount = Mount(fields: seq<Bytes>, fsType: Bytes, source: Bytes, options: Bytes)

  ghost predicate IsField(f: Bytes) {
    SPACE !in f && NEWLINE !in f
  }

  ghost predicate WellFormed(m: Mount) {
    && |m.fields| >= 1 && (forall f :: f in m.fields ==> IsField(f)) && DASH !in m.fields
    && IsField(m.fsType) && IsField(m.options)
  }

  function Tail(m: Mount): seq<Bytes> {
    [m.fsType, Escape(m.source), m.options]
  }

  function Render(m: Mount): Bytes {
    Join(m.fields + [DASH] + Tail(m), SPACE)
  }

  function RenderTable(mounts: seq<Mount>): Bytes {
    if mounts == [] then [] else Render(mounts[0]) + [NEWLINE] + RenderTable(mounts[1..])
  }

  lemma {:induction false} SkipField(f: Bytes, rest: Bytes)
    requires SPACE !in f
    ensures AfterSeparator(f + [SPACE] + rest) == AfterSeparator([SPACE] + rest)
  {
    var line := f + [SPACE] + rest;
    if f == [] {
      assert line == [SPACE] + rest;
    } else {
      SkipField(f[1..], rest);
      assert line[1..] == f[1..] + [SPACE] + rest;
      assert line[0] == f[0];
    }
  }

  /** A field other than `-` is no separator. */
  lemma SkipSpace(f: Bytes, rest: Bytes)
    requires SPACE !in f && f != DASH
    ensures AfterSeparator([SPACE] + (f + [SPACE] + rest)) == AfterSeparator(f + [SPACE] + rest)
  {
    var line := [SPACE] + (f + [SPACE] + rest);
    assert line[1..] == f + [SPACE] + rest;
    if f == [] {
      assert line[1] == SPACE;
    } else {
      assert line[1] == f[0];
      if |f| > 1 { assert line[2] == f[1]; }
    }
  }

  lemma {:induction false} SeparatorIsFound(fields: seq<Bytes>, tail: seq<Bytes>)
    requires |tail| >= 1 && (forall f :: f in fields ==> IsField(f)) && DASH !in fields
    ensures AfterSeparator([SPACE] + Join(fields + [DASH] + tail, SPACE)) == Some(Join(tail, SPACE))
  {
    var all := fields + [DASH] + tail;
    if fields == [] {
      assert all[1..] == tail;
      var line := [SPACE] + Join(all, SPACE);
      assert line == [SPACE, 45, SPACE] + Join(tail, SPACE);
    } else {
      assert all[1..] == fields[1..] + [DASH] + tail && IsField(fields[0]);
      SeparatorIsFound(fields[1..], tail);
      SkipSpace(fields[0], Join(all[1..], SPACE));
      SkipField(fields[0], Join(all[1..], SPACE));
    }
  }

  lemma RenderSeparates(m: Mount)
    requires WellFormed(m)
    ensures AfterSeparator(Render(m)) == Some(Join(Tail(m), SPACE))
  {
    var all := m.fields + [DASH] + Tail(m);
    assert all[1..] == m.fields[1..] + [DASH] + Tail(m) && IsField(m.fields[0]);
    SeparatorIsFound(m.fields[1..], Tail(m));
    SkipField(m.fields[0], Join(all[1..], SPACE));
  }

  lemma LineFindsItsSource(m: Mount, source: Bytes)
    requires WellFormed(m)
    ensures LineLists(Render(m), Escape(source)) <==> m.source == source
  {
    RenderSeparates(m);
    EscapedIsOneField(m.source);
    SplitJoin(Tail(m), SPACE);
    if Escape(m.source) == Escape(source) { EscapeInjective(m.source, source); }
  }

  lemma {:induction false} JoinNoNewline(pieces: seq<Bytes>)
    requires |pieces| >= 1 && forall p :: p in pieces ==> NEWLINE !in p
    ensures NEWLINE !in Join(pieces, SPACE)
  {
    if |pieces| > 1 { JoinNoNewline(pieces[1..]); }
  }

  lemma RenderIsOneLine(m: Mount)
    requires WellFormed(m)
    ensures NEWLINE !in Render(m)
  {
    EscapedIsOneField(m.source);
    JoinNoNewline(m.fields + [DASH] + Tail(m));
  }

  lemma {:induction false} TableLines(mounts: seq<Mount>)
    requires forall m :: m in mounts ==> WellFormed(m)
    ensures Split(RenderTable(mounts), NEWLINE) == Lines(mounts)
  {
    if mounts != [] {
      TableLines(mounts[1..]);
      RenderIsOneLine(mounts[0]);
      SplitFirst(Render(mounts[0]), NEWLINE, RenderTable(mounts[1..]));
    }
  }

  /** The lines of a table: one for each mount and an empty one after the last newline. */
  function Lines(mounts: seq<Mount>): seq<Bytes> {
    if mounts == [] then [[]] else [Render(mounts[0])] + Lines(mounts[1..])
  }

  lemma {:induction false} LinesList(mounts: seq<Mount>, source: Bytes)
    requires forall m :: m in mounts ==> WellFormed(m)
    ensures (exists line :: line in Lines(mounts) && LineLists(line, Escape(source)))
            <==> exists m :: m in mounts && m.source == source
  {
    if mounts != [] {
      LinesList(mounts[1..], source);
      LineFindsItsSource(mounts[0], source);
    }
  }

  /** A table lists a source exactly when it holds a mount of it, whatever bytes the source and the
      other fields hold. */
  lemma ListsExactlyTheMounted(mounts: seq<Mount>, source: Bytes)
    requires forall m :: m in mounts ==> WellFormed(m)
    ensures MountTableLists(RenderTable(mounts), source) <==> exists m :: m in mounts && m.source == source
  {
    TableLines(mounts);
    LinesList(mounts, source);
  }
}
