/** The two dead-letter stores of alerts/deadletter.go, a bounded list in memory and a file of
    newline-terminated rows, against one simple log of everything inserted. */
module DeadLetter {
  import opened Common

  newtype Byte = x: int | 0 <= x < 256

  const NEWLINE: Byte := 10

  /** The row encoder; JSON in the source. */
  datatype Codec<!T> = Codec(encode: T -> seq<Byte>, decode: seq<Byte> -> Option<T>)

  /** An encoded row is one non-empty line and decodes to itself. */
  predicate RoundTrips<T(==)>(c: Codec<T>, t: T) {
    c.decode(c.encode(t)) == Some(t) && NEWLINE !in c.encode(t) && c.encode(t) != []
  }

  ghost predicate Sound<T(!new)>(c: Codec<T>) { forall t: T :: RoundTrips(c, t) }

  // ------------------------------------------------------------------
  // The abstract log
  // ------------------------------------------------------------------

  function Reversed<T>(s: seq<T>): seq<T> {
    seq(|s|, i requires 0 <= i < |s| => s[|s| - 1 - i])
  }

  /** The newest `limit` entries, newest first; a limit of 0 or less means all. */
  function Listing<T>(log: seq<T>, limit: int): seq<T> {
    Reversed(if limit <= 0 then log else Newest(log, limit))
  }

  // ------------------------------------------------------------------
  // Memory store
  // ------------------------------------------------------------------

  class MemoryStore<T> {
    const max: nat
    var entries: seq<T>

    constructor (maxEntries: int)
      ensures entries == [] && max == if maxEntries <= 0 then 1024 else maxEntries
    {
      max := if maxEntries <= 0 then 1024 else maxEntries;
      entries := [];
    }

    method Insert(dl: T)
      modifies this
      ensures entries == Newest(old(entries) + [dl], max)
    {
      entries := entries + [dl];
      if |entries| > max {
        entries := entries[|entries| - max..];
      }
    }

    method List(limit: int) returns (out: seq<T>)
      ensures out == Listing(entries, limit)
    {
      var n := if limit <= 0 || limit > |entries| then |entries| else limit;
      out := [];
      var i := |entries| - 1;
      while i >= 0 && |out| < n
        invariant -1 <= i < |entries| && |out| == |entries| - 1 - i <= n
        invariant forall j :: 0 <= j < |out| ==> out[j] == entries[|entries| - 1 - j]
      {
        out := out + [entries[i]];
        i := i - 1;
      }
    }
  }

  // ------------------------------------------------------------------
  // File store
  // ------------------------------------------------------------------

  /** The newline-terminated lines of a file, and what follows the last newline. */
  datatype Text = Text(lines: seq<seq<Byte>>, tail: seq<Byte>)

  /** The text after one more byte. */
  function More(t: Text, b: Byte): Text {
    if b == NEWLINE then Text(t.lines + [t.tail], []) else Text(t.lines, t.tail + [b])
  }

  function Scan(data: seq<Byte>): Text {
    if data == [] then Text([], []) else More(Scan(data[..|data| - 1]), data[|data| - 1])
  }

  lemma ScanNext(data: seq<Byte>, i: nat)
    requires i < |data|
    ensures Scan(data[..i + 1]) == More(Scan(data[..i]), data[i])
  {
    assert data[..i + 1][..i] == data[..i];
  }

  /** A non-empty tail counts as a line. */
  function AllLines(t: Text): seq<seq<Byte>> {
    if t.tail == [] then t.lines else t.lines + [t.tail]
  }

  lemma SliceGrows(data: seq<Byte>, start: nat, i: nat)
    requires start <= i < |data|
    ensures data[start..i + 1] == data[start..i] + [data[i]]
  {
  }

  /** One turn of the splitting loop: `out` are the lines so far, the open one began at `start`. */
  lemma SplitNext(data: seq<Byte>, out: seq<seq<Byte>>, start: nat, i: nat)
    requires start <= i < |data| && Scan(data[..i]) == Text(out, data[start..i])
    ensures Scan(data[..i + 1])
            == if data[i] == NEWLINE then Text(out + [data[start..i]], []) else Text(out, data[start..i + 1])
  {
    ScanNext(data, i);
    SliceGrows(data, start, i);
  }

  method SplitLines(data: seq<Byte>) returns (out: seq<seq<Byte>>)
    ensures out == AllLines(Scan(data))
  {
    out := [];
    var start := 0;
    for i := 0 to |data|
      invariant 0 <= start <= i
      invariant Scan(data[..i]) == Text(out, data[start..i])
    {
      SplitNext(data, out, start, i);
      if data[i] == NEWLINE {
        out := out + [data[start..i]];
        start := i + 1;
        assert data[start..i + 1] == [];
      }
    }
    assert data[..|data|] == data;
    if start < |data| {
      out := out + [data[start..]];
    }
  }

  function Row<T>(c: Codec<T>, line: seq<Byte>): seq<T> {
    if line == [] || c.decode(line).None? then [] else [c.decode(line).value]
  }

  /** Lines put back together, a newline after each. */
  function Joined(lines: seq<seq<Byte>>): seq<Byte> {
    if lines == [] then [] else Joined(lines[..|lines| - 1]) + (lines[|lines| - 1] + [10])
  }

  lemma JoinedMore(lines: seq<seq<Byte>>, line: seq<Byte>)
    ensures Joined(lines + [line]) == Joined(lines) + (line + [10])
  {
    assert (lines + [line])[..|lines|] == lines;
  }

  predicate NoNewline(line: seq<Byte>) { forall i :: 0 <= i < |line| ==> line[i] != 10 }

  lemma {:induction false} ScanHasNoNewline(data: seq<Byte>)
    ensures NoNewline(Scan(data).tail)
    ensures forall i :: 0 <= i < |Scan(data).lines| ==> NoNewline(Scan(data).lines[i])
  {
    if data == [] {
    } else {
      ScanHasNoNewline(data[..|data| - 1]);
    }
  }

  lemma RejoinMore(t: Text, b: Byte, data: seq<Byte>)
    requires Joined(t.lines) + t.tail == data
    ensures Joined(More(t, b).lines) + More(t, b).tail == data + [b]
  {
    JoinedMore(t.lines, t.tail);
    if b == 10 {
      assert Joined(t.lines + [t.tail]) + [] == (Joined(t.lines) + t.tail) + [b];
    } else {
      assert Joined(t.lines) + (t.tail + [b]) == (Joined(t.lines) + t.tail) + [b];
    }
  }

  /** Splitting loses and invents no byte. */
  lemma {:induction false} ScanLossless(data: seq<Byte>)
    ensures Joined(Scan(data).lines) + Scan(data).tail == data
  {
    if data == [] {
    } else {
      var n := |data| - 1;
      ScanLossless(data[..n]);
      RejoinMore(Scan(data[..n]), data[n], data[..n]);
      assert data == data[..n] + [data[n]];
    }
  }

  /** The rows that decode; empty and corrupt lines are skipped. */
  function Rows<T>(c: Codec<T>, lines: seq<seq<Byte>>): seq<T> {
    if lines == [] then []
    else
      var n := |lines| - 1;
      Rows(c, lines[..n]) + Row(c, lines[n])
  }

  method ReverseInPlace<T>(a: array<T>)
    modifies a
    ensures a[..] == Reversed(old(a[..]))
  {
    var i, j := 0, a.Length - 1;
    while i < j
      invariant 0 <= i && j == a.Length - 1 - i && i <= j + 1
      invariant forall k :: 0 <= k < i ==> a[k] == old(a[a.Length - 1 - k])
      invariant forall k :: j < k < a.Length ==> a[k] == old(a[a.Length - 1 - k])
      invariant forall k :: i <= k <= j ==> a[k] == old(a[k])
    {
      a[i], a[j] := a[j], a[i];
      i, j := i + 1, j - 1;
    }
  }

  class FileStore<T(0, !new)> {
    const codec: Codec<T>
    var file: seq<Byte>

    constructor (codec: Codec<T>, existing: seq<Byte>)
      ensures this.codec == codec && file == existing
    {
      this.codec, file := codec, existing;
    }

    /** One append. `written` is how many bytes reach the file: fewer than the whole line is a
        torn write, reported as an error. */
    method Insert(dl: T, written: nat) returns (failed: bool)
      modifies this
      ensures failed == (written <= |codec.encode(dl)|)
      ensures file == old(file) + (codec.encode(dl) + [10])[..Min(written, |codec.encode(dl)| + 1)]
    {
      var line := codec.encode(dl) + [NEWLINE];
      if written < |line| {
        file := file + line[..written];
        return true;
      }
      file := file + line;
      return false;
    }

    /** The first loop of List: empty and corrupt lines are skipped. */
    method DecodeRows(lines: seq<seq<Byte>>) returns (rows: seq<T>)
      ensures rows == Rows(codec, lines)
    {
      rows := [];
      for i := 0 to |lines|
        invariant rows == Rows(codec, lines[..i])
      {
        assert lines[..i + 1][..i] == lines[..i];
        if |lines[i]| != 0 {
          var dl := codec.decode(lines[i]);
          if dl.Some? {
            rows := rows + [dl.value];
          }
        }
      }
      assert lines[..|lines|] == lines;
    }

    method List(limit: int) returns (result: seq<T>)
      ensures result == Listing(Rows(codec, AllLines(Scan(file))), limit)
    {
      var lines := SplitLines(file);
      var rows := DecodeRows(lines);
      result := CapAndReverse(rows, limit);
    }

    /** The end of List: keep the newest rows, then swap them into newest-first order. */
    method CapAndReverse(rows: seq<T>, limit: int) returns (result: seq<T>)
      ensures result == Listing(rows, limit)
    {
      var out := rows;
      if limit > 0 && limit < |out| {
        out := out[|out| - limit..];
      }
      assert out == if limit <= 0 then rows else Newest(rows, limit);
      var a := new T[|out|](k requires 0 <= k < |out| => out[k]);
      assert a[..] == out;
      ReverseInPlace(a);
      result := a[..];
    }
  }

  // ------------------------------------------------------------------
  // Both stores show the log
  // ------------------------------------------------------------------

  /** The memory store after inserting the whole log, one entry at a time. */
  function Kept<T>(log: seq<T>, max: nat): seq<T> {
    if log == [] then [] else Newest(Kept(log[..|log| - 1], max) + [log[|log| - 1]], max)
  }

  lemma NewestOfMore<T>(log: seq<T>, max: nat, dl: T)
    ensures Newest(Newest(log, max) + [dl], max) == Newest(log + [dl], max)
  {
  }

  /** It holds the newest max entries of everything inserted. */
  lemma {:induction false} MemoryHoldsNewest<T>(log: seq<T>, max: nat)
    ensures Kept(log, max) == Newest(log, max)
  {
    if log == [] {
    } else {
      var n := |log| - 1;
      MemoryHoldsNewest(log[..n], max);
      assert log == log[..n] + [log[n]];
      NewestOfMore(log[..n], max, log[n]);
    }
  }

  lemma NewestListing<T>(log: seq<T>, max: nat, limit: int)
    ensures var out := Listing(Newest(log, max), limit);
            && |out| == (if limit <= 0 then Min(max, |log|) else Min(limit, Min(max, |log|)))
            && forall i :: 0 <= i < |out| ==> out[i] == log[|log| - 1 - i]
  {
  }

  /** What the memory store lists: the newest min(limit, max, n) insertions, newest first. */
  lemma MemoryListing<T>(log: seq<T>, max: nat, limit: int)
    ensures var out := Listing(Kept(log, max), limit);
            && |out| == (if limit <= 0 then Min(max, |log|) else Min(limit, Min(max, |log|)))
            && forall i :: 0 <= i < |out| ==> out[i] == log[|log| - 1 - i]
  {
    MemoryHoldsNewest(log, max);
    NewestListing(log, max, limit);
  }

  function Encoded<T>(c: Codec<T>, log: seq<T>): seq<Byte> {
    if log == [] then [] else Encoded(c, log[..|log| - 1]) + (c.encode(log[|log| - 1]) + [NEWLINE])
  }

  /** Appending bytes without a newline only grows the tail. */
  lemma {:induction false} TailGrows(data: seq<Byte>, more: seq<Byte>)
    requires NEWLINE !in more
    ensures Scan(data + more) == Text(Scan(data).lines, Scan(data).tail + more)
  {
    if more == [] {
      assert data + more == data;
    } else {
      var n := |more| - 1;
      assert (data + more)[..|data| + n] == data + more[..n];
      TailGrows(data, more[..n]);
      assert (Scan(data).tail + more[..n]) + [more[n]] == Scan(data).tail + more;
    }
  }

  lemma LineEnds(data: seq<Byte>, line: seq<Byte>)
    requires NEWLINE !in line
    ensures Scan(data + (line + [NEWLINE])) == Text(Scan(data).lines + [Scan(data).tail + line], [])
  {
    var all := data + (line + [NEWLINE]);
    assert all[..|all| - 1] == data + line;
    TailGrows(data, line);
  }

  lemma RowsAppend<T>(c: Codec<T>, lines: seq<seq<Byte>>, line: seq<Byte>)
    ensures Rows(c, lines + [line]) == Rows(c, lines) + Row(c, line)
  {
    assert (lines + [line])[..|lines|] == lines;
  }

  lemma {:induction false} RowsConcat<T>(c: Codec<T>, a: seq<seq<Byte>>, b: seq<seq<Byte>>)
    ensures Rows(c, a + b) == Rows(c, a) + Rows(c, b)
  {
    if b == [] {
      assert a + b == a;
    } else {
      var n := |b| - 1;
      assert (a + b)[..|a| + n] == a + b[..n];
      RowsConcat(c, a, b[..n]);
    }
  }

  lemma OneLine<T>(c: Codec<T>, line: seq<Byte>)
    ensures Rows(c, [line]) == if line == [] || c.decode(line).None? then [] else [c.decode(line).value]
  {
    assert [line][..0] == [];
  }

  /** Anywhere in a file, a line that decodes is one row of the listing, and an empty or corrupt
      line is passed over without harm to the rows around it. */
  lemma LinesReadAlone<T>(c: Codec<T>, before: seq<seq<Byte>>, line: seq<Byte>, after: seq<seq<Byte>>)
    ensures Rows(c, before + [line] + after)
            == Rows(c, before) + (if line == [] || c.decode(line).None? then [] else [c.decode(line).value])
               + Rows(c, after)
  {
    RowsConcat(c, before + [line], after);
    RowsConcat(c, before, [line]);
    OneLine(c, line);
  }

  /** What a file says: the rows of its complete lines, and its tail. */
  ghost predicate Reads<T>(c: Codec<T>, file: seq<Byte>, rows: seq<T>, tail: seq<Byte>) {
    Rows(c, Scan(file).lines) == rows && Scan(file).tail == tail
  }

  lemma ReadsLine<T>(c: Codec<T>, file: seq<Byte>, rows: seq<T>, tail: seq<Byte>, line: seq<Byte>)
    requires Reads(c, file, rows, tail) && NEWLINE !in line
    ensures Reads(c, file + (line + [NEWLINE]), rows + Row(c, tail + line), [])
  {
    LineEnds(file, line);
    RowsAppend(c, Scan(file).lines, tail + line);
  }

  lemma ReadsTorn<T>(c: Codec<T>, file: seq<Byte>, rows: seq<T>, tail: seq<Byte>, torn: seq<Byte>)
    requires Reads(c, file, rows, tail) && NEWLINE !in torn
    ensures Reads(c, file + torn, rows, tail + torn)
  {
    TailGrows(file, torn);
  }

  lemma ReadsAll<T>(c: Codec<T>, file: seq<Byte>, rows: seq<T>, tail: seq<Byte>)
    requires Reads(c, file, rows, tail)
    ensures Rows(c, AllLines(Scan(file))) == rows + Row(c, tail)
  {
    if tail != [] {
      RowsAppend(c, Scan(file).lines, tail);
    }
  }

  lemma RowOf<T>(c: Codec<T>, dl: T)
    requires RoundTrips(c, dl)
    ensures Row(c, [] + c.encode(dl)) == [dl]
  {
    assert [] + c.encode(dl) == c.encode(dl);
  }

  lemma {:induction false} FileRows<T(!new)>(c: Codec<T>, log: seq<T>)
    requires Sound(c)
    ensures Reads(c, Encoded(c, log), log, [])
  {
    if log == [] {
    } else {
      var n := |log| - 1;
      var before := log[..n];
      FileRows(c, before);
      assert RoundTrips(c, log[n]);
      ReadsLine(c, Encoded(c, before), before, [], c.encode(log[n]));
      RowOf(c, log[n]);
      assert log == before + [log[n]];
    }
  }

  /** A file of whole rows reads back as the log. */
  lemma FileMeetsLog<T(!new)>(c: Codec<T>, log: seq<T>)
    requires Sound(c)
    ensures Rows(c, AllLines(Scan(Encoded(c, log)))) == log
  {
    FileRows(c, log);
    ReadsAll(c, Encoded(c, log), log, []);
  }

  /** With at most max insertions the two stores give the same answer to every query. */
  lemma StoresAgree<T(!new)>(c: Codec<T>, log: seq<T>, max: nat, limit: int)
    requires Sound(c) && |log| <= max
    ensures Listing(Rows(c, AllLines(Scan(Encoded(c, log)))), limit) == Listing(Kept(log, max), limit)
  {
    FileMeetsLog(c, log);
    MemoryHoldsNewest(log, max);
  }

  /** A torn final write never loses or changes an earlier row; at most it adds the row whose
      bytes it completed. */
  lemma TornWriteKeepsRows<T(!new)>(c: Codec<T>, log: seq<T>, torn: seq<Byte>)
    requires Sound(c) && NEWLINE !in torn
    ensures Rows(c, AllLines(Scan(Encoded(c, log) + torn))) == log + Row(c, torn)
  {
    FileRows(c, log);
    ReadsTorn(c, Encoded(c, log), log, [], torn);
    assert [] + torn == torn;
    ReadsAll(c, Encoded(c, log) + torn, log, torn);
  }

  /** The bytes of a cut-off or whole row followed by another row decode to nothing, as with
      JSON objects: one that is never closed, or that has another behind it, is not a document. */
  ghost predicate SelfDelimiting<T(!new)>(c: Codec<T>) {
    forall x: T, y: T, torn: seq<Byte> :: torn != [] && torn <= c.encode(x) ==> c.decode(torn + c.encode(y)).None?
  }

  lemma ReadsTornThenWhole<T(!new)>(c: Codec<T>, log: seq<T>, torn: seq<Byte>, dl: T)
    requires Sound(c) && NEWLINE !in torn
    ensures Rows(c, AllLines(Scan((Encoded(c, log) + torn) + (c.encode(dl) + [NEWLINE]))))
            == log + Row(c, torn + c.encode(dl))
  {
    var line := c.encode(dl);
    assert RoundTrips(c, dl);
    FileRows(c, log);
    ReadsTorn(c, Encoded(c, log), log, [], torn);
    assert [] + torn == torn;
    ReadsLine(c, Encoded(c, log) + torn, log, torn, line);
    ReadsAll(c, (Encoded(c, log) + torn) + (line + [NEWLINE]), log + Row(c, torn + line), []);
    assert (log + Row(c, torn + line)) + Row(c, []) == log + Row(c, torn + line);
  }

  lemma SameRow<T>(c: Codec<T>, log: seq<T>, line: seq<Byte>, dl: T)
    requires line != []
    ensures log + Row(c, line) == log + [dl] <==> c.decode(line) == Some(dl)
  {
    var all := log + Row(c, line);
    if all == log + [dl] {
      assert |Row(c, line)| == 1;
      assert all[|log|] == dl;
    }
  }

  /** But the insertion after a torn write shares its line: it is read back exactly when the
      torn bytes and the new row together decode to the new row. */
  lemma NextInsertAfterTorn<T(!new)>(c: Codec<T>, log: seq<T>, torn: seq<Byte>, dl: T)
    requires Sound(c) && NEWLINE !in torn
    ensures Rows(c, AllLines(Scan((Encoded(c, log) + torn) + (c.encode(dl) + [NEWLINE])))) == log + [dl]
            <==> c.decode(torn + c.encode(dl)) == Some(dl)
  {
    assert RoundTrips(c, dl);
    ReadsTornThenWhole(c, log, torn, dl);
    SameRow(c, log, torn + c.encode(dl), dl);
  }

  /** With rows that delimit themselves, tearing off a write of x anywhere past its first byte
      loses the next insertion for good, and x too had all but its newline been written. */
  lemma TornLosesTheNext<T(!new)>(c: Codec<T>, log: seq<T>, x: T, torn: seq<Byte>, dl: T)
    requires Sound(c) && SelfDelimiting(c) && torn <= c.encode(x)
    ensures Rows(c, AllLines(Scan((Encoded(c, log) + torn) + (c.encode(dl) + [NEWLINE]))))
            == if torn == [] then log + [dl] else log
  {
    assert RoundTrips(c, x) && RoundTrips(c, dl);
    ReadsTornThenWhole(c, log, torn, dl);
    if torn == [] {
      assert torn + c.encode(dl) == c.encode(dl);
    }
  }
}
