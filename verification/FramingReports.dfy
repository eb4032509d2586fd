/**
 Exactly which outputs of Git the parsers accept, and what they report of the others.
 */
module FramingReports {
  import opened Common
  import opened Framing
  import opened GitRecords

  // ---------------------------------------------------------------- cutting

  predicate AllWithout(fields: seq<string>, c: char) {
    forall n | 0 <= n < |fields| :: Without(fields[n], c)
  }

  /** Cutting at a separator loses nothing. */
  lemma {:induction false} JoinSplit(s: string, sep: char, i: nat)
    requires i <= |s|
    ensures Split(s, sep, i) != [] && AllWithout(Split(s, sep, i), sep)
    ensures Joined(Split(s, sep, i), sep, 0) == s[i..]
    decreases |s| - i
  {
    hide Joined, AllWithout, Split;
    if Next(s, sep, i) < |s| {
      var n := Next(s, sep, i);
      var first, rest := s[i..n], Split(s, sep, n + 1);
      JoinSplit(s, sep, n + 1);
      SplitMore(s, sep, i);
      JoinMore(first, rest, sep);
      WithoutMore(first, rest, sep);
      assert s[i..] == first + [sep] + s[n + 1..];
    } else {
      SplitLast(s, sep, i);
    }
  }

  lemma SplitLast(s: string, sep: char, i: nat)
    requires i <= |s| && Next(s, sep, i) == |s|
    ensures Split(s, sep, i) == [s[i..]] && Joined([s[i..]], sep, 0) == s[i..] && AllWithout([s[i..]], sep)
  {
  }

  lemma WithoutMore(first: string, rest: seq<string>, sep: char)
    requires Without(first, sep) && AllWithout(rest, sep)
    ensures AllWithout([first] + rest, sep)
  {
  }

  lemma SplitMore(s: string, sep: char, i: nat)
    requires i <= |s| && Next(s, sep, i) < |s|
    ensures var n := Next(s, sep, i); Split(s, sep, i) == [s[i..n]] + Split(s, sep, n + 1)
  {
  }

  lemma JoinMore(first: string, rest: seq<string>, sep: char)
    requires rest != []
    ensures Joined([first] + rest, sep, 0) == first + [sep] + Joined(rest, sep, 0)
  {
    JoinedLater([first], rest, sep, 0);
  }

  lemma {:induction false} JoinedLater(first: seq<string>, rest: seq<string>, sep: char, k: nat)
    requires k < |rest|
    ensures Joined(first + rest, sep, |first| + k) == Joined(rest, sep, k)
    decreases |rest| - k
  {
    if k < |rest| - 1 {
      JoinedLater(first, rest, sep, k + 1);
    }
  }

  /** Three words with single blanks between them, and nothing else. */
  lemma ThreeWords(header: string, a: string, b: string, c: string)
    ensures Split(header, ' ', 0) == [a, b, c]
            <==> header == a + " " + b + " " + c && Without(a, ' ') && Without(b, ' ') && Without(c, ' ')
  {
    var words := [a, b, c];
    JoinThree(a, b, c, ' ');
    assert a + [' '] + (b + [' '] + c) == a + " " + b + " " + c;
    if Split(header, ' ', 0) == words {
      JoinSplit(header, ' ', 0);
      assert header[0..] == header;
      assert words[0] == a && words[1] == b && words[2] == c;
    }
    if header == a + " " + b + " " + c && Without(a, ' ') && Without(b, ' ') && Without(c, ' ') {
      SplitAll(words, ' ');
    }
  }

  lemma TwoWords(header: string, a: string, b: string)
    ensures Split(header, ' ', 0) == [a, b] <==> header == a + " " + b && Without(a, ' ') && Without(b, ' ')
  {
    var words := [a, b];
    assert Joined(words, ' ', 1) == b;
    assert Joined(words, ' ', 0) == a + " " + b;
    if Split(header, ' ', 0) == words {
      JoinSplit(header, ' ', 0);
      assert header[0..] == header && words[0] == a && words[1] == b;
    }
    if header == a + " " + b && Without(a, ' ') && Without(b, ' ') {
      SplitAll(words, ' ');
    }
  }

  // ---------------------------------------------------------------- tree listings

  function HeaderText(e: TreeEntry): string {
    e.mode + " " + e.kind + " " + e.blob
  }

  /** The text of one entry: mode, kind and object ID, a tab, the encoded path. */
  predicate IsEntry(u: Encoding, record: string, e: TreeEntry, path: string) {
    && record == HeaderText(e) + "\t" + path && u.decode(path) == Some(e.path)
    && Without(e.mode, ' ') && Without(e.kind, ' ') && ObjectId(e.blob)
    && Without(HeaderText(e), '\t') && Ascii(HeaderText(e))
  }

  lemma RecordExact(u: Encoding, record: string, e: TreeEntry)
    ensures ParseRecord(u, record) == Some(e) <==> exists path :: IsEntry(u, record, e, path)
  {
    if ParseRecord(u, record) == Some(e) {
      EntryRead(u, record, e);
    }
    if path :| IsEntry(u, record, e, path) {
      EntryReads(u, record, e, path);
    }
  }

  lemma EntryRead(u: Encoding, record: string, e: TreeEntry)
    requires ParseRecord(u, record) == Some(e)
    ensures Next(record, '\t', 0) < |record| && IsEntry(u, record, e, record[Next(record, '\t', 0) + 1..])
  {
    hide ObjectId, Split, Ascii, Next, ParseRecord;
    var tab := Next(record, '\t', 0);
    FieldsRead(u, record, e);
    var header := record[..tab];
    assert record == header + "\t" + record[tab + 1..];
    assert Without(header, '\t');
    hide Without;
    ThreeWords(header, e.mode, e.kind, e.blob);
  }

  lemma FieldsRead(u: Encoding, record: string, e: TreeEntry)
    requires ParseRecord(u, record) == Some(e)
    ensures var tab := Next(record, '\t', 0);
            && tab < |record| && Split(record[..tab], ' ', 0) == [e.mode, e.kind, e.blob]
            && Ascii(record[..tab]) && ObjectId(e.blob) && u.decode(record[tab + 1..]) == Some(e.path)
  {
    hide ObjectId, Split, Ascii, Next;
    ThreeFields(Split(record[..Next(record, '\t', 0)], ' ', 0));
  }

  lemma ThreeFields(fields: seq<string>)
    ensures |fields| == 3 ==> fields == [fields[0], fields[1], fields[2]]
  {
  }

  lemma EntryReads(u: Encoding, record: string, e: TreeEntry, path: string)
    requires IsEntry(u, record, e, path)
    ensures ParseRecord(u, record) == Some(e)
  {
    var header := HeaderText(e);
    assert Without(e.blob, ' ');
    hide ObjectId;
    FieldEnds(record, '\t', 0, header);
    assert record[..|header|] == header && record[|header| + 1..] == path;
    ThreeWords(header, e.mode, e.kind, e.blob);
  }

  /** The records from the k-th on are the entries, one each, with empty records anywhere. */
  ghost predicate Listed(u: Encoding, records: seq<string>, k: nat, entries: seq<TreeEntry>)
    requires k <= |records|
    decreases |records| - k
  {
    if k == |records| then entries == []
    else if records[k] == "" then Listed(u, records, k + 1, entries)
    else
      && entries != [] && (exists path :: IsEntry(u, records[k], entries[0], path))
      && Listed(u, records, k + 1, entries[1..])
  }

  lemma {:induction false} RecordsExact(u: Encoding, records: seq<string>, k: nat, entries: seq<TreeEntry>)
    requires k <= |records|
    ensures ParseRecords(u, records, k) == Some(entries) <==> Listed(u, records, k, entries)
    decreases |records| - k
  {
    hide ParseRecord, IsEntry;
    if k < |records| {
      if records[k] == "" {
        RecordsExact(u, records, k + 1, entries);
      } else {
        if entries != [] {
          RecordExact(u, records[k], entries[0]);
          RecordsExact(u, records, k + 1, entries[1..]);
        }
        EntryFirst(u, records, k, entries);
      }
    }
  }

  lemma EntryFirst(u: Encoding, records: seq<string>, k: nat, entries: seq<TreeEntry>)
    requires k < |records| && records[k] != ""
    ensures ParseRecords(u, records, k) == Some(entries)
            <==> entries != [] && ParseRecord(u, records[k]) == Some(entries[0])
                 && ParseRecords(u, records, k + 1) == Some(entries[1..])
  {
    hide ParseRecord;
    var entry, rest := ParseRecord(u, records[k]), ParseRecords(u, records, k + 1);
    if entries != [] {
      assert entries == [entries[0]] + entries[1..];
    }
    if entry.Some? && rest.Some? {
      assert ([entry.value] + rest.value)[1..] == rest.value;
    }
  }

  ghost predicate IsListing(u: Encoding, output: string, records: seq<string>, entries: seq<TreeEntry>) {
    records != [] && AllWithout(records, NUL) && output == Joined(records, NUL, 0) && Listed(u, records, 0, entries)
  }

  /** A listing is accepted, with these entries, if and only if it is their records between NULs; anything else is refused. */
  lemma TreeAcceptedExactly(u: Encoding, output: string, entries: seq<TreeEntry>)
    ensures ParseTree(u, output) == Some(entries) <==> exists records :: IsListing(u, output, records, entries)
  {
    var records := Split(output, NUL, 0);
    JoinSplit(output, NUL, 0);
    assert output[0..] == output;
    RecordsExact(u, records, 0, entries);
    if ParseTree(u, output) == Some(entries) {
      assert IsListing(u, output, records, entries);
    }
    if other :| IsListing(u, output, other, entries) {
      SplitAll(other, NUL);
    }
  }

  // ---------------------------------------------------------------- object batches

  /** A line from `cursor` to its newline at `end`. */
  predicate LineAt(output: string, cursor: nat, end: nat, line: string) {
    cursor <= end < |output| && output[cursor..end] == line && Without(line, '\n') && output[end] == '\n'
  }

  /** Git could not find the object. */
  ghost predicate MissingAt(output: string, cursor: nat) {
    exists name: string, end: nat :: MissingLine(output, cursor, name, end)
  }

  predicate MissingLine(output: string, cursor: nat, name: string, end: nat) {
    Without(name, ' ') && LineAt(output, cursor, end, name + " missing")
  }

  /** The wanted object follows: its ID, `blob`, its size in decimal digits; the content; a newline. */
  predicate FoundAt(output: string, w: Wanted, cursor: nat, end: nat, digits: string, content: string) {
    && Without(w.blob, ' ') && IsDigits(digits) && Value(digits) == w.size
    && LineAt(output, cursor, end, w.blob + " blob " + digits)
    && end + 1 + w.size < |output| && output[end + 1..end + 1 + w.size] == content && output[end + 1 + w.size] == '\n'
  }

  ghost predicate Found(output: string, w: Wanted, cursor: nat, end: nat, content: string) {
    exists digits :: FoundAt(output, w, cursor, end, digits, content)
  }

  lemma HeaderExact(header: string, w: Wanted)
    ensures HeaderOk(header, w)
            <==> Without(w.blob, ' ')
                 && exists digits :: IsDigits(digits) && Value(digits) == w.size && header == w.blob + " blob " + digits
  {
    if HeaderOk(header, w) {
      HeaderWords(header, w);
    }
    if Without(w.blob, ' ') {
      forall digits | IsDigits(digits) && Value(digits) == w.size && header == w.blob + " blob " + digits
        ensures HeaderOk(header, w)
      {
        WordsHeader(header, w, digits);
      }
    }
  }

  lemma HeaderWords(header: string, w: Wanted)
    requires HeaderOk(header, w)
    ensures var digits := Split(header, ' ', 0)[2];
            Without(w.blob, ' ') && IsDigits(digits) && Value(digits) == w.size && header == w.blob + " blob " + digits
  {
    hide Value, IsDigits;
    var digits := Split(header, ' ', 0)[2];
    assert Split(header, ' ', 0) == [w.blob, "blob", digits];
    ThreeWords(header, w.blob, "blob", digits);
    assert w.blob + " " + "blob" + " " + digits == w.blob + " blob " + digits;
  }

  lemma WordsHeader(header: string, w: Wanted, digits: string)
    requires IsDigits(digits) && Value(digits) == w.size && header == w.blob + " blob " + digits && Without(w.blob, ' ')
    ensures HeaderOk(header, w)
  {
    hide Value;
    assert Without(digits, ' ');
    assert w.blob + " " + "blob" + " " + digits == w.blob + " blob " + digits;
    ThreeWords(header, w.blob, "blob", digits);
  }

  lemma NextLine(output: string, cursor: nat, end: nat, line: string)
    requires LineAt(output, cursor, end, line)
    ensures end == Next(output, '\n', cursor)
  {
    forall k | cursor <= k < end ensures output[k] != '\n' {
      assert output[k] == line[k - cursor];
    }
  }

  lemma LineThere(output: string, cursor: nat)
    requires cursor <= |output| && Next(output, '\n', cursor) < |output|
    ensures var end := Next(output, '\n', cursor); LineAt(output, cursor, end, output[cursor..end])
  {
  }

  lemma MissingExact(output: string, w: Wanted, cursor: nat)
    requires cursor <= |output|
    ensures ReadFrame(output, w, cursor).NoObject? <==> MissingAt(output, cursor)
  {
    if ReadFrame(output, w, cursor).NoObject? {
      var end := Next(output, '\n', cursor);
      var name := Split(output[cursor..end], ' ', 0)[0];
      assert Split(output[cursor..end], ' ', 0) == [name, "missing"];
      hide ReadFrame, Split, Joined;
      MissingWords(output[cursor..end], name);
      LineThere(output, cursor);
      assert MissingLine(output, cursor, name, end);
    }
    if name: string, end: nat :| MissingLine(output, cursor, name, end) {
      NextLine(output, cursor, end, name + " missing");
      MissingWords(name + " missing", name);
    }
  }

  lemma MissingWords(line: string, name: string)
    ensures Split(line, ' ', 0) == [name, "missing"] <==> line == name + " missing" && Without(name, ' ')
  {
    TwoWords(line, name, "missing");
    assert name + " " + "missing" == name + " missing";
  }

  lemma FrameExact(output: string, w: Wanted, cursor: nat, end: nat, content: string)
    requires cursor <= |output|
    ensures Found(output, w, cursor, end, content)
            <==> ReadFrame(output, w, cursor) == Framed(end + 1, end + 1 + w.size)
                 && output[end + 1..end + 1 + w.size] == content
  {
    if Found(output, w, cursor, end, content) {
      var digits :| FoundAt(output, w, cursor, end, digits, content);
      var header := w.blob + " blob " + digits;
      NextLine(output, cursor, end, header);
      HeaderExact(header, w);
      assert |Split(header, ' ', 0)| == 3;
    }
    if ReadFrame(output, w, cursor) == Framed(end + 1, end + 1 + w.size)
       && output[end + 1..end + 1 + w.size] == content {
      LineThere(output, cursor);
      HeaderExact(output[cursor..end], w);
      var digits :| IsDigits(digits) && Value(digits) == w.size && output[cursor..end] == w.blob + " blob " + digits;
      assert FoundAt(output, w, cursor, end, digits, content);
    }
  }

  /** From `cursor` on the wanted objects follow each other up to the end of the output. */
  ghost predicate AllFound(output: string, wanted: seq<Wanted>, k: nat, cursor: nat, contents: seq<string>)
    requires k <= |wanted|
    decreases |wanted| - k
  {
    if k == |wanted| then cursor == |output| && contents == []
    else
      contents != [] && exists end: nat ::
        Found(output, wanted[k], cursor, end, contents[0])
        && AllFound(output, wanted, k + 1, end + 2 + wanted[k].size, contents[1..])
  }

  /** After some of the wanted objects comes one that Git could not find. */
  ghost predicate SomeMissing(output: string, wanted: seq<Wanted>, k: nat, cursor: nat)
    requires k <= |wanted|
    decreases |wanted| - k
  {
    k < |wanted|
    && (|| MissingAt(output, cursor)
        || exists end: nat, content :: Found(output, wanted[k], cursor, end, content)
                                       && SomeMissing(output, wanted, k + 1, end + 2 + wanted[k].size))
  }

  /**
   A batch is accepted with these contents if and only if the wanted objects follow each other without a gap;
   it is reported missing exactly if, after objects in order, one is said to be missing; all else is malformed.
   */
  lemma {:induction false} BatchExact(output: string, wanted: seq<Wanted>, k: nat, cursor: nat, contents: seq<string>)
    requires k <= |wanted| && cursor <= |output|
    ensures ParseFrom(output, wanted, k, cursor) == Contents(contents) <==> AllFound(output, wanted, k, cursor, contents)
    ensures ParseFrom(output, wanted, k, cursor).Missing? <==> SomeMissing(output, wanted, k, cursor)
    decreases |wanted| - k
  {
    hide ReadFrame, Found, MissingAt;
    if k < |wanted| {
      var frame := ReadFrame(output, wanted[k], cursor);
      MissingExact(output, wanted[k], cursor);
      forall end: nat, content {:trigger Found(output, wanted[k], cursor, end, content)}
        ensures Found(output, wanted[k], cursor, end, content)
                <==> frame == Framed(end + 1, end + 1 + wanted[k].size) && output[frame.start..frame.stop] == content
      {
        FrameExact(output, wanted[k], cursor, end, content);
      }
      if frame.Framed? {
        var end, content := frame.start - 1, output[frame.start..frame.stop];
        assert Found(output, wanted[k], cursor, end, content);
        BatchExact(output, wanted, k + 1, frame.stop + 1, if contents == [] then [] else contents[1..]);
        OneContent(content, ParseFrom(output, wanted, k + 1, frame.stop + 1), contents);
      }
    }
  }

  lemma OneContent(content: string, rest: Batch, contents: seq<string>)
    ensures Onto([content], rest) == Contents(contents)
            <==> contents != [] && contents[0] == content && rest == Contents(contents[1..])
  {
    if contents != [] {
      assert contents == [contents[0]] + contents[1..];
    }
    if rest.Contents? {
      assert ([content] + rest.contents)[1..] == rest.contents;
    }
  }

  // ---------------------------------------------------------------- worktree listings

  /** The record names a worktree, and exactly one later line, the n-th, says what HEAD is. */
  predicate HeadIsAt(fields: seq<string>, n: nat) {
    && 0 < n < |fields| && Disposition(fields[n])
    && "worktree " <= fields[0] && |fields[0]| > 9
    && forall i | 0 < i < |fields| && i != n :: !Disposition(fields[i])
  }

  predicate SaysBranch(fields: seq<string>, n: nat, name: string) {
    HeadIsAt(fields, n) && fields[n] == "branch " + name && BranchName(name)
  }

  predicate SaysNone(fields: seq<string>, n: nat) {
    HeadIsAt(fields, n) && (fields[n] == "bare" || fields[n] == "detached")
  }

  lemma {:induction false} CountDispositions(fields: seq<string>, k: nat)
    ensures Dispositions(fields, k) == [] <==> forall i | k <= i < |fields| :: !Disposition(fields[i])
    ensures |Dispositions(fields, k)| == 1 ==>
              exists n | k <= n < |fields| ::
                Disposition(fields[n]) && Dispositions(fields, k) == [fields[n]]
                && forall i | k <= i < |fields| && i != n :: !Disposition(fields[i])
    decreases |fields| - k
  {
    if k < |fields| {
      CountDispositions(fields, k + 1);
    }
  }

  /** What one record says; a record that says neither is refused. */
  lemma HeadTells(fields: seq<string>, name: string)
    ensures HeadOf(fields) == OnBranch(name) <==> exists n: nat :: SaysBranch(fields, n, name)
    ensures HeadOf(fields) == NoBranch <==> exists n: nat :: SaysNone(fields, n)
  {
    CountDispositions(fields, 1);
    if !HeadOf(fields).BadRecord? {
      var n :| 1 <= n < |fields| && Disposition(fields[n]) && Dispositions(fields, 1) == [fields[n]]
               && forall i | 1 <= i < |fields| && i != n :: !Disposition(fields[i]);
      assert HeadIsAt(fields, n);
      if HeadOf(fields).OnBranch? {
        assert fields[n] == "branch " + fields[n][7..];
        assert SaysBranch(fields, n, fields[n][7..]);
      } else {
        assert SaysNone(fields, n);
      }
    }
    if n: nat :| SaysBranch(fields, n, name) {
      OneDisposition(fields, 1, n);
      assert fields[n][7..] == name;
    }
    if n: nat :| SaysNone(fields, n) {
      OneDisposition(fields, 1, n);
      assert fields[n][0] != 'b' || fields[n][1] != 'r';
    }
  }

  /** The record says that this branch is checked out. */
  ghost predicate Tells(fields: seq<string>, name: string) {
    exists n: nat :: SaysBranch(fields, n, name)
  }

  ghost predicate TellsNone(fields: seq<string>) {
    exists n: nat :: SaysNone(fields, n)
  }

  /** Every record from the k-th on says what HEAD is, and no branch is named twice or was named before. */
  ghost predicate Unambiguous(records: seq<seq<string>>, k: nat, seen: set<string>) {
    && (forall i | k <= i < |records| :: TellsNone(records[i]) || exists name :: Tells(records[i], name))
    && (forall i, name | k <= i < |records| && Tells(records[i], name) :: name !in seen)
    && forall i, j, name | k <= i < j < |records| && Tells(records[i], name) :: !Tells(records[j], name)
  }

  ghost predicate NamedFrom(records: seq<seq<string>>, k: nat, name: string) {
    exists i | k <= i < |records| :: Tells(records[i], name)
  }

  lemma RecordNone(records: seq<seq<string>>, k: nat, seen: set<string>)
    requires k < |records| && TellsNone(records[k]) && forall name :: !Tells(records[k], name)
    ensures Unambiguous(records, k, seen) <==> Unambiguous(records, k + 1, seen)
    ensures forall name :: NamedFrom(records, k, name) <==> NamedFrom(records, k + 1, name)
  {
    hide Tells, TellsNone;
  }

  lemma RecordOne(records: seq<seq<string>>, k: nat, seen: set<string>, branch: string)
    requires k < |records| && forall name :: Tells(records[k], name) <==> name == branch
    ensures Unambiguous(records, k, seen) <==> branch !in seen && Unambiguous(records, k + 1, seen + {branch})
    ensures forall name :: NamedFrom(records, k, name) <==> name == branch || NamedFrom(records, k + 1, name)
  {
    hide Tells, TellsNone;
    assert Tells(records[k], branch);
  }

  /**
   A listing is accepted if and only if every record says what HEAD is and no branch is checked out twice; its
   result are exactly the branches that some record names.
   */
  lemma {:induction false} BranchesExact(records: seq<seq<string>>, k: nat, seen: set<string>)
    requires k <= |records|
    ensures Branches(records, k, seen).Some? <==> Unambiguous(records, k, seen)
    ensures Branches(records, k, seen).Some? ==>
              forall name :: name in Branches(records, k, seen).value <==> name in seen || NamedFrom(records, k, name)
    decreases |records| - k
  {
    if k < |records| {
      forall name ensures Tells(records[k], name) <==> HeadOf(records[k]) == OnBranch(name) {
        HeadTells(records[k], name);
      }
      HeadTells(records[k], "");
      hide HeadOf, Tells, TellsNone;
      match HeadOf(records[k]) {
        case BadRecord =>
          assert !Unambiguous(records, k, seen);
        case NoBranch =>
          hide Unambiguous, NamedFrom;
          RecordNone(records, k, seen);
          BranchesExact(records, k + 1, seen);
        case OnBranch(name) =>
          hide Unambiguous, NamedFrom;
          RecordOne(records, k, seen, name);
          BranchesExact(records, k + 1, seen + {name});
      }
    }
  }
}
