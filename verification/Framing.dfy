/**
 The parsers of Git's machine-readable outputs, each against the printer it undoes. A byte is a character.
 */
module Framing {
  import opened Common

  const NUL: char := '\0'

  // ---------------------------------------------------------------- splitting

  /** The first position from `i` on that holds `sep`, or the end. */
  function Next(s: string, sep: char, i: nat): (n: nat)
    requires i <= |s|
    ensures i <= n <= |s| && (n < |s| ==> s[n] == sep) && forall k | i <= k < n :: s[k] != sep
    decreases |s| - i
  {
    if i == |s| || s[i] == sep then i else Next(s, sep, i + 1)
  }

  /** `s[i:].split(sep)`. */
  function Split(s: string, sep: char, i: nat): seq<string>
    requires i <= |s|
    decreases |s| - i
  {
    var n := Next(s, sep, i);
    if n == |s| then [s[i..]] else [s[i..n]] + Split(s, sep, n + 1)
  }

  predicate Without(s: string, c: char) {
    forall k | 0 <= k < |s| :: s[k] != c
  }

  /** The text `w` stands at position `i`. */
  predicate HasAt(s: string, i: nat, w: string) {
    i + |w| <= |s| && forall k | 0 <= k < |w| :: s[i + k] == w[k]
  }

  /** The fields from the k-th on, with the separator between them. */
  function Joined(fields: seq<string>, sep: char, k: nat): string
    requires k < |fields|
    decreases |fields| - k
  {
    if k == |fields| - 1 then fields[k] else fields[k] + [sep] + Joined(fields, sep, k + 1)
  }

  /** Those fields stand in `s` from `i` to its end. */
  predicate JoinedAt(s: string, i: nat, fields: seq<string>, sep: char, k: nat)
    requires k < |fields|
    decreases |fields| - k
  {
    && HasAt(s, i, fields[k])
    && var n := i + |fields[k]|;
       if k == |fields| - 1 then n == |s| else n < |s| && s[n] == sep && JoinedAt(s, n + 1, fields, sep, k + 1)
  }

  lemma {:induction false} JoinedStands(prefix: string, fields: seq<string>, sep: char, k: nat, s: string)
    requires k < |fields| && s == prefix + Joined(fields, sep, k)
    ensures JoinedAt(s, |prefix|, fields, sep, k)
    decreases |fields| - k
  {
    if k < |fields| - 1 {
      var longer := prefix + fields[k] + [sep];
      assert s == longer + Joined(fields, sep, k + 1);
      JoinedStands(longer, fields, sep, k + 1, s);
    }
  }

  lemma SliceAt(s: string, i: nat, w: string)
    requires HasAt(s, i, w)
    ensures s[i..i + |w|] == w
  {
  }

  /** Splitting at the separator undoes the join, when the fields are free of it. */
  lemma {:induction false} SplitJoined(s: string, sep: char, i: nat, fields: seq<string>, k: nat, whole: seq<string>)
    requires k < |fields| && i <= |s| && JoinedAt(s, i, fields, sep, k) && whole == Split(s, sep, i)
    requires forall n | 0 <= n < |fields| :: Without(fields[n], sep)
    ensures whole == fields[k..]
    decreases |fields| - k
  {
    var n := i + |fields[k]|;
    FieldEnds(s, sep, i, fields[k]);
    SliceAt(s, i, fields[k]);
    if k == |fields| - 1 {
      assert fields[k..] == [fields[k]];
      assert s[i..] == s[i..n];
    } else {
      SplitJoined(s, sep, n + 1, fields, k + 1, Split(s, sep, n + 1));
      assert fields[k..] == [fields[k]] + fields[k + 1..];
    }
  }

  lemma FieldEnds(s: string, sep: char, i: nat, field: string)
    requires HasAt(s, i, field) && Without(field, sep) && (i + |field| < |s| ==> s[i + |field|] == sep)
    ensures Next(s, sep, i) == i + |field|
  {
    assert forall k | i <= k < i + |field| :: s[k] == field[k - i];
  }

  /** The whole text is the join: splitting gives the fields. */
  lemma SplitAll(fields: seq<string>, sep: char)
    requires fields != [] && forall n | 0 <= n < |fields| :: Without(fields[n], sep)
    ensures Split(Joined(fields, sep, 0), sep, 0) == fields
  {
    var s := Joined(fields, sep, 0);
    assert s == "" + s;
    JoinedStands("", fields, sep, 0, s);
    SplitJoined(s, sep, 0, fields, 0, Split(s, sep, 0));
  }

  // ---------------------------------------------------------------- tree entries

  datatype TreeEntry = TreeEntry(path: string, mode: string, kind: string, blob: string)

  predicate ObjectId(s: string) {
    40 <= |s| <= 64 && forall k | 0 <= k < |s| :: '0' <= s[k] <= '9' || 'a' <= s[k] <= 'f'
  }

  /** Text as bytes: decoding fails on bytes that encode nothing. */
  datatype Encoding = Encoding(encode: string -> string, decode: string -> Option<string>)

  /** Every text can be read back, and NUL is written only for NUL. */
  ghost predicate ValidEncoding(u: Encoding) {
    forall s :: u.decode(u.encode(s)) == Some(s) && (Without(s, NUL) ==> Without(u.encode(s), NUL))
  }

  predicate Ascii(s: string) {
    forall k | 0 <= k < |s| :: s[k] as int < 128
  }

  /** One record: header and path are separated by the first tab. */
  function ParseRecord(u: Encoding, record: string): Option<TreeEntry> {
    var tab := Next(record, '\t', 0);
    if tab == |record| then None
    else
      var header, path := record[..tab], u.decode(record[tab + 1..]);
      var fields := Split(header, ' ', 0);
      if !Ascii(header) || |fields| != 3 || path.None? || !ObjectId(fields[2]) then None
      else Some(TreeEntry(path.value, fields[0], fields[1], fields[2]))
  }

  function ParseRecords(u: Encoding, records: seq<string>, k: nat): Option<seq<TreeEntry>>
    requires k <= |records|
    decreases |records| - k
  {
    if k == |records| then Some([])
    else if records[k] == "" then ParseRecords(u, records, k + 1)
    else
      var entry := ParseRecord(u, records[k]);
      if entry.None? then None else Prepend([entry.value], ParseRecords(u, records, k + 1))
  }

  function ParseTree(u: Encoding, output: string): Option<seq<TreeEntry>> {
    ParseRecords(u, Split(output, NUL, 0), 0)
  }

  /** What was read so far in front of what is still to come, unless that fails. */
  function Prepend(entries: seq<TreeEntry>, rest: Option<seq<TreeEntry>>): Option<seq<TreeEntry>> {
    if rest.None? then None else Some(entries + rest.value)
  }

  lemma PrependNothing(rest: Option<seq<TreeEntry>>)
    ensures Prepend([], rest) == rest
  {
    if rest.Some? {
      assert [] + rest.value == rest.value;
    }
  }

  lemma PrependMore(a: seq<TreeEntry>, b: seq<TreeEntry>, rest: Option<seq<TreeEntry>>)
    ensures Prepend(a, Prepend(b, rest)) == Prepend(a + b, rest)
  {
    if rest.Some? {
      assert a + (b + rest.value) == (a + b) + rest.value;
    }
  }

  /** `_parse_tree_entries`. */
  method ParseTreeEntries(u: Encoding, output: string) returns (result: Option<seq<TreeEntry>>)
    ensures result == ParseTree(u, output)
  {
    var records := Split(output, NUL, 0);
    var entries: seq<TreeEntry> := [];
    PrependNothing(ParseRecords(u, records, 0));
    for k := 0 to |records|
      invariant ParseTree(u, output) == Prepend(entries, ParseRecords(u, records, k))
    {
      if records[k] != "" {
        var entry := ParseRecord(u, records[k]);
        if entry.None? {
          return None;
        }
        PrependMore(entries, [entry.value], ParseRecords(u, records, k + 1));
        entries := entries + [entry.value];
      }
    }
    assert entries + [] == entries;
    result := Some(entries);
  }

  function PrintEntry(u: Encoding, e: TreeEntry): string {
    Joined([e.mode, e.kind, e.blob], ' ', 0) + ['\t'] + u.encode(e.path)
  }

  function PrintEntries(u: Encoding, entries: seq<TreeEntry>): (records: seq<string>)
    ensures |records| == |entries| && forall k | 0 <= k < |entries| :: records[k] == PrintEntry(u, entries[k])
  {
    seq(|entries|, k requires 0 <= k < |entries| => PrintEntry(u, entries[k]))
  }

  predicate PlainWord(s: string) {
    Without(s, ' ') && Without(s, '\t') && Without(s, NUL)
  }

  /** Any tracked path: tabs, newlines and spaces are allowed, NUL is not. */
  predicate Printable(e: TreeEntry) {
    PlainWord(e.mode) && PlainWord(e.kind) && Ascii(e.mode) && Ascii(e.kind) && ObjectId(e.blob) && Without(e.path, NUL)
  }

  lemma RecordRoundTrip(u: Encoding, e: TreeEntry)
    requires ValidEncoding(u) && Printable(e)
    ensures ParseRecord(u, PrintEntry(u, e)) == Some(e) && Without(PrintEntry(u, e), NUL) && PrintEntry(u, e) != ""
  {
    var words := [e.mode, e.kind, e.blob];
    var header, record := Joined(words, ' ', 0), PrintEntry(u, e);
    assert PlainWord(e.blob);
    PlainJoin(e.mode, e.kind, e.blob);
    CutRecord(record, header, u.encode(e.path));
    SplitAll(words, ' ');
  }

  lemma CutRecord(record: string, header: string, path: string)
    requires record == header + ['\t'] + path && Without(header, '\t') && Without(header, NUL) && Without(path, NUL)
    ensures Next(record, '\t', 0) == |header| < |record|
    ensures record[..|header|] == header && record[|header| + 1..] == path && Without(record, NUL)
  {
    FieldEnds(record, '\t', 0, header);
  }

  lemma JoinThree(a: string, b: string, c: string, sep: char)
    ensures Joined([a, b, c], sep, 0) == a + [sep] + (b + [sep] + c)
  {
    assert Joined([a, b, c], sep, 2) == c;
    assert Joined([a, b, c], sep, 1) == b + [sep] + c;
  }

  lemma PlainJoin(a: string, b: string, c: string)
    requires PlainWord(a) && PlainWord(b) && PlainWord(c)
    ensures var header := Joined([a, b, c], ' ', 0); Without(header, '\t') && Without(header, NUL)
    ensures Ascii(a) && Ascii(b) && Ascii(c) ==> Ascii(Joined([a, b, c], ' ', 0))
  {
    JoinThree(a, b, c, ' ');
  }

  lemma {:induction false} RecordsRoundTrip(u: Encoding, entries: seq<TreeEntry>, k: nat)
    requires ValidEncoding(u) && (forall e | e in entries :: Printable(e)) && k <= |entries|
    ensures ParseRecords(u, PrintEntries(u, entries) + [""], k) == Some(entries[k..])
    decreases |entries| - k
  {
    var records := PrintEntries(u, entries) + [""];
    if k == |entries| {
      assert ParseRecords(u, records, k + 1) == Some([]);
    } else {
      RecordRoundTrip(u, entries[k]);
      RecordsRoundTrip(u, entries, k + 1);
      assert entries[k..] == [entries[k]] + entries[k + 1..];
    }
  }

  /** Every record is followed by NUL, so the text is the join of the records and a last empty field. */
  function PrintTree(u: Encoding, entries: seq<TreeEntry>): string {
    Joined(PrintEntries(u, entries) + [""], NUL, 0)
  }

  /** Parsing a printed tree listing gives back its entries, whatever their paths contain. */
  lemma TreeRoundTrip(u: Encoding, entries: seq<TreeEntry>)
    requires ValidEncoding(u) && forall e | e in entries :: Printable(e)
    ensures ParseTree(u, PrintTree(u, entries)) == Some(entries)
  {
    var records := PrintEntries(u, entries) + [""];
    forall k | 0 <= k < |records| ensures Without(records[k], NUL) {
      if k < |entries| {
        RecordRoundTrip(u, entries[k]);
      }
    }
    SplitAll(records, NUL);
    RecordsRoundTrip(u, entries, 0);
    assert entries[0..] == entries;
  }

  // ---------------------------------------------------------------- object batches

  /** One selected entry of the manifest: what the batch must return for it. */
  datatype Wanted = Wanted(blob: string, size: nat)

  predicate IsDigits(s: string) {
    s != "" && forall k | 0 <= k < |s| :: '0' <= s[k] <= '9'
  }

  function Value(s: string): nat
    requires forall k | 0 <= k < |s| :: '0' <= s[k] <= '9'
  {
    if s == "" then 0 else 10 * Value(s[..|s| - 1]) + (Last(s) as int - '0' as int)
  }

  function Decimal(n: nat): (s: string)
    ensures IsDigits(s)
  {
    var last := [(n % 10 + '0' as int) as char];
    if n < 10 then last else Decimal(n / 10) + last
  }

  lemma {:induction false} DecimalValue(n: nat)
    ensures Value(Decimal(n)) == n
  {
    if n < 10 {
      assert Decimal(n)[..0] == "";
    } else {
      DecimalValue(n / 10);
      assert Decimal(n)[..|Decimal(n)| - 1] == Decimal(n / 10);
    }
  }

  predicate HeaderOk(header: string, w: Wanted) {
    var fields := Split(header, ' ', 0);
    && |fields| == 3 && fields[0] == w.blob && fields[1] == "blob"
    && IsDigits(fields[2]) && Value(fields[2]) == w.size
  }

  datatype Batch = Contents(contents: seq<string>) | Missing | Malformed

  /** The object at `cursor`: where its content starts and stops. */
  datatype Frame = Framed(start: nat, stop: nat) | NoObject | NoFrame

  function ReadFrame(output: string, w: Wanted, cursor: nat): (f: Frame)
    requires cursor <= |output|
    ensures f.Framed? ==> cursor < f.start <= f.stop < |output| && f.stop == f.start + w.size
  {
    var end := Next(output, '\n', cursor);
    var fields := Split(output[cursor..end], ' ', 0);
    if end == |output| then NoFrame
    else if |fields| == 2 && fields[1] == "missing" then NoObject
    else if !HeaderOk(output[cursor..end], w) then NoFrame
    else
      var stop := end + 1 + w.size;
      if stop >= |output| || output[stop] != '\n' then NoFrame else Framed(end + 1, stop)
  }

  /** Contents read so far in front of what is still to come, unless that fails. */
  function Onto(contents: seq<string>, rest: Batch): Batch {
    if rest.Contents? then Contents(contents + rest.contents) else rest
  }

  /** Read the objects from the k-th on, which starts at `cursor`. */
  function ParseFrom(output: string, wanted: seq<Wanted>, k: nat, cursor: nat): Batch
    requires k <= |wanted| && cursor <= |output|
    decreases |wanted| - k
  {
    if k == |wanted| then if cursor == |output| then Contents([]) else Malformed
    else
      match ReadFrame(output, wanted[k], cursor)
      case NoObject => Missing
      case NoFrame => Malformed
      case Framed(start, stop) => Onto([output[start..stop]], ParseFrom(output, wanted, k + 1, stop + 1))
  }

  lemma OntoOnto(a: seq<string>, b: seq<string>, rest: Batch)
    ensures Onto(a, Onto(b, rest)) == Onto(a + b, rest)
  {
    if rest.Contents? {
      assert a + (b + rest.contents) == (a + b) + rest.contents;
    }
  }

  lemma ParseStep(output: string, wanted: seq<Wanted>, k: nat, cursor: nat, contents: seq<string>, batch: Batch)
    requires k < |wanted| && cursor <= |output|
    requires batch == Onto(contents, ParseFrom(output, wanted, k, cursor))
    ensures match ReadFrame(output, wanted[k], cursor)
            case NoObject => batch == Missing
            case NoFrame => batch == Malformed
            case Framed(start, stop) =>
              batch == Onto(contents + [output[start..stop]], ParseFrom(output, wanted, k + 1, stop + 1))
  {
    var frame := ReadFrame(output, wanted[k], cursor);
    if frame.Framed? {
      OntoOnto(contents, [output[frame.start..frame.stop]], ParseFrom(output, wanted, k + 1, frame.stop + 1));
    }
  }

  /** One turn of the loop: a final answer, or one more content. */
  method ReadObject(output: string, wanted: seq<Wanted>, k: nat, cursor: nat, contents: seq<string>, ghost whole: Batch)
    returns (answer: Option<Batch>, next: nat, longer: seq<string>)
    requires k < |wanted| && cursor <= |output| && whole == Onto(contents, ParseFrom(output, wanted, k, cursor))
    ensures answer.Some? ==> answer.value == whole
    ensures answer.None? ==> next <= |output| && whole == Onto(longer, ParseFrom(output, wanted, k + 1, next))
  {
    hide ReadFrame;
    answer, next, longer := None, cursor, contents;
    ParseStep(output, wanted, k, cursor, contents, whole);
    match ReadFrame(output, wanted[k], cursor) {
      case NoObject => answer := Some(Missing);
      case NoFrame => answer := Some(Malformed);
      case Framed(start, stop) => next, longer := stop + 1, contents + [output[start..stop]];
    }
  }

  /** `_selected_blob_contents`, on the output of one batch. */
  method SelectedBlobContents(output: string, wanted: seq<Wanted>) returns (batch: Batch)
    ensures batch == ParseFrom(output, wanted, 0, 0)
  {
    var contents: seq<string> := [];
    var cursor: nat := 0;
    ghost var whole := ParseFrom(output, wanted, 0, 0);
    OntoNothing(whole);
    for k := 0 to |wanted|
      invariant cursor <= |output| && whole == Onto(contents, ParseFrom(output, wanted, k, cursor))
    {
      var answer: Option<Batch>;
      answer, cursor, contents := ReadObject(output, wanted, k, cursor, contents, whole);
      if answer.Some? {
        return answer.value;
      }
    }
    assert contents + [] == contents;
    batch := if cursor == |output| then Contents(contents) else Malformed;
  }

  lemma OntoNothing(batch: Batch)
    ensures Onto([], batch) == batch
  {
    if batch.Contents? {
      assert [] + batch.contents == batch.contents;
    }
  }

  function Header(w: Wanted): string {
    Joined([w.blob, "blob", Decimal(w.size)], ' ', 0)
  }

  /** What Git prints for the objects from the k-th on: header line, content, newline. */
  function PrintBatch(wanted: seq<Wanted>, contents: seq<string>, k: nat): string
    requires k <= |wanted| == |contents|
    decreases |wanted| - k
  {
    if k == |wanted| then ""
    else Header(wanted[k]) + ['\n'] + contents[k] + ['\n'] + PrintBatch(wanted, contents, k + 1)
  }

  /** One printed object stands at `cursor`. */
  predicate ObjectAt(output: string, w: Wanted, content: string, cursor: nat) {
    var end := cursor + |Header(w)|;
    && HasAt(output, cursor, Header(w)) && end < |output| && output[end] == '\n'
    && HasAt(output, end + 1, content) && end + 1 + |content| < |output| && output[end + 1 + |content|] == '\n'
  }

  predicate BatchAt(output: string, wanted: seq<Wanted>, contents: seq<string>, k: nat, cursor: nat)
    requires k <= |wanted| == |contents|
    decreases |wanted| - k
  {
    if k == |wanted| then cursor == |output|
    else
      && ObjectAt(output, wanted[k], contents[k], cursor)
      && BatchAt(output, wanted, contents, k + 1, cursor + |Header(wanted[k])| + 2 + |contents[k]|)
  }

  lemma {:induction false} BatchStands(prefix: string, wanted: seq<Wanted>, contents: seq<string>, k: nat, output: string)
    requires k <= |wanted| == |contents| && output == prefix + PrintBatch(wanted, contents, k)
    ensures BatchAt(output, wanted, contents, k, |prefix|)
    decreases |wanted| - k
  {
    if k < |wanted| {
      var header, content := Header(wanted[k]), contents[k];
      var longer := prefix + header + ['\n'] + content + ['\n'];
      assert output == longer + PrintBatch(wanted, contents, k + 1);
      BatchStands(longer, wanted, contents, k + 1, output);
      ObjectStands(prefix, header, content, output, wanted[k], PrintBatch(wanted, contents, k + 1));
    }
  }

  lemma ObjectStands(prefix: string, header: string, content: string, output: string, w: Wanted, rest: string)
    requires header == Header(w) && output == prefix + header + ['\n'] + content + ['\n'] + rest
    ensures ObjectAt(output, w, content, |prefix|)
  {
  }

  lemma HeaderRoundTrip(w: Wanted)
    requires ObjectId(w.blob)
    ensures HeaderOk(Header(w), w) && Without(Header(w), '\n') && |Split(Header(w), ' ', 0)| == 3
  {
    var words := [w.blob, "blob", Decimal(w.size)];
    SplitAll(words, ' ');
    DecimalValue(w.size);
    JoinThree(w.blob, "blob", Decimal(w.size), ' ');
  }

  /** One printed object is read back, whatever its content looks like. */
  lemma FrameRoundTrip(output: string, w: Wanted, content: string, cursor: nat)
    requires ObjectId(w.blob) && |content| == w.size && ObjectAt(output, w, content, cursor)
    ensures var start := cursor + |Header(w)| + 1;
            && ReadFrame(output, w, cursor) == Framed(start, start + w.size)
            && output[start..start + w.size] == content
  {
    HeaderRoundTrip(w);
    FieldEnds(output, '\n', cursor, Header(w));
    SliceAt(output, cursor, Header(w));
    SliceAt(output, cursor + |Header(w)| + 1, content);
  }

  lemma ObjectStep(output: string, wanted: seq<Wanted>, k: nat, content: string, cursor: nat, batch: Batch)
    requires k < |wanted| && cursor <= |output| && batch == ParseFrom(output, wanted, k, cursor)
    requires ObjectId(wanted[k].blob) && |content| == wanted[k].size && ObjectAt(output, wanted[k], content, cursor)
    ensures var next := cursor + |Header(wanted[k])| + 2 + |content|;
            next <= |output| && batch == Onto([content], ParseFrom(output, wanted, k + 1, next))
  {
    FrameRoundTrip(output, wanted[k], content, cursor);
    ParseOne(output, wanted, k, cursor, batch);
  }

  /** Newlines and text that looks like a header inside a content do not matter. */
  lemma {:induction false} ReadsBack(
    output: string, wanted: seq<Wanted>, contents: seq<string>, k: nat, cursor: nat, batch: Batch)
    requires |contents| == |wanted| && k <= |wanted| && cursor <= |output|
    requires forall i | 0 <= i < |wanted| :: ObjectId(wanted[i].blob) && |contents[i]| == wanted[i].size
    requires BatchAt(output, wanted, contents, k, cursor) && batch == ParseFrom(output, wanted, k, cursor)
    ensures batch == Contents(contents[k..])
    decreases |wanted| - k
  {
    hide ReadFrame;
    if k < |wanted| {
      var next := cursor + |Header(wanted[k])| + 2 + |contents[k]|;
      ObjectStep(output, wanted, k, contents[k], cursor, batch);
      ReadsBack(output, wanted, contents, k + 1, next, ParseFrom(output, wanted, k + 1, next));
      ContentsFrom(contents, k, batch);
    }
  }

  lemma ParseOne(output: string, wanted: seq<Wanted>, k: nat, cursor: nat, batch: Batch)
    requires k < |wanted| && cursor <= |output| && ReadFrame(output, wanted[k], cursor).Framed?
    requires batch == ParseFrom(output, wanted, k, cursor)
    ensures var f := ReadFrame(output, wanted[k], cursor);
            batch == Onto([output[f.start..f.stop]], ParseFrom(output, wanted, k + 1, f.stop + 1))
  {
  }

  /** Reading a printed batch gives back exactly the contents. */
  lemma BatchRoundTrip(wanted: seq<Wanted>, contents: seq<string>)
    requires |contents| == |wanted|
    requires forall i | 0 <= i < |wanted| :: ObjectId(wanted[i].blob) && |contents[i]| == wanted[i].size
    ensures ParseFrom(PrintBatch(wanted, contents, 0), wanted, 0, 0) == Contents(contents)
  {
    var output := PrintBatch(wanted, contents, 0);
    assert output == "" + output && contents[0..] == contents;
    BatchStands("", wanted, contents, 0, output);
    ReadsBack(output, wanted, contents, 0, 0, ParseFrom(output, wanted, 0, 0));
  }

  lemma ContentsFrom(contents: seq<string>, k: nat, batch: Batch)
    requires k < |contents| && batch == Onto([contents[k]], Contents(contents[k + 1..]))
    ensures batch == Contents(contents[k..])
  {
  }

  /** Where each object of an accepted batch lies: the frames follow each other without a gap up to the end. */
  ghost predicate FramedFrom(output: string, wanted: seq<Wanted>, contents: seq<string>, k: nat, cursor: nat)
    requires k <= |wanted| == |contents|
    decreases |wanted| - k
  {
    if k == |wanted| then cursor == |output|
    else
      exists end: nat :: FrameAt(output, wanted[k], contents[k], cursor, end)
                         && FramedFrom(output, wanted, contents, k + 1, end + 2 + wanted[k].size)
  }

  /** One object: header line from `cursor` to `end`, content of the wanted size, newline. */
  predicate FrameAt(output: string, w: Wanted, content: string, cursor: nat, end: nat) {
    && cursor <= end < |output| && end + 1 + w.size < |output|
    && HeaderOk(output[cursor..end], w) && Without(output[cursor..end], '\n') && output[end] == '\n'
    && output[end + 1..end + 1 + w.size] == content && output[end + 1 + w.size] == '\n'
  }

  /** The converse: what is accepted was framed, every byte of the output accounted for. */
  lemma {:induction false} AcceptedIsFramed(
    output: string, wanted: seq<Wanted>, all: seq<string>, k: nat, cursor: nat)
    requires k <= |wanted| == |all| && cursor <= |output|
    requires ParseFrom(output, wanted, k, cursor) == Contents(all[k..])
    ensures FramedFrom(output, wanted, all, k, cursor)
    decreases |wanted| - k
  {
    hide ReadFrame, FrameAt;
    if k < |wanted| {
      var frame := ReadFrame(output, wanted[k], cursor);
      ContentsSplit(all, k, output[frame.start..frame.stop], ParseFrom(output, wanted, k + 1, frame.stop + 1));
      AcceptedIsFramed(output, wanted, all, k + 1, frame.stop + 1);
      FrameMeaning(output, wanted[k], cursor);
      var end := Next(output, '\n', cursor);
      assert FrameAt(output, wanted[k], all[k], cursor, end);
    }
  }

  lemma ContentsSplit(all: seq<string>, k: nat, first: string, rest: Batch)
    requires k < |all| && Onto([first], rest) == Contents(all[k..])
    ensures first == all[k] && rest == Contents(all[k + 1..])
  {
    assert all[k..][0] == first && all[k..][1..] == rest.contents;
  }

  lemma FrameMeaning(output: string, w: Wanted, cursor: nat)
    requires cursor <= |output| && ReadFrame(output, w, cursor).Framed?
    ensures var f := ReadFrame(output, w, cursor);
            FrameAt(output, w, output[f.start..f.stop], cursor, Next(output, '\n', cursor)) && f.start == Next(output, '\n', cursor) + 1
  {
  }
}
