/**
 Incremental usage collection: read what an append-only source gained since the durable cursor, append the
 new events to a ledger, then move the cursor.

 Event IDs and prefix digests identify what they are computed from, so a key is the hashed fields and a
 prefix digest is the prefix. JSON parsing of one line is a parameter.
 */
module Usage {
  import opened Common

  type Byte = b: int | 0 <= b < 256 witness 0

  const LF: Byte := 10
  const CR: Byte := 13
  const PREFIX_LIMIT := 4096

  // ---------------------------------------------------------------- lines

  /** Where the line that starts at `i` ends, with its terminator: LF, CR or CR LF. */
  function LineEnd(s: seq<Byte>, i: nat, hi: nat): (n: nat)
    requires i < hi <= |s|
    ensures i < n <= hi
    decreases hi - i
  {
    if s[i] == LF then i + 1
    else if s[i] == CR then if i + 1 < hi && s[i + 1] == LF then i + 2 else i + 1
    else if i + 1 == hi then hi
    else LineEnd(s, i + 1, hi)
  }

  /** One line with its terminator, and where it starts in the source. */
  datatype Line = Line(offset: nat, text: seq<Byte>)

  /** `bytes.splitlines(keepends=True)` of the source between two offsets, each line with its position. */
  function Lines(s: seq<Byte>, i: nat, hi: nat): seq<Line>
    requires i <= hi <= |s|
    decreases hi - i
  {
    if i == hi then []
    else
      var n := LineEnd(s, i, hi);
      [Line(i, s[i..n])] + Lines(s, n, hi)
  }

  /** `rfind` of LF: the end of the newline-terminated part of `s[lo..hi]`. */
  function CompleteEnd(s: seq<Byte>, lo: nat, hi: nat): (n: nat)
    requires lo <= hi <= |s|
    ensures lo <= n <= hi && (n > lo ==> s[n - 1] == LF) && forall k | n <= k < hi :: s[k] != LF
    decreases hi
  {
    if hi == lo || s[hi - 1] == LF then hi else CompleteEnd(s, lo, hi - 1)
  }

  // ---------------------------------------------------------------- events

  datatype Kind = Tokens | Allowance

  datatype Reading = Reading(timestamp: string, measurement: string)

  /** What one line yields: at most one token record, then at most one allowance record. */
  datatype Readings = Readings(tokens: Option<Reading>, allowance: Option<Reading>)

  datatype Event = Event(offset: nat, kind: Kind, timestamp: string, measurement: string)

  datatype Key = Key(offset: nat, kind: Kind, timestamp: string)

  function KeyOf(e: Event): Key {
    Key(e.offset, e.kind, e.timestamp)
  }

  type Parser = seq<Byte> -> Readings

  function EventOf(kind: Kind, reading: Reading, offset: nat): Event {
    Event(offset, kind, reading.timestamp, reading.measurement)
  }

  function LineEvents(parse: Parser, line: Line): seq<Event> {
    match parse(line.text)
    case Readings(None, None) => []
    case Readings(Some(t), None) => [EventOf(Tokens, t, line.offset)]
    case Readings(None, Some(a)) => [EventOf(Allowance, a, line.offset)]
    case Readings(Some(t), Some(a)) => [EventOf(Tokens, t, line.offset), EventOf(Allowance, a, line.offset)]
  }

  function Events(parse: Parser, lines: seq<Line>): seq<Event> {
    if lines == [] then [] else LineEvents(parse, lines[0]) + Events(parse, lines[1..])
  }

  /** The events of the source between two offsets. */
  function EventsIn(parse: Parser, s: seq<Byte>, i: nat, hi: nat): seq<Event>
    requires i <= hi <= |s|
  {
    Events(parse, Lines(s, i, hi))
  }

  /** One parse of everything newline-terminated in a source. */
  function ParseAll(parse: Parser, source: seq<Byte>): seq<Event> {
    EventsIn(parse, source, 0, CompleteEnd(source, 0, |source|))
  }

  function KeySet(events: seq<Event>): set<Key> {
    set k | 0 <= k < |events| :: KeyOf(events[k])
  }

  /** The candidates whose key is neither known nor a repetition, in order. */
  function NewEvents(candidates: seq<Event>, known: set<Key>): seq<Event> {
    if candidates == [] then []
    else if KeyOf(candidates[0]) in known then NewEvents(candidates[1..], known)
    else [candidates[0]] + NewEvents(candidates[1..], known + {KeyOf(candidates[0])})
  }

  lemma KeySetFirst(events: seq<Event>)
    requires events != []
    ensures KeySet(events) == {KeyOf(events[0])} + KeySet(events[1..])
  {
    assert forall k | 0 < k < |events| :: events[k] == events[1..][k - 1];
  }

  lemma {:induction false} NewEventsConcat(a: seq<Event>, b: seq<Event>, known: set<Key>)
    ensures NewEvents(a + b, known) == NewEvents(a, known) + NewEvents(b, known + KeySet(a))
  {
    if a == [] {
      assert a + b == b && known + KeySet(a) == known;
    } else {
      assert (a + b)[0] == a[0] && (a + b)[1..] == a[1..] + b;
      KeySetFirst(a);
      if KeyOf(a[0]) in known {
        NewEventsConcat(a[1..], b, known);
        assert known + KeySet(a[1..]) == known + KeySet(a);
      } else {
        NewEventsConcat(a[1..], b, known + {KeyOf(a[0])});
        assert known + {KeyOf(a[0])} + KeySet(a[1..]) == known + KeySet(a);
      }
    }
  }

  lemma NewFromLine(parse: Parser, s: seq<Byte>, i: nat, hi: nat, known: set<Key>)
    requires i < hi <= |s|
    ensures var n := LineEnd(s, i, hi);
            var records := LineEvents(parse, Line(i, s[i..n]));
            NewEvents(EventsIn(parse, s, i, hi), known)
            == NewEvents(records, known) + NewEvents(EventsIn(parse, s, n, hi), known + KeySet(records))
  {
    var n := LineEnd(s, i, hi);
    var line, rest := Line(i, s[i..n]), Lines(s, n, hi);
    assert ([line] + rest)[1..] == rest;
    NewEventsConcat(LineEvents(parse, line), Events(parse, rest), known);
  }

  // ---------------------------------------------------------------- one collection

  datatype Cursor = Cursor(offset: nat, prefixBytes: nat, prefix: seq<Byte>)

  /** How the ledger file ends: with whole lines, with a whole record but no newline, or unreadably. */
  datatype Tail = Ended | Unterminated | Broken

  datatype World = World(events: seq<Event>, tail: Tail, cursor: Option<Cursor>)

  /** Where a collection ends: completely, or after some new lines, the next one partly written or not. */
  datatype Fate =
    | Completes
    | DiesAfter(lines: nat)
    | DiesWithin(lines: nat, allButNewline: bool)

  /** The source as one collection sees it: its size first, its content a moment later. */
  datatype View = Absent | Present(sizeSeen: nat, content: seq<Byte>)

  datatype Result =
    | Collected(count: nat, cursorOffset: nat, trailing: nat) | SourceMissing(cursorOffset: nat)
    | SourceShorter | PrefixChanged | LedgerMalformed | Died

  function OffsetOf(w: World): nat {
    if w.cursor.Some? then w.cursor.value.offset else 0
  }

  /** The recorded prefix, unless nothing was collected from an empty source. */
  function PriorPrefix(w: World, size: nat): Option<Cursor> {
    if w.cursor.Some? && w.cursor.value.offset == 0 && w.cursor.value.prefixBytes == 0 && size > 0 then None
    else w.cursor
  }

  function Take(s: seq<Byte>, n: nat): seq<Byte> {
    if n <= |s| then s[..n] else s
  }

  /** New lines go to the end of the file; after a record without newline they make it unreadable. */
  function Append(w: World, added: seq<Event>, fate: Fate): World {
    if added == [] then w
    else
      var (whole, tail) := match fate
        case Completes => (|added|, Ended)
        case DiesAfter(n) => (if n <= |added| then n else |added|, Ended)
        case DiesWithin(n, all) =>
          if n >= |added| then (|added|, Ended) else if all then (n + 1, Unterminated) else (n, Broken);
      if whole == 0 && tail.Ended? then w
      else w.(events := w.events + added[..whole], tail := if w.tail.Unterminated? then Broken else tail)
  }

  /** Parse what follows the cursor, append the new events, move the cursor. */
  function Advance(
    w: World, parse: Parser, content: seq<Byte>, prefixBytes: nat, prefix: seq<Byte>, fate: Fate): (Result, World)
  {
    var offset, size := OffsetOf(w), |content|;
    var end := if size < offset then offset else CompleteEnd(content, offset, size);
    var added := if size < offset then [] else NewEvents(EventsIn(parse, content, offset, end), KeySet(w.events));
    var appended := Append(w, added, fate);
    if !fate.Completes? then (Died, appended)
    else
      var after := appended.(cursor := Some(Cursor(end, prefixBytes, prefix)));
      var trailing := if size < offset then 0 else size - end;
      (if after.tail.Broken? then LedgerMalformed else Collected(|added|, end, trailing), after)
  }

  function Collect(w: World, parse: Parser, view: View, fate: Fate): (Result, World) {
    match view
    case Absent => (if w.tail.Broken? then LedgerMalformed else SourceMissing(OffsetOf(w)), w)
    case Present(size, content) =>
      var offset, prior := OffsetOf(w), PriorPrefix(w, size);
      if size < offset then (SourceShorter, w)
      else
        var prefixBytes := if prior.Some? then prior.value.prefixBytes else if size < PREFIX_LIMIT then size else PREFIX_LIMIT;
        var prefix := Take(content, prefixBytes);
        if prior.Some? && prefix != prior.value.prefix then (PrefixChanged, w)
        else if w.tail.Broken? then (LedgerMalformed, w)
        else Advance(w, parse, content, prefixBytes, prefix, fate)
  }

  // ---------------------------------------------------------------- the running collector

  class Collector {
    const parse: Parser
    var events: seq<Event>
    var tail: Tail
    var cursor: Option<Cursor>

    constructor (parse: Parser)
      ensures this.parse == parse && Now() == World([], Ended, None)
    {
      this.parse, events, tail, cursor := parse, [], Ended, None;
    }

    ghost function Now(): World
      reads this
    {
      World(events, tail, cursor)
    }

    /** `_existing_event_ids`. */
    method ExistingKeys() returns (known: set<Key>)
      ensures known == KeySet(events)
    {
      known := {};
      for k := 0 to |events|
        invariant known == set i | 0 <= i < k :: KeyOf(events[i])
      {
        known := known + {KeyOf(events[k])};
      }
    }

    /** The records of one line: keep those with a new key. */
    method TakeNew(records: seq<Event>, known: set<Key>) returns (taken: seq<Event>, seen: set<Key>)
      ensures taken == NewEvents(records, known) && seen == known + KeySet(records)
    {
      taken, seen := [], known;
      var rest := records;
      while rest != []
        invariant taken + NewEvents(rest, seen) == NewEvents(records, known)
        invariant seen + KeySet(rest) == known + KeySet(records)
        decreases |rest|
      {
        var key := KeyOf(rest[0]);
        KeySetFirst(rest);
        if key !in seen {
          taken, seen := taken + [rest[0]], seen + {key};
        }
        rest := rest[1..];
      }
    }

    /** The parse loop: line by line, keeping the position of each line. */
    method ParseNew(content: seq<Byte>, start: nat, end: nat, known: set<Key>) returns (added: seq<Event>)
      requires start <= end <= |content|
      ensures added == NewEvents(EventsIn(parse, content, start, end), known)
    {
      added := [];
      var seen := known;
      var position: nat := start;
      while position < end
        invariant position <= end
        invariant added + NewEvents(EventsIn(parse, content, position, end), seen)
                  == NewEvents(EventsIn(parse, content, start, end), known)
      {
        var next := LineEnd(content, position, end);
        NewFromLine(parse, content, position, end, seen);
        var taken: seq<Event>;
        taken, seen := TakeNew(LineEvents(parse, Line(position, content[position..next])), seen);
        added := added + taken;
        position := next;
      }
    }

    method AppendLines(added: seq<Event>, fate: Fate)
      modifies this
      ensures Now() == Append(old(Now()), added, fate)
    {
      var after := Append(World(events, tail, cursor), added, fate);
      events, tail := after.events, after.tail;
    }

    /** `collect_usage`, up to its admission report. */
    method CollectUsage(view: View, fate: Fate) returns (result: Result)
      modifies this
      ensures (result, Now()) == Collect(old(Now()), parse, view, fate)
    {
      var offset := if cursor.Some? then cursor.value.offset else 0;
      if view.Absent? {
        return if tail.Broken? then LedgerMalformed else SourceMissing(offset);
      }
      var size, content := view.sizeSeen, view.content;
      if size < offset {
        return SourceShorter;
      }
      var prior := cursor;
      if prior.Some? && offset == 0 && prior.value.prefixBytes == 0 && size > 0 {
        prior := None;
      }
      var prefixBytes := if prior.Some? then prior.value.prefixBytes
                         else if size < PREFIX_LIMIT then size else PREFIX_LIMIT;
      var prefix := Take(content, prefixBytes);
      if prior.Some? && prefix != prior.value.prefix {
        return PrefixChanged;
      }
      if tail.Broken? {
        return LedgerMalformed;
      }
      result := AdvanceLedger(content, prefixBytes, prefix, fate);
    }

    method AdvanceLedger(content: seq<Byte>, prefixBytes: nat, prefix: seq<Byte>, fate: Fate) returns (result: Result)
      modifies this
      ensures (result, Now()) == Advance(old(Now()), parse, content, prefixBytes, prefix, fate)
    {
      var offset := if cursor.Some? then cursor.value.offset else 0;
      var known := ExistingKeys();
      var end, trailing := offset, 0;
      var added := [];
      if offset <= |content| {
        end := CompleteEnd(content, offset, |content|);
        trailing := |content| - end;
        added := ParseNew(content, offset, end, known);
      }
      AppendLines(added, fate);
      if !fate.Completes? {
        return Died;
      }
      cursor := Some(Cursor(end, prefixBytes, prefix));
      result := if tail.Broken? then LedgerMalformed else Collected(|added|, end, trailing);
    }
  }
}
