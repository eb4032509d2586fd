/**
 What a completed collection leaves in the ledger, told by the bytes of the source and what the parser makes
 of its lines: which events, and in which order.
 */
module UsageEvents {
  import opened Common
  import opened Usage
  import opened UsageRuns

  // ---------------------------------------------------------------- lines by their boundaries

  /** Between two lines: after LF, or after a CR that no LF follows; the ends of the text are boundaries too. */
  predicate Boundary(s: seq<Byte>, k: nat, end: nat)
    requires k <= end <= |s|
  {
    k == 0 || k == end || s[k - 1] == LF || (s[k - 1] == CR && s[k] != LF)
  }

  /** A line of the text before `end`: from one boundary to the next. */
  predicate IsLine(s: seq<Byte>, lo: nat, hi: nat, end: nat)
    requires end <= |s|
  {
    lo < hi <= end && Boundary(s, lo, end) && Boundary(s, hi, end) && forall k | lo < k < hi :: !Boundary(s, k, end)
  }

  lemma {:induction false} LineEndBounds(s: seq<Byte>, i: nat, end: nat)
    requires i < end <= |s|
    ensures var n := LineEnd(s, i, end); Boundary(s, n, end) && forall k | i < k < n :: !Boundary(s, k, end)
    decreases end - i
  {
    if s[i] != LF && s[i] != CR && i + 1 < end {
      LineEndBounds(s, i + 1, end);
    }
  }

  lemma OneLineEnd(s: seq<Byte>, lo: nat, hi: nat, other: nat, end: nat)
    requires end <= |s| && IsLine(s, lo, hi, end) && IsLine(s, lo, other, end)
    ensures hi == other
  {
  }

  ghost predicate StandsIn(s: seq<Byte>, line: Line, end: nat)
    requires end <= |s|
  {
    exists hi: nat :: line.offset <= hi <= end && IsLine(s, line.offset, hi, end) && line.text == s[line.offset..hi]
  }

  lemma {:induction false} LinesExact(s: seq<Byte>, i: nat, end: nat, line: Line)
    requires i <= end <= |s| && Boundary(s, i, end)
    ensures line in Lines(s, i, end) <==> i <= line.offset && StandsIn(s, line, end)
    decreases end - i
  {
    if i < end {
      var n := LineEnd(s, i, end);
      LineEndBounds(s, i, end);
      assert IsLine(s, i, n, end);
      LinesExact(s, n, end, line);
      var first := Line(i, s[i..n]);
      assert Lines(s, i, end) == [first] + Lines(s, n, end);
      hide Lines, Boundary;
      if hi: nat :| line.offset <= hi <= end && IsLine(s, line.offset, hi, end) && line.text == s[line.offset..hi] {
        if line.offset == i {
          OneLineEnd(s, i, hi, n, end);
        }
      }
    }
  }

  // ---------------------------------------------------------------- events by their lines

  /** The parser reads this event off a line. */
  predicate Reads(readings: Readings, e: Event) {
    match e.kind
    case Tokens => readings.tokens == Some(Reading(e.timestamp, e.measurement))
    case Allowance => readings.allowance == Some(Reading(e.timestamp, e.measurement))
  }

  /** Some line before `end` yields the event, and starts where the event says. */
  ghost predicate Yields(parse: Parser, s: seq<Byte>, end: nat, e: Event)
    requires end <= |s|
  {
    exists hi: nat :: e.offset <= hi <= end && IsLine(s, e.offset, hi, end) && Reads(parse(s[e.offset..hi]), e)
  }

  /** By line, and on one line the token record before the allowance record. */
  ghost predicate InOrder(events: seq<Event>) {
    forall i, j | 0 <= i < j < |events| :: Earlier(events[i], events[j])
  }

  predicate Earlier(a: Event, b: Event) {
    a.offset < b.offset || (a.offset == b.offset && a.kind.Tokens? && b.kind.Allowance?)
  }

  lemma LineYields(parse: Parser, line: Line, e: Event)
    ensures e in LineEvents(parse, line) <==> e.offset == line.offset && Reads(parse(line.text), e)
    ensures InOrder(LineEvents(parse, line))
  {
    var events := LineEvents(parse, line);
    match parse(line.text) {
      case Readings(None, None) =>
      case Readings(Some(t), None) => assert events == [EventOf(Tokens, t, line.offset)];
      case Readings(None, Some(a)) => assert events == [EventOf(Allowance, a, line.offset)];
      case Readings(Some(t), Some(a)) =>
        assert events == [EventOf(Tokens, t, line.offset), EventOf(Allowance, a, line.offset)];
    }
  }

  lemma {:induction false} EventsYield(parse: Parser, lines: seq<Line>, e: Event)
    ensures e in Events(parse, lines) <==> exists line | line in lines :: e.offset == line.offset && Reads(parse(line.text), e)
  {
    if lines != [] {
      EventsYield(parse, lines[1..], e);
      LineYields(parse, lines[0], e);
      hide Reads, LineEvents;
      assert lines == [lines[0]] + lines[1..];
      assert forall line :: line in lines <==> line == lines[0] || line in lines[1..];
    }
  }

  lemma {:induction false} EventsOrdered(parse: Parser, s: seq<Byte>, i: nat, end: nat)
    requires i <= end <= |s|
    ensures InOrder(EventsIn(parse, s, i, end))
    ensures forall e | e in EventsIn(parse, s, i, end) :: i <= e.offset
    decreases end - i
  {
    if i < end {
      var n := LineEnd(s, i, end);
      EventsOrdered(parse, s, n, end);
      var line, rest := Line(i, s[i..n]), Lines(s, n, end);
      assert ([line] + rest)[1..] == rest;
      var first, later := LineEvents(parse, line), EventsIn(parse, s, n, end);
      assert EventsIn(parse, s, i, end) == first + later;
      forall e | e in first ensures e.offset == i {
        LineYields(parse, line, e);
      }
      if first != [] {
        LineYields(parse, line, first[0]);
      }
      Ordered(first, later, i, n);
    }
  }

  lemma Ordered(first: seq<Event>, later: seq<Event>, i: nat, n: nat)
    requires InOrder(first) && InOrder(later) && i < n
    requires (forall e | e in first :: e.offset == i) && forall e | e in later :: n <= e.offset
    ensures InOrder(first + later) && forall e | e in first + later :: i <= e.offset
  {
    var all := first + later;
    forall j, k | 0 <= j < k < |all| ensures Earlier(all[j], all[k]) {
      if j < |first| <= k {
        assert all[j] in first && all[k] in later;
      } else if k < |first| {
        assert all[j] == first[j] && all[k] == first[k];
      } else {
        assert all[j] == later[j - |first|] && all[k] == later[k - |first|];
      }
    }
  }

  /** One parse holds an event exactly if a line of the newline-terminated source yields it. */
  lemma ParseYields(parse: Parser, source: seq<Byte>, e: Event)
    ensures e in ParseAll(parse, source) <==> Yields(parse, source, EndOf(source), e)
    ensures InOrder(ParseAll(parse, source))
  {
    var end := EndOf(source);
    EventsOrdered(parse, source, 0, end);
    EventsYield(parse, Lines(source, 0, end), e);
    assert e in ParseAll(parse, source)
      <==> exists line | line in Lines(source, 0, end) :: e.offset == line.offset && Reads(parse(line.text), e);
    hide InOrder, Events, EventsIn, ParseAll;
    SomeLineYields(parse, source, end, e);
  }

  lemma SomeLineYields(parse: Parser, s: seq<Byte>, end: nat, e: Event)
    requires end <= |s|
    ensures (exists line | line in Lines(s, 0, end) :: e.offset == line.offset && Reads(parse(line.text), e))
            <==> Yields(parse, s, end, e)
  {
    hide Lines, Reads, IsLine;
    assert Boundary(s, 0, end);
    if line :| line in Lines(s, 0, end) && e.offset == line.offset && Reads(parse(line.text), e) {
      LinesExact(s, 0, end, line);
    }
    if hi: nat :| e.offset <= hi <= end && IsLine(s, e.offset, hi, end) && Reads(parse(s[e.offset..hi]), e) {
      LinesExact(s, 0, end, Line(e.offset, s[e.offset..hi]));
    }
  }

  /** The newline-terminated part of a source: it ends with LF or is empty, and no LF follows. */
  predicate EndsWhole(source: seq<Byte>, end: nat) {
    && end <= |source| && (end > 0 ==> source[end - 1] == LF)
    && forall k | end <= k < |source| :: source[k] != LF
  }

  /**
   Over every run on a growing source, wherever collections die: when one reports completion, an event is in
   the ledger if and only if a line of the newline-terminated source yields it, with its offset at the start
   of that line; and the events stand in line order, tokens before allowance.
   */
  lemma LedgerHoldsTheLines(
    parse: Parser, ws: seq<World>, attempts: seq<Attempt>, k: nat, end: nat, e: Event)
    requires IsRun(parse, ws, attempts) && SourceGrows(attempts) && k < |attempts| && attempts[k].view.Present?
    requires Collect(ws[k], parse, attempts[k].view, attempts[k].fate).0.Collected?
    requires EndsWhole(attempts[k].view.content, end)
    ensures e in ws[k + 1].events <==> Yields(parse, attempts[k].view.content, end, e)
    ensures InOrder(ws[k + 1].events)
  {
    var content := attempts[k].view.content;
    CollectedIsOneParse(parse, ws, attempts, k);
    ParseYields(parse, content, e);
    hide Collect, ParseAll, Yields, InOrder;
    assert EndsWhole(content, EndOf(content));
    OneEnd(content, end, EndOf(content));
  }

  lemma OneEnd(source: seq<Byte>, a: nat, b: nat)
    requires EndsWhole(source, a) && EndsWhole(source, b)
    ensures a == b
  {
  }

  // ---------------------------------------------------------------- what a collection reports

  /** A cursor as collections write it: with as much of the source as it says. */
  predicate WholeCursor(w: World) {
    w.cursor.Some? ==> |w.cursor.value.prefix| == w.cursor.value.prefixBytes
  }

  /**
   Why a collection is refused: each reason holds exactly when it is reported, and nothing is changed; a ledger
   that was unreadable before is reported as such unless the source already is the reason.
   */
  lemma RefusalsTell(w: World, parse: Parser, view: View, fate: Fate)
    requires WholeCursor(w)
    ensures var (result, after) := Collect(w, parse, view, fate);
            && (result.SourceMissing? || result.SourceShorter? || result.PrefixChanged? ==> after == w)
            && (w.tail.Broken? && !result.SourceShorter? && !result.PrefixChanged? ==> result.LedgerMalformed? && after == w)
            && (result.SourceMissing? <==> view.Absent? && !w.tail.Broken?)
            && (result.SourceShorter? <==> view.Present? && view.sizeSeen < OffsetOf(w))
            && (result.PrefixChanged? <==> view.Present? && OffsetOf(w) <= view.sizeSeen
                                           && w.cursor.Some? && !(w.cursor.value.prefix <= view.content))
  {
    if view.Present? && w.cursor.Some? {
      var prefix, content := w.cursor.value.prefix, view.content;
      assert prefix <= content <==> |prefix| <= |content| && content[..|prefix|] == prefix;
    }
  }

  /** The numbers of a completed collection: what it appended, where its cursor stands, and what is left over. */
  lemma CountsTell(w: World, parse: Parser, view: View)
    requires Collect(w, parse, view, Completes).0.Collected? && OffsetOf(w) <= |view.content|
    ensures var (result, after) := Collect(w, parse, view, Completes);
            && |after.events| == |w.events| + result.count && w.events <= after.events
            && result.cursorOffset == OffsetOf(after) && result.cursorOffset + result.trailing == |view.content|
            && (WholeCursor(w) && view.sizeSeen <= |view.content| ==> WholeCursor(after))
  {
  }
}
