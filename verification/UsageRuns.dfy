/**
 Incremental collection equals one parse: over any run of collections of a growing source, complete or
 dying, the ledger is the event list of the newline-terminated source.
 */
module UsageRuns {
  import opened Common
  import opened Usage

  // ---------------------------------------------------------------- cutting lines

  lemma {:induction false} LineEndStays(s: seq<Byte>, i: nat, cut: nat, hi: nat)
    requires i < cut <= hi <= |s| && s[cut - 1] == LF
    ensures LineEnd(s, i, hi) == LineEnd(s, i, cut)
    decreases cut - i
  {
    if s[i] != LF && s[i] != CR {
      LineEndStays(s, i + 1, cut, hi);
    }
  }

  lemma CutSum<T>(a: seq<T>, b: seq<T>, n: nat)
    requires n <= |a|
    ensures (a + b)[..n] == a[..n] && (a + b)[n..] == a[n..] + b
  {
  }

  /** Cuts just after LF commute with splitting at LF, CR and CR LF. */
  lemma {:induction false} LinesDistribute(s: seq<Byte>, i: nat, cut: nat, hi: nat)
    requires i <= cut <= hi <= |s| && (i < cut ==> s[cut - 1] == LF)
    ensures Lines(s, i, hi) == Lines(s, i, cut) + Lines(s, cut, hi)
    decreases cut - i
  {
    if i < cut {
      LineEndStays(s, i, cut, hi);
      var n := LineEnd(s, i, cut);
      LinesDistribute(s, n, cut, hi);
      Regroup([Line(i, s[i..n])], Lines(s, n, cut), Lines(s, cut, hi));
    }
  }

  /** After CR the same cut would split a line terminator. */
  lemma CutAfterCrDiffers()
    ensures Lines([CR, LF], 0, 2) != Lines([CR, LF], 0, 1) + Lines([CR, LF], 1, 2)
  {
    assert |Lines([CR, LF], 0, 2)[0].text| == 2 && |Lines([CR, LF], 0, 1)[0].text| == 1;
  }

  lemma {:induction false} LineEndSame(s: seq<Byte>, t: seq<Byte>, i: nat, hi: nat)
    requires i < hi <= |s| && s <= t
    ensures LineEnd(s, i, hi) == LineEnd(t, i, hi)
    decreases hi - i
  {
    if s[i] != LF && s[i] != CR && i + 1 < hi {
      LineEndSame(s, t, i + 1, hi);
    }
  }

  /** Lines depend only on the bytes they cover. */
  lemma {:induction false} LinesSame(s: seq<Byte>, t: seq<Byte>, i: nat, hi: nat)
    requires i <= hi <= |s| && s <= t
    ensures Lines(s, i, hi) == Lines(t, i, hi)
    decreases hi - i
  {
    if i < hi {
      LineEndSame(s, t, i, hi);
      var n := LineEnd(s, i, hi);
      assert s[i..n] == t[i..n];
      LinesSame(s, t, n, hi);
    }
  }

  lemma {:induction false} EventsConcat(parse: Parser, a: seq<Line>, b: seq<Line>)
    ensures Events(parse, a + b) == Events(parse, a) + Events(parse, b)
  {
    if a == [] {
      assert a + b == b;
    } else {
      var first := LineEvents(parse, a[0]);
      calc {
        Events(parse, a + b);
      ==  { CutSum(a, b, 1); }
        first + Events(parse, a[1..] + b);
      ==  { EventsConcat(parse, a[1..], b); }
        first + (Events(parse, a[1..]) + Events(parse, b));
      ==  { Regroup(first, Events(parse, a[1..]), Events(parse, b)); }
        Events(parse, a) + Events(parse, b);
      }
    }
  }

  predicate AtLineEnd(source: seq<Byte>, n: nat) {
    n <= |source| && (n > 0 ==> source[n - 1] == LF)
  }

  function EndOf(source: seq<Byte>): nat {
    CompleteEnd(source, 0, |source|)
  }

  lemma {:induction false} SameEnd(s: seq<Byte>, lo: nat, hi: nat)
    requires AtLineEnd(s, lo) && lo <= hi <= |s|
    ensures CompleteEnd(s, lo, hi) == CompleteEnd(s, 0, hi)
    decreases hi
  {
    if lo < hi && s[hi - 1] != LF {
      SameEnd(s, lo, hi - 1);
    }
  }

  /** What lies beyond a line end adds its own events, at their own offsets. */
  lemma ParseBeyond(parse: Parser, source: seq<Byte>, n: nat)
    requires AtLineEnd(source, n)
    ensures EndOf(source) == CompleteEnd(source, n, |source|)
    ensures ParseAll(parse, source) == EventsIn(parse, source, 0, n) + EventsIn(parse, source, n, EndOf(source))
  {
    SameEnd(source, n, |source|);
    LinesDistribute(source, 0, n, EndOf(source));
    EventsConcat(parse, Lines(source, 0, n), Lines(source, n, EndOf(source)));
  }

  /** A longer source only adds events. */
  lemma ParseGrows(parse: Parser, source: seq<Byte>, longer: seq<Byte>)
    requires source <= longer
    ensures ParseAll(parse, source) <= ParseAll(parse, longer)
  {
    ParseBeyond(parse, longer, EndOf(source));
    LinesSame(source, longer, 0, EndOf(source));
  }

  // ---------------------------------------------------------------- keys

  predicate DistinctKeys(events: seq<Event>) {
    forall i, j | 0 <= i < j < |events| :: KeyOf(events[i]) != KeyOf(events[j])
  }

  lemma {:induction false} KeysDiffer(parse: Parser, s: seq<Byte>, i: nat, hi: nat)
    requires i <= hi <= |s|
    ensures DistinctKeys(EventsIn(parse, s, i, hi))
    ensures forall e | e in EventsIn(parse, s, i, hi) :: e.offset >= i
    decreases hi - i
  {
    if i < hi {
      var n := LineEnd(s, i, hi);
      KeysDiffer(parse, s, n, hi);
      var line, rest := Line(i, s[i..n]), Lines(s, n, hi);
      assert ([line] + rest)[1..] == rest;
      DistinctAfterLine(parse, line, EventsIn(parse, s, n, hi));
    }
  }

  lemma DistinctAfterLine(parse: Parser, line: Line, later: seq<Event>)
    requires DistinctKeys(later) && forall e | e in later :: e.offset > line.offset
    ensures DistinctKeys(LineEvents(parse, line) + later)
    ensures forall e | e in LineEvents(parse, line) + later :: e.offset >= line.offset
  {
    assert forall k | 0 <= k < |later| :: later[k] in later;
  }

  lemma {:induction false} NewAreAll(candidates: seq<Event>, known: set<Key>)
    requires DistinctKeys(candidates) && forall k | 0 <= k < |candidates| :: KeyOf(candidates[k]) !in known
    ensures NewEvents(candidates, known) == candidates
  {
    if candidates != [] {
      var rest := candidates[1..];
      forall k | 0 <= k < |rest| ensures KeyOf(rest[k]) !in known + {KeyOf(candidates[0])} {
        assert rest[k] == candidates[k + 1];
      }
      assert DistinctKeys(rest) by {
        assert forall k | 0 <= k < |rest| :: rest[k] == candidates[k + 1];
      }
      NewAreAll(rest, known + {KeyOf(candidates[0])});
    }
  }

  lemma {:induction false} KnownAreSkipped(candidates: seq<Event>, known: set<Key>)
    requires forall k | 0 <= k < |candidates| :: KeyOf(candidates[k]) in known
    ensures NewEvents(candidates, known) == []
  {
    if candidates != [] {
      forall k | 0 <= k < |candidates[1..]| ensures KeyOf(candidates[1..][k]) in known {
        assert candidates[1..][k] == candidates[k + 1];
      }
      KnownAreSkipped(candidates[1..], known);
    }
  }

  /** A ledger that already holds the first part of a distinct list gains exactly the rest. */
  lemma MissingEvents(before: seq<Event>, done: seq<Event>, rest: seq<Event>)
    requires DistinctKeys(before + done + rest)
    ensures NewEvents(done + rest, KeySet(before + done)) == rest
  {
    var known, all := KeySet(before + done), before + done + rest;
    NewEventsConcat(done, rest, known);
    forall k | 0 <= k < |done| ensures KeyOf(done[k]) in known {
      assert (before + done)[|before| + k] == done[k];
    }
    KnownAreSkipped(done, known);
    assert KeySet(done) <= known;
    assert known + KeySet(done) == known;
    forall k | 0 <= k < |rest| ensures KeyOf(rest[k]) !in known {
      assert all[|before| + |done| + k] == rest[k];
      assert forall i | 0 <= i < |before + done| :: all[i] == (before + done)[i];
    }
    assert DistinctKeys(rest) by {
      forall i, j | 0 <= i < j < |rest| ensures KeyOf(rest[i]) != KeyOf(rest[j]) {
        assert all[|before| + |done| + i] == rest[i] && all[|before| + |done| + j] == rest[j];
      }
    }
    NewAreAll(rest, known);
  }

  // ---------------------------------------------------------------- one step

  /** The ledger lies between what the cursor covers and what the source holds. */
  ghost predicate Inv(parse: Parser, source: seq<Byte>, w: World) {
    && w.tail.Ended?
    && AtLineEnd(source, OffsetOf(w))
    && EventsIn(parse, source, 0, OffsetOf(w)) <= w.events <= ParseAll(parse, source)
    && (w.cursor.Some? ==>
          w.cursor.value.prefixBytes <= |source| && w.cursor.value.prefix == source[..w.cursor.value.prefixBytes])
  }

  predicate WholeLines(fate: Fate) {
    !fate.DiesWithin?
  }

  lemma InvGrows(parse: Parser, source: seq<Byte>, longer: seq<Byte>, w: World)
    requires Inv(parse, source, w) && source <= longer
    ensures Inv(parse, longer, w)
  {
    ParseGrows(parse, source, longer);
    LinesSame(source, longer, 0, OffsetOf(w));
  }

  lemma Between<T>(before: seq<T>, later: seq<T>, middle: seq<T>)
    requires before <= middle <= before + later
    ensures |middle| - |before| <= |later|
    ensures var done, rest := later[..|middle| - |before|], later[|middle| - |before|..];
            middle == before + done && before + done + rest == before + later && done + rest == later
  {
    var done := later[..|middle| - |before|];
    assert middle == (before + later)[..|middle|];
    assert (before + later)[..|middle|] == before + done;
  }

  /** The events a collection finds beyond the cursor and not in the ledger. */
  function Missing(parse: Parser, source: seq<Byte>, w: World): seq<Event>
    requires OffsetOf(w) <= |source|
  {
    NewEvents(EventsIn(parse, source, OffsetOf(w), CompleteEnd(source, OffsetOf(w), |source|)), KeySet(w.events))
  }

  lemma LedgerAndMissing(parse: Parser, source: seq<Byte>, w: World)
    requires Inv(parse, source, w)
    ensures CompleteEnd(source, OffsetOf(w), |source|) == EndOf(source)
    ensures w.events + Missing(parse, source, w) == ParseAll(parse, source)
  {
    var c, end := OffsetOf(w), EndOf(source);
    ParseBeyond(parse, source, c);
    var before, later := EventsIn(parse, source, 0, c), EventsIn(parse, source, c, end);
    Between(before, later, w.events);
    var n := |w.events| - |before|;
    KeysDiffer(parse, source, 0, end);
    MissingEvents(before, later[..n], later[n..]);
  }

  ghost predicate PrefixKnown(source: seq<Byte>, prefixBytes: nat, prefix: seq<Byte>) {
    prefixBytes <= |source| && prefix == source[..prefixBytes]
  }

  lemma AdvanceKeepsInv(
    parse: Parser, content: seq<Byte>, w: World, prefixBytes: nat, prefix: seq<Byte>, fate: Fate)
    requires Inv(parse, content, w) && WholeLines(fate) && PrefixKnown(content, prefixBytes, prefix)
    ensures var (result, after) := Advance(w, parse, content, prefixBytes, prefix, fate);
            && Inv(parse, content, after) && OffsetOf(w) <= OffsetOf(after)
            && (if fate.Completes? then
                  && result.Collected? && result.cursorOffset == EndOf(content)
                  && after.events == ParseAll(parse, content)
                else result.Died?)
  {
    LedgerAndMissing(parse, content, w);
    var added := Missing(parse, content, w);
    AppendWhole(w, added, fate);
    var appended := Append(w, added, fate);
    if fate.Completes? {
      AtCompleteEnd(parse, content, appended.(cursor := Some(Cursor(EndOf(content), prefixBytes, prefix))));
    } else {
      AppendKeepsInv(parse, content, w, added, appended);
    }
  }

  lemma AppendKeepsInv(parse: Parser, content: seq<Byte>, w: World, added: seq<Event>, appended: World)
    requires Inv(parse, content, w) && w.events + added == ParseAll(parse, content)
    requires appended.tail.Ended? && appended.cursor == w.cursor
    requires w.events <= appended.events <= w.events + added
    ensures Inv(parse, content, appended) && OffsetOf(appended) == OffsetOf(w)
  {
    assert EventsIn(parse, content, 0, OffsetOf(w)) <= appended.events;
  }

  lemma AppendWhole(w: World, added: seq<Event>, fate: Fate)
    requires w.tail.Ended? && WholeLines(fate)
    ensures var after := Append(w, added, fate);
            && after.tail.Ended? && after.cursor == w.cursor && w.events <= after.events <= w.events + added
            && (fate.Completes? ==> after.events == w.events + added)
  {
  }

  lemma AtCompleteEnd(parse: Parser, content: seq<Byte>, w: World)
    requires w.tail.Ended? && OffsetOf(w) == EndOf(content) && w.events == ParseAll(parse, content)
    requires w.cursor.Some? && PrefixKnown(content, w.cursor.value.prefixBytes, w.cursor.value.prefix)
    ensures Inv(parse, content, w)
  {
  }

  /** With the source grown since, the size and prefix checks pass and the work is done on the new content. */
  lemma ChecksPass(parse: Parser, source: seq<Byte>, w: World, size: nat, content: seq<Byte>, fate: Fate)
    returns (prefixBytes: nat, prefix: seq<Byte>)
    requires Inv(parse, source, w) && source <= content && |source| <= size <= |content|
    ensures PrefixKnown(content, prefixBytes, prefix)
    ensures Collect(w, parse, Present(size, content), fate) == Advance(w, parse, content, prefixBytes, prefix, fate)
  {
    var prior := PriorPrefix(w, size);
    prefixBytes := if prior.Some? then prior.value.prefixBytes else if size < PREFIX_LIMIT then size else PREFIX_LIMIT;
    prefix := Take(content, prefixBytes);
    if prior.Some? {
      assert content[..prefixBytes] == source[..prefixBytes];
    }
  }

  lemma CollectKeepsInv(parse: Parser, source: seq<Byte>, w: World, size: nat, content: seq<Byte>, fate: Fate)
    requires Inv(parse, source, w) && WholeLines(fate)
    requires source <= content && |source| <= size <= |content|
    ensures var (result, after) := Collect(w, parse, Present(size, content), fate);
            && Inv(parse, content, after) && OffsetOf(w) <= OffsetOf(after)
            && (if fate.Completes? then
                  && result.Collected? && result.cursorOffset == EndOf(content)
                  && after.events == ParseAll(parse, content)
                else result.Died?)
  {
    InvGrows(parse, source, content, w);
    var prefixBytes, prefix := ChecksPass(parse, source, w, size, content, fate);
    AdvanceKeepsInv(parse, content, w, prefixBytes, prefix, fate);
  }

  // ---------------------------------------------------------------- runs

  datatype Attempt = Attempt(view: View, fate: Fate)

  /** What the collections saw of the source before the k-th one. */
  function Seen(attempts: seq<Attempt>, k: nat): seq<Byte>
    requires k <= |attempts|
  {
    if k == 0 then [] else if attempts[k - 1].view.Present? then attempts[k - 1].view.content else Seen(attempts, k - 1)
  }

  /** Append-only: each collection sees at least what the one before it read, and may be overtaken. */
  ghost predicate SourceGrows(attempts: seq<Attempt>) {
    forall k | 0 <= k < |attempts| && attempts[k].view.Present? ::
      && Seen(attempts, k) <= attempts[k].view.content
      && |Seen(attempts, k)| <= attempts[k].view.sizeSeen <= |attempts[k].view.content|
  }

  ghost predicate IsRun(parse: Parser, ws: seq<World>, attempts: seq<Attempt>) {
    && |ws| == |attempts| + 1 && ws[0] == World([], Ended, None)
    && forall k | 0 <= k < |attempts| :: ws[k + 1] == Collect(ws[k], parse, attempts[k].view, attempts[k].fate).1
  }

  ghost predicate CleanRun(parse: Parser, ws: seq<World>, attempts: seq<Attempt>) {
    && IsRun(parse, ws, attempts) && SourceGrows(attempts)
    && forall k | 0 <= k < |attempts| :: WholeLines(attempts[k].fate)
  }

  lemma {:induction false} RunKeepsInv(parse: Parser, ws: seq<World>, attempts: seq<Attempt>, k: nat)
    requires CleanRun(parse, ws, attempts) && k < |ws|
    ensures Inv(parse, Seen(attempts, k), ws[k])
  {
    if k > 0 {
      RunKeepsInv(parse, ws, attempts, k - 1);
      var a := attempts[k - 1];
      if a.view.Present? {
        hide Collect, Inv, WholeLines;
        CollectKeepsInv(parse, Seen(attempts, k - 1), ws[k - 1], a.view.sizeSeen, a.view.content, a.fate);
      }
    }
  }

  /**
   However the source grew and wherever earlier collections died, a collection that completes leaves a
   ledger equal to one parse of everything newline-terminated in the source it read, and the cursor at
   the end of that.
   */
  lemma LedgerIsOneParse(parse: Parser, ws: seq<World>, attempts: seq<Attempt>, k: nat)
    requires CleanRun(parse, ws, attempts) && k < |attempts|
    requires attempts[k].view.Present? && attempts[k].fate.Completes?
    ensures ws[k + 1].events == ParseAll(parse, attempts[k].view.content)
    ensures OffsetOf(ws[k + 1]) == EndOf(attempts[k].view.content)
    ensures DistinctKeys(ws[k + 1].events)
  {
    RunKeepsInv(parse, ws, attempts, k);
    var content := attempts[k].view.content;
    CollectKeepsInv(parse, Seen(attempts, k), ws[k], attempts[k].view.sizeSeen, content, attempts[k].fate);
    KeysDiffer(parse, content, 0, EndOf(content));
  }

  /** Between completed collections the ledger is always the beginning of that parse, without repetitions. */
  lemma LedgerIsAlwaysAPrefix(parse: Parser, ws: seq<World>, attempts: seq<Attempt>, k: nat)
    requires CleanRun(parse, ws, attempts) && k < |ws|
    ensures ws[k].events <= ParseAll(parse, Seen(attempts, k)) && DistinctKeys(ws[k].events)
  {
    RunKeepsInv(parse, ws, attempts, k);
    var source := Seen(attempts, k);
    KeysDiffer(parse, source, 0, EndOf(source));
    assert forall i | 0 <= i < |ws[k].events| :: ws[k].events[i] == ParseAll(parse, source)[i];
  }

  /** No collection reports a shorter source, a changed prefix or an unreadable ledger, and none moves the cursor back. */
  lemma NoCollectionFails(parse: Parser, ws: seq<World>, attempts: seq<Attempt>, k: nat)
    requires CleanRun(parse, ws, attempts) && k < |attempts|
    ensures var result := Collect(ws[k], parse, attempts[k].view, attempts[k].fate).0;
            result.Collected? || result.SourceMissing? || result.Died?
    ensures OffsetOf(ws[k]) <= OffsetOf(ws[k + 1])
  {
    RunKeepsInv(parse, ws, attempts, k);
    var a := attempts[k];
    if a.view.Present? {
      CollectKeepsInv(parse, Seen(attempts, k), ws[k], a.view.sizeSeen, a.view.content, a.fate);
    }
  }

  // ---------------------------------------------------------------- torn lines

  /** A ledger with an unreadable line is never repaired: nothing is collected and nothing changes any more. */
  lemma {:induction false} TornLedgerIsForever(
    parse: Parser, ws: seq<World>, attempts: seq<Attempt>, j: nat, k: nat)
    requires IsRun(parse, ws, attempts) && j <= k < |ws| && ws[j].tail.Broken?
    ensures ws[k] == ws[j]
    ensures k < |attempts| ==> !Collect(ws[k], parse, attempts[k].view, attempts[k].fate).0.Collected?
    decreases k
  {
    if j < k {
      TornLedgerIsForever(parse, ws, attempts, j, k - 1);
    }
  }

  /** A ledger in order but for the newline of its last record. */
  ghost predicate Dangling(parse: Parser, source: seq<Byte>, w: World) {
    w.tail.Unterminated? && Inv(parse, source, w.(tail := Ended))
  }

  /**
   A crash inside the append is harmless if it ends on a line boundary. Otherwise: with part of a record
   written the ledger is torn at once; with all of it but the newline it is in order but dangling.
   */
  lemma CrashWithinALine(parse: Parser, source: seq<Byte>, w: World, size: nat, content: seq<Byte>, fate: Fate)
    requires Inv(parse, source, w) && source <= content && |source| <= size <= |content|
    requires fate.DiesWithin? && |w.events| + fate.lines < |ParseAll(parse, content)|
    ensures var after := Collect(w, parse, Present(size, content), fate).1;
            if fate.allButNewline then
              Dangling(parse, content, after) && after.events == ParseAll(parse, content)[..|w.events| + fate.lines + 1]
            else after.tail.Broken?
  {
    InvGrows(parse, source, content, w);
    LedgerAndMissing(parse, content, w);
    var prefixBytes, prefix := ChecksPass(parse, source, w, size, content, fate);
    var added := Missing(parse, content, w);
    AppendWithin(w, added, fate);
    if fate.allButNewline {
      AppendKeepsInv(parse, content, w, added, Append(w, added, fate).(tail := Ended));
    }
  }

  lemma AppendWithin(w: World, added: seq<Event>, fate: Fate)
    requires w.tail.Ended? && fate.DiesWithin? && fate.lines < |added|
    ensures var after := Append(w, added, fate);
            && after.tail == (if fate.allButNewline then Unterminated else Broken) && after.cursor == w.cursor
            && after.events == w.events + added[..fate.lines + if fate.allButNewline then 1 else 0]
            && after.events == (w.events + added)[..|after.events|]
            && w.events <= after.events <= w.events + added
  {
  }

  /** The size and prefix checks do not look at the ledger. */
  lemma DanglingChecks(parse: Parser, source: seq<Byte>, w: World, size: nat, content: seq<Byte>, fate: Fate)
    returns (prefixBytes: nat, prefix: seq<Byte>)
    requires Dangling(parse, source, w) && source <= content && |source| <= size <= |content|
    ensures PrefixKnown(content, prefixBytes, prefix)
    ensures Collect(w, parse, Present(size, content), fate) == Advance(w, parse, content, prefixBytes, prefix, fate)
  {
    prefixBytes, prefix := ChecksPass(parse, source, w.(tail := Ended), size, content, fate);
  }

  /**
   What becomes of a dangling ledger is decided by the next event: a collection that survives its append
   reports a malformed ledger, and leaves it torn, if and only if the source holds an event that the ledger
   lacks. Otherwise it completes, and the ledger is left as it was.
   */
  lemma NextEventTears(parse: Parser, source: seq<Byte>, w: World, size: nat, content: seq<Byte>)
    requires Dangling(parse, source, w) && source <= content && |source| <= size <= |content|
    ensures var (result, after) := Collect(w, parse, Present(size, content), Completes);
            && (result.LedgerMalformed? <==> w.events != ParseAll(parse, content))
            && (after.tail.Broken? <==> w.events != ParseAll(parse, content))
            && (w.events == ParseAll(parse, content) ==>
                  && result.Collected? && result.count == 0 && after.events == w.events
                  && Dangling(parse, content, after) && OffsetOf(after) == EndOf(content))
  {
    var mended := w.(tail := Ended);
    InvGrows(parse, source, content, mended);
    LedgerAndMissing(parse, content, mended);
    var prefixBytes, prefix := DanglingChecks(parse, source, w, size, content, Completes);
    var added := Missing(parse, content, mended);
    assert |w.events + added| == |w.events| + |added|;
    assert added == [] ==> w.events + added == w.events;
    if added == [] {
      AtCompleteEnd(parse, content, mended.(cursor := Some(Cursor(EndOf(content), prefixBytes, prefix))));
    }
  }

  /**
   A collection that dies at a dangling ledger leaves it dangling and unchanged, or torn if it wrote
   anything.
   */
  lemma DyingAtDangling(parse: Parser, source: seq<Byte>, w: World, size: nat, content: seq<Byte>, fate: Fate)
    requires Dangling(parse, source, w) && source <= content && |source| <= size <= |content|
    requires !fate.Completes?
    ensures var after := Collect(w, parse, Present(size, content), fate).1;
            after.tail.Broken? <==> w.events != ParseAll(parse, content) && fate != DiesAfter(0)
    ensures var after := Collect(w, parse, Present(size, content), fate).1;
            !after.tail.Broken? ==> after == w
  {
    var mended := w.(tail := Ended);
    InvGrows(parse, source, content, mended);
    LedgerAndMissing(parse, content, mended);
    var prefixBytes, prefix := DanglingChecks(parse, source, w, size, content, fate);
    var added := Missing(parse, content, mended);
    assert |w.events + added| == |w.events| + |added|;
    assert added == [] ==> w.events + added == w.events;
  }

  // ---------------------------------------------------------------- every run

  /** The three kinds of ledgers a run can leave behind. */
  ghost predicate Standing(parse: Parser, source: seq<Byte>, w: World) {
    w.tail.Broken? || Inv(parse, source, w) || Dangling(parse, source, w)
  }

  /** Dying within a line that is not there any more is dying after the last one. */
  lemma DyingAtTheEnd(parse: Parser, source: seq<Byte>, w: World, size: nat, content: seq<Byte>, fate: Fate)
    requires Inv(parse, source, w) && source <= content && |source| <= size <= |content|
    requires fate.DiesWithin? && |w.events| + fate.lines >= |ParseAll(parse, content)|
    ensures Collect(w, parse, Present(size, content), fate) == Collect(w, parse, Present(size, content), DiesAfter(fate.lines))
  {
    InvGrows(parse, source, content, w);
    LedgerAndMissing(parse, content, w);
    var prefixBytes, prefix := ChecksPass(parse, source, w, size, content, fate);
    var prefixBytes', prefix' := ChecksPass(parse, source, w, size, content, DiesAfter(fate.lines));
    var added := Missing(parse, content, w);
    assert |w.events + added| == |w.events| + |added|;
    assert Append(w, added, fate) == Append(w, added, DiesAfter(fate.lines));
  }

  /** A complete report is a true one, whatever shape the ledger was in. */
  ghost predicate TrueReport(parse: Parser, content: seq<Byte>, result: Result, after: World) {
    result.Collected? ==>
      && after.events == ParseAll(parse, content) && DistinctKeys(after.events)
      && OffsetOf(after) == EndOf(content) && result.cursorOffset == EndOf(content)
  }

  lemma InOrderStep(parse: Parser, source: seq<Byte>, w: World, size: nat, content: seq<Byte>, fate: Fate)
    requires Inv(parse, source, w) && source <= content && |source| <= size <= |content|
    ensures var (result, after) := Collect(w, parse, Present(size, content), fate);
            Standing(parse, content, after) && TrueReport(parse, content, result, after)
  {
    KeysDiffer(parse, content, 0, EndOf(content));
    if WholeLines(fate) {
      CollectKeepsInv(parse, source, w, size, content, fate);
    } else if |w.events| + fate.lines >= |ParseAll(parse, content)| {
      DyingAtTheEnd(parse, source, w, size, content, fate);
      CollectKeepsInv(parse, source, w, size, content, DiesAfter(fate.lines));
    } else {
      CrashWithinALine(parse, source, w, size, content, fate);
      DyingIsReported(w, parse, Present(size, content), fate);
    }
  }

  lemma DyingIsReported(w: World, parse: Parser, view: View, fate: Fate)
    requires !fate.Completes? && view.Present?
    ensures !Collect(w, parse, view, fate).0.Collected?
  {
  }

  lemma DanglingStep(parse: Parser, source: seq<Byte>, w: World, size: nat, content: seq<Byte>, fate: Fate)
    requires Dangling(parse, source, w) && source <= content && |source| <= size <= |content|
    ensures var (result, after) := Collect(w, parse, Present(size, content), fate);
            Standing(parse, content, after) && TrueReport(parse, content, result, after)
  {
    KeysDiffer(parse, content, 0, EndOf(content));
    if fate.Completes? {
      NextEventTears(parse, source, w, size, content);
      CollectedAtCursor(w, parse, Present(size, content));
    } else {
      DyingAtDangling(parse, source, w, size, content, fate);
      DyingIsReported(w, parse, Present(size, content), fate);
      InvGrows(parse, source, content, w.(tail := Ended));
    }
  }

  lemma CollectedAtCursor(w: World, parse: Parser, view: View)
    ensures var (result, after) := Collect(w, parse, view, Completes);
            && (result.Collected? ==> result.cursorOffset == OffsetOf(after))
            && (result.Collected? || result.LedgerMalformed? || after == w)
            && (after.tail.Broken? ==> !result.Collected?)
  {
  }

  lemma BrokenStep(w: World, parse: Parser, view: View, fate: Fate)
    requires w.tail.Broken?
    ensures Collect(w, parse, view, fate).1 == w && !Collect(w, parse, view, fate).0.Collected?
  {
  }

  lemma AnyStep(parse: Parser, source: seq<Byte>, w: World, size: nat, content: seq<Byte>, fate: Fate)
    requires Standing(parse, source, w) && source <= content && |source| <= size <= |content|
    ensures var (result, after) := Collect(w, parse, Present(size, content), fate);
            Standing(parse, content, after) && TrueReport(parse, content, result, after)
  {
    if w.tail.Broken? {
      BrokenStep(w, parse, Present(size, content), fate);
    } else if Inv(parse, source, w) {
      InOrderStep(parse, source, w, size, content, fate);
    } else {
      DanglingStep(parse, source, w, size, content, fate);
    }
  }

  /**
   Over every run on a growing source, wherever collections die, also inside a line: the ledger is in order,
   in order but for its last newline, or torn.
   */
  lemma {:induction false} EveryLedgerStands(parse: Parser, ws: seq<World>, attempts: seq<Attempt>, k: nat)
    requires IsRun(parse, ws, attempts) && SourceGrows(attempts) && k < |ws|
    ensures Standing(parse, Seen(attempts, k), ws[k])
  {
    hide Collect, Standing, Inv;
    if k > 0 {
      EveryLedgerStands(parse, ws, attempts, k - 1);
      var a, w, source := attempts[k - 1], ws[k - 1], Seen(attempts, k - 1);
      assert ws[k] == Collect(w, parse, a.view, a.fate).1;
      if a.view.Present? {
        AnyStep(parse, source, w, a.view.sizeSeen, a.view.content, a.fate);
      } else {
        AbsentStays(w, parse, a.fate);
      }
    } else {
      NewStands(parse);
    }
  }

  lemma NewStands(parse: Parser)
    ensures Standing(parse, [], World([], Ended, None))
  {
  }

  lemma AbsentStays(w: World, parse: Parser, fate: Fate)
    ensures Collect(w, parse, Absent, fate).1 == w
  {
  }

  /**
   And whenever a collection of such a run reports completion, its report is true: the ledger is one
   duplicate-free parse of everything newline-terminated in the source it read.
   */
  lemma CollectedIsOneParse(parse: Parser, ws: seq<World>, attempts: seq<Attempt>, k: nat)
    requires IsRun(parse, ws, attempts) && SourceGrows(attempts) && k < |attempts| && attempts[k].view.Present?
    requires Collect(ws[k], parse, attempts[k].view, attempts[k].fate).0.Collected?
    ensures ws[k + 1].events == ParseAll(parse, attempts[k].view.content) && DistinctKeys(ws[k + 1].events)
    ensures OffsetOf(ws[k + 1]) == EndOf(attempts[k].view.content)
  {
    EveryLedgerStands(parse, ws, attempts, k);
    var a := attempts[k];
    AnyStep(parse, Seen(attempts, k), ws[k], a.view.sizeSeen, a.view.content, a.fate);
    hide Collect, Standing, Inv;
  }
}
