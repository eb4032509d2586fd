/**
 What the transport reports, told by what stands where in the stream of the process: which line decides,
 which problems are recorded, and when there is exactly one answer.
 */
module CaptureReports {
  import opened Common
  import opened Capture

  // ---------------------------------------------------------------- by positions

  /** A completed agent message with a text. */
  predicate Answers(line: Line) {
    && line.EventLine? && line.event.ItemEvent? && line.event.completed
    && line.event.item.AgentMessage? && line.event.item.text.Some?
  }

  function TextOf(line: Line): string
    requires Answers(line)
  {
    line.event.item.text.value
  }

  predicate EndsTurn(line: Line) {
    line.EventLine? && line.event.TurnCompleted?
  }

  function ValidityOf(line: Line): bool
    requires EndsTurn(line)
  {
    line.event.usageValid
  }

  /** A line that gives no cause for concern: an ordinary event, a completed turn, or a supported item. */
  predicate Harmless(line: Line) {
    && line.EventLine?
    && (|| line.event.OrdinaryEvent? || line.event.TurnCompleted?
        || (line.event.ItemEvent? && line.event.item.OtherItem?)
        || (line.event.ItemEvent? && line.event.item.AgentMessage?
            && (line.event.completed ==> line.event.item.text.Some?)))
  }

  /** Exactly one line is an answer, and it has this text. */
  predicate OnlyAnswer(lines: seq<Line>, text: string) {
    exists k | 0 <= k < |lines| :: OnlyAnswerAt(lines, k) && TextOf(lines[k]) == text
  }

  predicate OnlyAnswerAt(lines: seq<Line>, k: nat)
    requires k < |lines|
  {
    Answers(lines[k]) && forall j | 0 <= j < |lines| && j != k :: !Answers(lines[j])
  }

  /** Exactly one line is a completed turn, and its usage is or is not valid. */
  predicate OnlyTurn(lines: seq<Line>, usageValid: bool) {
    exists k | 0 <= k < |lines| :: OnlyTurnAt(lines, k) && ValidityOf(lines[k]) == usageValid
  }

  predicate OnlyTurnAt(lines: seq<Line>, k: nat)
    requires k < |lines|
  {
    EndsTurn(lines[k]) && forall j | 0 <= j < |lines| && j != k :: !EndsTurn(lines[j])
  }

  lemma MessageStep(lines: seq<Line>, n: nat)
    requires 0 < n <= |lines|
    ensures Messages(lines, n)
            == Messages(lines, n - 1) + if Answers(lines[n - 1]) then [TextOf(lines[n - 1])] else []
    ensures Turns(lines, n)
            == Turns(lines, n - 1) + if EndsTurn(lines[n - 1]) then [ValidityOf(lines[n - 1])] else []
  {
  }

  lemma {:induction false} NoneFound(lines: seq<Line>, n: nat)
    requires n <= |lines|
    ensures Messages(lines, n) == [] <==> forall j | 0 <= j < n :: !Answers(lines[j])
    ensures Turns(lines, n) == [] <==> forall j | 0 <= j < n :: !EndsTurn(lines[j])
  {
    if n > 0 {
      NoneFound(lines, n - 1);
      MessageStep(lines, n);
      hide Messages, Turns, Answers, EndsTurn;
    }
  }

  lemma OneLonger<T>(found: seq<T>, more: Option<T>, only: T)
    ensures found + (if more.Some? then [more.value] else []) == [only]
            <==> if more.Some? then more.value == only && found == [] else found == [only]
  {
    var all := found + if more.Some? then [more.value] else [];
    assert |all| == |found| + if more.Some? then 1 else 0;
    assert found == [] && more.Some? ==> all == [more.value];
    assert more.None? ==> all == found;
  }

  lemma {:induction false} OneMessage(lines: seq<Line>, n: nat, text: string)
    requires n <= |lines|
    ensures Messages(lines, n) == [text] <==> OnlyAnswer(lines[..n], text)
  {
    hide Messages, Answers, OnlyAnswer;
    if n == 0 {
      NoneFound(lines, 0);
      NobodyAnswers(lines, 0, text);
    } else {
      OneMessage(lines, n - 1, text);
      NoneFound(lines, n - 1);
      MessageStep(lines, n);
      OneMore(lines, n, text);
      OneLonger(Messages(lines, n - 1), if Answers(lines[n - 1]) then Some(TextOf(lines[n - 1])) else None, text);
    }
  }

  lemma NobodyAnswers(lines: seq<Line>, n: nat, text: string)
    requires n <= |lines| && forall j | 0 <= j < n :: !Answers(lines[j])
    ensures !OnlyAnswer(lines[..n], text)
  {
  }

  lemma OneMore(lines: seq<Line>, n: nat, text: string)
    requires 0 < n <= |lines|
    ensures OnlyAnswer(lines[..n], text)
            <==> if Answers(lines[n - 1]) then TextOf(lines[n - 1]) == text && forall j | 0 <= j < n - 1 :: !Answers(lines[j])
                 else OnlyAnswer(lines[..n - 1], text)
  {
    hide Answers;
    var line, init, all := lines[n - 1], lines[..n - 1], lines[..n];
    assert forall j | 0 <= j < n - 1 :: init[j] == lines[j] == all[j];
    assert all[n - 1] == line;
    if Answers(line) {
      if TextOf(line) == text && forall j | 0 <= j < n - 1 :: !Answers(lines[j]) {
        assert OnlyAnswerAt(all, n - 1);
      }
    } else {
      assert forall k | 0 <= k < n - 1 :: OnlyAnswerAt(init, k) <==> OnlyAnswerAt(all, k);
    }
  }

  lemma {:induction false} OneTurn(lines: seq<Line>, n: nat, usageValid: bool)
    requires n <= |lines|
    ensures Turns(lines, n) == [usageValid] <==> OnlyTurn(lines[..n], usageValid)
  {
    hide Turns, EndsTurn, OnlyTurn;
    if n == 0 {
      NoneFound(lines, 0);
      NobodyEnds(lines, 0, usageValid);
    } else {
      OneTurn(lines, n - 1, usageValid);
      NoneFound(lines, n - 1);
      MessageStep(lines, n);
      OneMoreTurn(lines, n, usageValid);
      OneLonger(Turns(lines, n - 1), if EndsTurn(lines[n - 1]) then Some(ValidityOf(lines[n - 1])) else None, usageValid);
    }
  }

  lemma NobodyEnds(lines: seq<Line>, n: nat, usageValid: bool)
    requires n <= |lines| && forall j | 0 <= j < n :: !EndsTurn(lines[j])
    ensures !OnlyTurn(lines[..n], usageValid)
  {
  }

  lemma OneMoreTurn(lines: seq<Line>, n: nat, usageValid: bool)
    requires 0 < n <= |lines|
    ensures OnlyTurn(lines[..n], usageValid)
            <==> if EndsTurn(lines[n - 1]) then
                   ValidityOf(lines[n - 1]) == usageValid && forall j | 0 <= j < n - 1 :: !EndsTurn(lines[j])
                 else OnlyTurn(lines[..n - 1], usageValid)
  {
    hide EndsTurn;
    var line, init, all := lines[n - 1], lines[..n - 1], lines[..n];
    assert forall j | 0 <= j < n - 1 :: init[j] == lines[j] == all[j];
    assert all[n - 1] == line;
    if EndsTurn(line) {
      if ValidityOf(line) == usageValid && forall j | 0 <= j < n - 1 :: !EndsTurn(lines[j]) {
        assert OnlyTurnAt(all, n - 1);
      }
    } else {
      assert forall k | 0 <= k < n - 1 :: OnlyTurnAt(init, k) <==> OnlyTurnAt(all, k);
    }
  }

  function EventNotes(line: Line, index: nat): seq<Finding> {
    if line.EventLine? then EventFindings(line.event, index) else []
  }

  lemma LineHarmless(line: Line, index: nat)
    ensures LineFindings(line, index) == [] && EventNotes(line, index) == [] <==> Harmless(line)
  {
  }

  lemma PassesStep(lines: seq<Line>, n: nat)
    requires 0 < n <= |lines|
    ensures FirstPass(lines, n) == FirstPass(lines, n - 1) + LineFindings(lines[n - 1], n - 1)
    ensures SecondPass(lines, n) == SecondPass(lines, n - 1) + EventNotes(lines[n - 1], n - 1)
  {
  }

  lemma PassesStart(lines: seq<Line>)
    ensures FirstPass(lines, 0) == [] && SecondPass(lines, 0) == []
  {
  }

  lemma {:induction false} AllHarmless(lines: seq<Line>, n: nat)
    requires n <= |lines|
    ensures FirstPass(lines, n) == [] && SecondPass(lines, n) == [] <==> forall k | 0 <= k < n :: Harmless(lines[k])
  {
    hide Harmless, EventNotes, LineFindings, FirstPass, SecondPass;
    PassesStart(lines);
    if n > 0 {
      AllHarmless(lines, n - 1);
      LineHarmless(lines[n - 1], n - 1);
      PassesStep(lines, n);
    }
  }

  lemma NothingNoted(lines: seq<Line>)
    ensures Findings(lines) == [] <==> |lines| <= MAX_EVENTS && forall k | 0 <= k < |lines| :: Harmless(lines[k])
  {
    var p := Processed(lines);
    AllHarmless(p, |p|);
  }

  /**
   Completion, by what stands where in the stream: the process ended well and its workspace is gone, there
   are at most 128 lines and none of them gives cause for concern, exactly one is a completed agent message,
   and exactly one is a completed turn, with valid usage. The text is that of the message.
   */
  lemma CompletedByPositions(child: Child, lines: seq<Line>, text: string)
    ensures Judge(child, lines) == TransportCompleted(text)
            <==> && !child.tooMuchOutput && child.exitCode == 0 && child.workspaceRemoved
                 && |lines| <= MAX_EVENTS && (forall k | 0 <= k < |lines| :: Harmless(lines[k]))
                 && OnlyAnswer(lines, text) && OnlyTurn(lines, true)
  {
    CompletedExactly(child, lines, text);
    NothingNoted(lines);
    OneMessage(lines, |lines|, text);
    OneTurn(lines, |lines|, true);
    assert lines[..|lines|] == lines;
    hide Judge, Messages, Turns, Findings, Harmless, OnlyAnswer, OnlyTurn;
  }

  /** Some answer is the only one. */
  predicate SomeAnswer(lines: seq<Line>) {
    exists k | 0 <= k < |lines| :: OnlyAnswerAt(lines, k)
  }

  lemma SomeMessage(lines: seq<Line>)
    ensures |Messages(lines, |lines|)| == 1 <==> SomeAnswer(lines)
  {
    assert lines[..|lines|] == lines;
    var messages := Messages(lines, |lines|);
    if |messages| == 1 {
      assert messages == [messages[0]];
      OneMessage(lines, |lines|, messages[0]);
    }
    if k :| 0 <= k < |lines| && OnlyAnswerAt(lines, k) {
      OneMessage(lines, |lines|, TextOf(lines[k]));
    }
  }

  /** The reports on a process that ended well with a harmless stream: each exactly when its own reason holds. */
  lemma HarmlessReports(child: Child, lines: seq<Line>)
    requires !child.tooMuchOutput && child.exitCode == 0
    requires |lines| <= MAX_EVENTS && forall k | 0 <= k < |lines| :: Harmless(lines[k])
    ensures var verdict, complete := Judge(child, lines), SomeAnswer(lines) && OnlyTurn(lines, true);
            && (verdict == StreamFailed(UsageInvalid) <==> OnlyTurn(lines, false))
            && (verdict.MissingCompletion? <==> !OnlyTurn(lines, false) && !complete)
            && (verdict.CleanupFailed? <==> complete && !child.workspaceRemoved)
            && (verdict.TransportCompleted? <==> complete && child.workspaceRemoved)
  {
    NothingNoted(lines);
    SomeMessage(lines);
    OneTurn(lines, |lines|, true);
    OneTurn(lines, |lines|, false);
    assert lines[..|lines|] == lines;
    var turns := Turns(lines, |lines|);
    assert |turns| == 1 ==> turns == [turns[0]];
    hide Messages, Turns, Harmless, OnlyTurn, SomeAnswer;
    OnlyOneTurn(lines);
  }

  lemma OnlyOneTurn(lines: seq<Line>)
    ensures !(OnlyTurn(lines, true) && OnlyTurn(lines, false))
  {
    if k :| 0 <= k < |lines| && OnlyTurnAt(lines, k) && ValidityOf(lines[k]) {
      assert forall j | 0 <= j < |lines| && OnlyTurnAt(lines, j) :: j == k;
    }
  }

  // ---------------------------------------------------------------- which problem is reported

  predicate Unreadable(line: Line) {
    line.NotJson? || line.NotAnObject?
  }

  predicate IsItem(line: Line) {
    line.EventLine? && line.event.ItemEvent?
  }

  /** What is wrong with a line, for the diagnostics. */
  predicate Shows(line: Line, kind: Class) {
    match kind
    case InvalidJson => line.NotJson?
    case NonObject => line.NotAnObject?
    case MissingEventType => line == EventLine(TypeMissing)
    case MalformedEventType => line == EventLine(TypeNotText)
    case UnknownEventType => line == EventLine(UnknownType)
    case MalformedItemShape =>
      IsItem(line) && (line.event.item.NotAnItem? || line == EventLine(ItemEvent(true, AgentMessage(None))))
    case MissingItemType => IsItem(line) && line.event.item.ItemTypeMissing?
    case MalformedItemType => IsItem(line) && line.event.item.ItemTypeNotText?
    case RestrictedItemType => IsItem(line) && line.event.item.RestrictedItem?
    case UnknownItemType => IsItem(line) && line.event.item.UnknownItem?
    case EventCountExceeded => false
  }

  /** What a line fails the stream with; a restricted item is reported by itself. */
  predicate Faults(line: Line, code: Code) {
    match code
    case ResponseInvalidJson => Shows(line, InvalidJson)
    case EventMalformed => Shows(line, NonObject) || Shows(line, MissingEventType) || Shows(line, MalformedEventType)
    case EventUnsupported => Shows(line, UnknownEventType)
    case ProcessFailed => line == EventLine(FailureReport)
    case ItemMalformed =>
      Shows(line, MalformedItemShape) || Shows(line, MissingItemType) || Shows(line, MalformedItemType)
    case ItemUnsupported => Shows(line, UnknownItemType)
    case UsageInvalid => false
  }

  lemma {:induction false} PassesShow(lines: seq<Line>, n: nat, kind: Class, index: nat)
    requires n <= |lines|
    ensures Found(FirstPass(lines, n) + SecondPass(lines, n), kind, index) <==> index < n && Shows(lines[index], kind)
  {
    hide FirstPass, SecondPass, Shows, EventNotes, LineFindings, Found;
    PassesStart(lines);
    if n > 0 {
      PassesShow(lines, n - 1, kind, index);
      LineShows(lines[n - 1], n - 1, kind, index);
      FoundIn(
        FirstPass(lines, n - 1), SecondPass(lines, n - 1), LineFindings(lines[n - 1], n - 1),
        EventNotes(lines[n - 1], n - 1), kind, index);
      PassesStep(lines, n);
    } else {
      NothingFoundIn(kind, index);
    }
  }

  lemma NothingFoundIn(kind: Class, index: nat)
    ensures !Found([] + [], kind, index)
  {
  }

  /** Everything one line is noted for, in either pass. */
  function LineNotes(line: Line, index: nat): seq<Finding> {
    LineFindings(line, index) + EventNotes(line, index)
  }

  ghost predicate Found(findings: seq<Finding>, kind: Class, index: nat) {
    exists f | f in findings :: f.kind == Some(kind) && f.index == index
  }

  lemma FoundIn(a: seq<Finding>, b: seq<Finding>, c: seq<Finding>, d: seq<Finding>, kind: Class, index: nat)
    ensures Found((a + c) + (b + d), kind, index) <==> Found(a + b, kind, index) || Found(c + d, kind, index)
  {
    assert forall f :: f in (a + c) + (b + d) <==> f in a + b || f in c + d;
  }

  lemma EventShows(line: Line, at: nat, kind: Class, index: nat)
    requires line.EventLine?
    ensures Found(EventNotes(line, at), kind, index) <==> index == at && Shows(line, kind)
  {
    var notes := EventNotes(line, at);
    if notes != [] {
      assert |notes| == 1 && notes[0] in notes && forall f | f in notes :: f == notes[0];
    }
  }

  lemma LineShows(line: Line, at: nat, kind: Class, index: nat)
    ensures Found(LineNotes(line, at), kind, index) <==> index == at && Shows(line, kind)
  {
    var notes := LineNotes(line, at);
    if line.EventLine? {
      assert notes == EventNotes(line, at);
      EventShows(line, at, kind, index);
    } else {
      assert notes == LineFindings(line, at);
      assert notes[0] in notes && forall f | f in notes :: f == notes[0];
    }
  }

  lemma {:induction false} ProblemsAreFound(findings: seq<Finding>, n: nat, kind: Class, index: nat)
    requires n <= |findings|
    ensures Problem(kind, index) in Problems(findings, n) <==> Found(findings[..n], kind, index)
  {
    if n > 0 {
      ProblemsAreFound(findings, n - 1, kind, index);
      assert findings[..n] == findings[..n - 1] + [findings[n - 1]];
      assert forall f :: f in findings[..n] <==> f in findings[..n - 1] || f == findings[n - 1];
    } else {
      assert findings[..0] == [];
    }
  }

  /** The recorded problems are exactly those the first 128 lines show, each at its line, and the excess. */
  lemma ProblemsTell(lines: seq<Line>, kind: Class, index: nat)
    ensures var f := Findings(lines);
            Problem(kind, index) in Problems(f, |f|)
            <==> if kind.EventCountExceeded? then |lines| > MAX_EVENTS && index == MAX_EVENTS
                 else index < |lines| && index < MAX_EVENTS && Shows(lines[index], kind)
  {
    var f, p := Findings(lines), Processed(lines);
    ProblemsAreFound(f, |f|, kind, index);
    assert f[..|f|] == f;
    PassesShow(p, |p|, kind, index);
    var passes := FirstPass(p, |p|) + SecondPass(p, |p|);
    assert f == Excess(lines) + passes;
    assert forall x :: x in f <==> x in Excess(lines) || x in passes;
    assert |lines| > MAX_EVENTS ==> Excess(lines)[0] in f;
  }

  lemma {:induction false} FirstCodeSplit(a: seq<Finding>, b: seq<Finding>, n: nat)
    requires n <= |b|
    ensures FirstCode(a + b, |a| + n) == if FirstCode(a, |a|).Some? then FirstCode(a, |a|) else FirstCode(b, n)
  {
    if n > 0 {
      FirstCodeSplit(a, b, n - 1);
      assert (a + b)[|a| + n - 1] == b[n - 1];
    } else {
      ProblemsSame(a, a + b, |a|);
    }
  }

  lemma LineCode(line: Line, index: nat)
    ensures var notes := LineFindings(line, index);
            && (Unreadable(line) ==> FirstCode(notes, |notes|).Some? && Faults(line, FirstCode(notes, |notes|).value))
            && (!Unreadable(line) ==> notes == [])
  {
    var notes := LineFindings(line, index);
    assert |notes| == 1 ==> FirstCode(notes, 1) == notes[0].code by {
      if |notes| == 1 {
        assert FirstCode(notes, 0).None?;
      }
    }
  }

  lemma NoCodes()
    ensures FirstCode([], 0).None?
  {
  }

  lemma {:induction false} FirstPassCode(lines: seq<Line>, n: nat, k: nat)
    requires k < n <= |lines| && Unreadable(lines[k]) && forall j | 0 <= j < k :: !Unreadable(lines[j])
    ensures var codes := FirstPass(lines, n);
            FirstCode(codes, |codes|).Some? && Faults(lines[k], FirstCode(codes, |codes|).value)
  {
    hide FirstPass, FirstCode;
    PassesStep(lines, n);
    var before, added := FirstPass(lines, n - 1), LineFindings(lines[n - 1], n - 1);
    FirstCodeSplit(before, added, |added|);
    LineCode(lines[n - 1], n - 1);
    hide Unreadable, Faults, LineFindings;
    if k < n - 1 {
      FirstPassCode(lines, n - 1, k);
    } else {
      FirstPassQuiet(lines, k);
      NoCodes();
    }
  }

  lemma {:induction false} FirstPassQuiet(lines: seq<Line>, n: nat)
    requires n <= |lines| && forall j | 0 <= j < n :: !Unreadable(lines[j])
    ensures FirstPass(lines, n) == []
  {
    hide FirstPass, Unreadable, LineFindings;
    PassesStart(lines);
    if n > 0 {
      FirstPassQuiet(lines, n - 1);
      PassesStep(lines, n);
      LineCode(lines[n - 1], n - 1);
    }
  }

  predicate Faulty(line: Line) {
    exists code :: Faults(line, code)
  }

  lemma {:induction false} SecondPassCode(lines: seq<Line>, n: nat, k: nat)
    requires k < n <= |lines| && lines[k].EventLine? && Faulty(lines[k])
    requires forall j | 0 <= j < k :: lines[j].EventLine? && !Faulty(lines[j])
    ensures var codes := SecondPass(lines, n);
            FirstCode(codes, |codes|).Some? && Faults(lines[k], FirstCode(codes, |codes|).value)
  {
    hide EventNotes, SecondPass, Faults, Faulty, FirstCode;
    var before, added := SecondPass(lines, n - 1), EventNotes(lines[n - 1], n - 1);
    PassesStep(lines, n);
    FirstCodeSplit(before, added, |added|);
    EventCode(lines[n - 1], n - 1);
    if k < n - 1 {
      SecondPassCode(lines, n - 1, k);
    } else {
      SecondPassQuiet(lines, k);
    }
  }

  lemma EventCode(line: Line, index: nat)
    ensures var notes := EventNotes(line, index);
            && (FirstCode(notes, |notes|).Some? ==> Faults(line, FirstCode(notes, |notes|).value))
            && (line.EventLine? && Faulty(line) ==> FirstCode(notes, |notes|).Some?)
            && (FirstCode(notes, |notes|).Some? ==> Faulty(line))
  {
    var notes := EventNotes(line, index);
    assert |notes| <= 1;
    assert |notes| == 1 ==> FirstCode(notes, 1) == notes[0].code by {
      if |notes| == 1 {
        assert FirstCode(notes, 0).None?;
      }
    }
    if FirstCode(notes, |notes|).Some? {
      assert Faults(line, FirstCode(notes, |notes|).value);
    }
  }

  lemma {:induction false} SecondPassQuiet(lines: seq<Line>, n: nat)
    requires n <= |lines| && forall j | 0 <= j < n :: lines[j].EventLine? && !Faulty(lines[j])
    ensures var codes := SecondPass(lines, n); FirstCode(codes, |codes|).None?
  {
    hide EventNotes, SecondPass, Faults, Faulty, FirstCode;
    PassesStart(lines);
    NoCodes();
    if n > 0 {
      SecondPassQuiet(lines, n - 1);
      var before, added := SecondPass(lines, n - 1), EventNotes(lines[n - 1], n - 1);
      PassesStep(lines, n);
      FirstCodeSplit(before, added, |added|);
      EventCode(lines[n - 1], n - 1);
    }
  }

  predicate HasRestricted(lines: seq<Line>) {
    exists k | 0 <= k < |lines| && k < MAX_EVENTS :: Shows(lines[k], RestrictedItemType)
  }

  lemma RestrictedTells(lines: seq<Line>)
    ensures Restricted(Findings(lines)) <==> HasRestricted(lines)
  {
    var f := Findings(lines);
    if k :| 0 <= k < |f| && f[k].kind == Some(RestrictedItemType) {
      assert Found(f[..|f|], RestrictedItemType, f[k].index) by {
        assert f[k] in f[..|f|];
      }
      ProblemsAreFound(f, |f|, RestrictedItemType, f[k].index);
      ProblemsTell(lines, RestrictedItemType, f[k].index);
    }
    if k :| 0 <= k < |lines| && k < MAX_EVENTS && Shows(lines[k], RestrictedItemType) {
      ProblemsTell(lines, RestrictedItemType, k);
      ProblemsAreFound(f, |f|, RestrictedItemType, k);
    }
  }

  /** The line that decides why a stream fails: the first unreadable one, else the first faulty event. */
  predicate Decides(lines: seq<Line>, k: nat)
    requires k < |lines|
  {
    if Unreadable(lines[k]) then forall j | 0 <= j < k :: !Unreadable(lines[j])
    else Faulty(lines[k]) && (forall j | 0 <= j < |lines| :: !Unreadable(lines[j]))
         && forall j | 0 <= j < k :: !Faulty(lines[j])
  }

  lemma ExcessCode(lines: seq<Line>)
    requires |lines| > MAX_EVENTS
    ensures var f := Findings(lines); FirstCode(f, |f|) == Some(EventUnsupported)
  {
    var p := Processed(lines);
    var rest := FirstPass(p, |p|) + SecondPass(p, |p|);
    assert Findings(lines) == Excess(lines) + rest;
    FirstCodeSplit(Excess(lines), rest, |rest|);
    assert FirstCode(Excess(lines), 0).None? && FirstCode(Excess(lines), 1) == Some(EventUnsupported);
  }

  lemma DecidingCode(lines: seq<Line>, k: nat)
    requires k < |lines| <= MAX_EVENTS && Decides(lines, k)
    ensures var f := Findings(lines); FirstCode(f, |f|).Some? && Faults(lines[k], FirstCode(f, |f|).value)
  {
    var first, second := FirstPass(lines, |lines|), SecondPass(lines, |lines|);
    assert Findings(lines) == first + second;
    FirstCodeSplit(first, second, |second|);
    if Unreadable(lines[k]) {
      FirstPassCode(lines, |lines|, k);
    } else {
      FirstPassQuiet(lines, |lines|);
      SecondPassCode(lines, |lines|, k);
    }
    hide Faults, FirstPass, SecondPass, FirstCode;
  }

  /**
   Why a process that ended well fails: a restricted item among the first 128 lines comes first, then too many
   lines, then whatever the deciding line is at fault for.
   */
  lemma StreamReports(child: Child, lines: seq<Line>, k: nat)
    requires !child.tooMuchOutput && child.exitCode == 0
    ensures Judge(child, lines).RestrictionViolated? <==> HasRestricted(lines)
    ensures !HasRestricted(lines) && |lines| > MAX_EVENTS ==> Judge(child, lines) == StreamFailed(EventUnsupported)
    ensures !HasRestricted(lines) && k < |lines| <= MAX_EVENTS && Decides(lines, k) ==>
              Judge(child, lines).StreamFailed? && Faults(lines[k], Judge(child, lines).code)
  {
    RestrictedTells(lines);
    if |lines| > MAX_EVENTS {
      ExcessCode(lines);
    } else if k < |lines| && Decides(lines, k) {
      DecidingCode(lines, k);
    }
    hide Findings, FirstCode, Faults, Restricted, HasRestricted, Decides;
  }

  /** The process itself is judged before its stream. */
  lemma ProcessReports(child: Child, lines: seq<Line>)
    ensures Judge(child, lines).OutputLimitExceeded? <==> child.tooMuchOutput
    ensures Judge(child, lines).ExitFailed? <==> !child.tooMuchOutput && child.exitCode != 0
  {
  }
}
