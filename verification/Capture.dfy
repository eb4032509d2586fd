/**
 What is kept of a child process's output, and how its event stream is judged.
 */
module Capture {
  import opened Common

  // ---------------------------------------------------------------- bounded capture

  type Bytes = seq<int>

  function Delivered(chunks: seq<Bytes>, k: nat): Bytes
    requires k <= |chunks|
  {
    if k == 0 then [] else Delivered(chunks, k - 1) + chunks[k - 1]
  }

  function Capped(stream: Bytes, maximum: nat): Bytes {
    if |stream| <= maximum + 1 then stream else stream[..maximum + 1]
  }

  lemma {:induction false} DeliveredGrows(chunks: seq<Bytes>, j: nat, k: nat)
    requires j <= k <= |chunks|
    ensures Delivered(chunks, j) <= Delivered(chunks, k)
    decreases k
  {
    if j < k {
      DeliveredGrows(chunks, j, k - 1);
    }
  }

  /**
   The drain loop over the chunks a stream delivers before its end: whatever the chunking, the buffer is
   the stream cut off one byte beyond the cap, and overflow is reported exactly if the stream is longer
   than the cap.
   */
  method Drain(chunks: seq<Bytes>, maximum: nat) returns (destination: Bytes, overflow: bool)
    ensures destination == Capped(Delivered(chunks, |chunks|), maximum)
    ensures overflow <==> |Delivered(chunks, |chunks|)| > maximum
  {
    destination, overflow := [], false;
    for k := 0 to |chunks|
      invariant destination == Delivered(chunks, k) && |destination| <= maximum && !overflow
    {
      var chunk := chunks[k];
      var remaining := maximum + 1 - |destination|;
      DeliveredGrows(chunks, k + 1, |chunks|);
      if remaining > 0 {
        destination := destination + if |chunk| <= remaining then chunk else chunk[..remaining];
      }
      if |destination| > maximum || |chunk| > remaining {
        overflow := true;
        CappedPrefix(Delivered(chunks, k), chunk, Delivered(chunks, |chunks|), maximum);
        return;
      }
    }
  }

  lemma CappedPrefix(before: Bytes, chunk: Bytes, whole: Bytes, maximum: nat)
    requires |before| <= maximum < |before + chunk| && before + chunk <= whole
    ensures var remaining := maximum + 1 - |before|;
            Capped(whole, maximum) == before + if |chunk| <= remaining then chunk else chunk[..remaining]
  {
    assert Capped(whole, maximum) == (before + chunk)[..maximum + 1];
  }

  // ---------------------------------------------------------------- events

  const MAX_EVENTS := 128
  const MAX_ENTRIES := 8

  datatype Item =
    | NotAnItem | ItemTypeMissing | ItemTypeNotText | RestrictedItem | UnknownItem
    | AgentMessage(text: Option<string>) | OtherItem

  datatype Event =
    | TypeMissing | TypeNotText | UnknownType | OrdinaryEvent | FailureReport
    | TurnCompleted(usageValid: bool) | ItemEvent(completed: bool, item: Item)

  /** One nonempty output line, as far as the transport looks at it. */
  datatype Line = NotJson | NotAnObject | EventLine(event: Event)

  datatype Class =
    | EventCountExceeded | InvalidJson | NonObject | MissingEventType | MalformedEventType | UnknownEventType
    | MalformedItemShape | MissingItemType | MalformedItemType | RestrictedItemType | UnknownItemType

  datatype Code =
    | EventUnsupported | ResponseInvalidJson | EventMalformed | ProcessFailed | ItemMalformed | ItemUnsupported
    | UsageInvalid

  /** What one event makes the transport note: a diagnostic, a failure code, or both. */
  datatype Finding = Finding(kind: Option<Class>, index: nat, code: Option<Code>)

  datatype Problem = Problem(kind: Class, index: nat)

  function Note(kind: Class, index: nat, code: Code): seq<Finding> {
    [Finding(Some(kind), index, Some(code))]
  }

  function LineFindings(line: Line, index: nat): seq<Finding> {
    match line
    case NotJson => Note(InvalidJson, index, ResponseInvalidJson)
    case NotAnObject => Note(NonObject, index, EventMalformed)
    case EventLine(_) => []
  }

  function ItemFindings(completed: bool, item: Item, index: nat): seq<Finding> {
    match item
    case NotAnItem => Note(MalformedItemShape, index, ItemMalformed)
    case ItemTypeMissing => Note(MissingItemType, index, ItemMalformed)
    case ItemTypeNotText => Note(MalformedItemType, index, ItemMalformed)
    case RestrictedItem => [Finding(Some(RestrictedItemType), index, None)]
    case UnknownItem => Note(UnknownItemType, index, ItemUnsupported)
    case AgentMessage(text) => if completed && text.None? then Note(MalformedItemShape, index, ItemMalformed) else []
    case OtherItem => []
  }

  function EventFindings(event: Event, index: nat): seq<Finding> {
    match event
    case TypeMissing => Note(MissingEventType, index, EventMalformed)
    case TypeNotText => Note(MalformedEventType, index, EventMalformed)
    case UnknownType => Note(UnknownEventType, index, EventUnsupported)
    case FailureReport => [Finding(None, index, Some(ProcessFailed))]
    case ItemEvent(completed, item) => ItemFindings(completed, item, index)
    case _ => []
  }

  /** The first pass looks at the lines, the second at the events among them. */
  function FirstPass(lines: seq<Line>, k: nat): seq<Finding>
    requires k <= |lines|
  {
    if k == 0 then [] else FirstPass(lines, k - 1) + LineFindings(lines[k - 1], k - 1)
  }

  function SecondPass(lines: seq<Line>, k: nat): seq<Finding>
    requires k <= |lines|
  {
    if k == 0 then []
    else if lines[k - 1].EventLine? then SecondPass(lines, k - 1) + EventFindings(lines[k - 1].event, k - 1)
    else SecondPass(lines, k - 1)
  }

  function Processed(lines: seq<Line>): seq<Line> {
    if |lines| <= MAX_EVENTS then lines else lines[..MAX_EVENTS]
  }

  function Excess(lines: seq<Line>): seq<Finding> {
    if |lines| > MAX_EVENTS then Note(EventCountExceeded, MAX_EVENTS, EventUnsupported) else []
  }

  function Findings(lines: seq<Line>): seq<Finding> {
    var p := Processed(lines);
    Excess(lines) + FirstPass(p, |p|) + SecondPass(p, |p|)
  }

  function Problems(findings: seq<Finding>, k: nat): seq<Problem>
    requires k <= |findings|
  {
    if k == 0 then []
    else
      var f := findings[k - 1];
      Problems(findings, k - 1) + if f.kind.Some? then [Problem(f.kind.value, f.index)] else []
  }

  function FirstCode(findings: seq<Finding>, k: nat): Option<Code>
    requires k <= |findings|
  {
    if k == 0 then None
    else if FirstCode(findings, k - 1).Some? then FirstCode(findings, k - 1)
    else findings[k - 1].code
  }

  function Messages(lines: seq<Line>, k: nat): seq<string>
    requires k <= |lines|
  {
    if k == 0 then []
    else
      Messages(lines, k - 1)
      + match lines[k - 1]
        case EventLine(ItemEvent(true, AgentMessage(Some(text)))) => [text]
        case _ => []
  }

  /** Whether each completed turn reports valid usage. */
  function Turns(lines: seq<Line>, k: nat): seq<bool>
    requires k <= |lines|
  {
    if k == 0 then []
    else
      Turns(lines, k - 1)
      + match lines[k - 1]
        case EventLine(TurnCompleted(valid)) => [valid]
        case _ => []
  }

  // ---------------------------------------------------------------- the verdict

  datatype Verdict =
    | OutputLimitExceeded | ExitFailed | RestrictionViolated | StreamFailed(code: Code) | MissingCompletion
    | CleanupFailed | TransportCompleted(text: string)

  /** What is known of the process before its stream is looked at. */
  datatype Child = Child(tooMuchOutput: bool, exitCode: int, workspaceRemoved: bool)

  predicate Restricted(findings: seq<Finding>) {
    exists k | 0 <= k < |findings| :: findings[k].kind == Some(RestrictedItemType)
  }

  /** The order of the final checks. */
  function Settle(child: Child, findings: seq<Finding>, messages: seq<string>, turns: seq<bool>): Verdict {
    var code := FirstCode(findings, |findings|);
    if Restricted(findings) then RestrictionViolated
    else if code.Some? then StreamFailed(code.value)
    else if |turns| == 1 && !turns[0] then StreamFailed(UsageInvalid)
    else if |messages| != 1 || |turns| != 1 then MissingCompletion
    else if !child.workspaceRemoved then CleanupFailed
    else TransportCompleted(messages[0])
  }

  function Judge(child: Child, lines: seq<Line>): Verdict {
    var p := Processed(lines);
    if child.tooMuchOutput then OutputLimitExceeded
    else if child.exitCode != 0 then ExitFailed
    else Settle(child, Findings(lines), Messages(p, |p|), Turns(p, |p|))
  }

  // ---------------------------------------------------------------- the builder

  function CountOf(problems: seq<Problem>, kind: Class, k: nat): nat
    requires k <= |problems|
  {
    if k == 0 then 0 else CountOf(problems, kind, k - 1) + if problems[k - 1].kind == kind then 1 else 0
  }

  /** `_EventDiagnosticsBuilder`: counters for every kind, and the first entries. */
  class Builder {
    var counts: map<Class, nat>
    var entries: seq<Problem>
    var truncated: bool
    ghost var problems: seq<Problem>

    /** All problems are counted; the entries are the first eight; truncation says that there were more. */
    ghost predicate Valid()
      reads this
    {
      && entries == (if |problems| <= MAX_ENTRIES then problems else problems[..MAX_ENTRIES])
      && (truncated <==> |problems| > MAX_ENTRIES)
      && forall c :: (if c in counts then counts[c] else 0) == CountOf(problems, c, |problems|)
    }

    constructor ()
      ensures Valid() && problems == []
    {
      counts, entries, truncated, problems := map[], [], false, [];
    }

    method Add(kind: Class, index: nat)
      requires Valid()
      modifies this
      ensures Valid() && problems == old(problems) + [Problem(kind, index)]
    {
      hide CountOf;
      CountsAfter(problems, Problem(kind, index));
      problems := problems + [Problem(kind, index)];
      counts := counts[kind := (if kind in counts then counts[kind] else 0) + 1];
      if |entries| >= MAX_ENTRIES {
        truncated := true;
        return;
      }
      entries := entries + [Problem(kind, index)];
    }
  }

  lemma {:induction false} CountsSame(a: seq<Problem>, b: seq<Problem>, kind: Class, k: nat)
    requires k <= |a| && a <= b
    ensures CountOf(a, kind, k) == CountOf(b, kind, k)
  {
    if k > 0 {
      CountsSame(a, b, kind, k - 1);
    }
  }

  lemma CountsAfter(problems: seq<Problem>, p: Problem)
    ensures forall c :: CountOf(problems + [p], c, |problems| + 1)
                        == CountOf(problems, c, |problems|) + if p.kind == c then 1 else 0
  {
    forall c ensures CountOf(problems + [p], c, |problems| + 1)
                     == CountOf(problems, c, |problems|) + if p.kind == c then 1 else 0
    {
      CountsSame(problems, problems + [p], c, |problems|);
    }
  }

  /** The transport's view of one stream. */
  class Transport {
    const builder: Builder
    var failure: Option<Code>
    var restricted: bool
    ghost var seen: seq<Finding>

    ghost predicate Valid()
      reads this, builder
    {
      && builder.Valid() && builder.problems == Problems(seen, |seen|)
      && failure == FirstCode(seen, |seen|) && (restricted <==> Restricted(seen))
    }

    constructor ()
      ensures Valid() && seen == [] && fresh(builder)
    {
      builder := new Builder();
      failure, restricted, seen := None, false, [];
    }

    /** Note one finding: diagnostics, first failure code, restriction flag. */
    method RecordOne(f: Finding)
      requires Valid()
      modifies this, builder
      ensures Valid() && seen == old(seen) + [f]
    {
      SeenAfter(seen, f);
      if f.kind.Some? {
        builder.Add(f.kind.value, f.index);
      }
      if f.kind == Some(RestrictedItemType) {
        restricted := true;
      }
      if failure.None? {
        failure := f.code;
      }
      seen := seen + [f];
    }

    method Record(findings: seq<Finding>)
      requires Valid()
      modifies this, builder
      ensures Valid() && seen == old(seen) + findings
    {
      hide Problems, FirstCode, Restricted, Builder.Valid;
      for k := 0 to |findings|
        invariant Valid() && seen == old(seen) + findings[..k]
      {
        RecordOne(findings[k]);
        assert findings[..k + 1] == findings[..k] + [findings[k]];
      }
      assert findings[..|findings|] == findings;
    }

    /** Decode the lines. */
    method ReadLines(p: seq<Line>)
      requires Valid()
      modifies this, builder
      ensures Valid() && seen == old(seen) + FirstPass(p, |p|)
    {
      hide Problems, FirstCode, Restricted, Builder.Valid;
      for k := 0 to |p|
        invariant Valid() && seen == old(seen) + FirstPass(p, k)
      {
        Record(LineFindings(p[k], k));
      }
    }

    /** Look at the events, collecting final answers and completed turns. */
    method ReadEvents(p: seq<Line>) returns (messages: seq<string>, turns: seq<bool>)
      requires Valid()
      modifies this, builder
      ensures Valid() && seen == old(seen) + SecondPass(p, |p|)
      ensures messages == Messages(p, |p|) && turns == Turns(p, |p|)
    {
      messages, turns := [], [];
      hide Problems, FirstCode, Restricted, Builder.Valid;
      for k := 0 to |p|
        invariant Valid() && seen == old(seen) + SecondPass(p, k)
        invariant messages == Messages(p, k) && turns == Turns(p, k)
      {
        if p[k].EventLine? {
          var event := p[k].event;
          Record(EventFindings(event, k));
          if event.TurnCompleted? {
            turns := turns + [event.usageValid];
          }
          if event.ItemEvent? && event.completed && event.item.AgentMessage? && event.item.text.Some? {
            messages := messages + [event.item.text.value];
          }
        }
      }
    }

    /** `_invoke_codex_json_transport` from the completed process on. */
    method Run(child: Child, lines: seq<Line>) returns (verdict: Verdict)
      requires Valid() && seen == []
      modifies this, builder
      ensures Valid() && verdict == Judge(child, lines)
      ensures !verdict.OutputLimitExceeded? && !verdict.ExitFailed? ==> seen == Findings(lines)
    {
      hide Problems, FirstCode, Restricted, Builder.Valid;
      if child.tooMuchOutput {
        return OutputLimitExceeded;
      }
      if child.exitCode != 0 {
        return ExitFailed;
      }
      var p := Processed(lines);
      ReadAllLines(lines, p);
      var messages, turns := ReadEvents(p);
      verdict := Conclude(child, messages, turns);
    }

    method ReadAllLines(lines: seq<Line>, p: seq<Line>)
      requires Valid() && seen == [] && p == Processed(lines)
      modifies this, builder
      ensures Valid() && seen == Excess(lines) + FirstPass(p, |p|)
    {
      hide Problems, FirstCode, Restricted, Builder.Valid;
      Record(Excess(lines));
      ReadLines(p);
    }

    method Conclude(child: Child, messages: seq<string>, turns: seq<bool>) returns (verdict: Verdict)
      requires Valid()
      ensures verdict == Settle(child, seen, messages, turns)
    {
      var code := failure;
      if |turns| == 1 && !turns[0] && code.None? {
        code := Some(UsageInvalid);
      }
      if restricted {
        return RestrictionViolated;
      }
      if code.Some? {
        return StreamFailed(code.value);
      }
      if |messages| != 1 || |turns| != 1 {
        return MissingCompletion;
      }
      verdict := if child.workspaceRemoved then TransportCompleted(messages[0]) else CleanupFailed;
    }
  }

  lemma {:induction false} ProblemsSame(a: seq<Finding>, b: seq<Finding>, k: nat)
    requires k <= |a| && a <= b
    ensures Problems(a, k) == Problems(b, k) && FirstCode(a, k) == FirstCode(b, k)
  {
    if k > 0 {
      ProblemsSame(a, b, k - 1);
    }
  }

  lemma SeenAfter(seen: seq<Finding>, f: Finding)
    ensures Problems(seen + [f], |seen| + 1)
            == Problems(seen, |seen|) + if f.kind.Some? then [Problem(f.kind.value, f.index)] else []
    ensures FirstCode(seen + [f], |seen| + 1)
            == if FirstCode(seen, |seen|).Some? then FirstCode(seen, |seen|) else f.code
    ensures Restricted(seen + [f]) <==> Restricted(seen) || f.kind == Some(RestrictedItemType)
  {
    ProblemsSame(seen, seen + [f], |seen|);
    RestrictedAfter(seen, f);
  }

  lemma RestrictedAfter(seen: seq<Finding>, f: Finding)
    ensures Restricted(seen + [f]) <==> Restricted(seen) || f.kind == Some(RestrictedItemType)
  {
    if Restricted(seen) {
      var k :| 0 <= k < |seen| && seen[k].kind == Some(RestrictedItemType);
      assert (seen + [f])[k] == seen[k];
    }
    assert (seen + [f])[|seen|] == f;
  }

  // ---------------------------------------------------------------- what completion means

  lemma {:induction false} NoCode(findings: seq<Finding>, k: nat)
    requires k <= |findings|
    ensures FirstCode(findings, k).None? <==> forall i | 0 <= i < k :: findings[i].code.None?
  {
    if k > 0 {
      NoCode(findings, k - 1);
    }
  }

  predicate Telling(findings: seq<Finding>) {
    forall k | 0 <= k < |findings| :: findings[k].code.Some? || findings[k].kind == Some(RestrictedItemType)
  }

  lemma {:induction false} PassesTell(lines: seq<Line>, k: nat)
    requires k <= |lines|
    ensures Telling(FirstPass(lines, k)) && Telling(SecondPass(lines, k))
  {
    if k > 0 {
      PassesTell(lines, k - 1);
    }
  }

  /** Every finding either fails the stream or violates the restriction. */
  lemma FindingsTell(lines: seq<Line>)
    ensures Telling(Findings(lines))
  {
    PassesTell(Processed(lines), |Processed(lines)|);
  }

  /**
   Completion is reported exactly if the process ended well and its workspace is gone, the stream gave rise
   to no finding at all, and there are exactly one agent message and one completed turn with valid usage;
   the text is that message.
   */
  lemma CompletedExactly(child: Child, lines: seq<Line>, text: string)
    ensures var p := Processed(lines);
            Judge(child, lines) == TransportCompleted(text)
            <==> !child.tooMuchOutput && child.exitCode == 0 && child.workspaceRemoved
                 && Findings(lines) == [] && Messages(p, |p|) == [text] && Turns(p, |p|) == [true]
  {
    var p, findings := Processed(lines), Findings(lines);
    FindingsTell(lines);
    NoCode(findings, |findings|);
    if findings != [] && !Restricted(findings) {
      assert findings[0].code.Some?;
    }
    var turns, messages := Turns(p, |p|), Messages(p, |p|);
    assert turns == [true] <==> |turns| == 1 && turns[0];
    assert messages == [text] <==> |messages| == 1 && messages[0] == text;
  }

  /** After a completed transport every problem counter is zero and no diagnostic entry exists. */
  lemma CompletedHasNoProblems(child: Child, lines: seq<Line>)
    requires Judge(child, lines).TransportCompleted?
    ensures var f := Findings(lines);
            Problems(f, |f|) == [] && |lines| <= MAX_EVENTS
            && forall k | 0 <= k < |lines| :: lines[k].EventLine? && EventFindings(lines[k].event, k) == []
  {
    CompletedExactly(child, lines, Judge(child, lines).text);
    var p := Processed(lines);
    assert FirstPass(p, |p|) == [] && SecondPass(p, |p|) == [];
    forall k | 0 <= k < |p| ensures p[k].EventLine? && EventFindings(p[k].event, k) == [] {
      NothingFound(p, |p|, k);
    }
  }

  lemma {:induction false} NothingFound(lines: seq<Line>, n: nat, k: nat)
    requires k < n <= |lines| && FirstPass(lines, n) == [] && SecondPass(lines, n) == []
    ensures lines[k].EventLine? && EventFindings(lines[k].event, k) == []
  {
    if k < n - 1 {
      NothingFound(lines, n - 1, k);
    }
  }
}
