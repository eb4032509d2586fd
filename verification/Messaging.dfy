/**
 The owner's message history: a local chain of message commits, and a remote ref that is pushed to and may
 hear of a push later than its sender gave up on it.

 A commit ID identifies the commit, and a commit holds its message and its parents. Only the owner pushes
 to the remote ref, and the remote accepts fast-forwards only.
 */
module Messaging {
  import opened Common
  import opened Inbox
  import opened Refs

  const MAX_MESSAGES := 256

  /** What a commit tree holds: exactly one well-formed message record, or anything else. */
  datatype Content = MessageOnly(message: Message) | OtherTree(tag: nat)

  datatype Commit = Commit(content: Content, parents: seq<Commit>)

  /** `rev-list --first-parent`, reversed: oldest first. */
  function Chain(c: Commit): (chain: seq<Commit>)
    ensures chain != [] && Last(chain) == c
    decreases c
  {
    if c.parents == [] then [c] else Chain(c.parents[0]) + [c]
  }

  function ChainOf(tip: Option<Commit>): seq<Commit> {
    if tip.None? then [] else Chain(tip.value)
  }

  // ---------------------------------------------------------------- reading

  datatype Reason =
    | HistoryLimitExceeded | HistoryInvalid | DuplicateId | IdConflict | NotPersisted | PublisherBusy
    | RemoteInspectionFailed | LocalRemoteMismatch | ArgumentsRefused

  datatype Reading = Readable(messages: seq<Message>) | Unreadable(reason: Reason)

  function MessagesIn(chain: seq<Commit>, k: nat): (messages: seq<Message>)
    requires k <= |chain| && forall i | 0 <= i < k :: chain[i].content.MessageOnly?
    ensures |messages| == k && forall i | 0 <= i < k :: messages[i] == chain[i].content.message
  {
    seq(k, i requires 0 <= i < k => chain[i].content.message)
  }

  predicate WellFormedCommit(c: Commit) {
    |c.parents| <= 1 && c.content.MessageOnly?
  }

  predicate FreshId(chain: seq<Commit>, k: nat)
    requires k < |chain| && forall i | 0 <= i <= k :: chain[i].content.MessageOnly?
  {
    forall i | 0 <= i < k :: chain[i].content.message.id != chain[k].content.message.id
  }

  /** Read on from the k-th commit; everything before is in order. */
  function ReadFrom(chain: seq<Commit>, k: nat): Reading
    requires k <= |chain| && forall i | 0 <= i < k :: chain[i].content.MessageOnly?
    decreases |chain| - k
  {
    if k == |chain| then Readable(MessagesIn(chain, k))
    else if !WellFormedCommit(chain[k]) then Unreadable(HistoryInvalid)
    else if !FreshId(chain, k) then Unreadable(DuplicateId)
    else ReadFrom(chain, k + 1)
  }

  function Read(tip: Option<Commit>): Reading {
    if |ChainOf(tip)| > MAX_MESSAGES then Unreadable(HistoryLimitExceeded) else ReadFrom(ChainOf(tip), 0)
  }

  // ---------------------------------------------------------------- appending

  datatype Appended = Existing(state: Commit) | Stored(state: Commit) | AppendRaised(reason: Reason)

  /** The position of a message ID in a history. */
  function IndexOf(messages: seq<Message>, id: string, k: nat): (n: nat)
    requires k <= |messages|
    ensures k <= n <= |messages|
    ensures n < |messages| ==> messages[n].id == id
    ensures forall i | k <= i < n :: messages[i].id != id
    decreases |messages| - k
  {
    if k == |messages| || messages[k].id == id then k else IndexOf(messages, id, k + 1)
  }

  function CommitOf(local: Option<Commit>, m: Message): Commit {
    Commit(MessageOnly(m), if local.Some? then [local.value] else [])
  }

  function Append(local: Option<Commit>, m: Message, fault: Fault): (Appended, Option<Commit>) {
    match Read(local)
    case Unreadable(reason) => (AppendRaised(reason), local)
    case Readable(messages) =>
      var n := IndexOf(messages, m.id, 0);
      if n < |messages| then
        (if messages[n] == m && n < |ChainOf(local)| then Existing(ChainOf(local)[n]) else AppendRaised(IdConflict), local)
      else
        var commit := CommitOf(local, m);
        var (ok, after) := Cas(local, local, commit, fault);
        (if ok then Stored(commit) else AppendRaised(NotPersisted), after)
  }

  // ---------------------------------------------------------------- publishing

  /** `pending` holds the commits of pushes that timed out and may still reach the remote. */
  datatype World = World(local: Option<Commit>, remote: Option<Commit>, pending: set<Commit>)

  /** What becomes of a push command: it times out, fails before the server, or is decided by the server. */
  datatype PushFate = PushTimesOut | PushNotSent | PushSent(reported: bool)

  /** `refused`: the arguments are, because store and destination differ or an identity is malformed. */
  datatype Environment = Environment(
    refused: bool, busy: bool, landing: nat -> Option<Commit>, inspectFails: nat -> bool, appendFault: Fault, push: PushFate)

  datatype Disposition = RemoteVerified | Failed | Uncertain
  datatype Publication = Publication(
    disposition: Disposition, local: Commit, expected: Option<Commit>, observed: Option<Option<Commit>>)

  datatype Outcome = Raised(reason: Reason) | Attempted(publication: Publication)

  datatype Sent = Sent(trace: seq<World>, outcome: Outcome)

  /** The remote accepts what has its present commit on the chain. */
  predicate FastForward(remote: Option<Commit>, next: Commit) {
    remote.Some? ==> remote.value in Chain(next)
  }

  /** A push that timed out earlier reaches the remote now. */
  function Land(w: World, late: Option<Commit>): World {
    if late.Some? && late.value in w.pending && FastForward(w.remote, late.value) then w.(remote := late) else w
  }

  /** The push command: the new world, and whether it exits with success. */
  function Push(w: World, commit: Commit, fate: PushFate): (World, bool) {
    match fate
    case PushTimesOut => (w.(pending := w.pending + {commit}), false)
    case PushNotSent => (w, false)
    case PushSent(reported) =>
      if FastForward(w.remote, commit) then (w.(remote := Some(commit)), reported) else (w, false)
  }

  /** What the second look at the remote says about a push. */
  function Judge(commit: Commit, expected: Option<Commit>, exited: bool, observed: Option<Commit>): Publication {
    var disposition :=
      if observed == Some(commit) then RemoteVerified
      else if !exited && observed == expected then Failed
      else Uncertain;
    Publication(disposition, commit, expected, Some(observed))
  }

  /** Push one commit, then look at the remote again. */
  function PushAndLook(w: World, commit: Commit, expected: Option<Commit>, e: Environment): (s: Sent)
    ensures s.trace != [] && s.trace[0] == w
  {
    var (pushed, exited) := Push(w, commit, e.push);
    if e.push.PushTimesOut? then Sent([w, pushed], Attempted(Publication(Uncertain, commit, expected, None)))
    else
      var after := Land(pushed, e.landing(2));
      var publication := if e.inspectFails(2) then Publication(Uncertain, commit, expected, None)
                         else Judge(commit, expected, exited, after.remote);
      Sent([w, pushed] + [after], Attempted(publication))
  }

  function Publish(w: World, commit: Commit, expected: Option<Commit>, e: Environment): (s: Sent)
    ensures s.trace != [] && s.trace[0] == w
  {
    var before := Land(w, e.landing(1));
    if e.inspectFails(1) then Sent([w, before], Raised(RemoteInspectionFailed))
    else if before.remote != expected then
      Sent([w, before], Attempted(Publication(Failed, commit, expected, Some(before.remote))))
    else
      var rest := PushAndLook(before, commit, expected, e);
      Sent([w] + rest.trace, rest.outcome)
  }

  /** With equal ends: append locally, push that commit, look again. */
  function AppendThenPublish(w: World, m: Message, e: Environment): (s: Sent)
    ensures s.trace != [] && s.trace[0] == w
  {
    var (appended, local) := Append(w.local, m, e.appendFault);
    var stored := w.(local := local);
    if appended.AppendRaised? then Sent([w, stored], Raised(appended.reason))
    else
      var rest := Publish(stored, appended.state, w.remote, e);
      Sent([w] + rest.trace, rest.outcome)
  }

  /** Compare both ends first. */
  function Send(w: World, m: Message, e: Environment): (s: Sent)
    ensures s.trace != [] && s.trace[0] == w
  {
    if e.refused then Sent([w], Raised(ArgumentsRefused))
    else if e.busy then Sent([w], Raised(PublisherBusy))
    else
      var seen := Land(w, e.landing(0));
      if e.inspectFails(0) then Sent([w, seen], Raised(RemoteInspectionFailed))
      else if seen.local != seen.remote then Sent([w, seen], Raised(LocalRemoteMismatch))
      else
        var rest := AppendThenPublish(seen, m, e);
        Sent([w] + rest.trace, rest.outcome)
  }

  /** Look again at an uncertain publication, without retrying it. */
  function Reconcile(w: World, p: Publication, late: Option<Commit>): (World, Publication) {
    var now := Land(w, late);
    var disposition :=
      if now.remote == Some(p.local) then RemoteVerified else if now.remote == p.expected then Failed else Uncertain;
    (now, Publication(disposition, p.local, p.expected, Some(now.remote)))
  }

  // ---------------------------------------------------------------- the running publisher

  /** A recorded step followed by what starts from it. */
  lemma Followed(before: seq<World>, w: World, step: World, rest: seq<World>)
    requires rest != [] && rest[0] == step
    ensures (before + [step]) + rest[1..] == before + ([w] + rest)[1..]
  {
  }

  class Publisher {
    var local: Option<Commit>
    var remote: Option<Commit>
    var pending: set<Commit>
    ghost var history: seq<World>

    constructor ()
      ensures Recorded() && Now() == World(None, None, {}) && history == [Now()]
    {
      local, remote, pending, history := None, None, {}, [World(None, None, {})];
    }

    ghost function Now(): World
      reads this
    {
      World(local, remote, pending)
    }

    ghost predicate Recorded()
      reads this
    {
      history != [] && Last(history) == Now()
    }

    /** `OutboundMessageStore.messages`: list the first parents, then check them from the oldest on. */
    method Messages(tip: Option<Commit>) returns (reading: Reading)
      ensures reading == Read(tip)
    {
      var commits := ChainOf(tip);
      if |commits| > MAX_MESSAGES {
        return Unreadable(HistoryLimitExceeded);
      }
      var published: seq<Message>, seen: set<string> := [], {};
      for k := 0 to |commits|
        invariant forall i | 0 <= i < k :: commits[i].content.MessageOnly?
        invariant published == MessagesIn(commits, k)
        invariant seen == set i | 0 <= i < k :: published[i].id
        invariant Read(tip) == ReadFrom(commits, k)
      {
        if !WellFormedCommit(commits[k]) {
          return Unreadable(HistoryInvalid);
        }
        var message := commits[k].content.message;
        if message.id in seen {
          return Unreadable(DuplicateId);
        }
        seen, published := seen + {message.id}, published + [message];
      }
      return Readable(published);
    }

    /** `OutboundMessageStore.append`. */
    method AppendMessage(m: Message, fault: Fault) returns (appended: Appended)
      requires Recorded()
      modifies this
      ensures Recorded() && remote == old(remote) && pending == old(pending)
      ensures (appended, local) == Append(old(local), m, fault)
      ensures history == old(history) + [Now()]
    {
      var reading := Messages(local);
      ghost var before := history;
      if reading.Unreadable? {
        appended := AppendRaised(reading.reason);
      } else {
        var n := IndexOf(reading.messages, m.id, 0);
        if n < |reading.messages| {
          var commits := ChainOf(local);
          appended := if reading.messages[n] == m && n < |commits| then Existing(commits[n]) else AppendRaised(IdConflict);
        } else {
          var commit := CommitOf(local, m);
          var result := Cas(local, local, commit, fault);
          appended := if result.0 then Stored(commit) else AppendRaised(NotPersisted);
          local := result.1;
        }
      }
      history := before + [World(local, remote, pending)];
    }

    /** Whatever pushes from earlier do up to an instant. */
    method Meanwhile(late: Option<Commit>)
      requires Recorded()
      modifies this
      ensures Recorded() && Now() == Land(old(Now()), late) && history == old(history) + [Now()]
    {
      if late.Some? && late.value in pending && FastForward(remote, late.value) {
        remote := late;
      }
      history := history + [World(local, remote, pending)];
    }

    method PushCommit(commit: Commit, fate: PushFate) returns (exited: bool)
      requires Recorded()
      modifies this
      ensures Recorded() && (Now(), exited) == Push(old(Now()), commit, fate) && history == old(history) + [Now()]
    {
      var result := Push(World(local, remote, pending), commit, fate);
      exited, remote, pending := result.1, result.0.remote, result.0.pending;
      history := history + [World(local, remote, pending)];
    }

    /** `publish_message`. */
    method PublishMessage(commit: Commit, expected: Option<Commit>, e: Environment) returns (outcome: Outcome)
      requires Recorded()
      modifies this
      ensures Recorded()
      ensures var s := Publish(old(Now()), commit, expected, e);
              outcome == s.outcome && history == old(history) + s.trace[1..]
    {
      Meanwhile(e.landing(1));
      if e.inspectFails(1) {
        return Raised(RemoteInspectionFailed);
      }
      if remote != expected {
        return Attempted(Publication(Failed, commit, expected, Some(remote)));
      }
      ghost var before, seen := old(Now()), Now();
      outcome := PushThenLook(commit, expected, e);
      Followed(old(history), before, seen, PushAndLook(seen, commit, expected, e).trace);
    }

    method PushThenLook(commit: Commit, expected: Option<Commit>, e: Environment) returns (outcome: Outcome)
      requires Recorded()
      modifies this
      ensures Recorded()
      ensures var s := PushAndLook(old(Now()), commit, expected, e);
              outcome == s.outcome && history == old(history) + s.trace[1..]
    {
      var exited := PushCommit(commit, e.push);
      if e.push.PushTimesOut? {
        return Attempted(Publication(Uncertain, commit, expected, None));
      }
      Meanwhile(e.landing(2));
      outcome := Attempted(if e.inspectFails(2) then Publication(Uncertain, commit, expected, None)
                           else Judge(commit, expected, exited, remote));
    }

    /** `append_and_publish_owned_message`. */
    method AppendAndPublish(m: Message, e: Environment) returns (outcome: Outcome)
      requires Recorded()
      modifies this
      ensures Recorded()
      ensures var s := Send(old(Now()), m, e);
              s.trace != [] && outcome == s.outcome && history == old(history) + s.trace[1..]
    {
      if e.refused {
        return Raised(ArgumentsRefused);
      }
      if e.busy {
        return Raised(PublisherBusy);
      }
      Meanwhile(e.landing(0));
      if e.inspectFails(0) {
        return Raised(RemoteInspectionFailed);
      }
      if local != remote {
        return Raised(LocalRemoteMismatch);
      }
      ghost var before, seen := old(Now()), Now();
      outcome := AppendAndPush(m, e);
      Followed(old(history), before, seen, AppendThenPublish(seen, m, e).trace);
    }

    method AppendAndPush(m: Message, e: Environment) returns (outcome: Outcome)
      requires Recorded()
      modifies this
      ensures Recorded()
      ensures var s := AppendThenPublish(old(Now()), m, e);
              s.trace != [] && outcome == s.outcome && history == old(history) + s.trace[1..]
    {
      var before := remote;
      var appended := AppendMessage(m, e.appendFault);
      if appended.AppendRaised? {
        return Raised(appended.reason);
      }
      ghost var w, stored := old(Now()), Now();
      outcome := PublishMessage(appended.state, before, e);
      Followed(old(history), w, stored, Publish(stored, appended.state, before, e).trace);
    }

    /** `reconcile_message_publication`. */
    method ReconcilePublication(p: Publication, late: Option<Commit>) returns (again: Publication)
      requires Recorded()
      modifies this
      ensures Recorded() && (Now(), again) == Reconcile(old(Now()), p, late)
    {
      Meanwhile(late);
      var disposition :=
        if remote == Some(p.local) then RemoteVerified else if remote == p.expected then Failed else Uncertain;
      again := Publication(disposition, p.local, p.expected, Some(remote));
    }
  }
}
