/**
 What any run of owned publications keeps: the remote history is the local one or one message behind, both
 only grow, and reading gives back exactly what was appended.
 */
module MessagingRuns {
  import opened Common
  import opened Inbox
  import opened Refs
  import opened Messaging

  // ---------------------------------------------------------------- chains

  /** The chain of a commit on a chain is the chain up to it. */
  lemma {:induction false} ChainUpTo(c: Commit, i: nat)
    requires i < |Chain(c)|
    ensures Chain(Chain(c)[i]) == Chain(c)[..i + 1]
    decreases c
  {
    if c.parents != [] && i < |Chain(c)| - 1 {
      ChainUpTo(c.parents[0], i);
      assert Chain(c)[..i + 1] == Chain(c.parents[0])[..i + 1];
    } else {
      assert Chain(c)[..i + 1] == Chain(c);
    }
  }

  lemma OnChain(c: Commit, a: Commit)
    requires a in Chain(c)
    ensures Chain(a) <= Chain(c)
  {
    var i :| 0 <= i < |Chain(c)| && Chain(c)[i] == a;
    ChainUpTo(c, i);
  }

  lemma ChainIdentifies(a: Option<Commit>, b: Option<Commit>)
    requires ChainOf(a) == ChainOf(b)
    ensures a == b
  {
  }

  // ---------------------------------------------------------------- reading

  /** The first `k` commits are linear, message-only and without repeated IDs. */
  predicate SoundTo(chain: seq<Commit>, k: nat)
    requires k <= |chain|
  {
    && (forall i | 0 <= i < k :: WellFormedCommit(chain[i]))
    && forall i, j | 0 <= i < j < k :: chain[i].content.message.id != chain[j].content.message.id
  }

  predicate Sound(chain: seq<Commit>) {
    SoundTo(chain, |chain|)
  }

  lemma {:induction false} ReadFromExact(chain: seq<Commit>, k: nat)
    requires k <= |chain| && SoundTo(chain, k)
    ensures ReadFrom(chain, k).Readable? <==> Sound(chain)
    ensures Sound(chain) ==> ReadFrom(chain, k) == Readable(MessagesIn(chain, |chain|))
    decreases |chain| - k
  {
    if k < |chain| && WellFormedCommit(chain[k]) {
      if FreshId(chain, k) {
        ReadFromExact(chain, k + 1);
      }
    }
  }

  /**
   A history is readable exactly when it is a linear chain of at most 256 message-only commits without a
   repeated ID, and then its messages are read in the order in which they were committed.
   */
  lemma ReadingIsExact(tip: Option<Commit>)
    ensures Read(tip).Readable? <==> |ChainOf(tip)| <= MAX_MESSAGES && Sound(ChainOf(tip))
    ensures Read(tip).Readable? ==>
              Sound(ChainOf(tip)) && Read(tip).messages == MessagesIn(ChainOf(tip), |ChainOf(tip)|)
  {
    ReadFromExact(ChainOf(tip), 0);
  }

  // ---------------------------------------------------------------- the invariant

  ghost predicate Inv(w: World) {
    && Sound(ChainOf(w.local)) && |ChainOf(w.local)| <= MAX_MESSAGES + 1
    && ChainOf(w.remote) <= ChainOf(w.local) && |ChainOf(w.local)| <= |ChainOf(w.remote)| + 1
    && forall c | c in w.pending :: Chain(c) <= ChainOf(w.local)
  }

  ghost predicate Extends(w: World, next: World) {
    ChainOf(w.local) <= ChainOf(next.local) && ChainOf(w.remote) <= ChainOf(next.remote)
  }

  ghost predicate GoodTrace(trace: seq<World>) {
    && trace != [] && (forall k | 0 <= k < |trace| :: Inv(trace[k]))
    && forall k | 0 <= k < |trace| - 1 :: Extends(trace[k], trace[k + 1])
  }

  lemma MoveRemote(w: World, c: Commit)
    requires Inv(w) && Chain(c) <= ChainOf(w.local) && FastForward(w.remote, c)
    ensures Inv(w.(remote := Some(c))) && Extends(w, w.(remote := Some(c)))
  {
    if w.remote.Some? {
      OnChain(c, w.remote.value);
    }
  }

  lemma LandGood(w: World, late: Option<Commit>)
    requires Inv(w)
    ensures Inv(Land(w, late)) && Extends(w, Land(w, late))
  {
    if late.Some? && late.value in w.pending && FastForward(w.remote, late.value) {
      MoveRemote(w, late.value);
    }
  }

  lemma PushGood(w: World, c: Commit, fate: PushFate)
    requires Inv(w) && Chain(c) <= ChainOf(w.local)
    ensures Inv(Push(w, c, fate).0) && Extends(w, Push(w, c, fate).0)
  {
    if fate.PushSent? && FastForward(w.remote, c) {
      MoveRemote(w, c);
    }
  }

  lemma CommitExtends(local: Option<Commit>, m: Message)
    ensures Chain(CommitOf(local, m)) == ChainOf(local) + [CommitOf(local, m)]
  {
  }

  /** Appending from equal ends: one more message, or nothing; the returned commit is on the local chain. */
  lemma AppendGood(w: World, m: Message, fault: Fault)
    requires Inv(w) && w.local == w.remote
    ensures var (appended, local) := Append(w.local, m, fault);
            var after := w.(local := local);
            && Inv(after) && Extends(w, after)
            && (!appended.AppendRaised? ==> Chain(appended.state) <= ChainOf(local))
  {
    ReadingIsExact(w.local);
    var (appended, local) := Append(w.local, m, fault);
    var chain := ChainOf(w.local);
    if local != w.local {
      assert Read(w.local).messages == MessagesIn(chain, |chain|);
      assert forall i | 0 <= i < |chain| :: chain[i].content.message.id != m.id;
      OneMore(w, m);
    }
    if appended.Existing? {
      OnChain(w.local.value, appended.state);
    }
  }

  lemma OneMore(w: World, m: Message)
    requires Inv(w) && w.local == w.remote && |ChainOf(w.local)| <= MAX_MESSAGES
    requires forall i | 0 <= i < |ChainOf(w.local)| :: ChainOf(w.local)[i].content.message.id != m.id
    ensures var after := w.(local := Some(CommitOf(w.local, m))); Inv(after) && Extends(w, after)
  {
    CommitExtends(w.local, m);
    var chain, longer := ChainOf(w.local), Chain(CommitOf(w.local, m));
    assert chain <= longer && Sound(longer);
    forall c | c in w.pending ensures Chain(c) <= longer {
      assert Chain(c) <= chain;
    }
  }

  lemma LookGood(w: World, c: Commit, expected: Option<Commit>, e: Environment)
    requires Inv(w) && Chain(c) <= ChainOf(w.local)
    ensures GoodTrace(PushAndLook(w, c, expected, e).trace) && PushAndLook(w, c, expected, e).trace[0] == w
  {
    PushGood(w, c, e.push);
    var pushed := Push(w, c, e.push).0;
    GoodPair(w, pushed);
    LandGood(pushed, e.landing(2));
    GoodStep([w, pushed], Land(pushed, e.landing(2)));
  }

  lemma PublishGood(w: World, c: Commit, expected: Option<Commit>, e: Environment)
    requires Inv(w) && Chain(c) <= ChainOf(w.local)
    ensures GoodTrace(Publish(w, c, expected, e).trace) && Publish(w, c, expected, e).trace[0] == w
  {
    LandGood(w, e.landing(1));
    var before := Land(w, e.landing(1));
    GoodPair(w, before);
    LookGood(before, c, expected, e);
    GoodPrepend(w, PushAndLook(before, c, expected, e).trace);
  }

  lemma GoodPrepend(w: World, trace: seq<World>)
    requires Inv(w) && GoodTrace(trace) && Extends(w, trace[0])
    ensures GoodTrace([w] + trace)
  {
    var longer := [w] + trace;
    forall k | 0 <= k < |longer| - 1 ensures Extends(longer[k], longer[k + 1]) {
      if k > 0 {
        assert longer[k] == trace[k - 1] && longer[k + 1] == trace[k];
      }
    }
  }

  lemma GoodPair(w: World, next: World)
    requires Inv(w) && Inv(next) && Extends(w, next)
    ensures GoodTrace([w, next])
  {
  }

  lemma AllInv(trace: seq<World>, next: World)
    requires Inv(next) && forall k | 0 <= k < |trace| :: Inv(trace[k])
    ensures forall k | 0 <= k < |trace + [next]| :: Inv((trace + [next])[k])
  {
    forall k | 0 <= k < |trace + [next]| ensures Inv((trace + [next])[k]) {
      if k < |trace| {
        assert (trace + [next])[k] == trace[k];
      }
    }
  }

  lemma PairIn(trace: seq<World>, next: World, k: nat)
    requires trace != [] && k < |trace|
    requires (forall n | 0 <= n < |trace| - 1 :: Extends(trace[n], trace[n + 1])) && Extends(Last(trace), next)
    ensures Extends((trace + [next])[k], (trace + [next])[k + 1])
  {
    var longer := trace + [next];
    if k < |trace| - 1 {
      assert longer[k] == trace[k] && longer[k + 1] == trace[k + 1];
    } else {
      assert longer[k] == Last(trace) && longer[k + 1] == next;
    }
  }

  lemma GoodStep(trace: seq<World>, next: World)
    requires GoodTrace(trace) && Inv(next) && Extends(Last(trace), next)
    ensures GoodTrace(trace + [next])
  {
    AllInv(trace, next);
    forall k | 0 <= k < |trace| ensures Extends((trace + [next])[k], (trace + [next])[k + 1]) {
      PairIn(trace, next, k);
    }
  }

  lemma AppendThenPublishGood(w: World, m: Message, e: Environment)
    requires Inv(w) && w.local == w.remote
    ensures GoodTrace(AppendThenPublish(w, m, e).trace) && AppendThenPublish(w, m, e).trace[0] == w
  {
    AppendGood(w, m, e.appendFault);
    var (appended, local) := Append(w.local, m, e.appendFault);
    var stored := w.(local := local);
    GoodPair(w, stored);
    if !appended.AppendRaised? {
      PublishGood(stored, appended.state, w.remote, e);
      GoodPrepend(w, Publish(stored, appended.state, w.remote, e).trace);
    }
  }

  lemma SendGood(w: World, m: Message, e: Environment)
    requires Inv(w)
    ensures GoodTrace(Send(w, m, e).trace) && Send(w, m, e).trace[0] == w
  {
    LandGood(w, e.landing(0));
    var seen := Land(w, e.landing(0));
    GoodPair(w, seen);
    if seen.local == seen.remote {
      AppendThenPublishGood(seen, m, e);
      GoodPrepend(w, AppendThenPublish(seen, m, e).trace);
    }
  }

  // ---------------------------------------------------------------- runs

  /** One publication, dying at some point of its trace or not, or a late push reaching the remote. */
  datatype Action = Sending(message: Message, environment: Environment, cut: nat) | Landing(late: Option<Commit>)

  function TraceOf(w: World, a: Action): seq<World> {
    match a
    case Sending(m, e, _) => Send(w, m, e).trace
    case Landing(late) => [w, Land(w, late)]
  }

  function After(w: World, a: Action): World {
    var trace := TraceOf(w, a);
    if trace == [] then w else if a.Sending? && a.cut < |trace| then trace[a.cut] else Last(trace)
  }

  ghost predicate IsRun(ws: seq<World>, actions: seq<Action>) {
    && |ws| == |actions| + 1 && ws[0] == World(None, None, {})
    && forall k | 0 <= k < |actions| :: ws[k + 1] == After(ws[k], actions[k])
  }

  lemma ActionGood(w: World, a: Action)
    requires Inv(w)
    ensures GoodTrace(TraceOf(w, a)) && TraceOf(w, a)[0] == w
  {
    match a {
      case Sending(m, e, _) => SendGood(w, m, e);
      case Landing(late) => LandGood(w, late);
    }
  }

  lemma ExtendsTransitive(a: World, b: World, c: World)
    requires Extends(a, b) && Extends(b, c)
    ensures Extends(a, c)
  {
  }

  lemma {:induction false} GrowAlong(ws: seq<World>, j: nat, k: nat)
    requires j <= k < |ws| && forall n | 0 <= n < |ws| - 1 :: Extends(ws[n], ws[n + 1])
    ensures Extends(ws[j], ws[k])
    decreases k
  {
    if j < k {
      GrowAlong(ws, j, k - 1);
      assert Extends(ws[k - 1], ws[k]);
      ExtendsTransitive(ws[j], ws[k - 1], ws[k]);
    }
  }

  /** Wherever it stops. */
  lemma StoppedGood(w: World, trace: seq<World>, n: nat, next: World)
    requires GoodTrace(trace) && trace[0] == w && n < |trace| && next == trace[n]
    ensures Inv(next) && Extends(w, next)
  {
    GrowAlong(trace, 0, n);
  }

  lemma ActionStep(w: World, a: Action, next: World)
    requires Inv(w) && next == After(w, a)
    ensures Inv(next) && Extends(w, next)
  {
    ActionGood(w, a);
    var trace := TraceOf(w, a);
    StoppedGood(w, trace, if a.Sending? && a.cut < |trace| then a.cut else |trace| - 1, next);
  }

  /**
   Over any run, dying anywhere, with pushes that land late or never: remote history is a prefix of local
   history and at most one message behind, local history is linear with unique message IDs, and everything
   a late push could still deliver is on it.
   */
  lemma RemoteTrailsLocal(ws: seq<World>, actions: seq<Action>, k: nat)
    requires IsRun(ws, actions) && k < |ws|
    ensures Inv(ws[k])
  {
    forall n | 0 <= n < |ws| - 1 && Inv(ws[n]) ensures Inv(ws[n + 1]) {
      ActionStep(ws[n], actions[n], ws[n + 1]);
    }
    InvAlong(ws, k);
  }

  lemma {:induction false} InvAlong(ws: seq<World>, k: nat)
    requires k < |ws| && Inv(ws[0]) && forall n | 0 <= n < |ws| - 1 && Inv(ws[n]) :: Inv(ws[n + 1])
    ensures Inv(ws[k])
  {
    if k > 0 {
      InvAlong(ws, k - 1);
    }
  }

  /** Inside one publication too. */
  lemma AlsoMidway(ws: seq<World>, actions: seq<Action>, k: nat, n: nat)
    requires IsRun(ws, actions) && k < |actions| && n < |TraceOf(ws[k], actions[k])|
    ensures Inv(TraceOf(ws[k], actions[k])[n])
  {
    RemoteTrailsLocal(ws, actions, k);
    ActionGood(ws[k], actions[k]);
  }

  /** Both histories only grow. */
  lemma HistoriesGrow(ws: seq<World>, actions: seq<Action>, j: nat, k: nat)
    requires IsRun(ws, actions) && j <= k < |ws|
    ensures Extends(ws[j], ws[k])
  {
    forall n | 0 <= n < |ws| - 1 ensures Extends(ws[n], ws[n + 1]) {
      RemoteTrailsLocal(ws, actions, n);
      ActionStep(ws[n], actions[n], ws[n + 1]);
    }
    GrowAlong(ws, j, k);
  }

  /** Where one send can leave the local end: unmoved, or one commit with the message it was sending further. */
  ghost predicate LocalMoves(w: World, m: Message, next: World) {
    next.local == w.local || next.local == Some(CommitOf(w.local, m))
  }

  lemma SendMovesLocal(w: World, m: Message, e: Environment, n: nat)
    requires n < |Send(w, m, e).trace|
    ensures LocalMoves(w, m, Send(w, m, e).trace[n])
  {
    var seen := Land(w, e.landing(0));
    if seen.local == seen.remote && n > 0 && |Send(w, m, e).trace| > 2 {
      var rest := AppendThenPublish(seen, m, e);
      assert Send(w, m, e).trace[n] == rest.trace[n - 1];
      AppendMovesLocal(seen, m, e, n - 1);
    }
  }

  lemma AppendMovesLocal(w: World, m: Message, e: Environment, n: nat)
    requires n < |AppendThenPublish(w, m, e).trace|
    ensures LocalMoves(w, m, AppendThenPublish(w, m, e).trace[n])
  {
    var (appended, local) := Append(w.local, m, e.appendFault);
    var stored := w.(local := local);
    assert LocalMoves(w, m, stored);
    hide Append, Publish;
    if !appended.AppendRaised? {
      PublishKeepsLocal(stored, appended.state, w.remote, e);
    }
  }

  lemma PublishKeepsLocal(w: World, c: Commit, expected: Option<Commit>, e: Environment)
    ensures forall n | 0 <= n < |Publish(w, c, expected, e).trace| :: Publish(w, c, expected, e).trace[n].local == w.local
  {
  }

  /** The messages that the first `k` actions of a run durably appended, in order. */
  ghost function Log(ws: seq<World>, actions: seq<Action>, k: nat): seq<Message>
    requires |ws| == |actions| + 1 && k < |ws|
  {
    if k == 0 then []
    else
      Log(ws, actions, k - 1) + Gain(ws[k - 1], actions[k - 1], ws[k])
  }

  ghost predicate Moves(w: World, a: Action, next: World) {
    if a.Sending? then LocalMoves(w, a.message, next) else next.local == w.local
  }

  lemma ChainGains(local: Option<Commit>, m: Message)
    requires Sound(ChainOf(local)) && Sound(Chain(CommitOf(local, m)))
    ensures var chain, longer := ChainOf(local), Chain(CommitOf(local, m));
            MessagesIn(longer, |longer|) == MessagesIn(chain, |chain|) + [m]
  {
    CommitExtends(local, m);
  }

  /** The history behind a tip holds exactly these messages. */
  ghost predicate Keeps(local: Option<Commit>, log: seq<Message>) {
    Sound(ChainOf(local)) && MessagesIn(ChainOf(local), |ChainOf(local)|) == log
  }

  function Gain(w: World, a: Action, next: World): seq<Message> {
    if a.Sending? && next.local != w.local then [a.message] else []
  }

  lemma KeepsStep(w: World, a: Action, next: World, log: seq<Message>)
    requires Keeps(w.local, log) && Moves(w, a, next) && Sound(ChainOf(next.local))
    ensures Keeps(next.local, log + Gain(w, a, next))
  {
    if a.Sending? && next.local != w.local {
      ChainGains(w.local, a.message);
    } else {
      assert log + [] == log;
    }
  }

  lemma KeepsNothing()
    ensures Keeps(None, [])
  {
  }

  lemma {:induction false} LogAlong(ws: seq<World>, actions: seq<Action>, k: nat)
    requires |ws| == |actions| + 1 && k < |ws| && ws[0].local.None?
    requires forall n | 0 <= n < |ws| :: Sound(ChainOf(ws[n].local))
    requires forall n | 0 <= n < |actions| :: Moves(ws[n], actions[n], ws[n + 1])
    ensures Keeps(ws[k].local, Log(ws, actions, k))
  {
    hide Sound, Moves, Keeps, Gain;
    KeepsNothing();
    if k > 0 {
      LogAlong(ws, actions, k - 1);
      KeepsStep(ws[k - 1], actions[k - 1], ws[k], Log(ws, actions, k - 1));
    }
  }

  /** The local history is exactly what was appended. */
  lemma LogIsHistory(ws: seq<World>, actions: seq<Action>, k: nat)
    requires IsRun(ws, actions) && k < |ws|
    ensures Keeps(ws[k].local, Log(ws, actions, k))
  {
    hide Sound, Keeps, Log;
    forall n | 0 <= n < |ws| ensures Sound(ChainOf(ws[n].local)) {
      RemoteTrailsLocal(ws, actions, n);
    }
    forall n | 0 <= n < |actions| ensures Moves(ws[n], actions[n], ws[n + 1]) {
      ActionMovesLocal(ws[n], actions[n], ws[n + 1]);
    }
    hide After, Moves;
    LogAlong(ws, actions, k);
  }

  lemma ActionMovesLocal(w: World, a: Action, next: World)
    requires next == After(w, a)
    ensures Moves(w, a, next)
  {
    if a.Sending? {
      var trace := Send(w, a.message, a.environment).trace;
      SendMovesLocal(w, a.message, a.environment, if a.cut < |trace| then a.cut else |trace| - 1);
    }
  }

  /** What the readers of both ends get, if these are the messages of the local history. */
  ghost predicate ReadersGet(w: World, log: seq<Message>) {
    && |ChainOf(w.remote)| <= |log|
    && Read(w.local) == (if |log| <= MAX_MESSAGES then Readable(log) else Unreadable(HistoryLimitExceeded))
    && (|ChainOf(w.remote)| <= MAX_MESSAGES ==> Read(w.remote) == Readable(log[..|ChainOf(w.remote)|]))
  }

  lemma ReadersOf(w: World, log: seq<Message>)
    requires Inv(w) && Keeps(w.local, log)
    ensures ReadersGet(w, log)
  {
    ReadingIsExact(w.local);
    ReadingIsExact(w.remote);
  }

  /** Both ends read back exactly the appended messages in order, until there are more than 256. */
  lemma ReadersSeeWhatWasAppended(ws: seq<World>, actions: seq<Action>, k: nat)
    requires IsRun(ws, actions) && k < |ws|
    ensures ReadersGet(ws[k], Log(ws, actions, k))
  {
    LogIsHistory(ws, actions, k);
    RemoteTrailsLocal(ws, actions, k);
    hide IsRun, Log, Inv, Keeps, ReadersGet;
    ReadersOf(ws[k], Log(ws, actions, k));
  }

  /** Whatever is reported about its publication, a message that was attempted is among the appended ones. */
  lemma AttemptedIsAppended(ws: seq<World>, actions: seq<Action>, k: nat)
    requires IsRun(ws, actions) && k < |actions| && actions[k].Sending?
    requires actions[k].cut >= |Send(ws[k], actions[k].message, actions[k].environment).trace|
    requires Send(ws[k], actions[k].message, actions[k].environment).outcome.Attempted?
    ensures actions[k].message in Log(ws, actions, k + 1)
  {
    RemoteTrailsLocal(ws, actions, k);
    LogIsHistory(ws, actions, k + 1);
    AttemptedLast(ws[k], actions[k], ws[k + 1]);
    hide IsRun, Send, After, Log, Inv;
    OnReading(ChainOf(ws[k + 1].local), actions[k].message);
  }

  lemma AttemptedLast(w: World, a: Action, next: World)
    requires Inv(w) && a.Sending? && next == After(w, a)
    requires a.cut >= |Send(w, a.message, a.environment).trace| && Send(w, a.message, a.environment).outcome.Attempted?
    ensures Holds(ChainOf(next.local), a.message)
  {
    AttemptedOnChain(w, a.message, a.environment);
  }

  ghost predicate Holds(chain: seq<Commit>, m: Message) {
    exists c | c in chain :: c.content == MessageOnly(m)
  }

  lemma OnReading(chain: seq<Commit>, m: Message)
    requires Sound(chain) && Holds(chain, m)
    ensures m in MessagesIn(chain, |chain|)
  {
    var c :| c in chain && c.content == MessageOnly(m);
    var i :| 0 <= i < |chain| && chain[i] == c;
    assert MessagesIn(chain, |chain|)[i] == m;
  }

  lemma AttemptedOnChain(w: World, m: Message, e: Environment)
    requires Inv(w) && Send(w, m, e).outcome.Attempted?
    ensures Holds(ChainOf(Last(Send(w, m, e).trace).local), m)
  {
    var seen := Land(w, e.landing(0));
    LandGood(w, e.landing(0));
    AppendGood(seen, m, e.appendFault);
    AppendedContent(seen.local, m, e.appendFault);
    var (appended, local) := Append(seen.local, m, e.appendFault);
    var s := Publish(seen.(local := local), appended.state, seen.remote, e);
    PublishKeepsLocal(seen.(local := local), appended.state, seen.remote, e);
    assert Last([seen] + s.trace) == Last(s.trace) && Last([w] + ([seen] + s.trace)) == Last([seen] + s.trace);
    assert Last(Chain(appended.state)) == appended.state;
  }

  /** Appending a message that is already there, whatever the repository does, changes nothing and finds its commit. */
  lemma ReappendIsIdle(w: World, n: nat, fault: Fault)
    requires Inv(w) && n < |ChainOf(w.local)| <= MAX_MESSAGES
    ensures var c := ChainOf(w.local)[n];
            Append(w.local, c.content.message, fault) == (Existing(c), w.local)
  {
    ReadingIsExact(w.local);
    var chain, messages := ChainOf(w.local), Read(w.local).messages;
    assert messages == MessagesIn(chain, |chain|);
    assert forall i | 0 <= i < n :: chain[i].content.message.id != chain[n].content.message.id;
    assert IndexOf(messages, messages[n].id, 0) == n;
  }

  // ---------------------------------------------------------------- limits of the protocol

  /** The 257th message is accepted, and nobody can read the history or add to it from then on. */
  lemma FullHistoryTakesOneMore(w: World, m: Message, fault: Fault)
    requires Inv(w) && |ChainOf(w.local)| == MAX_MESSAGES && fault.Healthy?
    requires forall i | 0 <= i < MAX_MESSAGES :: ChainOf(w.local)[i].content.message.id != m.id
    ensures Append(w.local, m, fault).0.Stored?
    ensures Read(Append(w.local, m, fault).1) == Unreadable(HistoryLimitExceeded)
  {
    ReadingIsExact(w.local);
    CommitExtends(w.local, m);
    var messages := Read(w.local).messages;
    assert messages == MessagesIn(ChainOf(w.local), |ChainOf(w.local)|);
  }

  lemma OverfullStep(w: World, a: Action, next: World)
    requires |ChainOf(w.local)| > MAX_MESSAGES && next == After(w, a)
    ensures next.local == w.local
  {
    if a.Sending? {
      OverfullSend(w, a.message, a.environment);
      hide Send, ChainOf;
    }
  }

  lemma OverfullSend(w: World, m: Message, e: Environment)
    requires |ChainOf(w.local)| > MAX_MESSAGES
    ensures forall n | 0 <= n < |Send(w, m, e).trace| :: Send(w, m, e).trace[n].local == w.local
  {
    assert Append(w.local, m, e.appendFault) == (AppendRaised(HistoryLimitExceeded), w.local);
    hide Append, Read, ChainOf, Publish;
  }

  predicate Overfull(w: World) {
    |ChainOf(w.local)| > MAX_MESSAGES
  }

  lemma {:induction false} LocalStays(ws: seq<World>, j: nat, k: nat)
    requires j <= k < |ws| && Overfull(ws[j])
    requires forall n | 0 <= n < |ws| - 1 && Overfull(ws[n]) :: ws[n + 1].local == ws[n].local
    ensures ws[k].local == ws[j].local
    decreases k
  {
    if j < k {
      LocalStays(ws, j, k - 1);
      assert Overfull(ws[k - 1]);
    }
  }

  /** And it stays that way over any run. */
  lemma OverfullIsForever(ws: seq<World>, actions: seq<Action>, j: nat, k: nat)
    requires IsRun(ws, actions) && j <= k < |ws| && Overfull(ws[j])
    ensures ws[k].local == ws[j].local && Read(ws[k].local) == Unreadable(HistoryLimitExceeded)
  {
    forall n | 0 <= n < |ws| - 1 && Overfull(ws[n]) ensures ws[n + 1].local == ws[n].local {
      OverfullStep(ws[n], actions[n], ws[n + 1]);
    }
    LocalStays(ws, j, k);
  }

  predicate NoneReaches(w: World) {
    forall c | c in w.pending :: !FastForward(w.remote, c) || Some(c) == w.remote
  }

  /**
   A message stored locally but not pushed (the process died in between, the append raised after it landed,
   or the push was refused) blocks the publisher for good, unless an earlier push still brings it: every
   later publication, also of the same message, stops at the comparison of the two ends.
   */
  lemma {:induction false} BehindIsStuck(ws: seq<World>, actions: seq<Action>, j: nat, k: nat)
    requires IsRun(ws, actions) && j <= k < |ws|
    requires ws[j].local != ws[j].remote && NoneReaches(ws[j])
    ensures ws[k] == ws[j]
    ensures k < |actions| && actions[k].Sending? ==>
              var e := actions[k].environment;
              Send(ws[k], actions[k].message, e).outcome
              == Raised(if e.refused then ArgumentsRefused else if e.busy then PublisherBusy else if e.inspectFails(0) then RemoteInspectionFailed
                        else LocalRemoteMismatch)
    decreases k
  {
    if j < k {
      BehindIsStuck(ws, actions, j, k - 1);
    }
  }

  /** Nobody else publishes, Git answers, and the server decides and reports. */
  ghost predicate Working(e: Environment) {
    !e.refused && !e.busy && e.appendFault.Healthy? && e.push == PushSent(true) && forall at :: !e.inspectFails(at)
  }

  /** A message is published: the report is verified and both ends stand at one new commit that holds it. */
  ghost predicate PublishesNew(w: World, m: Message, e: Environment) {
    var s, commit := Send(w, m, e), Some(CommitOf(Land(w, e.landing(0)).local, m));
    && s.outcome.Attempted? && s.outcome.publication.disposition.RemoteVerified?
    && s.trace != [] && Last(s.trace).local == commit && Last(s.trace).remote == commit
  }

  predicate NewId(local: Option<Commit>, m: Message) {
    forall c | c in ChainOf(local) && c.content.MessageOnly? :: c.content.message.id != m.id
  }

  /**
   The exact condition for progress: with everything working a message is published as a new one if and
   only if both ends are seen equal at the comparison, the history is still readable, and its ID is new.
   */
  lemma PublishesIffLevel(w: World, m: Message, e: Environment)
    requires Inv(w) && Working(e)
    ensures var seen := Land(w, e.landing(0));
            PublishesNew(w, m, e)
            <==> seen.local == seen.remote && |ChainOf(seen.local)| <= MAX_MESSAGES && NewId(seen.local, m)
  {
    var seen := Land(w, e.landing(0));
    LandGood(w, e.landing(0));
    if seen.local == seen.remote {
      ReadingIsExact(seen.local);
      if |ChainOf(seen.local)| <= MAX_MESSAGES && NewId(seen.local, m) {
        NewIsPublished(w, m, e);
      } else {
        OldIsNotNew(w, m, e);
      }
    }
  }

  lemma NewIsStored(w: World, m: Message, fault: Fault)
    requires Inv(w) && |ChainOf(w.local)| <= MAX_MESSAGES && NewId(w.local, m) && fault.Healthy?
    ensures Append(w.local, m, fault) == (Stored(CommitOf(w.local, m)), Some(CommitOf(w.local, m)))
  {
    ReadingIsExact(w.local);
    var chain := ChainOf(w.local);
    var messages := Read(w.local).messages;
    assert forall i | 0 <= i < |messages| :: chain[i] in chain && messages[i].id != m.id;
  }

  /** A push under way from before can move neither the equal ends nor a remote one commit further. */
  lemma LateIsIdle(w: World, next: Commit, late: Option<Commit>)
    requires Inv(w) && w.local == w.remote && Chain(next) == ChainOf(w.local) + [next]
    ensures Land(w.(local := Some(next)), late) == w.(local := Some(next))
    ensures Land(w.(local := Some(next), remote := Some(next)), late) == w.(local := Some(next), remote := Some(next))
  {
    LandIdle(w, late);
    if late.Some? && late.value in w.pending {
      if FastForward(w.remote, late.value) {
        assert w.(remote := late) == w;
      }
      if next in Chain(late.value) {
        OnChain(late.value, next);
        assert false;
      }
    }
  }

  lemma NewIsPublished(w: World, m: Message, e: Environment)
    requires Inv(w) && Working(e)
    requires var seen := Land(w, e.landing(0));
             Inv(seen) && seen.local == seen.remote && |ChainOf(seen.local)| <= MAX_MESSAGES && NewId(seen.local, m)
    ensures PublishesNew(w, m, e)
  {
    var seen := Land(w, e.landing(0));
    var next := CommitOf(seen.local, m);
    NewIsStored(seen, m, e.appendFault);
    CommitExtends(seen.local, m);
    var stored := seen.(local := Some(next));
    LateIsIdle(seen, next, e.landing(1));
    LateIsIdle(seen, next, e.landing(2));
    if seen.remote.Some? {
      assert Last(ChainOf(seen.remote)) == seen.remote.value;
      assert seen.remote.value in Chain(next);
    }
    var pushed := Push(stored, next, e.push).0;
    assert pushed == stored.(remote := Some(next));
    var look := PushAndLook(stored, next, seen.remote, e);
    assert look.trace == [stored, pushed] + [pushed];
    assert Last(look.trace) == pushed;
    assert Publish(stored, next, seen.remote, e).trace == [stored] + look.trace;
    assert AppendThenPublish(seen, m, e).trace == [seen] + ([stored] + look.trace);
    assert Send(w, m, e).trace == [w] + ([seen] + ([stored] + look.trace));
    assert Last(Send(w, m, e).trace) == pushed;
  }

  lemma OldIsNotNew(w: World, m: Message, e: Environment)
    requires Inv(w) && Working(e)
    requires var seen := Land(w, e.landing(0));
             && Inv(seen) && seen.local == seen.remote
             && (|ChainOf(seen.local)| > MAX_MESSAGES || !NewId(seen.local, m))
    ensures !PublishesNew(w, m, e)
  {
    var seen := Land(w, e.landing(0));
    ReadingIsExact(seen.local);
    var chain := ChainOf(seen.local);
    var (appended, local) := Append(seen.local, m, e.appendFault);
    if !appended.AppendRaised? {
      var c :| c in chain && c.content.MessageOnly? && c.content.message.id == m.id;
      var i :| 0 <= i < |chain| && chain[i] == c;
      assert Read(seen.local).messages[i].id == m.id;
      assert local == seen.local;
      var s := Publish(seen, appended.state, seen.remote, e);
      PublishKeepsLocal(seen, appended.state, seen.remote, e);
      assert Last([seen] + s.trace) == Last(s.trace) && Last([w] + ([seen] + s.trace)) == Last([seen] + s.trace);
      CommitExtends(seen.local, m);
    }
  }

  /**
   Publishing the local tip itself, with everything working, brings both ends together; it is verified
   exactly if the remote is seen where the caller expects it.
   */
  lemma PublishingTheTipRepairs(w: World, expected: Option<Commit>, e: Environment)
    requires Inv(w) && w.local.Some?
    requires !e.inspectFails(1) && !e.inspectFails(2) && e.push == PushSent(true)
    ensures var s, seen := Publish(w, w.local.value, expected, e), Land(w, e.landing(1));
            && s.outcome.Attempted?
            && (s.outcome.publication.disposition.RemoteVerified? <==> seen.remote == expected)
            && (seen.remote == expected ==> Last(s.trace).remote == w.local)
            && (seen.remote != expected ==> s.outcome.publication.observed == Some(seen.remote))
  {
    LandGood(w, e.landing(1));
    var seen, tip := Land(w, e.landing(1)), w.local.value;
    if seen.remote.Some? {
      assert Last(ChainOf(seen.remote)) == seen.remote.value;
      assert seen.remote.value in Chain(tip);
    }
    var pushed := Push(seen, tip, e.push).0;
    assert pushed.remote == w.local;
    forall c | c in pushed.pending && FastForward(pushed.remote, c) ensures Some(c) == pushed.remote {
      OnChain(c, tip);
      assert Chain(c) <= Chain(tip);
      ChainIdentifies(Some(c), Some(tip));
    }
    assert Land(pushed, e.landing(2)).remote == w.local;
  }

  /**
   Sending an already published message again, with everything working, is verified exactly if it is the
   last one; for an older one the push is refused and the publication reported failed, though the remote
   has long held it.
   */
  lemma OnlyTheTipVerifiesAgain(w: World, n: nat, e: Environment)
    requires Inv(w) && w.local == w.remote && n < |ChainOf(w.local)| <= MAX_MESSAGES
    requires !e.refused && !e.busy && (forall at :: !e.inspectFails(at)) && e.push == PushSent(true)
    ensures var s := Send(w, ChainOf(w.local)[n].content.message, e);
            && s.outcome.Attempted?
            && s.outcome.publication.disposition == (if n == |ChainOf(w.local)| - 1 then RemoteVerified else Failed)
            && Last(s.trace).local == w.local && Last(s.trace).remote == w.remote
  {
    var c := ChainOf(w.local)[n];
    LandIdle(w, e.landing(0));
    ReappendIsIdle(w, n, e.appendFault);
    LandIdle(w, e.landing(1));
    ChainUpTo(w.local.value, n);
    var tip := w.local.value;
    if FastForward(w.remote, c) {
      OnChain(c, tip);
      assert |Chain(tip)| <= |Chain(c)| == n + 1;
    }
    assert FastForward(w.remote, c) <==> n == |Chain(tip)| - 1;
    if n == |Chain(tip)| - 1 {
      assert c == tip;
    } else {
      assert c != tip;
    }
    assert Push(w, c, e.push).0 == w;
    LandIdle(w, e.landing(2));
  }

  /** With the ends together no late push can move the remote. */
  lemma LandIdle(w: World, late: Option<Commit>)
    requires Inv(w) && w.local == w.remote
    ensures Land(w, late) == w
  {
    if late.Some? && late.value in w.pending && FastForward(w.remote, late.value) {
      if w.remote.Some? {
        OnChain(late.value, w.remote.value);
        ChainIdentifies(late, w.remote);
      }
    }
  }

  /**
   An uncertain publication of the local tip resolves: looking again finds either that commit or the
   expected prior one, never a third State, for as long as no newer message was stored.
   */
  lemma ReconciliationResolves(w: World, p: Publication, late: Option<Commit>)
    requires Inv(w) && w.local == Some(p.local)
    requires p.expected == (if p.local.parents == [] then None else Some(p.local.parents[0]))
    ensures var (now, again) := Reconcile(w, p, late);
            && now.remote == (if again.disposition.RemoteVerified? then w.local else p.expected)
            && (again.disposition.RemoteVerified? || again.disposition.Failed?)
  {
    LandGood(w, late);
    var now := Land(w, late);
    var chain := Chain(p.local);
    assert chain == ChainOf(p.expected) + [p.local];
    if |ChainOf(now.remote)| == |chain| {
      ChainIdentifies(now.remote, w.local);
    } else {
      assert ChainOf(now.remote) == ChainOf(p.expected);
      ChainIdentifies(now.remote, p.expected);
    }
  }

  /** A verified report means the remote holds the commit. */
  lemma VerifiedIsThere(w: World, m: Message, e: Environment)
    requires Inv(w) && Send(w, m, e).outcome.Attempted?
    requires Send(w, m, e).outcome.publication.disposition.RemoteVerified?
    ensures var s := Send(w, m, e);
            && Last(s.trace).remote == Some(s.outcome.publication.local)
            && s.outcome.publication.local in ChainOf(Last(s.trace).local)
            && s.outcome.publication.local.content == MessageOnly(m)
  {
    var seen := Land(w, e.landing(0));
    LandGood(w, e.landing(0));
    AppendGood(seen, m, e.appendFault);
    AppendedContent(seen.local, m, e.appendFault);
    var (appended, local) := Append(seen.local, m, e.appendFault);
    PublishVerified(seen.(local := local), appended.state, seen.remote, e);
    assert appended.state in ChainOf(local) by {
      assert Last(Chain(appended.state)) == appended.state;
    }
    var rest := Publish(seen.(local := local), appended.state, seen.remote, e).trace;
    assert Last([seen] + rest) == Last(rest) && Last([w] + ([seen] + rest)) == Last([seen] + rest);
  }

  lemma PublishVerified(w: World, c: Commit, expected: Option<Commit>, e: Environment)
    ensures var s := Publish(w, c, expected, e);
            && s.trace != [] && Last(s.trace).local == w.local
            && (s.outcome.Attempted? ==> s.outcome.publication.local == c)
            && (s.outcome.Attempted? && s.outcome.publication.disposition.RemoteVerified? ==>
                  Last(s.trace).remote == Some(c))
  {
  }

  lemma AppendedContent(local: Option<Commit>, m: Message, fault: Fault)
    ensures !Append(local, m, fault).0.AppendRaised? ==> Append(local, m, fault).0.state.content == MessageOnly(m)
  {
    ReadingIsExact(local);
  }
}
