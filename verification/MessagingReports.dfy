/**
 What a publication reports, told by what the push met and by what the remote holds at the end.
 */
module MessagingReports {
  import opened Common
  import opened Inbox
  import opened Refs
  import opened Messaging
  import opened MessagingRuns

  /** The remote took the commit and the command said so. */
  predicate Accepted(w: World, commit: Commit, e: Environment) {
    e.push == PushSent(true) && FastForward(Land(w, e.landing(1)).remote, commit)
  }

  /** The second look at the remote took place. */
  predicate Looked(w: World, expected: Option<Commit>, e: Environment) {
    Land(w, e.landing(1)).remote == expected && !e.push.PushTimesOut? && !e.inspectFails(2)
  }

  /**
   Each report exactly when its reason holds: verified if the second look finds the commit; failed if the
   remote was not as expected in the first place, or a push that did not succeed left it as it was; uncertain
   otherwise, in particular after every push that timed out and every second look that failed.
   */
  lemma PublicationReports(w: World, commit: Commit, expected: Option<Commit>, e: Environment)
    requires !e.inspectFails(1)
    ensures var s, seen := Publish(w, commit, expected, e), Land(w, e.landing(1));
            && s.outcome.Attempted? && s.trace != []
            && var p, remote := s.outcome.publication, Last(s.trace).remote;
               && p.local == commit && p.expected == expected
               && (p.disposition.RemoteVerified? <==> Looked(w, expected, e) && remote == Some(commit))
               && (p.disposition.Failed? <==>
                     || seen.remote != expected
                     || (Looked(w, expected, e) && remote == expected && remote != Some(commit) && !Accepted(w, commit, e)))
               && p.observed == (if seen.remote != expected then Some(seen.remote)
                                 else if Looked(w, expected, e) then Some(remote) else None)
  {
  }

  /** A push that timed out is reported uncertain, and only then may its commit still be under way. */
  lemma TimedOutIsUncertain(w: World, commit: Commit, expected: Option<Commit>, e: Environment)
    requires !e.inspectFails(1) && Land(w, e.landing(1)).remote == expected
    ensures var s := Publish(w, commit, expected, e);
            && s.trace != []
            && (e.push.PushTimesOut? ==> s.outcome.publication.disposition.Uncertain? && commit in Last(s.trace).pending)
            && (!e.push.PushTimesOut? ==> Last(s.trace).pending == w.pending)
  {
  }

  /** Why a send raises, each reason exactly when it is reported. */
  lemma SendRefusals(w: World, m: Message, e: Environment)
    ensures var s, seen := Send(w, m, e), Land(w, e.landing(0));
            var admitted := !e.refused && !e.busy;
            var level := admitted && !e.inspectFails(0) && seen.local == seen.remote;
            && (s.outcome == Raised(ArgumentsRefused) <==> e.refused)
            && (s.outcome == Raised(PublisherBusy) <==> !e.refused && e.busy)
            && (s.outcome == Raised(LocalRemoteMismatch) <==>
                  admitted && !e.inspectFails(0) && seen.local != seen.remote)
            && (s.outcome == Raised(RemoteInspectionFailed) <==>
                  || (admitted && e.inspectFails(0))
                  || (level && e.inspectFails(1) && !Append(seen.local, m, e.appendFault).0.AppendRaised?))
  {
    AppendReasons(Land(w, e.landing(0)).local, m, e.appendFault);
    hide Append, Land, FastForward;
  }

  lemma {:induction false} ReadingReasons(chain: seq<Commit>, k: nat)
    requires k <= |chain| && forall i | 0 <= i < k :: chain[i].content.MessageOnly?
    ensures ReadFrom(chain, k).Unreadable? ==> ReadFrom(chain, k).reason in {HistoryInvalid, DuplicateId}
    decreases |chain| - k
  {
    if k < |chain| && WellFormedCommit(chain[k]) {
      ReadingReasons(chain, k + 1);
    }
  }

  lemma AppendReasons(local: Option<Commit>, m: Message, fault: Fault)
    ensures var a := Append(local, m, fault).0;
            a.AppendRaised? ==> a.reason in {HistoryLimitExceeded, HistoryInvalid, DuplicateId, IdConflict, NotPersisted}
  {
    ReadingReasons(ChainOf(local), 0);
  }

  /** Why an append is refused on a readable history: the ID is taken by another message, or the write failed. */
  lemma AppendReports(local: Option<Commit>, m: Message, fault: Fault)
    requires Read(local).Readable?
    ensures var a, messages := Append(local, m, fault).0, Read(local).messages;
            var taken := exists x | x in messages :: x.id == m.id;
            && (a.Existing? <==> m in messages)
            && (a == AppendRaised(IdConflict) <==> taken && m !in messages)
            && (a.Stored? <==> !taken && fault.Healthy?)
            && (a == AppendRaised(NotPersisted) <==> !taken && !fault.Healthy?)
  {
    ReadingIsExact(local);
    var messages, chain := Read(local).messages, ChainOf(local);
    var n := IndexOf(messages, m.id, 0);
    if n < |messages| {
      assert messages[n] in messages;
      if m in messages {
        var k :| 0 <= k < |messages| && messages[k] == m;
        assert messages[n].id == messages[k].id;
        assert chain[n].content.message.id == chain[k].content.message.id;
        assert n == k;
      }
    } else {
      assert forall x | x in messages :: x.id != m.id;
    }
  }

  /**
   Why a history cannot be read: it is longer than the bound, or the first commit out of order, from the oldest
   on, repeats an ID; or it is a merge or does not hold exactly one message.
   */
  lemma ReadingTells(tip: Option<Commit>)
    ensures var reading, chain := Read(tip), ChainOf(tip);
            && (reading == Unreadable(HistoryLimitExceeded) <==> |chain| > MAX_MESSAGES)
            && (reading == Unreadable(DuplicateId) <==>
                  |chain| <= MAX_MESSAGES && exists k | 0 <= k < |chain| :: RepeatsFirst(chain, k))
            && (reading == Unreadable(HistoryInvalid) <==>
                  |chain| <= MAX_MESSAGES && exists k | 0 <= k < |chain| :: StraysFirst(chain, k))
  {
    ReadingReasons(ChainOf(tip), 0);
    FirstFault(ChainOf(tip), 0);
    hide Chain, ReadFrom;
  }

  /** The commits before the k-th are single-parent messages with different IDs. */
  predicate SoundBelow(chain: seq<Commit>, k: nat)
    requires k <= |chain|
  {
    && (forall i | 0 <= i < k :: |chain[i].parents| <= 1 && chain[i].content.MessageOnly?)
    && forall i, j | 0 <= i < j < k :: chain[i].content.message.id != chain[j].content.message.id
  }

  predicate StraysFirst(chain: seq<Commit>, k: nat)
    requires k < |chain|
  {
    SoundBelow(chain, k) && (|chain[k].parents| > 1 || chain[k].content.OtherTree?)
  }

  predicate RepeatsFirst(chain: seq<Commit>, k: nat)
    requires k < |chain|
  {
    && SoundBelow(chain, k) && |chain[k].parents| <= 1 && chain[k].content.MessageOnly?
    && exists i | 0 <= i < k :: chain[i].content.message.id == chain[k].content.message.id
  }

  lemma {:induction false} FirstFault(chain: seq<Commit>, k: nat)
    requires k <= |chain| && SoundBelow(chain, k)
    ensures ReadFrom(chain, k) == Unreadable(DuplicateId) <==> exists n | k <= n < |chain| :: RepeatsFirst(chain, n)
    ensures ReadFrom(chain, k) == Unreadable(HistoryInvalid) <==> exists n | k <= n < |chain| :: StraysFirst(chain, n)
    decreases |chain| - k
  {
    if k < |chain| {
      if WellFormedCommit(chain[k]) && FreshId(chain, k) {
        FirstFault(chain, k + 1);
        assert !RepeatsFirst(chain, k) && !StraysFirst(chain, k);
      } else {
        assert forall n | k < n < |chain| :: !SoundBelow(chain, n);
        assert WellFormedCommit(chain[k]) ==> RepeatsFirst(chain, k);
        assert !WellFormedCommit(chain[k]) ==> StraysFirst(chain, k);
      }
    }
  }

  /** A later look reports what the remote holds then, whoever has published meanwhile. */
  lemma LookReports(w: World, p: Publication, late: Option<Commit>)
    ensures var (now, again) := Reconcile(w, p, late);
            && now.local == w.local && now.pending == w.pending && (now.remote == w.remote || now.remote == late)
            && again.local == p.local && again.expected == p.expected && again.observed == Some(now.remote)
            && (again.disposition.RemoteVerified? <==> now.remote == Some(p.local))
            && (again.disposition.Failed? <==> now.remote == p.expected && now.remote != Some(p.local))
  {
  }
}
