/**
 The order in which one reader meets the messages of its peers: everything addressed to it, sorted by
 creation time and then message ID, with the messages it already handled left out.
 */
module Inbox {
  import opened Common

  datatype Kind = Task | Reply | Stop

  datatype Message = Message(
    id: string, kind: Kind, sender: string, recipient: string, taskId: string, purpose: string, createdAt: int)

  /** The commit that published a message, in the repository of the source it was read from. */
  datatype MessageState = MessageState(repository: string, commit: string)

  /** A message together with the commit that published it. */
  datatype Published = Published(message: Message, state: MessageState)

  /** Order of Python strings: by the first differing character, a proper prefix first. */
  predicate LexLess(a: string, b: string) {
    b != [] && (a == [] || a[0] < b[0] || (a[0] == b[0] && LexLess(a[1..], b[1..])))
  }

  lemma {:induction false} LexTotal(a: string, b: string)
    ensures LexLess(a, b) || LexLess(b, a) || a == b
  {
    if a != [] && b != [] && a[0] == b[0] {
      LexTotal(a[1..], b[1..]);
      assert a == [a[0]] + a[1..] && b == [b[0]] + b[1..];
    }
  }

  lemma {:induction false} LexAsymmetric(a: string, b: string)
    requires LexLess(a, b)
    ensures !LexLess(b, a)
  {
    if a != [] && a[0] == b[0] {
      LexAsymmetric(a[1..], b[1..]);
    }
  }

  lemma {:induction false} LexTransitive(a: string, b: string, c: string)
    requires LexLess(a, b) && LexLess(b, c)
    ensures LexLess(a, c)
  {
    if a != [] && a[0] == b[0] == c[0] {
      LexTransitive(a[1..], b[1..], c[1..]);
    }
  }

  /** Strict order of the sort key (created_at, message_id). */
  predicate Before(a: Published, b: Published) {
    a.message.createdAt < b.message.createdAt
    || (a.message.createdAt == b.message.createdAt && LexLess(a.message.id, b.message.id))
  }

  lemma BeforeTransitive(a: Published, b: Published, c: Published)
    requires !Before(b, a) && !Before(c, b)
    ensures !Before(c, a)
  {
    if Before(c, a) {
      LexTotal(a.message.id, b.message.id);
      LexTotal(b.message.id, c.message.id);
      if LexLess(c.message.id, a.message.id) {
        if LexLess(a.message.id, b.message.id) {
          LexTransitive(c.message.id, a.message.id, b.message.id);
        }
        if LexLess(b.message.id, c.message.id) {
          LexTransitive(b.message.id, c.message.id, a.message.id);
        }
      }
    }
  }

  predicate Sorted(s: seq<Published>) {
    forall i, j | 0 <= i < j < |s| :: !Before(s[j], s[i])
  }

  /** Put `x` in front of everything that does not come strictly before it. */
  function Insert(x: Published, s: seq<Published>): seq<Published> {
    if s != [] && Before(s[0], x) then [s[0]] + Insert(x, s[1..]) else [x] + s
  }

  /** The stable sort of the candidate list by (created_at, message_id). */
  function StableSort(s: seq<Published>): seq<Published> {
    if s == [] then [] else Insert(s[0], StableSort(s[1..]))
  }

  lemma {:induction false} InsertKeeps(x: Published, s: seq<Published>)
    ensures multiset(Insert(x, s)) == multiset(s) + multiset{x}
  {
    if s != [] && Before(s[0], x) {
      InsertKeeps(x, s[1..]);
      assert s == [s[0]] + s[1..];
    }
  }

  lemma {:induction false} InsertSorted(x: Published, s: seq<Published>)
    requires Sorted(s)
    ensures Sorted(Insert(x, s))
  {
    if s != [] && Before(s[0], x) {
      InsertSorted(x, s[1..]);
      InsertKeeps(x, s[1..]);
      var tail := Insert(x, s[1..]);
      forall j | 0 <= j < |tail| ensures !Before(tail[j], s[0]) {
        assert tail[j] in multiset(tail);
        if tail[j] == x {
          if Before(x, s[0]) {
            BeforeAsymmetric(x, s[0]);
          }
        } else {
          assert tail[j] in s[1..];
        }
      }
    } else if s != [] {
      forall j | 0 <= j < |s| ensures !Before(s[j], x) {
        if j > 0 {
          BeforeTransitive(x, s[0], s[j]);
        }
      }
    }
  }

  lemma BeforeAsymmetric(a: Published, b: Published)
    requires Before(a, b)
    ensures !Before(b, a)
  {
    if a.message.createdAt == b.message.createdAt {
      LexAsymmetric(a.message.id, b.message.id);
    }
  }

  lemma {:induction false} SortSorts(s: seq<Published>)
    ensures Sorted(StableSort(s)) && multiset(StableSort(s)) == multiset(s)
  {
    if s != [] {
      SortSorts(s[1..]);
      InsertSorted(s[0], StableSort(s[1..]));
      InsertKeeps(s[0], StableSort(s[1..]));
      assert s == [s[0]] + s[1..];
    }
  }

  /** The messages whose IDs are not in `handled`, in order. */
  function Unhandled(handled: set<string>, s: seq<Published>): (r: seq<Published>)
    ensures |r| <= |s|
  {
    if s == [] then []
    else if s[0].message.id in handled then Unhandled(handled, s[1..])
    else [s[0]] + Unhandled(handled, s[1..])
  }

  lemma {:induction false} UnhandledMembers(handled: set<string>, s: seq<Published>)
    ensures forall p :: p in Unhandled(handled, s) <==> p in s && p.message.id !in handled
  {
    if s != [] {
      UnhandledMembers(handled, s[1..]);
    }
  }

  lemma {:induction false} UnhandledAppend(handled: set<string>, a: seq<Published>, b: seq<Published>)
    ensures Unhandled(handled, a + b) == Unhandled(handled, a) + Unhandled(handled, b)
  {
    if a == [] {
      assert a + b == b;
    } else {
      UnhandledAppend(handled, a[1..], b);
      UnhandledCons(handled, a[0], a[1..]);
      UnhandledCons(handled, a[0], a[1..] + b);
      hide Unhandled;
      Uncons(a, b);
      Regroup(if a[0].message.id in handled then [] else [a[0]], Unhandled(handled, a[1..]), Unhandled(handled, b));
    }
  }

  lemma UnhandledCons(handled: set<string>, x: Published, s: seq<Published>)
    ensures Unhandled(handled, [x] + s) == (if x.message.id in handled then [] else [x]) + Unhandled(handled, s)
  {
    assert ([x] + s)[1..] == s;
  }

  lemma {:induction false} UnhandledTwice(first: set<string>, second: set<string>, s: seq<Published>)
    ensures Unhandled(second, Unhandled(first, s)) == Unhandled(first + second, s)
  {
    if s != [] {
      UnhandledTwice(first, second, s[1..]);
      var rest := Unhandled(first, s[1..]);
      if s[0].message.id !in first {
        assert Unhandled(first, s) == [s[0]] + rest && ([s[0]] + rest)[1..] == rest;
      }
    }
  }

  lemma {:induction false} UnhandledInsert(handled: set<string>, x: Published, s: seq<Published>)
    requires Sorted(s)
    ensures Unhandled(handled, Insert(x, s))
         == if x.message.id in handled then Unhandled(handled, s) else Insert(x, Unhandled(handled, s))
  {
    if s != [] && Before(s[0], x) {
      UnhandledInsert(handled, x, s[1..]);
      var tail := Insert(x, s[1..]);
      assert ([s[0]] + tail)[1..] == tail;
      if s[0].message.id !in handled {
        var kept := Unhandled(handled, s[1..]);
        assert Unhandled(handled, s) == [s[0]] + kept && ([s[0]] + kept)[1..] == kept;
      }
    } else {
      assert ([x] + s)[1..] == s;
      var kept := Unhandled(handled, s);
      if kept != [] && s != [] {
        UnhandledMembers(handled, s);
        assert kept[0] in s;
        var j :| 0 <= j < |s| && s[j] == kept[0];
        if j > 0 {
          BeforeTransitive(x, s[0], s[j]);
        }
        assert !Before(kept[0], x);
      }
    }
  }

  /** Leaving handled messages out before or after sorting gives the same list. */
  lemma {:induction false} SortCommutesWithUnhandled(handled: set<string>, s: seq<Published>)
    ensures StableSort(Unhandled(handled, s)) == Unhandled(handled, StableSort(s))
  {
    if s != [] {
      SortCommutesWithUnhandled(handled, s[1..]);
      SortSorts(s[1..]);
      UnhandledInsert(handled, s[0], StableSort(s[1..]));
      var kept := Unhandled(handled, s[1..]);
      if s[0].message.id !in handled {
        assert ([s[0]] + kept)[1..] == kept;
      }
    }
  }

  /** The first message of every ID, in order. */
  function FirstOfEachId(s: seq<Published>): (r: seq<Published>)
    ensures |r| <= |s|
    decreases |s|
  {
    if s == [] then [] else [s[0]] + FirstOfEachId(Unhandled({s[0].message.id}, s[1..]))
  }

  function MessageIds(s: seq<Published>): set<string> {
    set p | p in s :: p.message.id
  }

  /** Once the first `k` distinct messages are handled, what remains starts with the next one. */
  lemma {:induction false} RemainderAfter(s: seq<Published>, k: nat)
    requires k <= |FirstOfEachId(s)|
    ensures var rest := Unhandled(MessageIds(FirstOfEachId(s)[..k]), s);
            && (k < |FirstOfEachId(s)| ==> rest != [] && rest[0] == FirstOfEachId(s)[k])
            && (k == |FirstOfEachId(s)| ==> rest == [])
    decreases |s|
  {
    var all := FirstOfEachId(s);
    if s == [] {
    } else if k == 0 {
      assert MessageIds(all[..0]) == {};
    } else {
      var id := s[0].message.id;
      var tail := Unhandled({id}, s[1..]);
      var firsts := FirstOfEachId(tail);
      assert all == [s[0]] + firsts;
      RemainderAfter(tail, k - 1);
      var later := MessageIds(firsts[..k - 1]);
      IdsOfMore(s[0], firsts, k);
      UnhandledTwice({id}, later, s[1..]);
      assert Unhandled({id} + later, s) == Unhandled({id} + later, s[1..]);
    }
  }

  lemma IdsOfMore(first: Published, rest: seq<Published>, k: nat)
    requires 0 < k <= |rest| + 1
    ensures MessageIds(([first] + rest)[..k]) == {first.message.id} + MessageIds(rest[..k - 1])
  {
    assert ([first] + rest)[..k] == [first] + rest[..k - 1];
    assert first in [first] + rest[..k - 1];
    var more := [first] + rest[..k - 1];
    assert more[0] == first && more[1..] == rest[..k - 1];
  }

  /** The distinct IDs are distinct, and they are all the IDs. */
  lemma {:induction false} FirstsAreDistinct(s: seq<Published>)
    ensures forall i, j | 0 <= i < j < |FirstOfEachId(s)| ::
              FirstOfEachId(s)[i].message.id != FirstOfEachId(s)[j].message.id
    ensures forall p | p in FirstOfEachId(s) :: p in s
    decreases |s|
  {
    if s != [] {
      var tail := Unhandled({s[0].message.id}, s[1..]);
      FirstsAreDistinct(tail);
      UnhandledMembers({s[0].message.id}, s[1..]);
      var all, firsts := FirstOfEachId(s), FirstOfEachId(tail);
      forall i, j | 0 <= i < j < |all| ensures all[i].message.id != all[j].message.id {
        assert all[j] == firsts[j - 1];
        assert firsts[j - 1] in tail;
        if i > 0 {
          assert all[i] == firsts[i - 1];
        }
      }
    }
  }

  predicate ToReader(environment: string, p: Published) {
    p.message.recipient == environment && p.message.kind != Reply
  }

  /** The task and stop messages addressed to one environment. */
  function Addressed(environment: string, s: seq<Published>): seq<Published> {
    if s == [] then []
    else (if ToReader(environment, s[0]) then [s[0]] else []) + Addressed(environment, s[1..])
  }

  lemma {:induction false} AddressedAppend(environment: string, a: seq<Published>, b: seq<Published>)
    ensures Addressed(environment, a + b) == Addressed(environment, a) + Addressed(environment, b)
  {
    if a == [] {
      assert a + b == b;
    } else {
      AddressedAppend(environment, a[1..], b);
      AddressedCons(environment, a[0], a[1..]);
      AddressedCons(environment, a[0], a[1..] + b);
      hide Addressed;
      Uncons(a, b);
      Regroup(if ToReader(environment, a[0]) then [a[0]] else [], Addressed(environment, a[1..]), Addressed(environment, b));
    }
  }

  lemma AddressedCons(environment: string, x: Published, s: seq<Published>)
    ensures Addressed(environment, [x] + s)
            == (if ToReader(environment, x) then [x] else []) + Addressed(environment, s)
  {
    assert ([x] + s)[1..] == s;
  }
}
