/**
 Two record parsers that guard writes: which paths a worktree changed, and which branches are checked out.
 */
module GitRecords {
  import opened Common
  import opened Framing

  // ---------------------------------------------------------------- changed paths

  /** `path.replace("\\", "/")`. */
  function Slashed(path: string): (s: string)
    ensures |s| == |path| && forall k | 0 <= k < |path| :: s[k] == if path[k] == '\\' then '/' else path[k]
  {
    seq(|path|, k requires 0 <= k < |path| => if path[k] == '\\' then '/' else path[k])
  }

  predicate RenameCode(c: char) {
    c == 'R' || c == 'C'
  }

  /** The paths named from the index-th field on; a rename or copy in the first column takes a second field. */
  function ChangedFrom(fields: seq<string>, index: nat): Option<set<string>>
    decreases |fields| - index
  {
    if index >= |fields| || fields[index] == "" then Some({})
    else if |fields[index]| < 4 then None
    else if RenameCode(fields[index][0]) then
      if index + 1 >= |fields| || fields[index + 1] == "" then None
      else With({Slashed(fields[index + 1]), Slashed(fields[index][3..])}, ChangedFrom(fields, index + 2))
    else With({Slashed(fields[index][3..])}, ChangedFrom(fields, index + 1))
  }

  function With(paths: set<string>, rest: Option<set<string>>): Option<set<string>> {
    if rest.None? then None else Some(paths + rest.value)
  }

  /** `_changed_paths`, on the output of `git status --porcelain=v1 -z`. */
  method ChangedPaths(content: string) returns (paths: Option<set<string>>)
    ensures paths == ChangedFrom(Split(content, NUL, 0), 0)
  {
    var fields := Split(content, NUL, 0);
    var found: set<string> := {};
    var index: nat := 0;
    ghost var whole := ChangedFrom(fields, 0);
    assert whole.Some? ==> {} + whole.value == whole.value;
    while index < |fields| && fields[index] != ""
      invariant whole == With(found, ChangedFrom(fields, index))
      decreases |fields| - index
    {
      if |fields[index]| < 4 {
        return None;
      }
      var path := Slashed(fields[index][3..]);
      if RenameCode(fields[index][0]) {
        if index + 1 >= |fields| || fields[index + 1] == "" {
          return None;
        }
        WithMore(found, {Slashed(fields[index + 1]), path}, ChangedFrom(fields, index + 2));
        found := found + {Slashed(fields[index + 1]), path};
        index := index + 2;
      } else {
        WithMore(found, {path}, ChangedFrom(fields, index + 1));
        found := found + {path};
        index := index + 1;
      }
    }
    assert found + {} == found;
    paths := Some(found);
  }

  lemma WithMore(a: set<string>, b: set<string>, rest: Option<set<string>>)
    ensures With(a, With(b, rest)) == With(a + b, rest)
  {
    if rest.Some? {
      assert a + (b + rest.value) == (a + b) + rest.value;
    }
  }

  /** One status record: two status columns, the path, and the original path of a rename or copy. */
  datatype Change = Change(x: char, y: char, path: string, original: Option<string>)

  predicate PlainField(s: string) {
    s != "" && Without(s, NUL)
  }

  predicate ValidChange(c: Change) {
    && c.x != NUL && c.y != NUL && PlainField(c.path)
    && (c.original.Some? <==> RenameCode(c.x) || RenameCode(c.y)) && (c.original.Some? ==> PlainField(c.original.value))
  }

  function FieldsOf(c: Change): seq<string> {
    [[c.x, c.y, ' '] + c.path] + if c.original.Some? then [c.original.value] else []
  }

  function StatusFields(changes: seq<Change>, k: nat): seq<string>
    requires k <= |changes|
    decreases |changes| - k
  {
    if k == |changes| then [""] else FieldsOf(changes[k]) + StatusFields(changes, k + 1)
  }

  /** Every field is followed by NUL. */
  function PrintStatus(changes: seq<Change>): string {
    StatusNotEmpty(changes, 0);
    Joined(StatusFields(changes, 0), NUL, 0)
  }

  lemma StatusNotEmpty(changes: seq<Change>, k: nat)
    requires k <= |changes|
    ensures StatusFields(changes, k) != []
  {
  }

  function PathsOf(c: Change): set<string> {
    {Slashed(c.path)} + if c.original.Some? then {Slashed(c.original.value)} else {}
  }

  function AllPaths(changes: seq<Change>, k: nat): set<string>
    requires k <= |changes|
    decreases |changes| - k
  {
    if k == |changes| then {} else PathsOf(changes[k]) + AllPaths(changes, k + 1)
  }

  /** Renames and copies show in the index column. */
  predicate IndexRenamesOnly(changes: seq<Change>) {
    forall k | 0 <= k < |changes| :: RenameCode(changes[k].y) ==> RenameCode(changes[k].x)
  }

  lemma {:induction false} PlainStatus(changes: seq<Change>, k: nat)
    requires (forall c | c in changes :: ValidChange(c)) && k <= |changes|
    ensures forall n | 0 <= n < |StatusFields(changes, k)| :: Without(StatusFields(changes, k)[n], NUL)
    decreases |changes| - k
  {
    if k < |changes| {
      PlainStatus(changes, k + 1);
      assert ValidChange(changes[k]);
      var first := FieldsOf(changes[k]);
      assert forall n | 0 <= n < |first| :: Without(first[n], NUL);
    }
  }

  /** Reading on in a longer list of fields. */
  lemma {:induction false} ChangedShift(prefix: seq<string>, rest: seq<string>, index: nat)
    ensures ChangedFrom(prefix + rest, |prefix| + index) == ChangedFrom(rest, index)
    decreases |rest| - index
  {
    var all := prefix + rest;
    if index < |rest| {
      assert all[|prefix| + index] == rest[index];
      if rest[index] != "" && |rest[index]| >= 4 {
        if RenameCode(rest[index][0]) {
          assert index + 1 < |rest| ==> all[|prefix| + index + 1] == rest[index + 1];
          ChangedShift(prefix, rest, index + 2);
        } else {
          ChangedShift(prefix, rest, index + 1);
        }
      }
    }
  }

  lemma {:induction false} StatusReads(changes: seq<Change>, k: nat)
    requires (forall c | c in changes :: ValidChange(c)) && IndexRenamesOnly(changes) && k <= |changes|
    ensures ChangedFrom(StatusFields(changes, k), 0) == Some(AllPaths(changes, k))
    decreases |changes| - k
  {
    if k < |changes| {
      var c := changes[k];
      assert ValidChange(c);
      var first, rest := FieldsOf(c), StatusFields(changes, k + 1);
      StatusReads(changes, k + 1);
      ChangedShift(first, rest, 0);
      var fields := first + rest;
      assert fields[0] == first[0] && fields[0][3..] == c.path && fields[0][0] == c.x && |fields[0]| >= 4;
      if c.original.Some? {
        assert RenameCode(c.x) && fields[1] == c.original.value;
        assert {Slashed(fields[1]), Slashed(fields[0][3..])} == PathsOf(c);
      } else {
        assert {Slashed(fields[0][3..])} == PathsOf(c);
      }
    }
  }

  /** Status output with renames in the index column only gives back exactly the old and new paths. */
  lemma StatusRoundTrip(changes: seq<Change>)
    requires (forall c | c in changes :: ValidChange(c)) && IndexRenamesOnly(changes)
    ensures ChangedFrom(Split(PrintStatus(changes), NUL, 0), 0) == Some(AllPaths(changes, 0))
  {
    StatusNotEmpty(changes, 0);
    PlainStatus(changes, 0);
    SplitAll(StatusFields(changes, 0), NUL);
    StatusReads(changes, 0);
  }

  /** What the parser makes of a record whose original path it takes for the next record. */
  function Misread(c: Change): Option<set<string>>
    requires c.original.Some?
  {
    var original := c.original.value;
    if |original| < 4 || RenameCode(original[0]) then None
    else Some({Slashed(c.path), Slashed(original[3..])})
  }

  /** Every single record, read: rightly if the index column shows the rename, else misread or refused. */
  lemma RecordReads(c: Change)
    requires ValidChange(c)
    ensures ChangedFrom(Split(PrintStatus([c]), NUL, 0), 0)
            == if RenameCode(c.y) && !RenameCode(c.x) then Misread(c) else Some(PathsOf(c))
  {
    if RenameCode(c.y) && !RenameCode(c.x) {
      WorktreeColumn(c);
    } else {
      StatusRoundTrip([c]);
      assert AllPaths([c], 1) == {} && PathsOf(c) + {} == PathsOf(c);
    }
  }

  lemma WorktreeColumn(c: Change)
    requires ValidChange(c) && RenameCode(c.y) && !RenameCode(c.x)
    ensures ChangedFrom(Split(PrintStatus([c]), NUL, 0), 0) == Misread(c)
  {
    var original := c.original.value;
    var fields := [[c.x, c.y, ' '] + c.path, original, ""];
    assert StatusFields([c], 1) == [""];
    assert StatusFields([c], 0) == fields;
    assert fields[0][3..] == c.path;
    PlainStatus([c], 0);
    SplitAll(fields, NUL);
    assert ChangedFrom(fields, 3) == Some({}) && ChangedFrom(fields, 2) == Some({});
    assert {Slashed(original)} + {} == {Slashed(original)};
    assert fields[0][0] == c.x && |fields[0]| >= 4;
    if |original| >= 4 && !RenameCode(original[0]) {
      assert fields[1] == original && ChangedFrom(fields, 1) == With({Slashed(original[3..])}, Some({}));
      assert {Slashed(original[3..])} + {} == {Slashed(original[3..])};
      assert {Slashed(c.path)} + {Slashed(original[3..])} == {Slashed(c.path), Slashed(original[3..])};
    }
  }

  /** A longer path is never the path cut by three characters. */
  lemma CutDiffers(path: string, original: string)
    requires |original| >= 4
    ensures {Slashed(path), Slashed(original[3..])} != {Slashed(path), Slashed(original)}
  {
    assert |Slashed(original[3..])| == |original| - 3;
    var read, named := {Slashed(path), Slashed(original[3..])}, {Slashed(path), Slashed(original)};
    if Slashed(path) == Slashed(original) {
      assert Slashed(original[3..]) in read && Slashed(original[3..]) !in named;
    } else {
      assert Slashed(original) in named && Slashed(original) !in read;
    }
  }

  /** The exact condition: a record gives back its paths unless a rename or copy shows in the worktree column only. */
  lemma RecordRoundTripIff(c: Change)
    requires ValidChange(c)
    ensures ChangedFrom(Split(PrintStatus([c]), NUL, 0), 0) == Some(PathsOf(c))
            <==> (RenameCode(c.y) ==> RenameCode(c.x))
  {
    RecordReads(c);
    if RenameCode(c.y) && !RenameCode(c.x) && |c.original.value| >= 4 {
      CutDiffers(c.path, c.original.value);
      assert PathsOf(c) == {Slashed(c.path), Slashed(c.original.value)};
    }
  }

  /** A rename that shows only in the worktree column has its original path read as a record of its own. */
  lemma WorktreeRenameMisread(path: string, original: string)
    requires PlainField(path) && PlainField(original)
    ensures var c := Change(' ', 'R', path, Some(original));
            && ValidChange(c)
            && ChangedFrom(Split(PrintStatus([c]), NUL, 0), 0)
               == if |original| < 4 || RenameCode(original[0]) then None
                  else Some({Slashed(path), Slashed(original[3..])})
  {
    RecordReads(Change(' ', 'R', path, Some(original)));
  }

  // ---------------------------------------------------------------- checked-out branches

  predicate Disposition(field: string) {
    field == "bare" || field == "detached" || "branch " <= field
  }

  /** The fields from the k-th on that say what HEAD is. */
  function Dispositions(fields: seq<string>, k: nat): seq<string>
    decreases |fields| - k
  {
    if k >= |fields| then []
    else if Disposition(fields[k]) then [fields[k]] + Dispositions(fields, k + 1)
    else Dispositions(fields, k + 1)
  }

  predicate BranchName(name: string) {
    "refs/heads/" <= name && Without(name, '\n') && Without(name, '\r')
  }

  datatype Head = NoBranch | OnBranch(name: string) | BadRecord

  /** What one record says. */
  function HeadOf(fields: seq<string>): Head {
    if fields == [] || !("worktree " <= fields[0]) || fields[0] == "worktree " then BadRecord
    else
      var d := Dispositions(fields, 1);
      if |d| != 1 then BadRecord
      else if !("branch " <= d[0]) then NoBranch
      else if BranchName(d[0][7..]) then OnBranch(d[0][7..])
      else BadRecord
  }

  /** The branches of the records from the k-th on; a repeated branch makes the listing ambiguous. */
  function Branches(records: seq<seq<string>>, k: nat, seen: set<string>): Option<set<string>>
    requires k <= |records|
    decreases |records| - k
  {
    if k == |records| then Some(seen)
    else
      match HeadOf(records[k])
      case BadRecord => None
      case NoBranch => Branches(records, k + 1, seen)
      case OnBranch(name) => if name in seen then None else Branches(records, k + 1, seen + {name})
  }

  predicate PairAt(s: string, n: nat) {
    n + 1 < |s| && s[n] == NUL && s[n + 1] == NUL
  }

  /** The first double NUL from `i` on, or the end. */
  function NextPair(s: string, i: nat): (n: nat)
    requires i <= |s|
    ensures i <= n <= |s| && (n < |s| ==> PairAt(s, n)) && forall k | i <= k < n :: !PairAt(s, k)
    decreases |s| - i
  {
    if i == |s| || PairAt(s, i) then i else NextPair(s, i + 1)
  }

  /** `s[i:].split(b"\0\0")`. */
  function SplitPairs(s: string, i: nat): seq<string>
    requires i <= |s|
    decreases |s| - i
  {
    var n := NextPair(s, i);
    if n == |s| then [s[i..]] else [s[i..n]] + SplitPairs(s, n + 2)
  }

  function AllFields(records: seq<string>): (fields: seq<seq<string>>)
    ensures |fields| == |records| && forall k | 0 <= k < |records| :: fields[k] == Split(records[k], NUL, 0)
  {
    seq(|records|, k requires 0 <= k < |records| => Split(records[k], NUL, 0))
  }

  function BranchesIn(output: string): Option<set<string>> {
    if |output| < 2 || !PairAt(output, |output| - 2) then None
    else Branches(AllFields(SplitPairs(output[..|output| - 2], 0)), 0, {})
  }

  /** `_checked_out_branches`. */
  method CheckedOutBranches(output: string) returns (branches: Option<set<string>>)
    ensures branches == BranchesIn(output)
  {
    if |output| < 2 || !PairAt(output, |output| - 2) {
      return None;
    }
    var texts := SplitPairs(output[..|output| - 2], 0);
    var seen: set<string> := {};
    for k := 0 to |texts|
      invariant BranchesIn(output) == Branches(AllFields(texts), k, seen)
    {
      match HeadOf(Split(texts[k], NUL, 0)) {
        case BadRecord => return None;
        case NoBranch =>
        case OnBranch(name) =>
          if name in seen {
            return None;
          }
          seen := seen + {name};
      }
    }
    branches := Some(seen);
  }

  /** One worktree as Git lists it: other lines before and after the one about HEAD. */
  datatype Worktree = Worktree(path: string, before: seq<string>, branch: Option<string>, bare: bool, after: seq<string>)

  predicate ValidWorktree(w: Worktree) {
    && w.path != "" && (w.branch.Some? ==> BranchName(w.branch.value))
    && (forall f | f in w.before :: !Disposition(f)) && (forall f | f in w.after :: !Disposition(f))
    && forall k | 0 <= k < |WorktreeFields(w)| :: PlainField(WorktreeFields(w)[k])
  }

  function HeadField(w: Worktree): string {
    if w.branch.Some? then "branch " + w.branch.value else if w.bare then "bare" else "detached"
  }

  function WorktreeFields(w: Worktree): seq<string> {
    ["worktree " + w.path] + w.before + [HeadField(w)] + w.after
  }

  lemma {:induction false} NoDispositions(fields: seq<string>, k: nat)
    requires forall i | k <= i < |fields| :: !Disposition(fields[i])
    ensures Dispositions(fields, k) == []
    decreases |fields| - k
  {
    if k < |fields| {
      NoDispositions(fields, k + 1);
    }
  }

  lemma {:induction false} OneDisposition(fields: seq<string>, k: nat, n: nat)
    requires k <= n < |fields| && Disposition(fields[n])
    requires forall i | k <= i < |fields| && i != n :: !Disposition(fields[i])
    ensures Dispositions(fields, k) == [fields[n]]
    decreases n - k
  {
    if k < n {
      OneDisposition(fields, k + 1, n);
    } else {
      NoDispositions(fields, n + 1);
    }
  }

  lemma WorktreeReads(w: Worktree)
    requires ValidWorktree(w)
    ensures HeadOf(WorktreeFields(w)) == if w.branch.Some? then OnBranch(w.branch.value) else NoBranch
  {
    var fields, n := WorktreeFields(w), 1 + |w.before|;
    assert fields[0] == "worktree " + w.path && fields[n] == HeadField(w);
    forall i | 1 <= i < |fields| && i != n ensures !Disposition(fields[i]) {
      if i < n {
        assert fields[i] == w.before[i - 1];
      } else {
        assert fields[i] == w.after[i - n - 1];
      }
    }
    OneDisposition(fields, 1, n);
    if w.branch.Some? {
      assert HeadField(w)[7..] == w.branch.value;
    } else {
      assert HeadField(w)[0] != "branch "[0] || HeadField(w)[1] != "branch "[1];
    }
  }

  function Listing(ws: seq<Worktree>): (records: seq<seq<string>>)
    ensures |records| == |ws| && forall k | 0 <= k < |ws| :: records[k] == WorktreeFields(ws[k])
  {
    seq(|ws|, k requires 0 <= k < |ws| => WorktreeFields(ws[k]))
  }

  predicate DistinctBranches(ws: seq<Worktree>) {
    forall i, j | 0 <= i < j < |ws| && ws[i].branch.Some? && ws[j].branch.Some? :: ws[i].branch != ws[j].branch
  }

  function BranchesTo(ws: seq<Worktree>, k: nat): set<string>
    requires k <= |ws|
  {
    set i | 0 <= i < k && ws[i].branch.Some? :: ws[i].branch.value
  }

  lemma {:induction false} ListingReads(ws: seq<Worktree>, k: nat)
    requires (forall i | 0 <= i < |ws| :: ValidWorktree(ws[i])) && k <= |ws|
    requires forall i, j | 0 <= i < j < k && ws[i].branch.Some? && ws[j].branch.Some? :: ws[i].branch != ws[j].branch
    ensures Branches(Listing(ws), k, BranchesTo(ws, k))
            == if DistinctBranches(ws) then Some(BranchesTo(ws, |ws|)) else None
    decreases |ws| - k
  {
    if k < |ws| {
      WorktreeReads(ws[k]);
      if ws[k].branch.Some? {
        var name := ws[k].branch.value;
        if name !in BranchesTo(ws, k) {
          assert BranchesTo(ws, k + 1) == BranchesTo(ws, k) + {name};
          ListingReads(ws, k + 1);
        } else {
          var i :| 0 <= i < k && ws[i].branch.Some? && ws[i].branch.value == name;
          assert !DistinctBranches(ws);
        }
      } else {
        assert BranchesTo(ws, k + 1) == BranchesTo(ws, k);
        ListingReads(ws, k + 1);
      }
    }
  }

  // ---------------------------------------------------------------- cutting the listing into records

  /** A record's text: no two NULs next to each other, none at its end. */
  predicate NoPair(t: string) {
    t != "" && Last(t) != NUL && forall k | 0 <= k < |t| :: !PairAt(t, k)
  }

  lemma {:induction false} JoinNoPair(fields: seq<string>, k: nat)
    requires k < |fields| && forall n | 0 <= n < |fields| :: PlainField(fields[n])
    ensures NoPair(Joined(fields, NUL, k)) && Joined(fields, NUL, k)[0] != NUL
    decreases |fields| - k
  {
    if k < |fields| - 1 {
      JoinNoPair(fields, k + 1);
      var rest := Joined(fields, NUL, k + 1);
      var t := fields[k] + [NUL] + rest;
      forall n | 0 <= n < |t| ensures !PairAt(t, n) {
        if n > |fields[k]| {
          assert t[n] == rest[n - |fields[k]| - 1];
          assert !PairAt(rest, n - |fields[k]| - 1);
        }
      }
    }
  }

  /** The records from the k-th on, with a double NUL between them. */
  function Paired(records: seq<string>, k: nat): string
    requires k < |records|
    decreases |records| - k
  {
    if k == |records| - 1 then records[k] else records[k] + [NUL, NUL] + Paired(records, k + 1)
  }

  predicate PairedAt(s: string, i: nat, records: seq<string>, k: nat)
    requires k < |records|
    decreases |records| - k
  {
    && HasAt(s, i, records[k])
    && var n := i + |records[k]|;
       if k == |records| - 1 then n == |s| else PairAt(s, n) && PairedAt(s, n + 2, records, k + 1)
  }

  lemma {:induction false} PairedStands(prefix: string, records: seq<string>, k: nat, s: string)
    requires k < |records| && s == prefix + Paired(records, k)
    ensures PairedAt(s, |prefix|, records, k)
    decreases |records| - k
  {
    if k < |records| - 1 {
      var longer := prefix + records[k] + [NUL, NUL];
      assert s == longer + Paired(records, k + 1);
      PairedStands(longer, records, k + 1, s);
    }
  }

  lemma RecordEnds(s: string, i: nat, t: string)
    requires HasAt(s, i, t) && NoPair(t) && (i + |t| == |s| || PairAt(s, i + |t|))
    ensures NextPair(s, i) == i + |t|
  {
    forall k | i <= k < i + |t| ensures !PairAt(s, k) {
      assert !PairAt(t, k - i);
      assert s[k] == s[i + (k - i)] == t[k - i];
      if k + 1 < i + |t| {
        assert s[k + 1] == s[i + (k + 1 - i)] == t[k + 1 - i];
      }
    }
  }

  lemma {:induction false} SplitPaired(s: string, i: nat, records: seq<string>, k: nat, whole: seq<string>)
    requires k < |records| && i <= |s| && PairedAt(s, i, records, k) && whole == SplitPairs(s, i)
    requires forall n | 0 <= n < |records| :: NoPair(records[n])
    ensures whole == records[k..]
    decreases |records| - k
  {
    var n := i + |records[k]|;
    RecordEnds(s, i, records[k]);
    SliceAt(s, i, records[k]);
    if k == |records| - 1 {
      assert records[k..] == [records[k]];
      assert s[i..] == s[i..n];
    } else {
      SplitPaired(s, n + 2, records, k + 1, SplitPairs(s, n + 2));
      assert records[k..] == [records[k]] + records[k + 1..];
    }
  }

  function Texts(ws: seq<Worktree>): (texts: seq<string>)
    ensures |texts| == |ws| && forall k | 0 <= k < |ws| :: texts[k] == Joined(WorktreeFields(ws[k]), NUL, 0)
  {
    seq(|ws|, k requires 0 <= k < |ws| => Joined(WorktreeFields(ws[k]), NUL, 0))
  }

  /** `git worktree list --porcelain -z`; there is always the main worktree. */
  function PrintWorktrees(ws: seq<Worktree>): string
    requires ws != []
  {
    Paired(Texts(ws), 0) + [NUL, NUL]
  }

  /**
   A printed listing gives exactly the set of checked-out branches, and is refused exactly if a branch
   occurs twice.
   */
  lemma WorktreeRoundTrip(ws: seq<Worktree>)
    requires ws != [] && forall i | 0 <= i < |ws| :: ValidWorktree(ws[i])
    ensures BranchesIn(PrintWorktrees(ws)) == if DistinctBranches(ws) then Some(BranchesTo(ws, |ws|)) else None
  {
    var s, output := Paired(Texts(ws), 0), PrintWorktrees(ws);
    CutListing(ws);
    forall k | 0 <= k < |ws| ensures Split(Texts(ws)[k], NUL, 0) == WorktreeFields(ws[k]) {
      RecordText(ws[k]);
    }
    assert AllFields(Texts(ws)) == Listing(ws);
    assert output[..|output| - 2] == s && PairAt(output, |output| - 2);
    assert BranchesTo(ws, 0) == {};
    ListingReads(ws, 0);
  }

  lemma RecordText(w: Worktree)
    requires ValidWorktree(w)
    ensures var t := Joined(WorktreeFields(w), NUL, 0); NoPair(t) && Split(t, NUL, 0) == WorktreeFields(w)
  {
    JoinNoPair(WorktreeFields(w), 0);
    SplitAll(WorktreeFields(w), NUL);
  }

  lemma CutListing(ws: seq<Worktree>)
    requires ws != [] && forall i | 0 <= i < |ws| :: ValidWorktree(ws[i])
    ensures SplitPairs(Paired(Texts(ws), 0), 0) == Texts(ws)
  {
    var texts, s := Texts(ws), Paired(Texts(ws), 0);
    forall k | 0 <= k < |ws| ensures NoPair(texts[k]) {
      RecordText(ws[k]);
    }
    assert s == "" + s;
    PairedStands("", texts, 0, s);
    SplitPaired(s, 0, texts, 0, SplitPairs(s, 0));
    assert texts[0..] == texts;
  }
}
