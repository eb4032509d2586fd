/**
 The tree builder: path entries become nested directories, one entry at a time.

 Object IDs identify content, so a tree is its nested contents, and an ID comparison is a comparison of
 values.
 */
module MemoryTree {
  import opened Common

  /** `Special` stands for anything the builder never writes: links, executables, submodules. */
  datatype Node<T> = File(blob: T) | Dir(children: map<string, Node<T>>) | Special(tag: nat)

  type Tree<T> = map<string, Node<T>>

  datatype Entry<T> = Entry(path: seq<string>, blob: T)

  // ---------------------------------------------------------------- path text

  function Parts(path: string): (parts: seq<string>)
    ensures parts != []
  {
    if path == "" then [""]
    else
      var rest := Parts(path[1..]);
      if path[0] == '/' then [""] + rest else [[path[0]] + rest[0]] + rest[1..]
  }

  function Joined(parts: seq<string>): string
    requires parts != []
  {
    if |parts| == 1 then parts[0] else parts[0] + "/" + Joined(parts[1..])
  }

  /** Splitting a path loses nothing, so different paths have different components. */
  lemma {:induction false} JoinedParts(path: string)
    ensures Joined(Parts(path)) == path
  {
    if path != "" {
      var rest := Parts(path[1..]);
      JoinedParts(path[1..]);
      if path[0] == '/' {
        assert ([""] + rest)[1..] == rest;
      } else {
        var parts := Parts(path);
        assert parts[1..] == rest[1..];
      }
    }
  }

  predicate Plain(name: string) {
    forall k | 0 <= k < |name| :: name[k] != '/'
  }

  lemma {:induction false} PartsOfPlain(name: string)
    requires Plain(name)
    ensures Parts(name) == [name]
  {
    if name != "" {
      PartsOfPlain(name[1..]);
      assert [name[0]] + name[1..] == name;
    }
  }

  lemma {:induction false} PartsUnder(directory: string, path: string)
    requires Plain(directory)
    ensures Parts(directory + "/" + path) == [directory] + Parts(path)
  {
    var whole := directory + "/" + path;
    if directory == "" {
      assert whole[1..] == path;
    } else {
      PartsUnder(directory[1..], path);
      assert whole[1..] == directory[1..] + "/" + path;
      assert [directory[0]] + directory[1..] == directory;
    }
  }

  // ---------------------------------------------------------------- building

  /** One entry: walk down, making directories, and refuse to overlap a file. */
  function Insert<T>(tree: Tree<T>, path: seq<string>, blob: T): Option<Tree<T>>
    requires path != []
    decreases |path|
  {
    var name := path[0];
    if |path| == 1 then
      if name in tree then None else Some(tree[name := File(blob)])
    else if name in tree && !tree[name].Dir? then None
    else
      match Insert(if name in tree then tree[name].children else map[], path[1..], blob)
      case None => None
      case Some(below) => Some(tree[name := Dir(below)])
  }

  function Build<T>(tree: Tree<T>, entries: seq<Entry<T>>): Option<Tree<T>>
    requires forall k | 0 <= k < |entries| :: entries[k].path != []
    decreases |entries|
  {
    if entries == [] then Some(tree)
    else
      match Insert(tree, entries[0].path, entries[0].blob)
      case None => None
      case Some(next) => Build(next, entries[1..])
  }

  /** The regular file at a path. */
  function Find<T>(tree: Tree<T>, path: seq<string>): Option<T>
    decreases |path|
  {
    if path == [] || path[0] !in tree then None
    else
      match tree[path[0]]
      case File(blob) => if |path| == 1 then Some(blob) else None
      case Dir(children) => Find(children, path[1..])
      case Special(_) => None
  }

  /** Built nodes: only files, and directories that hold something. */
  ghost predicate CleanNode<T>(n: Node<T>)
    decreases n
  {
    match n
    case File(_) => true
    case Dir(children) => children != map[] && forall name | name in children :: CleanNode(children[name])
    case Special(_) => false
  }

  ghost predicate Clean<T>(tree: Tree<T>) {
    forall name | name in tree :: CleanNode(tree[name])
  }

  predicate Overlap(p: seq<string>, q: seq<string>) {
    p <= q || q <= p
  }

  /** Some file already lies on the way, or below. */
  ghost predicate Blocked<T>(tree: Tree<T>, path: seq<string>) {
    exists p :: Find(tree, p).Some? && Overlap(p, path)
  }

  lemma {:induction false} SomeFile<T>(n: Node<T>) returns (path: seq<string>)
    requires n.Dir? && CleanNode(n)
    ensures path != [] && Find(n.children, path).Some?
    decreases n
  {
    var name :| name in n.children;
    match n.children[name] {
      case File(_) => path := [name];
      case Dir(_) =>
        var below := SomeFile(n.children[name]);
        path := [name] + below;
        assert path[1..] == below;
    }
  }

  lemma {:induction false} InsertFinds<T>(tree: Tree<T>, path: seq<string>, blob: T, p: seq<string>)
    requires path != [] && Insert(tree, path, blob).Some?
    ensures Find(Insert(tree, path, blob).value, p) == if p == path then Some(blob) else Find(tree, p)
    decreases |path|
  {
    var name := path[0];
    if |path| > 1 && p != [] && p[0] == name {
      var below := if name in tree then tree[name].children else map[];
      InsertFinds(below, path[1..], blob, p[1..]);
      assert p == [name] + p[1..] && path == [name] + path[1..];
    }
  }

  lemma {:induction false} InsertClean<T>(tree: Tree<T>, path: seq<string>, blob: T)
    requires path != [] && Clean(tree) && Insert(tree, path, blob).Some?
    ensures Clean(Insert(tree, path, blob).value) && Insert(tree, path, blob).value != map[]
    decreases |path|
  {
    var name := path[0];
    var after := Insert(tree, path, blob).value;
    assert name in after;
    if |path| > 1 {
      InsertClean(if name in tree then tree[name].children else map[], path[1..], blob);
      assert CleanNode(after[name]);
    }
  }

  /** An entry is refused exactly when a file lies on its way or below it. */
  lemma {:induction false} InsertRefused<T>(tree: Tree<T>, path: seq<string>, blob: T)
    requires path != [] && Clean(tree)
    ensures Insert(tree, path, blob).None? <==> Blocked(tree, path)
    decreases |path|
  {
    var name := path[0];
    if name !in tree {
      if |path| > 1 {
        InsertRefused<T>(map[], path[1..], blob);
      }
    } else if tree[name].File? {
      assert Find(tree, [name]).Some? && Overlap([name], path);
    } else {
      assert CleanNode(tree[name]);
      if |path| == 1 {
        var below := SomeFile(tree[name]);
        assert ([name] + below)[1..] == below && Overlap([name] + below, path);
      } else {
        var children := tree[name].children;
        InsertRefused(children, path[1..], blob);
        if Blocked(children, path[1..]) {
          var p :| Find(children, p).Some? && Overlap(p, path[1..]);
          assert ([name] + p)[1..] == p && path == [name] + path[1..] && Overlap([name] + p, path);
        }
        if Blocked(tree, path) {
          var p :| Find(tree, p).Some? && Overlap(p, path);
          assert p == [name] + p[1..] && path == [name] + path[1..];
          assert Overlap(p[1..], path[1..]);
        }
      }
    }
  }

  // ---------------------------------------------------------------- what is built

  predicate Proper<T>(entries: seq<Entry<T>>) {
    forall k | 0 <= k < |entries| :: entries[k].path != []
  }

  /** No path is another path, or leads through one. */
  predicate PrefixFree<T>(entries: seq<Entry<T>>) {
    forall i, j | 0 <= i < j < |entries| :: !Overlap(entries[i].path, entries[j].path)
  }

  lemma {:induction false} BuildClean<T>(tree: Tree<T>, entries: seq<Entry<T>>)
    requires Proper(entries) && Clean(tree) && Build(tree, entries).Some?
    ensures Clean(Build(tree, entries).value)
    decreases |entries|
  {
    if entries != [] {
      InsertClean(tree, entries[0].path, entries[0].blob);
      BuildClean(Insert(tree, entries[0].path, entries[0].blob).value, entries[1..]);
    }
  }

  lemma {:induction false} BuildFinds<T>(tree: Tree<T>, entries: seq<Entry<T>>, p: seq<string>, blob: T)
    requires Proper(entries) && Clean(tree) && Build(tree, entries).Some?
    ensures Find(Build(tree, entries).value, p) == Some(blob)
            <==> Find(tree, p) == Some(blob) || Entry(p, blob) in entries
    decreases |entries|
  {
    if entries != [] {
      var e := entries[0];
      var next := Insert(tree, e.path, e.blob).value;
      InsertClean(tree, e.path, e.blob);
      InsertFinds(tree, e.path, e.blob, p);
      BuildFinds(next, entries[1..], p, blob);
      InsertRefused(tree, e.path, e.blob);
      if p == e.path {
        assert Overlap(p, e.path);
        assert Find(tree, p).None?;
      }
      assert entries == [e] + entries[1..];
    }
  }

  lemma {:induction false} BuildSucceeds<T>(tree: Tree<T>, entries: seq<Entry<T>>)
    requires Proper(entries) && Clean(tree)
    ensures Build(tree, entries).Some? <==>
              PrefixFree(entries) && forall k | 0 <= k < |entries| :: !Blocked(tree, entries[k].path)
    decreases |entries|
  {
    if entries != [] {
      var e, rest := entries[0], entries[1..];
      InsertRefused(tree, e.path, e.blob);
      if !Blocked(tree, e.path) {
        var next := Insert(tree, e.path, e.blob).value;
        InsertClean(tree, e.path, e.blob);
        BuildSucceeds(next, rest);
        forall k | 0 <= k < |rest|
          ensures Blocked(next, rest[k].path) <==> Blocked(tree, rest[k].path) || Overlap(e.path, rest[k].path)
        {
          BlockedAfter(tree, e, rest[k].path);
        }
        assert PrefixFree(entries) <==>
            PrefixFree(rest) && forall k | 0 <= k < |rest| :: !Overlap(e.path, rest[k].path) by {
          PrefixFreeSplit(entries);
        }
        assert forall k | 0 < k < |entries| :: entries[k] == rest[k - 1];
      }
    }
  }

  lemma PrefixFreeSplit<T>(entries: seq<Entry<T>>)
    requires entries != []
    ensures PrefixFree(entries) <==>
              PrefixFree(entries[1..]) && forall k | 0 <= k < |entries[1..]| :: !Overlap(entries[0].path, entries[1..][k].path)
  {
    var rest := entries[1..];
    assert forall k | 0 < k < |entries| :: entries[k] == rest[k - 1];
    if PrefixFree(entries) {
      forall i, j | 0 <= i < j < |rest| ensures !Overlap(rest[i].path, rest[j].path) {
        assert rest[i] == entries[i + 1] && rest[j] == entries[j + 1];
      }
    }
  }

  lemma BlockedAfter<T>(tree: Tree<T>, e: Entry<T>, path: seq<string>)
    requires e.path != [] && Insert(tree, e.path, e.blob).Some?
    ensures Blocked(Insert(tree, e.path, e.blob).value, path) <==> Blocked(tree, path) || Overlap(e.path, path)
  {
    var next := Insert(tree, e.path, e.blob).value;
    InsertFinds(tree, e.path, e.blob, e.path);
    if Blocked(tree, path) {
      var p :| Find(tree, p).Some? && Overlap(p, path);
      InsertFinds(tree, e.path, e.blob, p);
      assert Find(next, p).Some?;
    }
    if Blocked(next, path) {
      var p :| Find(next, p).Some? && Overlap(p, path);
      InsertFinds(tree, e.path, e.blob, p);
    }
  }

  /** The builder succeeds exactly when no path equals or leads through another. */
  lemma BuilderIsExact<T>(entries: seq<Entry<T>>)
    requires Proper(entries)
    ensures Build<T>(map[], entries).Some? <==> PrefixFree(entries)
  {
    BuildSucceeds<T>(map[], entries);
  }

  /** Reading a built tree back gives exactly the entries it was built from. */
  lemma FlattenedIsEntries<T>(entries: seq<Entry<T>>, path: seq<string>, blob: T)
    requires Proper(entries) && Build<T>(map[], entries).Some?
    ensures Find(Build<T>(map[], entries).value, path) == Some(blob) <==> Entry(path, blob) in entries
  {
    BuildFinds(map[], entries, path, blob);
  }

  ghost predicate SameFiles<T(!new)>(a: Tree<T>, b: Tree<T>) {
    forall p :: Find(a, p) == Find(b, p)
  }

  lemma {:induction false} Determined<T(!new)>(a: Node<T>, b: Node<T>)
    requires a.Dir? && b.Dir? && Clean(a.children) && Clean(b.children) && SameFiles(a.children, b.children)
    ensures a == b
    decreases a
  {
    forall name | name in a.children ensures name in b.children && a.children[name] == b.children[name] {
      SameChild(a, b, name);
    }
    forall name | name in b.children ensures name in a.children {
      NamedIn(b, a, name);
    }
    assert a.children.Keys == b.children.Keys;
  }

  lemma FindName<T>(tree: Tree<T>, name: string)
    ensures Find(tree, [name]) == if name in tree && tree[name].File? then Some(tree[name].blob) else None
  {
    assert [name][1..] == [];
  }

  lemma NamedIn<T(!new)>(a: Node<T>, b: Node<T>, name: string)
    requires a.Dir? && b.Dir? && Clean(a.children) && name in a.children && SameFiles(a.children, b.children)
    ensures name in b.children
    ensures a.children[name].File? ==> b.children[name] == a.children[name]
    ensures a.children[name].Dir? ==> b.children[name].Dir?
  {
    assert CleanNode(a.children[name]);
    if a.children[name].File? {
      FindName(a.children, name);
      FindName(b.children, name);
      assert Find(a.children, [name]) == Find(b.children, [name]);
    } else {
      var below := SomeFile(a.children[name]);
      var path := [name] + below;
      assert path[1..] == below && Find(a.children, path) == Find(b.children, path);
    }
  }

  lemma SameChild<T(!new)>(a: Node<T>, b: Node<T>, name: string)
    requires a.Dir? && b.Dir? && Clean(a.children) && Clean(b.children) && SameFiles(a.children, b.children)
    requires name in a.children
    ensures name in b.children && a.children[name] == b.children[name]
    decreases a, 0
  {
    NamedIn(a, b, name);
    assert CleanNode(a.children[name]) && CleanNode(b.children[name]);
    if a.children[name].Dir? {
      forall p ensures Find(a.children[name].children, p) == Find(b.children[name].children, p) {
        assert ([name] + p)[1..] == p;
        assert Find(a.children, [name] + p) == Find(b.children, [name] + p);
      }
      Determined(a.children[name], b.children[name]);
    }
  }

  /** The order in which the same entries are inserted does not matter. */
  lemma BuildIgnoresOrder<T(!new)>(a: seq<Entry<T>>, b: seq<Entry<T>>)
    requires Proper(a) && Proper(b) && PrefixFree(a) && PrefixFree(b)
    requires forall e :: e in a <==> e in b
    ensures Build<T>(map[], a) == Build<T>(map[], b)
  {
    BuilderIsExact(a);
    BuilderIsExact(b);
    var left, right := Build<T>(map[], a).value, Build<T>(map[], b).value;
    forall p ensures Find(left, p) == Find(right, p) {
      if Find(left, p).Some? {
        FlattenedIsEntries(a, p, Find(left, p).value);
        FlattenedIsEntries(b, p, Find(left, p).value);
      }
      if Find(right, p).Some? {
        FlattenedIsEntries(a, p, Find(right, p).value);
        FlattenedIsEntries(b, p, Find(right, p).value);
      }
    }
    BuildClean(map[], a);
    BuildClean(map[], b);
    Determined(Dir(left), Dir(right));
  }

  /** The first half of `_write_tree`: insert the entries one after the other. */
  method BuildTree<T>(entries: seq<Entry<T>>) returns (tree: Option<Tree<T>>)
    requires Proper(entries)
    ensures tree == Build<T>(map[], entries)
    ensures tree.Some? <==> PrefixFree(entries)
  {
    BuilderIsExact(entries);
    var root: Tree<T> := map[];
    for k := 0 to |entries|
      invariant Build(root, entries[k..]) == Build<T>(map[], entries)
    {
      assert entries[k..][0] == entries[k] && entries[k..][1..] == entries[k + 1..];
      var next := Insert(root, entries[k].path, entries[k].blob);
      if next.None? {
        return None;
      }
      root := next.value;
    }
    tree := Some(root);
  }
}
