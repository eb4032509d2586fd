/**
 What a valid checkpoint contains, and when the validator accepts what the writer wrote.
 */
module MemoryAgreement {
  import opened Common
  import opened Inbox
  import opened MemoryTree
  import opened Memory

  // ---------------------------------------------------------------- exact contents

  lemma GitPathParts(path: string)
    ensures Parts(GitPath(path)) == [CONTENT_DIRECTORY] + Parts(path)
    ensures METADATA_PATH != CONTENT_DIRECTORY
  {
    PartsUnder(CONTENT_DIRECTORY, path);
    assert |METADATA_PATH| != |CONTENT_DIRECTORY|;
  }

  ghost predicate DeclaredAt(codec: Codec, m: Metadata, path: seq<string>, blob: Object) {
    || (path == [METADATA_PATH] && blob == Text(codec.encode(m)))
    || exists k | 0 <= k < |m.items| :: path == [CONTENT_DIRECTORY] + Parts(m.items[k].path) && blob == m.items[k].blob
  }

  lemma EntryMeaning(codec: Codec, m: Metadata, path: seq<string>, blob: Object)
    requires forall k | 0 <= k < |m.items| :: DeclaredOk(m.items[k])
    ensures Entry(path, blob) in AllEntries(codec, m, m.items) <==> DeclaredAt(codec, m, path, blob)
  {
    var entries := AllEntries(codec, m, m.items);
    GitPathParts("");
    assert Last(entries) == Entry([METADATA_PATH], Text(codec.encode(m)));
    forall k | 0 <= k < |m.items|
      ensures entries[k] == Entry([CONTENT_DIRECTORY] + Parts(m.items[k].path), m.items[k].blob)
    {
      assert DeclaredOk(m.items[k]);
      GitPathParts(m.items[k].path);
    }
    if Entry(path, blob) in entries {
      var k :| 0 <= k < |entries| && entries[k] == Entry(path, blob);
    }
    if DeclaredAt(codec, m, path, blob) && !(path == [METADATA_PATH] && blob == Text(codec.encode(m))) {
      var k :| 0 <= k < |m.items| && path == [CONTENT_DIRECTORY] + Parts(m.items[k].path) && blob == m.items[k].blob;
      assert entries[k] == Entry(path, blob);
    }
  }

  /**
   A commit that passes validation holds its metadata record and the declared items under memory/, with
   exactly the declared objects, and nothing else: no other file, link, mode or empty directory.
   */
  lemma ValidTreeIsDeclared(codec: Codec, binding: Binding, tree: Tree<Object>, path: seq<string>, blob: Object)
    requires Valid(codec, binding, tree)
    ensures Clean(tree)
    ensures Find(tree, path) == Some(blob) <==> DeclaredAt(codec, MetadataIn(codec, tree).value, path, blob)
  {
    var m := MetadataIn(codec, tree).value;
    var entries := AllEntries(codec, m, m.items);
    FlattenedIsEntries(entries, path, blob);
    BuildClean(map[], entries);
    EntryMeaning(codec, m, path, blob);
  }

  // ---------------------------------------------------------------- sorting

  predicate SortedItems(items: seq<Item>) {
    forall i, j | 0 <= i < j < |items| :: LexLess(items[i].path, items[j].path)
  }

  lemma {:induction false} PlaceKeeps(x: Item, s: seq<Item>)
    ensures forall i :: i in Place(x, s) <==> i == x || i in s
    ensures |Place(x, s)| == |s| + 1 && TotalContent(Place(x, s)) == Utf8Size(x.content) + TotalContent(s)
  {
    if s != [] && LexLess(s[0].path, x.path) {
      PlaceKeeps(x, s[1..]);
      assert s == [s[0]] + s[1..];
      assert Place(x, s)[1..] == Place(x, s[1..]);
    } else {
      assert Place(x, s)[1..] == s;
    }
  }

  lemma {:induction false} PlaceSorted(x: Item, s: seq<Item>)
    requires SortedItems(s) && forall i | i in s :: i.path != x.path
    ensures SortedItems(Place(x, s))
  {
    if s != [] {
      LexTotal(s[0].path, x.path);
      if LexLess(s[0].path, x.path) {
        PlaceSorted(x, s[1..]);
        PlaceKeeps(x, s[1..]);
        var tail := Place(x, s[1..]);
        forall k | 0 <= k < |tail| ensures LexLess(s[0].path, tail[k].path) {
          assert tail[k] in tail;
        }
      } else {
        assert s[0] in s;
        forall k | 0 <= k < |s| ensures LexLess(x.path, s[k].path) {
          if k > 0 {
            LexTransitive(x.path, s[0].path, s[k].path);
          }
        }
      }
    }
  }

  lemma {:induction false} SortKeeps(items: seq<Item>)
    requires UniquePaths(items)
    ensures SortedItems(SortByPath(items)) && forall i :: i in SortByPath(items) <==> i in items
    ensures |SortByPath(items)| == |items| && TotalContent(SortByPath(items)) == TotalContent(items)
  {
    if items != [] {
      var rest := items[1..];
      SortKeeps(rest);
      PlaceKeeps(items[0], SortByPath(rest));
      PlaceSorted(items[0], SortByPath(rest));
      assert items == [items[0]] + rest;
    }
  }

  lemma {:induction false} TotalContentLast(items: seq<Item>)
    requires items != []
    ensures TotalContent(items) == TotalContent(items[..|items| - 1]) + Utf8Size(Last(items).content)
  {
    if |items| > 1 {
      TotalContentLast(items[1..]);
      assert items[1..][..|items| - 2] == items[..|items| - 1][1..];
    }
  }

  lemma {:induction false} DeclaredTotal(items: seq<Item>)
    ensures TotalDeclared(DeclareAll(items)) == TotalContent(items)
  {
    if items != [] {
      var init := items[..|items| - 1];
      DeclaredTotal(init);
      TotalContentLast(items);
      assert DeclareAll(items)[..|items| - 1] == DeclareAll(init);
    }
  }

  // ---------------------------------------------------------------- the same tree

  lemma PrefixFreeElements<T(!new)>(a: seq<Entry<T>>, b: seq<Entry<T>>)
    requires PrefixFree(a) && NoDup(b) && forall e :: e in b ==> e in a
    ensures PrefixFree(b)
  {
    forall i, j | 0 <= i < j < |b| ensures !Overlap(b[i].path, b[j].path) {
      assert b[i] in b && b[j] in b;
      var m :| 0 <= m < |a| && a[m] == b[i];
      var n :| 0 <= n < |a| && a[n] == b[j];
      assert m != n;
      if n < m {
        assert !Overlap(a[n].path, a[m].path);
      }
    }
  }

  lemma EntriesDistinct(codec: Codec, m: Metadata, items: seq<Item>)
    requires UniquePaths(items)
    ensures NoDup(AllEntries(codec, m, DeclareAll(items)))
  {
    var entries := AllEntries(codec, m, DeclareAll(items));
    forall i, j | 0 <= i < j < |entries| ensures entries[i] != entries[j] {
      GitPathParts(items[i].path);
      if j < |items| {
        GitPathParts(items[j].path);
        JoinedParts(items[i].path);
        JoinedParts(items[j].path);
        assert entries[i].path[1..] == Parts(items[i].path) && entries[j].path[1..] == Parts(items[j].path);
      }
    }
  }

  lemma SameEntry(codec: Codec, m: Metadata, a: seq<Item>, b: seq<Item>, e: Entry<Object>)
    requires (forall i :: i in a ==> i in b) && e in AllEntries(codec, m, DeclareAll(a))
    ensures e in AllEntries(codec, m, DeclareAll(b))
  {
    var left, right := AllEntries(codec, m, DeclareAll(a)), AllEntries(codec, m, DeclareAll(b));
    var k :| 0 <= k < |left| && left[k] == e;
    if k < |a| {
      assert a[k] in b;
      var n :| 0 <= n < |b| && b[n] == a[k];
      assert right[n] == e;
    } else {
      assert right[|b|] == e;
    }
  }

  lemma SameEntries(codec: Codec, m: Metadata, a: seq<Item>, b: seq<Item>)
    requires forall i :: i in a ==> i in b
    ensures forall e :: e in AllEntries(codec, m, DeclareAll(a)) ==> e in AllEntries(codec, m, DeclareAll(b))
  {
    forall e | e in AllEntries(codec, m, DeclareAll(a)) ensures e in AllEntries(codec, m, DeclareAll(b)) {
      SameEntry(codec, m, a, b, e);
    }
  }

  /** Writer and validator insert the same entries in different orders, and get the same tree. */
  lemma SameTree(codec: Codec, m: Metadata, items: seq<Item>)
    requires UniquePaths(items) && Build(map[], AllEntries(codec, m, DeclareAll(items))).Some?
    ensures Build(map[], AllEntries(codec, m, DeclareAll(SortByPath(items))))
            == Build(map[], AllEntries(codec, m, DeclareAll(items)))
  {
    var sorted := SortByPath(items);
    var requested, declared := AllEntries(codec, m, DeclareAll(items)), AllEntries(codec, m, DeclareAll(sorted));
    SortKeeps(items);
    SortedUnique(sorted);
    BuilderIsExact(requested);
    SameEntries(codec, m, sorted, items);
    SameEntries(codec, m, items, sorted);
    EntriesDistinct(codec, m, sorted);
    PrefixFreeElements(requested, declared);
    BuildIgnoresOrder(declared, requested);
  }

  lemma SortedUnique(items: seq<Item>)
    requires SortedItems(items)
    ensures UniquePaths(items)
  {
    forall i, j | 0 <= i < j < |items| ensures items[i].path != items[j].path {
      LexAsymmetric(items[i].path, items[j].path);
    }
  }

  // ---------------------------------------------------------------- agreement

  /** Two items of the request, the second stored where the first one's content goes, and sorted after it. */
  predicate PathTakesGitPath(items: seq<Item>) {
    exists i, j | 0 <= i < |items| && 0 <= j < |items| :: Takes(items[i], items[j])
  }

  predicate Takes(i: Item, j: Item) {
    j.path == GitPath(i.path) && LexLess(i.path, j.path)
  }

  lemma ShadowedBySort(items: seq<Item>)
    requires UniquePaths(items)
    ensures Shadowed(DeclareAll(SortByPath(items))) <==> PathTakesGitPath(items)
  {
    var sorted := SortByPath(items);
    SortKeeps(items);
    if Shadowed(DeclareAll(sorted)) {
      ShadowTakes(sorted);
      TakesAnywhere(sorted, items);
    }
    if PathTakesGitPath(items) {
      TakesAnywhere(items, sorted);
      TakenIsShadowed(sorted);
    }
  }

  lemma TakesAnywhere(a: seq<Item>, b: seq<Item>)
    requires PathTakesGitPath(a) && forall i :: i in a ==> i in b
    ensures PathTakesGitPath(b)
  {
    var i, j :| 0 <= i < |a| && 0 <= j < |a| && Takes(a[i], a[j]);
    assert a[i] in b && a[j] in b;
    var m :| 0 <= m < |b| && b[m] == a[i];
    var n :| 0 <= n < |b| && b[n] == a[j];
    assert Takes(b[m], b[n]);
  }

  lemma ShadowTakes(sorted: seq<Item>)
    requires SortedItems(sorted) && Shadowed(DeclareAll(sorted))
    ensures PathTakesGitPath(sorted)
  {
    var i, j :| 0 <= i < j < |sorted| && DeclareAll(sorted)[j].path == DeclareAll(sorted)[i].gitPath;
    assert Takes(sorted[i], sorted[j]);
  }

  lemma TakenIsShadowed(sorted: seq<Item>)
    requires SortedItems(sorted) && PathTakesGitPath(sorted)
    ensures Shadowed(DeclareAll(sorted))
  {
    var i, j :| 0 <= i < |sorted| && 0 <= j < |sorted| && Takes(sorted[i], sorted[j]);
    LexAsymmetric(sorted[i].path, sorted[j].path);
    assert i < j;
    assert DeclareAll(sorted)[j].path == DeclareAll(sorted)[i].gitPath;
  }

  /** Reading the record back from a written tree. */
  lemma WrittenMetadata(codec: Codec, binding: Binding, items: seq<Item>)
    requires ValidCodec(codec) && Written(codec, binding, items).Some?
    ensures MetadataIn(codec, Written(codec, binding, items).value) == Some(MetadataOf(binding, items))
    ensures Find(Written(codec, binding, items).value, [METADATA_PATH])
            == Some(Text(codec.encode(MetadataOf(binding, items))))
  {
    var m := MetadataOf(binding, items);
    var entries := AllEntries(codec, m, DeclareAll(items));
    assert Last(entries) in entries;
    FlattenedIsEntries(entries, [METADATA_PATH], Text(codec.encode(m)));
  }

  lemma DeclarationsOk(items: seq<Item>)
    requires ValidRequest(items)
    ensures var declared := DeclareAll(SortByPath(items));
            ItemsOk(declared)
  {
    var sorted := SortByPath(items);
    SortKeeps(items);
    DeclaredTotal(sorted);
    forall k | 0 <= k < |sorted| ensures DeclaredOk(DeclareAll(sorted)[k]) {
      assert sorted[k] in items;
    }
  }

  /**
   The validator accepts a checkpoint the writer stored exactly when no item's path is the Git path of an
   item that sorts before it. The uniqueness test compares paths with Git paths, so such a checkpoint is
   committed and can then never be published.
   */
  lemma WriterMeetsValidator(codec: Codec, binding: Binding, items: seq<Item>)
    requires ValidCodec(codec) && ValidRequest(items) && Written(codec, binding, items).Some?
    ensures Valid(codec, binding, Written(codec, binding, items).value) <==> !PathTakesGitPath(items)
  {
    var m, tree := MetadataOf(binding, items), Written(codec, binding, items).value;
    WrittenMetadata(codec, binding, items);
    SameTree(codec, m, items);
    ShadowedBySort(items);
    DeclarationsOk(items);
    AcceptedUnlessShadowed(codec, binding, m, tree);
  }

  lemma AcceptedUnlessShadowed(codec: Codec, binding: Binding, m: Metadata, tree: Tree<Object>)
    requires MetadataIn(codec, tree) == Some(m) && m.binding == binding
    requires ItemsOk(m.items)
    requires Utf8Size(codec.encode(m)) <= MAX_METADATA_BYTES
    requires Find(tree, [METADATA_PATH]) == Some(Text(codec.encode(m)))
    requires Build(map[], AllEntries(codec, m, m.items)) == Some(tree)
    ensures Valid(codec, binding, tree) <==> !Shadowed(m.items)
  {
  }

  // ---------------------------------------------------------------- the converse

  function ItemsIn(declared: seq<Declared>): (items: seq<Item>)
    ensures |items| == |declared|
    ensures forall k | 0 <= k < |items| :: items[k] == Item(declared[k].path, declared[k].digest)
  {
    seq(|declared|, k requires 0 <= k < |declared| => Item(declared[k].path, declared[k].digest))
  }

  lemma {:induction false} SortedStays(items: seq<Item>)
    requires SortedItems(items)
    ensures SortByPath(items) == items
  {
    if items != [] {
      var rest := items[1..];
      SortedStays(rest);
      if rest != [] {
        assert items[1] == rest[0];
        LexAsymmetric(items[0].path, rest[0].path);
      }
      assert Place(items[0], rest) == [items[0]] + rest == items;
    }
  }

  lemma DeclaredAgain(declared: seq<Declared>)
    requires ItemsOk(declared)
    ensures DeclareAll(ItemsIn(declared)) == declared
  {
    forall k | 0 <= k < |declared| ensures DeclareAll(ItemsIn(declared))[k] == declared[k] {
      assert DeclaredOk(declared[k]);
    }
  }

  lemma DeclaredRequest(declared: seq<Declared>)
    requires ItemsOk(declared)
    ensures ValidRequest(ItemsIn(declared)) && SortedItems(ItemsIn(declared))
  {
    var items := ItemsIn(declared);
    DeclaredAgain(declared);
    DeclaredTotal(items);
    forall k | 0 <= k < |items| ensures ValidItem(items[k]) {
      assert DeclaredOk(declared[k]);
    }
    SortedUnique(items);
  }

  /** A checkpoint of a well-formed request, none of whose items takes the Git path of another. */
  ghost predicate Publishable(codec: Codec, binding: Binding, items: seq<Item>, tree: Tree<Object>) {
    ValidRequest(items) && Written(codec, binding, items) == Some(tree) && !PathTakesGitPath(items)
  }

  /** What the validator accepts could have been written: the declared items give the same tree again. */
  lemma AcceptedIsWritten(codec: Codec, binding: Binding, tree: Tree<Object>)
    requires Valid(codec, binding, tree)
    ensures Publishable(codec, binding, ItemsIn(MetadataIn(codec, tree).value.items), tree)
  {
    var m := MetadataIn(codec, tree).value;
    var items := ItemsIn(m.items);
    DeclaredAgain(m.items);
    DeclaredRequest(m.items);
    SortedStays(items);
    assert MetadataOf(binding, items) == m;
    ShadowedBySort(items) by {
      SortedUnique(items);
    }
  }

  /** The exact image: the validator accepts a commit tree if and only if it is a publishable checkpoint. */
  lemma AcceptedExactly(codec: Codec, binding: Binding, tree: Tree<Object>)
    requires ValidCodec(codec)
    ensures Valid(codec, binding, tree) <==> exists items :: Publishable(codec, binding, items, tree)
  {
    if Valid(codec, binding, tree) {
      AcceptedIsWritten(codec, binding, tree);
    }
    if items :| Publishable(codec, binding, items, tree) {
      WriterMeetsValidator(codec, binding, items);
    }
  }

  /** When the writer itself succeeds: short metadata and no item that is a directory of another. */
  lemma WriterSucceeds(codec: Codec, binding: Binding, items: seq<Item>)
    requires ValidRequest(items)
    ensures Written(codec, binding, items).Some? <==>
              && Utf8Size(codec.encode(MetadataOf(binding, items))) <= MAX_METADATA_BYTES
              && forall i, j | 0 <= i < j < |items| :: !Overlap(Parts(items[i].path), Parts(items[j].path))
  {
    var m := MetadataOf(binding, items);
    BuilderIsExact(AllEntries(codec, m, DeclareAll(items)));
    EntriesPrefixFree(codec, m, items);
  }

  lemma EntriesPrefixFree(codec: Codec, m: Metadata, items: seq<Item>)
    ensures PrefixFree(AllEntries(codec, m, DeclareAll(items)))
            <==> forall i, j | 0 <= i < j < |items| :: !Overlap(Parts(items[i].path), Parts(items[j].path))
  {
    hide Parts;
    var entries := AllEntries(codec, m, DeclareAll(items));
    forall i | 0 <= i < |items| ensures entries[i].path == [CONTENT_DIRECTORY] + Parts(items[i].path) {
      GitPathParts(items[i].path);
    }
    assert Last(entries).path == [METADATA_PATH];
    hide Overlap;
    forall i, j | 0 <= i < j < |entries|
      ensures Overlap(entries[i].path, entries[j].path)
              <==> j < |items| && Overlap(Parts(items[i].path), Parts(items[j].path))
    {
      if j < |items| {
        OverlapUnder(Parts(items[i].path), Parts(items[j].path));
      } else {
        MetadataApart(Parts(items[i].path));
      }
    }
  }

  lemma MetadataApart(p: seq<string>)
    ensures !Overlap([CONTENT_DIRECTORY] + p, [METADATA_PATH])
  {
    GitPathParts("");
    assert ([CONTENT_DIRECTORY] + p)[0] != [METADATA_PATH][0];
  }

  lemma OverlapUnder(p: seq<string>, q: seq<string>)
    ensures Overlap([CONTENT_DIRECTORY] + p, [CONTENT_DIRECTORY] + q) <==> Overlap(p, q)
  {
    var c := [CONTENT_DIRECTORY];
    assert (c + p)[1..] == p && (c + q)[1..] == q;
    assert p <= q ==> c + p <= c + q;
    assert q <= p ==> c + q <= c + p;
    assert c + p <= c + q ==> p <= q by {
      if c + p <= c + q {
        assert (c + q)[..|c + p|][1..] == q[..|p|];
      }
    }
    assert c + q <= c + p ==> q <= p by {
      if c + q <= c + p {
        assert (c + p)[..|c + q|][1..] == p[..|q|];
      }
    }
  }

  lemma SmallParts()
    ensures Parts("a") == ["a"] && Parts("memory/a") == ["memory", "a"] && GitPath("a") == "memory/a"
    ensures !Overlap(Parts("a"), Parts("memory/a"))
  {
    PartsOfPlain("a");
    PartsUnder("memory", "a");
    assert "memory" + "/" + "a" == "memory/a";
    assert ["a"][0] != ["memory", "a"][0] by {
      assert |"a"| != |"memory"|;
    }
  }

  lemma SmallItems()
    ensures ValidItem(Item("a", "")) && ValidItem(Item("memory/a", "")) && Takes(Item("a", ""), Item("memory/a", ""))
  {
    SmallParts();
    hide Parts;
  }

  /** Any two items in this relation, and nothing else in the way. */
  lemma TwoItems(codec: Codec, binding: Binding, a: Item, b: Item)
    requires ValidCodec(codec) && ValidItem(a) && ValidItem(b) && Takes(a, b)
    requires a.content == "" && b.content == "" && !Overlap(Parts(a.path), Parts(b.path))
    ensures var items := [a, b];
            && ValidRequest(items)
            && (Utf8Size(codec.encode(MetadataOf(binding, items))) <= MAX_METADATA_BYTES ==>
                  Written(codec, binding, items).Some? && !Valid(codec, binding, Written(codec, binding, items).value))
  {
    var items := [a, b];
    assert TotalContent(items) == 0 by {
      assert items[1..] == [b] && [b][1..] == [];
      assert Utf8Size("") == 0 && TotalContent([b]) == Utf8Size("") + TotalContent([]);
    }
    LexAsymmetric(a.path, b.path);
    assert PathTakesGitPath(items) by {
      assert Takes(items[0], items[1]);
    }
    WriterSucceeds(codec, binding, items);
    if Written(codec, binding, items).Some? {
      WriterMeetsValidator(codec, binding, items);
    }
  }

  /** The smallest such checkpoint: items "a" and "memory/a". */
  lemma UnpublishableCheckpoint(codec: Codec, binding: Binding)
    requires ValidCodec(codec)
    ensures var items := [Item("a", ""), Item("memory/a", "")];
            && ValidRequest(items)
            && (Utf8Size(codec.encode(MetadataOf(binding, items))) <= MAX_METADATA_BYTES ==>
                  Written(codec, binding, items).Some? && !Valid(codec, binding, Written(codec, binding, items).value))
  {
    SmallItems();
    SmallParts();
    hide ValidItem, Takes, Parts, Overlap, Utf8Size, Written, Valid, ValidRequest, MetadataOf;
    TwoItems(codec, binding, Item("a", ""), Item("memory/a", ""));
  }
}
