/**
 One Instance-memory checkpoint: the writer that makes it and the validator that accepts it for
 publication.

 Digests and object IDs identify content, so an object is its content and a digest is the text it was
 computed from. JSON is an encoding that can be decoded again.
 */
module Memory {
  import opened Common
  import opened Inbox
  import opened MemoryTree

  const MAX_ITEMS := 64
  const MAX_ITEM_BYTES := 65536
  const MAX_TOTAL_BYTES := 262144
  const MAX_METADATA_BYTES := 65536
  const METADATA_PATH := "memory.json"
  const CONTENT_DIRECTORY := "memory"

  /** A blob of text, a blob that is not text, or no blob at all. */
  datatype Object = Text(content: string) | Binary(tag: nat) | Missing(tag: nat)

  function CharSize(c: char): nat {
    if c as int < 0x80 then 1 else if c as int < 0x800 then 2 else if c as int < 0x10000 then 3 else 4
  }

  /** Bytes of the UTF-8 encoding. */
  function Utf8Size(s: string): nat {
    if s == [] then 0 else CharSize(s[0]) + Utf8Size(s[1..])
  }

  /** What ties a checkpoint to one Instance. */
  datatype Binding = Binding(
    repository: string, environment: string, instance: string, blueprint: string, refName: string)

  datatype Declared = Declared(path: string, gitPath: string, blob: Object, bytes: int, digest: string)
  datatype Metadata = Metadata(binding: Binding, items: seq<Declared>)

  /** The JSON encoding; decoding fails on text that is not a record of the supported shape. */
  datatype Codec = Codec(encode: Metadata -> string, decode: string -> Option<Metadata>)

  ghost predicate ValidCodec(c: Codec) {
    forall m :: c.decode(c.encode(m)) == Some(m)
  }

  /** A canonical relative POSIX path. */
  predicate ValidPath(path: string) {
    && 1 <= |path| <= 256
    && (forall k | 0 <= k < |path| :: path[k] != '\\' && path[k] as int >= 32 && path[k] as int != 127)
    && forall k | 0 <= k < |Parts(path)| :: Parts(path)[k] != "" && Parts(path)[k] != "." && Parts(path)[k] != ".."
  }

  function GitPath(path: string): string {
    CONTENT_DIRECTORY + "/" + path
  }

  // ---------------------------------------------------------------- the writer

  datatype Item = Item(path: string, content: string)

  predicate ValidItem(i: Item) {
    ValidPath(i.path) && '\0' !in i.content && Utf8Size(i.content) <= MAX_ITEM_BYTES
  }

  function TotalContent(items: seq<Item>): nat {
    if items == [] then 0 else Utf8Size(items[0].content) + TotalContent(items[1..])
  }

  predicate UniquePaths(items: seq<Item>) {
    forall i, j | 0 <= i < j < |items| :: items[i].path != items[j].path
  }

  predicate ValidRequest(items: seq<Item>) {
    && |items| <= MAX_ITEMS && (forall k | 0 <= k < |items| :: ValidItem(items[k]))
    && UniquePaths(items) && TotalContent(items) <= MAX_TOTAL_BYTES
  }

  function Place(x: Item, s: seq<Item>): seq<Item> {
    if s != [] && LexLess(s[0].path, x.path) then [s[0]] + Place(x, s[1..]) else [x] + s
  }

  function SortByPath(items: seq<Item>): seq<Item> {
    if items == [] then [] else Place(items[0], SortByPath(items[1..]))
  }

  function Declare(i: Item): Declared {
    Declared(i.path, GitPath(i.path), Text(i.content), Utf8Size(i.content), i.content)
  }

  function DeclareAll(items: seq<Item>): (declared: seq<Declared>)
    ensures |declared| == |items| && forall k | 0 <= k < |items| :: declared[k] == Declare(items[k])
  {
    seq(|items|, k requires 0 <= k < |items| => Declare(items[k]))
  }

  function MetadataOf(binding: Binding, items: seq<Item>): Metadata {
    Metadata(binding, DeclareAll(SortByPath(items)))
  }

  /** The tree entries of declared items, in the given order. */
  function EntriesOf(declared: seq<Declared>): (entries: seq<Entry<Object>>)
    ensures |entries| == |declared|
    ensures forall k | 0 <= k < |declared| :: entries[k] == Entry(Parts(declared[k].gitPath), declared[k].blob)
  {
    seq(|declared|, k requires 0 <= k < |declared| => Entry(Parts(declared[k].gitPath), declared[k].blob))
  }

  function AllEntries(codec: Codec, m: Metadata, declared: seq<Declared>): (entries: seq<Entry<Object>>)
    ensures Proper(entries)
  {
    EntriesOf(declared) + [Entry([METADATA_PATH], Text(codec.encode(m)))]
  }

  /** What the writer stores: the items in request order, the metadata sorted. */
  function Written(codec: Codec, binding: Binding, items: seq<Item>): Option<Tree<Object>> {
    var m := MetadataOf(binding, items);
    if Utf8Size(codec.encode(m)) > MAX_METADATA_BYTES then None
    else Build(map[], AllEntries(codec, m, DeclareAll(items)))
  }

  // ---------------------------------------------------------------- the validator

  function MetadataIn(codec: Codec, tree: Tree<Object>): Option<Metadata> {
    var blob: Option<Object> := Find(tree, [METADATA_PATH]);
    if blob.Some? && blob.value.Text? && Utf8Size(blob.value.content) <= MAX_METADATA_BYTES then
      codec.decode(blob.value.content)
    else None
  }

  predicate DeclaredOk(d: Declared) {
    && ValidPath(d.path) && d.gitPath == GitPath(d.path) && 0 <= d.bytes <= MAX_ITEM_BYTES
    && d.blob.Text? && Utf8Size(d.blob.content) == d.bytes && '\0' !in d.blob.content && d.digest == d.blob.content
  }

  /** The uniqueness test compares a path with the Git paths of the items before it. */
  predicate Shadowed(items: seq<Declared>) {
    exists i, j | 0 <= i < j < |items| :: items[j].path == items[i].gitPath
  }

  predicate StrictlySorted(items: seq<Declared>) {
    forall i, j | 0 <= i < j < |items| :: LexLess(items[i].path, items[j].path)
  }

  function TotalDeclared(items: seq<Declared>): int {
    if items == [] then 0 else TotalDeclared(items[..|items| - 1]) + Last(items).bytes
  }

  predicate ItemsOk(items: seq<Declared>) {
    && |items| <= MAX_ITEMS && (forall k | 0 <= k < |items| :: DeclaredOk(items[k]))
    && StrictlySorted(items) && TotalDeclared(items) <= MAX_TOTAL_BYTES
  }

  predicate TreeOk(codec: Codec, m: Metadata, tree: Tree<Object>) {
    && ItemsOk(m.items) && !Shadowed(m.items)
    && Utf8Size(codec.encode(m)) <= MAX_METADATA_BYTES
    && Find(tree, [METADATA_PATH]) == Some(Text(codec.encode(m)))
    && Build(map[], AllEntries(codec, m, m.items)) == Some(tree)
  }

  /** The checkpoint belongs to this Instance and holds exactly what it declares. */
  predicate Valid(codec: Codec, binding: Binding, tree: Tree<Object>) {
    var m := MetadataIn(codec, tree);
    m.Some? && m.value.binding == binding && TreeOk(codec, m.value, tree)
  }

  lemma TotalDeclaredStep(items: seq<Declared>, k: nat)
    requires k < |items|
    ensures TotalDeclared(items[..k + 1]) == TotalDeclared(items[..k]) + items[k].bytes
  {
    assert items[..k + 1][..k] == items[..k];
  }

  /** `paths != sorted(paths) or len(paths) != len(set(paths))`, as one pass over neighbours. */
  method CheckOrder(items: seq<Declared>) returns (ok: bool)
    ensures ok <==> StrictlySorted(items)
  {
    if items == [] {
      return true;
    }
    for k := 1 to |items|
      invariant forall i, j | 0 <= i < j < k && j < |items| :: LexLess(items[i].path, items[j].path)
    {
      if !LexLess(items[k - 1].path, items[k].path) {
        return false;
      }
      forall i | 0 <= i < k ensures LexLess(items[i].path, items[k].path) {
        if i < k - 1 {
          LexTransitive(items[i].path, items[k - 1].path, items[k].path);
        }
      }
    }
    return true;
  }

  /** The item loop of `_validate_memory_tree`: each item by itself, the uniqueness test, the sum of sizes. */
  method CheckItems(items: seq<Declared>) returns (ok: bool, total: int)
    ensures ok <==> (forall k | 0 <= k < |items| :: DeclaredOk(items[k])) && !Shadowed(items)
    ensures ok ==> total == TotalDeclared(items)
  {
    hide DeclaredOk;
    var expected: set<string> := {};
    total := 0;
    for k := 0 to |items|
      invariant forall i | 0 <= i < k :: DeclaredOk(items[i])
      invariant forall i, j | 0 <= i < j < k :: items[j].path != items[i].gitPath
      invariant expected == set i | 0 <= i < k :: items[i].gitPath
      invariant total == TotalDeclared(items[..k])
    {
      if !DeclaredOk(items[k]) {
        return false, total;
      }
      TotalDeclaredStep(items, k);
      total := total + items[k].bytes;
      if items[k].path in expected {
        assert Shadowed(items);
        return false, total;
      }
      expected := expected + {items[k].gitPath};
    }
    assert items[..|items|] == items;
    return true, total;
  }

  /** `_validate_memory_tree`. */
  method ValidateTree(codec: Codec, m: Metadata, tree: Tree<Object>) returns (ok: bool)
    ensures ok <==> TreeOk(codec, m, tree)
  {
    if |m.items| > MAX_ITEMS {
      return false;
    }
    var checked, total := CheckItems(m.items);
    if !checked {
      return false;
    }
    var sorted := CheckOrder(m.items);
    if !sorted || total > MAX_TOTAL_BYTES {
      return false;
    }
    var metadata := Find(tree, [METADATA_PATH]);
    if metadata.None? || Utf8Size(codec.encode(m)) > MAX_METADATA_BYTES || metadata.value != Text(codec.encode(m)) {
      return false;
    }
    var built := BuildTree(AllEntries(codec, m, m.items));
    ok := built == Some(tree);
  }
}
