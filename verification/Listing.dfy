/**
 Listing objects under a key prefix, as the local store does it: look the prefix up
 as a path, walk the directory found there, and fall back to the parent directory
 with a plain string filter when nothing is there.
 */
module Listing {
  import opened Text
  import opened Sequences

  // ---------- Directory trees ----------

  datatype Node = FileNode | DirNode(entries: seq<Entry>)

  datatype Entry = Entry(name: string, node: Node)

  predicate WellFormed(entries: seq<Entry>)
    decreases entries
  {
    && (forall i :: 0 <= i < |entries| ==> entries[i].name != "" && '/' !in entries[i].name)
    && (forall i, j :: 0 <= i < j < |entries| ==> entries[i].name != entries[j].name)
    && (forall i :: 0 <= i < |entries| ==> entries[i].node.DirNode? ==> WellFormed(entries[i].node.entries))
  }

  /** The keys of all files below a directory, relative to it. */
  function Walk(entries: seq<Entry>): seq<string>
    decreases entries
  {
    if entries == [] then []
    else EntryKeys(entries[0]) + Walk(entries[1..])
  }

  function EntryKeys(e: Entry): seq<string>
    decreases e
  {
    match e.node
    case FileNode => [e.name]
    case DirNode(children) => Under(e.name + "/", Walk(children))
  }

  function Under(directory: string, keys: seq<string>): seq<string> {
    Map((key: string) => directory + key, keys)
  }

  lemma UnderMember(directory: string, keys: seq<string>, key: string)
    ensures key in Under(directory, keys) <==> directory <= key && key[|directory|..] in keys
  {
    var all := Under(directory, keys);
    if key in all {
      var i :| 0 <= i < |all| && all[i] == key;
      assert key == directory + keys[i];
      assert key[|directory|..] == keys[i];
    }
    if directory <= key && key[|directory|..] in keys {
      var i :| 0 <= i < |keys| && keys[i] == key[|directory|..];
      assert all[i] == directory + keys[i] == key;
    }
  }

  lemma {:induction false} WalkMember(entries: seq<Entry>, key: string)
    ensures key in Walk(entries) <==> exists i :: 0 <= i < |entries| && key in EntryKeys(entries[i])
    decreases entries
  {
    if entries != [] {
      WalkMember(entries[1..], key);
      if i :| 0 <= i < |entries| && key in EntryKeys(entries[i]) {
        assert i > 0 ==> entries[i] == entries[1..][i - 1];
      }
      if key in Walk(entries[1..]) {
        var j :| 0 <= j < |entries[1..]| && key in EntryKeys(entries[1..][j]);
        assert key in EntryKeys(entries[j + 1]);
      }
    }
  }

  // ---------- Looking up a path ----------

  datatype Lookup = Found(node: Node) | Missing | NotDirectory

  function FindEntry(entries: seq<Entry>, name: string): (r: Option<Node>)
    ensures r.Some? ==> exists i :: 0 <= i < |entries| && entries[i] == Entry(name, r.value)
    ensures r.None? ==> forall i :: 0 <= i < |entries| ==> entries[i].name != name
  {
    if entries == [] then None
    else if entries[0].name == name then
      assert entries[0] == Entry(name, entries[0].node);
      Some(entries[0].node)
    else
      var rest := FindEntry(entries[1..], name);
      assert forall i :: 0 < i < |entries| ==> entries[i] == entries[1..][i - 1];
      rest
  }

  /** `fs::metadata` of a relative path. */
  function Resolve(entries: seq<Entry>, path: seq<string>): Lookup
    requires |path| >= 1
    decreases |path|
  {
    match FindEntry(entries, path[0])
    case None => Missing
    case Some(node) =>
      if |path| == 1 then Found(node)
      else match node
        case FileNode => NotDirectory
        case DirNode(children) => Resolve(children, path[1..])
  }

  /** A key starting with a directory name belongs to the entry with that name. */
  lemma KeyInEntry(entries: seq<Entry>, name: string, rest: string)
    requires WellFormed(entries) && '/' !in name
    ensures name + "/" + rest in Walk(entries) <==>
            var node := FindEntry(entries, name);
            node.Some? && node.value.DirNode? && rest in Walk(node.value.entries)
  {
    var key := name + "/" + rest;
    var node := FindEntry(entries, name);
    WalkMember(entries, key);
    forall i | 0 <= i < |entries|
      ensures key in EntryKeys(entries[i]) <==>
              entries[i].name == name && entries[i].node.DirNode? && rest in Walk(entries[i].node.entries)
    {
      EntryKeyMember(entries[i], name, rest);
    }
    if node.Some? {
      var i :| 0 <= i < |entries| && entries[i] == Entry(name, node.value);
    }
  }

  lemma EntryKeyMember(e: Entry, name: string, rest: string)
    requires '/' !in name && '/' !in e.name
    ensures name + "/" + rest in EntryKeys(e) <==>
            e.name == name && e.node.DirNode? && rest in Walk(e.node.entries)
  {
    var key := name + "/" + rest;
    assert key[|name|] == '/';
    if e.node.DirNode? {
      UnderMember(e.name + "/", Walk(e.node.entries), key);
      if e.name + "/" <= key {
        assert key[|e.name|] == '/';
        assert forall i :: 0 <= i < |name| ==> key[i] == name[i];
        assert forall i :: 0 <= i < |e.name| ==> key[i] == e.name[i];
        assert |e.name| == |name|;
        assert e.name == key[..|name|] == name;
      }
      assert key[|name| + 1..] == rest;
    } else {
      assert key !in EntryKeys(e) by { assert '/' in key; }
    }
  }

  predicate GoodPath(path: seq<string>) {
    |path| >= 1 && forall i :: 0 <= i < |path| ==> '/' !in path[i]
  }

  /** Below an existing directory lie exactly the keys that its own walk gives. */
  lemma {:induction false} KeysBelow(entries: seq<Entry>, path: seq<string>, rest: string)
    requires WellFormed(entries) && GoodPath(path)
    ensures Join(path, '/') + "/" + rest in Walk(entries) <==>
            var found := Resolve(entries, path);
            found.Found? && found.node.DirNode? && rest in Walk(found.node.entries)
    decreases |path|
  {
    if |path| == 1 {
      KeyInEntry(entries, path[0], rest);
    } else {
      var inner := Join(path[1..], '/') + "/" + rest;
      assert Join(path, '/') + "/" + rest == path[0] + "/" + inner;
      KeyInEntry(entries, path[0], inner);
      var node := FindEntry(entries, path[0]);
      if node.Some? && node.value.DirNode? {
        KeysBelow(node.value.entries, path[1..], rest);
      }
    }
  }

  /** A path is a key itself exactly when it resolves to a file. */
  lemma {:induction false} KeyAt(entries: seq<Entry>, path: seq<string>)
    requires WellFormed(entries) && GoodPath(path)
    ensures Join(path, '/') in Walk(entries) <==> Resolve(entries, path) == Found(FileNode)
    decreases |path|
  {
    if |path| == 1 {
      var name := path[0];
      WalkMember(entries, name);
      forall i | 0 <= i < |entries|
        ensures name in EntryKeys(entries[i]) <==> entries[i].name == name && entries[i].node.FileNode?
      {
        if entries[i].node.DirNode? {
          UnderMember(entries[i].name + "/", Walk(entries[i].node.entries), name);
          assert (entries[i].name + "/")[|entries[i].name|] == '/';
        }
      }
    } else {
      var inner := Join(path[1..], '/');
      assert Join(path, '/') == path[0] + "/" + inner;
      KeyInEntry(entries, path[0], inner);
      var node := FindEntry(entries, path[0]);
      if node.Some? && node.value.DirNode? {
        KeyAt(node.value.entries, path[1..]);
      }
    }
  }

  // ---------- Walking ----------

  /** The keys of a directory at `base` that start with a filter. */
  function Visited(base: string, filter: string, keys: seq<string>): seq<string> {
    Filter((key: string) => filter <= key, Under(base, keys))
  }

  lemma VisitedAppend(base: string, filter: string, a: seq<string>, b: seq<string>)
    ensures Visited(base, filter, a + b) == Visited(base, filter, a) + Visited(base, filter, b)
  {
    MapAppend((key: string) => base + key, a, b);
    FilterAppend((key: string) => filter <= key, Under(base, a), Under(base, b));
  }

  lemma VisitedBelow(base: string, filter: string, name: string, keys: seq<string>)
    ensures Visited(base, filter, Under(name, keys)) == Visited(base + name, filter, keys)
  {
    forall i | 0 <= i < |keys| ensures Under(base, Under(name, keys))[i] == Under(base + name, keys)[i] {
      assert base + (name + keys[i]) == base + name + keys[i];
    }
    assert Under(base, Under(name, keys)) == Under(base + name, keys);
  }

  lemma VisitedFile(base: string, filter: string, name: string)
    ensures Visited(base, filter, [name]) == if filter <= base + name then [base + name] else []
  {
    assert Under(base, [name]) == [base + name];
    FilterOne((key: string) => filter <= key, base + name);
  }

  /**
   `visit_directory`: push the keys below a directory that start with the filter.
   `base` is the path from the listing root to the directory.
   */
  method VisitDirectory(entries: seq<Entry>, base: string, filter: string, output: seq<string>)
    returns (r: seq<string>)
    ensures r == output + Visited(base, filter, Walk(entries))
    decreases entries
  {
    hide Visited;
    r := output;
    var i := 0;
    while i < |entries|
      invariant 0 <= i <= |entries|
      invariant output + Visited(base, filter, Walk(entries)) == r + Visited(base, filter, Walk(entries[i..]))
    {
      var e := entries[i];
      assert entries[i..][0] == e && entries[i..][1..] == entries[i + 1..];
      VisitedAppend(base, filter, EntryKeys(e), Walk(entries[i + 1..]));
      match e.node {
        case DirNode(children) =>
          VisitedBelow(base, filter, e.name + "/", Walk(children));
          r := VisitDirectory(children, base + (e.name + "/"), filter, r);
        case FileNode =>
          VisitedFile(base, filter, e.name);
          var relative := base + e.name;
          if filter <= relative {
            r := r + [relative];
          }
      }
      i := i + 1;
    }
    VisitedNothing(base, filter);
  }

  lemma VisitedNothing(base: string, filter: string)
    ensures Visited(base, filter, []) == []
  {
  }

  // ---------- Sorting ----------

  /** The order of strings in the store: lexicographic, a prefix first. */
  predicate LessEq(a: string, b: string) {
    a == "" || (b != "" && (a[0] < b[0] || (a[0] == b[0] && LessEq(a[1..], b[1..]))))
  }

  predicate Sorted(keys: seq<string>) {
    forall i, j :: 0 <= i < j < |keys| ==> LessEq(keys[i], keys[j])
  }

  lemma {:induction false} LessEqTotal(a: string, b: string)
    ensures LessEq(a, b) || LessEq(b, a)
  {
    if a != "" && b != "" {
      LessEqTotal(a[1..], b[1..]);
    }
  }

  lemma {:induction false} LessEqAntisymmetric(a: string, b: string)
    requires LessEq(a, b) && LessEq(b, a)
    ensures a == b
  {
    if a != "" && b != "" {
      LessEqAntisymmetric(a[1..], b[1..]);
      assert a == [a[0]] + a[1..] && b == [b[0]] + b[1..];
    }
  }

  lemma {:induction false} LessEqTransitive(a: string, b: string, c: string)
    requires LessEq(a, b) && LessEq(b, c)
    ensures LessEq(a, c)
  {
    if a != "" && b != "" && c != "" && a[0] == b[0] == c[0] {
      LessEqTransitive(a[1..], b[1..], c[1..]);
    }
  }

  function Insert(key: string, keys: seq<string>): (r: seq<string>)
    ensures multiset(r) == multiset(keys) + multiset{key}
  {
    if keys == [] then [key]
    else if LessEq(key, keys[0]) then [key] + keys
    else
      assert keys == [keys[0]] + keys[1..];
      [keys[0]] + Insert(key, keys[1..])
  }

  lemma {:induction false} InsertSorted(key: string, keys: seq<string>)
    requires Sorted(keys)
    ensures Sorted(Insert(key, keys))
  {
    if keys != [] {
      if LessEq(key, keys[0]) {
        forall j | 0 <= j < |keys| ensures LessEq(key, keys[j]) {
          if j > 0 {
            LessEqTransitive(key, keys[0], keys[j]);
          }
        }
      } else {
        LessEqTotal(key, keys[0]);
        InsertSorted(key, keys[1..]);
        var tail := Insert(key, keys[1..]);
        forall j | 0 <= j < |tail| ensures LessEq(keys[0], tail[j]) {
          assert tail[j] in multiset(tail);
          assert tail[j] == key || tail[j] in multiset(keys[1..]);
        }
      }
    }
  }

  /** `Enum.sort` and `sort_by(path)`. */
  function Sort(keys: seq<string>): (r: seq<string>)
    ensures multiset(r) == multiset(keys)
  {
    if keys == [] then []
    else
      assert keys == [keys[0]] + keys[1..];
      Insert(keys[0], Sort(keys[1..]))
  }

  lemma {:induction false} SortSorts(keys: seq<string>)
    ensures Sorted(Sort(keys))
    ensures forall k :: k in Sort(keys) <==> k in keys
  {
    if keys != [] {
      SortSorts(keys[1..]);
      InsertSorted(keys[0], Sort(keys[1..]));
    }
    forall k ensures k in Sort(keys) <==> k in keys {
      assert k in multiset(Sort(keys)) <==> k in multiset(keys);
    }
  }

  // ---------- Listing ----------

  datatype Listed = Listed(keys: seq<string>) | ListFailed

  /** What a directory lists: its keys under its path, filtered by their path below it, in order. */
  function ListDirectory(path: string, entries: seq<Entry>, filter: string): seq<string> {
    Sort(Under(path, Visited("", filter, Walk(entries))))
  }

  /** `local_list`. */
  function LocalList(root: seq<Entry>, prefix: string): Listed {
    if prefix == "" then Listed(ListDirectory("", root, ""))
    else
      var path := Split(prefix, '/');
      match Resolve(root, path)
      case Found(DirNode(children)) => Listed(ListDirectory(prefix + "/", children, ""))
      case Found(FileNode) => Listed([prefix])
      case NotDirectory => ListFailed
      case Missing =>
        if |path| == 1 then Listed(ListDirectory("", root, prefix))
        else
          var parent := path[..|path| - 1];
          match Resolve(root, parent)
          case Found(DirNode(children)) =>
            Listed(ListDirectory(Join(parent, '/') + "/", children, path[|path| - 1]))
          case _ => Listed([])
  }

  /** `String.trim_trailing(prefix, "/")`. */
  function TrimSlashes(prefix: string): string {
    if prefix != "" && prefix[|prefix| - 1] == '/' then TrimSlashes(prefix[..|prefix| - 1]) else prefix
  }

  /** `Store.list` of a local store. */
  function StoreList(root: seq<Entry>, prefix: string): Listed {
    LocalList(root, TrimSlashes(prefix))
  }

  /** `LocalStore::list`: walk, then sort. */
  method ListBelow(path: string, entries: seq<Entry>, filter: string) returns (keys: seq<string>)
    ensures keys == ListDirectory(path, entries, filter)
  {
    hide Visited, Walk, Under, Sort;
    var visited := VisitDirectory(entries, "", filter, []);
    assert visited == Visited("", filter, Walk(entries));
    keys := Sort(Under(path, visited));
  }

  // ---------- What a listing contains ----------

  lemma ListMember(path: string, entries: seq<Entry>, filter: string, key: string)
    ensures key in ListDirectory(path, entries, filter) <==>
            path <= key && filter <= key[|path|..] && key[|path|..] in Walk(entries)
  {
    var visited := Visited("", filter, Walk(entries));
    SortSorts(Under(path, visited));
    UnderMember(path, visited, key);
    if path <= key {
      UnderMember("", Walk(entries), key[|path|..]);
      assert key[|path|..][0..] == key[|path|..];
    }
  }

  lemma JoinOne(path: seq<string>)
    requires |path| == 1
    ensures Join(path, '/') == path[0]
  {
  }

  lemma {:induction false} JoinSnoc(path: seq<string>, last: string)
    requires |path| >= 1
    ensures Join(path + [last], '/') == Join(path, '/') + "/" + last
  {
    var more := path + [last];
    assert more[0] == path[0] && more[1..] == path[1..] + [last];
    if |path| > 1 {
      JoinSnoc(path[1..], last);
      var a, b := path[0] + ['/'], Join(path[1..], '/');
      assert Join(more, '/') == a + (b + "/" + last) == a + b + "/" + last;
    } else {
      assert more[1..] == [last];
    }
  }

  lemma SplitPath(prefix: string)
    ensures GoodPath(Split(prefix, '/')) && Join(Split(prefix, '/'), '/') == prefix
  {
    JoinSplit(prefix, '/');
  }

  /** An existing prefix lists exactly itself and the keys below it. */
  lemma ListsExisting(root: seq<Entry>, prefix: string, key: string)
    requires WellFormed(root) && prefix != "" && Resolve(root, Split(prefix, '/')).Found?
    ensures var listed := LocalList(root, prefix);
            && listed.Listed?
            && (key in listed.keys <==> key in Walk(root) && (key == prefix || prefix + "/" <= key))
  {
    hide ListDirectory, Walk, Resolve;
    var path := Split(prefix, '/');
    SplitPath(prefix);
    KeyAt(root, path);
    var found := Resolve(root, path).node;
    var below := if prefix + "/" <= key then key[|prefix| + 1..] else "";
    KeysBelow(root, path, below);
    assert prefix + "/" <= key ==> key == prefix + "/" + below;
    if found.DirNode? {
      ListMember(prefix + "/", found.entries, "", key);
    }
  }

  /** A missing prefix lists the keys that continue it as a string, inside a longer name of its parent. */
  lemma ListsMissing(root: seq<Entry>, prefix: string, key: string)
    requires WellFormed(root) && prefix != "" && Resolve(root, Split(prefix, '/')).Missing?
    ensures var listed := LocalList(root, prefix);
            && listed.Listed?
            && (key in listed.keys <==> key in Walk(root) && prefix <= key)
  {
    hide ListDirectory, Walk, Resolve, Join, Split, WellFormed;
    var path := Split(prefix, '/');
    SplitPath(prefix);
    if |path| == 1 {
      JoinOne(path);
      assert prefix == path[0];
      ListMember("", root, prefix, key);
      assert key[0..] == key;
    } else {
      var parent, last := path[..|path| - 1], path[|path| - 1];
      var base := Join(parent, '/') + "/";
      assert path == parent + [last];
      JoinSnoc(parent, last);
      assert prefix == base + last;
      var below := if base <= key then key[|base|..] else "";
      KeysBelow(root, parent, below);
      assert base <= key ==> key == base + below;
      assert prefix <= key <==> base <= key && last <= below by {
        if prefix <= key {
          assert base <= prefix;
          assert below == key[|base|..] && last == prefix[|base|..];
        }
      }
      var found := Resolve(root, parent);
      if found.Found? && found.node.DirNode? {
        ListMember(base, found.node.entries, last, key);
      }
    }
  }

  lemma {:induction false} WalkDistinct(entries: seq<Entry>)
    requires WellFormed(entries)
    ensures Distinct(Walk(entries))
    decreases entries
  {
    if entries != [] {
      WalkDistinct(entries[1..]);
      var first, rest := EntryKeys(entries[0]), Walk(entries[1..]);
      EntryDistinct(entries[0]);
      forall i, j | 0 <= i < |first| && 0 <= j < |rest| ensures first[i] != rest[j] {
        EntriesApart(entries, first[i]);
      }
    }
  }

  lemma EntryDistinct(e: Entry)
    requires e.node.DirNode? ==> WellFormed(e.node.entries)
    ensures Distinct(EntryKeys(e))
    decreases e, 0
  {
    if e.node.DirNode? {
      WalkDistinct(e.node.entries);
      var keys := Walk(e.node.entries);
      forall i, j | 0 <= i < j < |keys| ensures EntryKeys(e)[i] != EntryKeys(e)[j] {
        assert EntryKeys(e)[i][|e.name| + 1..] == keys[i];
        assert EntryKeys(e)[j][|e.name| + 1..] == keys[j];
      }
    }
  }

  /** A key of the first entry is not a key of a later one: the text up to the first separator tells. */
  lemma EntriesApart(entries: seq<Entry>, key: string)
    requires WellFormed(entries) && entries != [] && key in EntryKeys(entries[0])
    ensures key !in Walk(entries[1..])
  {
    WalkMember(entries[1..], key);
    FirstName(entries[0], key);
    forall i | 0 <= i < |entries[1..]| ensures key !in EntryKeys(entries[1..][i]) {
      assert entries[1..][i] == entries[i + 1];
      if key in EntryKeys(entries[i + 1]) {
        FirstName(entries[i + 1], key);
      }
    }
  }

  lemma FirstName(e: Entry, key: string)
    requires '/' !in e.name && key in EntryKeys(e)
    ensures Split(key, '/')[0] == e.name
  {
    if e.node.DirNode? {
      UnderMember(e.name + "/", Walk(e.node.entries), key);
      var rest := key[|e.name| + 1..];
      assert key == e.name + ['/'] + rest;
      assert key[|e.name|] == '/';
      IndexOfUnique(e.name, '/', rest);
    }
  }

  lemma SortDistinct(keys: seq<string>)
    requires Distinct(keys)
    ensures Distinct(Sort(keys))
  {
    var sorted := Sort(keys);
    forall k ensures multiset(keys)[k] <= 1 {
      CountOnce(keys, k);
    }
    forall i, j | 0 <= i < j < |sorted| ensures sorted[i] != sorted[j] {
      if sorted[i] == sorted[j] {
        CountTwice(sorted, i, j);
      }
    }
  }

  lemma {:induction false} CountOnce(keys: seq<string>, k: string)
    requires Distinct(keys)
    ensures multiset(keys)[k] <= 1
  {
    if keys != [] {
      assert keys == [keys[0]] + keys[1..];
      CountOnce(keys[1..], k);
      assert k == keys[0] ==> k !in keys[1..];
    }
  }

  lemma CountTwice(keys: seq<string>, i: int, j: int)
    requires 0 <= i < j < |keys| && keys[i] == keys[j]
    ensures multiset(keys)[keys[i]] >= 2
  {
    assert keys == keys[..i] + [keys[i]] + keys[i + 1..j] + [keys[j]] + keys[j + 1..];
  }

  /** Listings are sorted and name no key twice. */
  lemma ListsInOrder(root: seq<Entry>, prefix: string)
    requires WellFormed(root) && LocalList(root, prefix).Listed?
    ensures Sorted(LocalList(root, prefix).keys) && Distinct(LocalList(root, prefix).keys)
  {
    hide Sort, Walk, Split, Join;
    var path := Split(prefix, '/');
    DirectoryInOrder("", root, "");
    DirectoryInOrder("", root, prefix);
    ResolveWellFormed(root, path);
    if Resolve(root, path).Found? && Resolve(root, path).node.DirNode? {
      DirectoryInOrder(prefix + "/", Resolve(root, path).node.entries, "");
    }
    if |path| > 1 {
      var parent := path[..|path| - 1];
      ResolveWellFormed(root, parent);
      if Resolve(root, parent).Found? && Resolve(root, parent).node.DirNode? {
        DirectoryInOrder(Join(parent, '/') + "/", Resolve(root, parent).node.entries, path[|path| - 1]);
      }
    }
  }

  lemma {:induction false} ResolveWellFormed(entries: seq<Entry>, path: seq<string>)
    requires WellFormed(entries) && |path| >= 1
    ensures var found := Resolve(entries, path);
            found.Found? && found.node.DirNode? ==> WellFormed(found.node.entries)
    decreases |path|
  {
    var node := FindEntry(entries, path[0]);
    if |path| > 1 && node.Some? && node.value.DirNode? {
      ResolveWellFormed(node.value.entries, path[1..]);
    }
  }

  lemma DirectoryInOrder(path: string, entries: seq<Entry>, filter: string)
    requires WellFormed(entries)
    ensures Sorted(ListDirectory(path, entries, filter)) && Distinct(ListDirectory(path, entries, filter))
  {
    hide Sort, Walk;
    WalkDistinct(entries);
    UnderDistinct("", Walk(entries));
    FilterDistinct((key: string) => filter <= key, Under("", Walk(entries)));
    UnderDistinct(path, Visited("", filter, Walk(entries)));
    SortDistinct(Under(path, Visited("", filter, Walk(entries))));
    SortSorts(Under(path, Visited("", filter, Walk(entries))));
  }

  lemma UnderDistinct(directory: string, keys: seq<string>)
    requires Distinct(keys)
    ensures Distinct(Under(directory, keys))
  {
    var all := Under(directory, keys);
    forall i, j | 0 <= i < j < |all| ensures all[i] != all[j] {
      assert all[i][|directory|..] == keys[i] && all[j][|directory|..] == keys[j];
    }
  }
}
