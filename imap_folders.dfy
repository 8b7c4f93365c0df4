/** The `parseBoxes` flattening inside `ExchangeImapService.listFolders`: the server's folder
    tree becomes a list of path-qualified folder records, in preorder. */
module ImapFolders {
  import opened Wrappers
  import opened EmailTypes

  /** `info.delimiter` as the mailbox library reports it: a string, `null` for a flat
      hierarchy, or absent. */
  datatype Delimiter = DelimText(text: string) | DelimNull | DelimAbsent

  /** One `[name, info]` entry of the box object, in `Object.entries` order, with the
      properties of `info`. A falsy or non-object `children` flattens to nothing, exactly as an
      empty children object does, so all three are `[]` here. */
  datatype BoxEntry = BoxEntry(
    name: string,
    delimiter: Delimiter,
    attribs: Option<seq<string>>,
    flags: Option<seq<string>>,
    children: seq<BoxEntry>)

  /** The text `+` makes of the delimiter. */
  function DelimiterText(d: Delimiter): string {
    match d
    case DelimText(s) => s
    case DelimNull => "null"
    case DelimAbsent => "undefined"
  }

  /** `info.delimiter || '/'`. */
  function DelimiterOrSlash(d: Delimiter): (r: string)
    ensures r != ""
    ensures d.DelimText? && d.text != "" ==> r == d.text
    ensures !(d.DelimText? && d.text != "") ==> r == "/"
  {
    if d.DelimText? && d.text != "" then d.text else "/"
  }

  /** `path ? path + info.delimiter + name : name`. */
  function FullPath(path: string, e: BoxEntry): (r: string)
    ensures path == "" ==> r == e.name
    ensures path != "" ==> r == path + DelimiterText(e.delimiter) + e.name
  {
    if path != "" then path + DelimiterText(e.delimiter) + e.name else e.name
  }

  /** The folder record made for one entry under `path`. */
  function FolderFor(e: BoxEntry, path: string): (f: EmailFolder)
    ensures f.name == e.name && f.path == FullPath(path, e)
    ensures f.delimiter == DelimiterOrSlash(e.delimiter)
    ensures f.attributes == e.attribs.GetOr([]) && f.flags == e.flags.GetOr([])
  {
    EmailFolder(e.name, FullPath(path, e), DelimiterOrSlash(e.delimiter),
                e.attribs.GetOr([]), e.flags.GetOr([]))
  }

  /** `parseBoxes(boxObj, path)`: `Object.entries(boxObj).flatMap(...)`, where each entry gives
      its folder followed by the flattening of its children under the entry's full path. */
  function ParseBoxes(entries: seq<BoxEntry>, path: string): seq<EmailFolder>
    decreases entries
  {
    if entries == [] then []
    else
      var e := entries[0];
      assert e in entries;
      ParseEntry(e, path) + ParseBoxes(entries[1..], path)
  }

  /** The part of the flattening one entry contributes. */
  function ParseEntry(e: BoxEntry, path: string): seq<EmailFolder>
    decreases e
  {
    [FolderFor(e, path)] + ParseBoxes(e.children, FullPath(path, e))
  }

  /** The number of folders in a forest, counted independently of the flattening. */
  function NodeCount(entries: seq<BoxEntry>): nat
    decreases entries
  {
    if entries == [] then 0
    else
      assert entries[0] in entries;
      Size(entries[0]) + NodeCount(entries[1..])
  }

  function Size(e: BoxEntry): nat
    decreases e
  {
    1 + NodeCount(e.children)
  }

  /** One folder per node of the tree. */
  lemma {:induction false} CountIsNodeCount(entries: seq<BoxEntry>, path: string)
    ensures |ParseBoxes(entries, path)| == NodeCount(entries)
    decreases entries
  {
    if entries != [] {
      assert entries[0] in entries;
      EntryCount(entries[0], path);
      CountIsNodeCount(entries[1..], path);
    }
  }

  lemma {:induction false} EntryCount(e: BoxEntry, path: string)
    ensures |ParseEntry(e, path)| == Size(e)
    decreases e
  {
    CountIsNodeCount(e.children, FullPath(path, e));
  }

  /** Flattening distributes over concatenation of the entry list. */
  lemma {:induction false} ParseBoxesAppend(a: seq<BoxEntry>, b: seq<BoxEntry>, path: string)
    ensures ParseBoxes(a + b, path) == ParseBoxes(a, path) + ParseBoxes(b, path)
    decreases |a|
  {
    if a != [] {
      ParseBoxesCons(a, b, path);
      ParseBoxesAppend(a[1..], b, path);
    } else {
      assert a + b == b;
    }
  }

  /** The flattening of `a + b` starts with the first entry of a non-empty `a`. */
  lemma ParseBoxesCons(a: seq<BoxEntry>, b: seq<BoxEntry>, path: string)
    requires a != []
    ensures ParseBoxes(a + b, path) == ParseEntry(a[0], path) + ParseBoxes(a[1..] + b, path)
    ensures ParseBoxes(a, path) == ParseEntry(a[0], path) + ParseBoxes(a[1..], path)
  {
    assert (a + b)[0] == a[0];
    assert (a + b)[1..] == a[1..] + b;
  }

  /** Preorder: entry `k` gives its folder right after the folders of the entries before it,
      immediately followed by its own descendants, and the rest follows them. */
  lemma Preorder(entries: seq<BoxEntry>, path: string, k: nat)
    requires k < |entries|
    ensures ParseBoxes(entries, path) ==
      ParseBoxes(entries[..k], path) + ParseEntry(entries[k], path) + ParseBoxes(entries[k + 1..], path)
    ensures ParseEntry(entries[k], path) ==
      [FolderFor(entries[k], path)] + ParseBoxes(entries[k].children, FullPath(path, entries[k]))
  {
    var tail := entries[k..];
    assert entries == entries[..k] + tail;
    ParseBoxesAppend(entries[..k], tail, path);
    assert tail[0] == entries[k];
    assert tail[1..] == entries[k + 1..];
    assert ParseBoxes(tail, path) == ParseEntry(entries[k], path) + ParseBoxes(entries[k + 1..], path);
  }

  /** Where entry `k`'s folder lands: after the folders of all entries before it. */
  lemma PreorderPosition(entries: seq<BoxEntry>, path: string, k: nat)
    requires k < |entries|
    ensures NodeCount(entries[..k]) < |ParseBoxes(entries, path)|
    ensures ParseBoxes(entries, path)[NodeCount(entries[..k])] == FolderFor(entries[k], path)
  {
    Preorder(entries, path, k);
    CountIsNodeCount(entries[..k], path);
    var pre := ParseBoxes(entries[..k], path);
    var mid := ParseEntry(entries[k], path);
    assert mid[0] == FolderFor(entries[k], path);
    assert (pre + mid + ParseBoxes(entries[k + 1..], path))[|pre|] == mid[0];
  }

  /** A top-level folder's path is its name. */
  lemma TopLevelPath(entries: seq<BoxEntry>, k: nat)
    requires k < |entries|
    ensures NodeCount(entries[..k]) < |ParseBoxes(entries, "")|
    ensures ParseBoxes(entries, "")[NodeCount(entries[..k])].path == entries[k].name
  {
    PreorderPosition(entries, "", k);
  }

  function StartsWith(s: string, p: string): bool {
    |p| <= |s| && s[..|p|] == p
  }

  /** Under a non-empty path, every folder's path extends that path. */
  lemma {:induction false} PathsExtendParent(entries: seq<BoxEntry>, path: string)
    requires path != ""
    ensures forall f :: f in ParseBoxes(entries, path) ==> StartsWith(f.path, path)
    decreases entries
  {
    if entries != [] {
      assert entries[0] in entries;
      EntryPathsExtendParent(entries[0], path);
      PathsExtendParent(entries[1..], path);
    }
  }

  lemma {:induction false} EntryPathsExtendParent(e: BoxEntry, path: string)
    requires path != ""
    ensures forall f :: f in ParseEntry(e, path) ==> StartsWith(f.path, path)
    decreases e
  {
    var full := FullPath(path, e);
    assert full == path + (DelimiterText(e.delimiter) + e.name);
    assert StartsWith(full, path);
    PathsExtendParent(e.children, full);
    forall f | f in ParseBoxes(e.children, full)
      ensures StartsWith(f.path, path)
    {
      assert f.path[..|full|] == full;
      assert f.path[..|path|] == f.path[..|full|][..|path|];
    }
  }

  /** A folder with no delimiter, attributes or flags gets `/`, `[]` and `[]`. */
  lemma Defaults(name: string, path: string)
    ensures FolderFor(BoxEntry(name, DelimAbsent, None, None, []), path).delimiter == "/"
    ensures FolderFor(BoxEntry(name, DelimNull, None, None, []), path).delimiter == "/"
    ensures FolderFor(BoxEntry(name, DelimText(""), None, None, []), path).attributes == []
    ensures FolderFor(BoxEntry(name, DelimText(""), None, None, []), path).flags == []
  {
  }

  /** A missing delimiter still enters the path as the text `undefined`, while the record shows `/`. */
  lemma AbsentDelimiterInPath(parent: string, name: string)
    requires parent != ""
    ensures FolderFor(BoxEntry(name, DelimAbsent, None, None, []), parent).path == parent + "undefined" + name
  {
  }
}
