/** File patches of worker/git_diff.go: which text goes into each side, and the chunks in between.
    The line differ, the object store and the work tree are parameters. */
module GitDiff {
  import opened Basics

  // ---- chunks ----

  datatype DiffOp = DiffDelete | DiffInsert | DiffEqual

  datatype Diff = Diff(op: DiffOp, text: string)

  datatype ChunkOp = Equal | Add | Delete

  datatype Chunk = Chunk(content: string, op: ChunkOp)

  /** diff.Do */
  type Differ = (string, string) -> seq<Diff>

  function MapDiffOp(op: DiffOp): ChunkOp {
    match op
    case DiffInsert => Add
    case DiffDelete => Delete
    case DiffEqual => Equal
  }

  /** The chunks for a list of diffs: the nonempty ones, in order. */
  function Kept(diffs: seq<Diff>): seq<Chunk> {
    if diffs == [] then []
    else
      var front, d := Kept(diffs[..|diffs| - 1]), diffs[|diffs| - 1];
      if d.text == "" then front else front + [Chunk(d.text, MapDiffOp(d.op))]
  }

  method BuildChunks(differ: Differ, fromContent: string, toContent: string) returns (chunks: seq<Chunk>)
    ensures chunks == Kept(differ(fromContent, toContent))
  {
    var diffs := differ(fromContent, toContent);
    chunks := [];
    for i := 0 to |diffs|
      invariant chunks == Kept(diffs[..i])
    {
      assert diffs[..i + 1][..i] == diffs[..i];
      if diffs[i].text == "" {
        continue;
      }
      chunks := chunks + [Chunk(diffs[i].text, MapDiffOp(diffs[i].op))];
    }
    assert diffs[..|diffs|] == diffs;
  }

  /** The text before the change (everything but the additions) and after it (but the deletions). */
  function OldText(chunks: seq<Chunk>): string {
    if chunks == [] then ""
    else
      var front, c := OldText(chunks[..|chunks| - 1]), chunks[|chunks| - 1];
      if c.op.Add? then front else front + c.content
  }

  function NewText(chunks: seq<Chunk>): string {
    if chunks == [] then ""
    else
      var front, c := NewText(chunks[..|chunks| - 1]), chunks[|chunks| - 1];
      if c.op.Delete? then front else front + c.content
  }

  function DiffOld(diffs: seq<Diff>): string {
    if diffs == [] then ""
    else
      var front, d := DiffOld(diffs[..|diffs| - 1]), diffs[|diffs| - 1];
      if d.op.DiffInsert? then front else front + d.text
  }

  function DiffNew(diffs: seq<Diff>): string {
    if diffs == [] then ""
    else
      var front, d := DiffNew(diffs[..|diffs| - 1]), diffs[|diffs| - 1];
      if d.op.DiffDelete? then front else front + d.text
  }

  /** What diff.Do promises for one pair of texts. */
  predicate DiffContract(differ: Differ, a: string, b: string) {
    DiffOld(differ(a, b)) == a && DiffNew(differ(a, b)) == b
  }

  lemma {:induction false} KeptTexts(diffs: seq<Diff>)
    ensures OldText(Kept(diffs)) == DiffOld(diffs) && NewText(Kept(diffs)) == DiffNew(diffs)
    ensures forall i :: 0 <= i < |Kept(diffs)| ==> Kept(diffs)[i].content != ""
  {
    if diffs != [] {
      var d := diffs[|diffs| - 1];
      KeptTexts(diffs[..|diffs| - 1]);
      var front := Kept(diffs[..|diffs| - 1]);
      if d.text != "" {
        assert (front + [Chunk(d.text, MapDiffOp(d.op))])[..|front|] == front;
      }
    }
  }

  /** The chunks rebuild the old text from Equal and Delete and the new text from Equal and Add, and none
      of them is empty. */
  lemma ChunksRebuild(differ: Differ, a: string, b: string)
    requires DiffContract(differ, a, b)
    ensures var chunks := Kept(differ(a, b));
      && OldText(chunks) == a && NewText(chunks) == b
      && forall i :: 0 <= i < |chunks| ==> chunks[i].content != ""
  {
    KeptTexts(differ(a, b));
  }

  predicate AllAre(chunks: seq<Chunk>, op: ChunkOp) {
    forall i :: 0 <= i < |chunks| ==> chunks[i].op == op
  }

  lemma {:induction false} NothingOld(chunks: seq<Chunk>)
    requires OldText(chunks) == "" && forall i :: 0 <= i < |chunks| ==> chunks[i].content != ""
    ensures AllAre(chunks, Add)
  {
    if chunks != [] {
      var front, c := chunks[..|chunks| - 1], chunks[|chunks| - 1];
      assert c.content != "";
      assert c.op.Add?;
      NothingOld(front);
      forall i | 0 <= i < |chunks| ensures chunks[i].op == Add {
        if i < |front| { assert front[i].op == Add; }
      }
    }
  }

  lemma {:induction false} NothingNew(chunks: seq<Chunk>)
    requires NewText(chunks) == "" && forall i :: 0 <= i < |chunks| ==> chunks[i].content != ""
    ensures AllAre(chunks, Delete)
  {
    if chunks != [] {
      var front, c := chunks[..|chunks| - 1], chunks[|chunks| - 1];
      assert c.content != "";
      assert c.op.Delete?;
      NothingNew(front);
      forall i | 0 <= i < |chunks| ensures chunks[i].op == Delete {
        if i < |front| { assert front[i].op == Delete; }
      }
    }
  }

  // ---- file patches ----

  datatype File = File(hash: int, path: string)

  datatype FilePatch = FilePatch(from: Option<File>, to: Option<File>, chunks: seq<Chunk>, isBinary: bool)

  /** One side of a patch: what the code loaded. A zero hash and no text when nothing was found. */
  datatype Side = Side(content: string, binary: bool, hash: int)

  const NO_SIDE: Side := Side("", false, 0)

  function BuildFilePatch(differ: Differ, name: string, from: Side, to: Side, isDelete: bool): FilePatch {
    BuildFilePatchEx(differ, name, from, to, false, isDelete)
  }

  function BuildFilePatchEx(differ: Differ, name: string, from: Side, to: Side, isNew: bool, isDelete: bool): FilePatch
  {
    var fromFile := if isNew then None else Some(File(from.hash, name));
    var toFile := if isDelete then None else Some(File(to.hash, name));
    if from.binary || to.binary then FilePatch(fromFile, toFile, [], true)
    else FilePatch(fromFile, toFile, Kept(differ(from.content, to.content)), false)
  }

  // ---- what the sides are loaded from ----

  /** `Unreadable`: the object is missing or cannot be decoded. */
  datatype Blob = Unreadable | Binary | Text(content: string)

  datatype Entry = Entry(name: string, hash: int, blob: Blob)

  datatype StatusCode = Unmodified | Untracked | Modified | Added | Deleted | Renamed | Copied | Updated

  datatype FileStatus = FileStatus(staging: StatusCode, worktree: StatusCode)

  function Loaded(hash: int, blob: Blob): Side {
    match blob
    case Unreadable => Side("", false, hash)
    case Binary => Side("", true, hash)
    case Text(content) => Side(content, false, hash)
  }

  /** The first index entry of that name. */
  function IndexEntry(index: seq<Entry>, name: string): Option<Entry> {
    if index == [] then None
    else if index[0].name == name then Some(index[0])
    else IndexEntry(index[1..], name)
  }

  predicate IsFirst(index: seq<Entry>, name: string, i: nat) {
    i < |index| && index[i].name == name && forall j :: 0 <= j < i ==> index[j].name != name
  }

  /** The entry found has the name, and no entry before it has; there is none exactly if no entry has it. */
  lemma {:induction false} IndexEntryIsFirst(index: seq<Entry>, name: string)
    ensures IndexEntry(index, name).None? <==> forall i :: 0 <= i < |index| ==> index[i].name != name
    ensures IndexEntry(index, name).Some? ==>
      exists i: nat :: IsFirst(index, name, i) && IndexEntry(index, name) == Some(index[i])
  {
    if index != [] {
      if index[0].name == name {
        assert IsFirst(index, name, 0);
      } else {
        var rest := index[1..];
        IndexEntryIsFirst(rest, name);
        assert forall i :: 0 < i < |index| ==> index[i] == rest[i - 1];
        if i: nat :| IsFirst(rest, name, i) && IndexEntry(rest, name) == Some(rest[i]) {
          assert IsFirst(index, name, i + 1);
        }
      }
    }
  }

  function SideOf(entry: Option<Entry>): Side {
    match entry
    case None => NO_SIDE
    case Some(e) => Loaded(e.hash, e.blob)
  }

  function FromIndex(index: seq<Entry>, name: string): Side {
    SideOf(IndexEntry(index, name))
  }

  method LoadFromIndex(index: seq<Entry>, name: string) returns (side: Side)
    ensures side == FromIndex(index, name)
  {
    side := NO_SIDE;
    for i := 0 to |index|
      invariant side == NO_SIDE && IndexEntry(index, name) == IndexEntry(index[i..], name)
    {
      if index[i].name == name {
        return Loaded(index[i].hash, index[i].blob);
      }
    }
  }

  /** HEAD's file of that name; `None` when there is no commit yet. */
  type HeadTree = Option<map<string, Entry>>

  function HeadEntry(head: HeadTree, name: string): Option<Entry> {
    if head.Some? && name in head.value then Some(head.value[name]) else None
  }

  lemma HeadEntryIs(head: HeadTree, name: string)
    ensures head.None? ==> HeadEntry(head, name) == None
    ensures head.Some? ==> forall e :: HeadEntry(head, name) == Some(e) <==> (name, e) in head.value.Items
  {
  }

  function FromHead(head: HeadTree, name: string): Side {
    SideOf(HeadEntry(head, name))
  }

  function StagedPatch(differ: Differ, name: string, staging: StatusCode, head: HeadTree, index: seq<Entry>): FilePatch
  {
    var from := if staging.Added? then NO_SIDE else FromHead(head, name);
    var to := if staging.Deleted? then NO_SIDE else FromIndex(index, name);
    BuildFilePatchEx(differ, name, from, to, staging.Added?, staging.Deleted?)
  }

  predicate Selected(name: string, code: StatusCode, filterPath: string) {
    !code.Unmodified? && !code.Untracked? && (filterPath == "" || name == filterPath)
  }

  /** What is selected: any change that is known to git, of the file asked for or of any file. */
  lemma SelectedIff(name: string, code: StatusCode, filterPath: string)
    ensures Selected(name, code, filterPath) <==>
      && code in {Modified, Added, Deleted, Renamed, Copied, Updated}
      && filterPath in {"", name}
  {
  }

  /** One patch for each selected name, in the order `names` in which the status map is visited. */
  ghost predicate StagedFor(patches: seq<FilePatch>, names: seq<string>, differ: Differ,
                            status: map<string, FileStatus>, head: HeadTree, index: seq<Entry>, filterPath: string,
                            visited: set<string>)
  {
    && Distinct(names) && |patches| == |names|
    && (forall name :: name in names <==>
          name in status && name in visited && Selected(name, status[name].staging, filterPath))
    && forall i :: 0 <= i < |names| ==>
         names[i] in status && patches[i] == StagedPatch(differ, names[i], status[names[i]].staging, head, index)
  }

  /** What reading HEAD gives: its commit or its tree may be unreadable, which is an error; a repository
      without a commit is not. */
  datatype HeadRead = NoHead | BadCommit | BadTree | Tree(files: map<string, Entry>)

  function TreeRead(read: HeadRead): HeadTree {
    if read.Tree? then Some(read.files) else None
  }

  /** `indexRead` is `None` for an index that cannot be read. */
  method BuildStagedDiff(differ: Differ, status: map<string, FileStatus>, headRead: HeadRead,
                         indexRead: Option<seq<Entry>>, filterPath: string)
    returns (ok: bool, patches: seq<FilePatch>)
    ensures ok <==> !headRead.BadCommit? && !headRead.BadTree? && indexRead.Some?
    ensures ok ==> exists names ::
      StagedFor(patches, names, differ, status, TreeRead(headRead), indexRead.value, filterPath, status.Keys)
  {
    ok, patches := false, [];
    ghost var names := [];
    if headRead.BadCommit? || headRead.BadTree? || indexRead.None? {
      return;
    }
    ok := true;
    var head, index := TreeRead(headRead), indexRead.value;
    var todo: set<string> := status.Keys;
    while todo != {}
      invariant todo <= status.Keys
      invariant StagedFor(patches, names, differ, status, head, index, filterPath, status.Keys - todo)
      decreases todo
    {
      var name := NextKey(todo);
      todo := todo - {name};
      var staging := status[name].staging;
      if staging.Unmodified? || staging.Untracked? {
        continue;
      }
      if filterPath != "" && name != filterPath {
        continue;
      }
      var from := NO_SIDE;
      if head.Some? && !staging.Added? {
        from := FromHead(head, name);
      }
      var to := NO_SIDE;
      if !staging.Deleted? {
        to := LoadFromIndex(index, name);
      }
      patches := patches + [BuildFilePatchEx(differ, name, from, to, staging.Added?, staging.Deleted?)];
      names := names + [name];
    }
    assert status.Keys - todo == status.Keys;
  }

  // ---- unstaged changes ----

  /** A null byte within the first 8000. */
  function IsBinaryContent(data: string): bool {
    '\0' in data[..if |data| > 8000 then 8000 else |data|]
  }

  lemma BinaryContentIff(data: string)
    ensures IsBinaryContent(data) <==> HasNull(data, 8000)
  {
    var start := data[..if |data| > 8000 then 8000 else |data|];
    assert forall i :: 0 <= i < |start| ==> start[i] == data[i];
  }

  /** plumbing.ComputeHash */
  type Hasher = string -> int

  function FromDisk(data: string, hasher: Hasher): Side {
    Side(if IsBinaryContent(data) then "" else data, IsBinaryContent(data), hasher(data))
  }

  function UnstagedPatch(differ: Differ, hasher: Hasher, name: string, code: StatusCode, index: seq<Entry>,
                         disk: map<string, string>): FilePatch
    requires code.Deleted? || name in disk
  {
    BuildFilePatch(differ, name, FromIndex(index, name),
                   if code.Deleted? then NO_SIDE else FromDisk(disk[name], hasher), code.Deleted?)
  }

  ghost predicate UnstagedFor(patches: seq<FilePatch>, names: seq<string>, differ: Differ, hasher: Hasher,
                              status: map<string, FileStatus>, index: seq<Entry>, disk: map<string, string>,
                              filterPath: string, visited: set<string>)
  {
    && Distinct(names) && |patches| == |names|
    && (forall name :: name in names <==>
          name in status && name in visited && Selected(name, status[name].worktree, filterPath))
    && forall i :: 0 <= i < |names| ==>
         && names[i] in status && (status[names[i]].worktree.Deleted? || names[i] in disk)
         && patches[i] == UnstagedPatch(differ, hasher, names[i], status[names[i]].worktree, index, disk)
  }

  /** `disk` holds the work tree files that can be read; another file ends the call with an error, and so
      does an index that cannot be read. */
  method BuildUnstagedDiff(differ: Differ, hasher: Hasher, status: map<string, FileStatus>,
                           indexRead: Option<seq<Entry>>, disk: map<string, string>, filterPath: string)
    returns (ok: bool, patches: seq<FilePatch>)
    ensures ok <==>
      && indexRead.Some?
      && forall name :: name in status && Selected(name, status[name].worktree, filterPath) ==>
           status[name].worktree.Deleted? || name in disk
    ensures ok ==> exists names ::
      UnstagedFor(patches, names, differ, hasher, status, indexRead.value, disk, filterPath, status.Keys)
  {
    ok, patches := false, [];
    ghost var names := [];
    if indexRead.None? {
      return;
    }
    ok := true;
    var index := indexRead.value;
    var todo: set<string> := status.Keys;
    while todo != {}
      invariant ok && todo <= status.Keys
      invariant UnstagedFor(patches, names, differ, hasher, status, index, disk, filterPath, status.Keys - todo)
      decreases todo
    {
      var name := NextKey(todo);
      todo := todo - {name};
      var code := status[name].worktree;
      if code.Unmodified? || code.Untracked? {
        continue;
      }
      if filterPath != "" && name != filterPath {
        continue;
      }
      var from := LoadFromIndex(index, name);
      var to := NO_SIDE;
      if !code.Deleted? {
        if name !in disk {
          return false, [];
        }
        to := FromDisk(disk[name], hasher);
      }
      patches := patches + [BuildFilePatch(differ, name, from, to, code.Deleted?)];
      names := names + [name];
    }
    assert status.Keys - todo == status.Keys;
  }

  // ---- what a patch says ----

  /** The text of a blob that is readable text. */
  function TextOf(blob: Blob): string {
    if blob.Text? then blob.content else ""
  }

  function BlobOf(entry: Option<Entry>): Blob {
    if entry.Some? then entry.value.blob else Unreadable
  }

  /** The recorded hash, or the zero hash. */
  function HashOf(entry: Option<Entry>): int {
    if entry.Some? then entry.value.hash else 0
  }

  lemma SideShows(entry: Option<Entry>)
    ensures SideOf(entry) == Side(TextOf(BlobOf(entry)), BlobOf(entry).Binary?, HashOf(entry))
  {
  }

  lemma PatchMeaning(differ: Differ, name: string, from: Side, to: Side, isNew: bool, isDelete: bool)
    requires DiffContract(differ, from.content, to.content)
    requires (isNew ==> from == NO_SIDE) && (isDelete ==> to == NO_SIDE)
    ensures var p := BuildFilePatchEx(differ, name, from, to, isNew, isDelete);
      && p.from == (if isNew then None else Some(File(from.hash, name)))
      && p.to == (if isDelete then None else Some(File(to.hash, name)))
      && (p.isBinary <==> from.binary || to.binary)
      && (p.isBinary ==> p.chunks == [])
      && (!p.isBinary ==> OldText(p.chunks) == from.content && NewText(p.chunks) == to.content)
      && (isNew ==> AllAre(p.chunks, Add))
      && (isDelete ==> AllAre(p.chunks, Delete))
  {
    ChunksRebuild(differ, from.content, to.content);
    var chunks := Kept(differ(from.content, to.content));
    if isNew { NothingOld(chunks); }
    if isDelete { NothingNew(chunks); }
  }

  /** A staged patch that is not marked binary turns HEAD's text into the index's text; an added file has
      no old side and only Add chunks that spell the index's text, a deleted one no new side and only
      Delete chunks that spell HEAD's. An object that cannot be read counts as empty text. */
  lemma StagedPatchMeaning(differ: Differ, name: string, staging: StatusCode, head: HeadTree, index: seq<Entry>)
    requires forall a, b :: DiffContract(differ, a, b)
    ensures var p := StagedPatch(differ, name, staging, head, index);
      var prior, latest := HeadEntry(head, name), IndexEntry(index, name);
      var before := if staging.Added? then Unreadable else BlobOf(prior);
      var after := if staging.Deleted? then Unreadable else BlobOf(latest);
      && p.from == (if staging.Added? then None else Some(File(HashOf(prior), name)))
      && p.to == (if staging.Deleted? then None else Some(File(HashOf(latest), name)))
      && (p.isBinary <==> before.Binary? || after.Binary?)
      && (p.isBinary ==> p.chunks == [])
      && (!p.isBinary ==> OldText(p.chunks) == TextOf(before) && NewText(p.chunks) == TextOf(after))
      && (staging.Added? ==> AllAre(p.chunks, Add))
      && (staging.Deleted? ==> AllAre(p.chunks, Delete))
  {
    var from := if staging.Added? then NO_SIDE else FromHead(head, name);
    var to := if staging.Deleted? then NO_SIDE else FromIndex(index, name);
    assert DiffContract(differ, from.content, to.content);
    SideShows(HeadEntry(head, name));
    SideShows(IndexEntry(index, name));
    PatchMeaning(differ, name, from, to, staging.Added?, staging.Deleted?);
  }

  /** An unstaged patch that is not marked binary turns the index's text into the file on disk, or into
      nothing for a deleted file. */
  lemma UnstagedPatchMeaning(differ: Differ, hasher: Hasher, name: string, code: StatusCode, index: seq<Entry>,
                             disk: map<string, string>)
    requires code.Deleted? || name in disk
    requires forall a, b :: DiffContract(differ, a, b)
    ensures var p := UnstagedPatch(differ, hasher, name, code, index, disk);
      var before := BlobOf(IndexEntry(index, name));
      && p.from == Some(File(HashOf(IndexEntry(index, name)), name))
      && p.to == (if code.Deleted? then None else Some(File(hasher(disk[name]), name)))
      && (p.isBinary <==> before.Binary? || (!code.Deleted? && HasNull(disk[name], 8000)))
      && (p.isBinary ==> p.chunks == [])
      && (!p.isBinary ==>
            OldText(p.chunks) == TextOf(before) && NewText(p.chunks) == if code.Deleted? then "" else disk[name])
      && (code.Deleted? ==> AllAre(p.chunks, Delete))
  {
    var from := FromIndex(index, name);
    var to := if code.Deleted? then NO_SIDE else FromDisk(disk[name], hasher);
    assert DiffContract(differ, from.content, to.content);
    SideShows(IndexEntry(index, name));
    PatchMeaning(differ, name, from, to, false, code.Deleted?);
    if !code.Deleted? {
      BinaryContentIff(disk[name]);
    }
  }
}
