/**
  internal/indexer/indexer.go: a repository tree is cut into chunks, all of it or only the paths that
  differ from a base tree. How one file is cut is a parameter: the work of the parser, of `pieces`
  (module Windows) and of the ignore globs, none of which look beyond the file.
 */
module Indexer {
  import opened Prelude

  datatype Chunk = Chunk(path: string, startLine: int, endLine: int, text: string)

  /** An entry of a git tree: a file, or a submodule's commit, which head.Files and head.File pass over. */
  datatype Entry = File(content: string) | Gitlink(commit: string)

  type Tree = map<string, Entry>

  datatype SourceFile = SourceFile(path: string, content: string)

  /** A change of a tree diff: paths on each side, "" for none; a rename has two different ones. */
  datatype Change = Change(from: string, to: string)

  /** MaxFiles, MaxBytes and MaxChunks: the budgets that stop a walk. */
  datatype Budget = Budget(files: int, bytes: int, chunks: int)

  /** How one file is cut: None when it is skipped (too large, ignored, binary, in no known language, empty, not UTF-8). */
  type Cutter = SourceFile -> Cut

  datatype Cut = Skipped | Pieces(chunks: seq<Chunk>)

  function ChunksOf(c: Cut): seq<Chunk> {
    match c
    case Skipped => []
    case Pieces(chunks) => chunks
  }

  /** Every chunk names the file it was cut from. */
  ghost predicate Names(cut: Cutter) {
    forall f, c :: c in ChunksOf(cut(f)) ==> c.path == f.path
  }

  /** The chunks of `files`, in walking order. */
  function CutAll(cut: Cutter, files: seq<SourceFile>): seq<Chunk> {
    if files == [] then []
    else CutAll(cut, files[..|files| - 1]) + ChunksOf(cut(files[|files| - 1]))
  }

  /** The chunks a tree has at a path. */
  function FileChunks(cut: Cutter, tree: Tree, path: string): seq<Chunk> {
    if path in tree && tree[path].File? then ChunksOf(cut(SourceFile(path, tree[path].content))) else []
  }

  /** The chunks of a list that belong to a path. */
  function At(chunks: seq<Chunk>, path: string): seq<Chunk> {
    if chunks == [] then []
    else (if chunks[0].path == path then [chunks[0]] else []) + At(chunks[1..], path)
  }

  lemma {:induction false} AtConcat(a: seq<Chunk>, b: seq<Chunk>, path: string)
    ensures At(a + b, path) == At(a, path) + At(b, path)
    decreases |a|
  {
    if a == [] {
      assert a + b == b;
    } else {
      var first := if a[0].path == path then [a[0]] else [];
      AtConcat(a[1..], b, path);
      assert (a + b)[1..] == a[1..] + b && (a + b)[0] == a[0];
      Assoc(first, At(a[1..], path), At(b, path));
    }
  }

  lemma {:induction false} AtOwn(chunks: seq<Chunk>, path: string, own: string)
    requires forall c :: c in chunks ==> c.path == own
    ensures At(chunks, path) == if path == own then chunks else []
    decreases |chunks|
  {
    if chunks != [] {
      AtOwn(chunks[1..], path, own);
    }
  }

  ghost predicate DistinctPaths(files: seq<SourceFile>) {
    forall i, j :: 0 <= i < j < |files| ==> files[i].path != files[j].path
  }

  /** `files` lists the files of the tree, each once, as head.Files does. */
  ghost predicate Lists(files: seq<SourceFile>, tree: Tree) {
    && (forall i :: 0 <= i < |files| ==> files[i].path in tree && tree[files[i].path] == File(files[i].content))
    && (forall path :: path in tree && tree[path].File? ==> SourceFile(path, tree[path].content) in files)
    && DistinctPaths(files)
  }

  lemma CutLastAt(cut: Cutter, files: seq<SourceFile>, path: string)
    requires Names(cut) && files != []
    ensures
      var last := files[|files| - 1];
      At(CutAll(cut, files), path) ==
      At(CutAll(cut, files[..|files| - 1]), path) + if last.path == path then ChunksOf(cut(last)) else []
  {
    var last := files[|files| - 1];
    AtOwn(ChunksOf(cut(last)), path, last.path);
    hide At;
    AtConcat(CutAll(cut, files[..|files| - 1]), ChunksOf(cut(last)), path);
  }

  lemma {:induction false} CutAllLacks(cut: Cutter, files: seq<SourceFile>, path: string)
    requires Names(cut) && forall f :: f in files ==> f.path != path
    ensures At(CutAll(cut, files), path) == []
    decreases |files|
  {
    if files != [] {
      CutLastAt(cut, files, path);
      hide CutAll, At, Names;
      CutAllLacks(cut, files[..|files| - 1], path);
    }
  }

  /** Cutting files of different paths leaves, at each path, what its own file was cut into. */
  lemma {:induction false} CutAllHas(cut: Cutter, files: seq<SourceFile>, f: SourceFile)
    requires Names(cut) && DistinctPaths(files) && f in files
    ensures At(CutAll(cut, files), f.path) == ChunksOf(cut(f))
    decreases |files|
  {
    var before, last := files[..|files| - 1], files[|files| - 1];
    CutLastAt(cut, files, f.path);
    assert files == before + [last];
    hide CutAll, At, Names;
    if f == last {
      assert forall g :: g in before ==> g.path != last.path;
      CutAllLacks(cut, before, f.path);
    } else {
      assert last.path != f.path by {
        var i :| 0 <= i < |before| && before[i] == f;
        assert files[i] == f;
      }
      CutAllHas(cut, before, f);
    }
  }

  /** A full walk holds, at every path, exactly the chunks of the file there. */
  lemma FullWalkAt(cut: Cutter, files: seq<SourceFile>, tree: Tree, path: string)
    requires Names(cut) && Lists(files, tree)
    ensures At(CutAll(cut, files), path) == FileChunks(cut, tree, path)
  {
    if path in tree && tree[path].File? {
      CutAllHas(cut, files, SourceFile(path, tree[path].content));
    } else {
      assert forall f :: f in files ==> f.path != path;
      CutAllLacks(cut, files, path);
    }
  }

  // ---- The incremental step ----

  /**
    What the tree diff promises: every path whose entry differs is a side of some change, no path is the
    new side of two, and a path that survives in head and is touched at all is the new side of one.
   */
  ghost predicate Diffs(changes: seq<Change>, base: Tree, head: Tree) {
    && (forall path :: path != "" && ((path in base) != (path in head) || (path in base && base[path] != head[path])) ==>
          Touched(changes, path))
    && (forall i, j :: 0 <= i < j < |changes| && changes[i].to != "" ==> changes[i].to != changes[j].to)
    && (forall c :: c in changes && c.to != "" ==> c.to in head)
    && (forall c :: c in changes && c.from != "" && c.from in head ==> exists d :: d in changes && d.to == c.from)
    && "" !in base && "" !in head
  }

  ghost predicate Touched(changes: seq<Change>, path: string) {
    path != "" && exists c :: c in changes && (c.from == path || c.to == path)
  }

  /** The files walkChanged cuts: the new sides that are files of head. */
  function NewSides(changes: seq<Change>, head: Tree): seq<SourceFile> {
    if changes == [] then []
    else
      var c := changes[|changes| - 1];
      NewSides(changes[..|changes| - 1], head) +
      if c.to in head && head[c.to].File? then [SourceFile(c.to, head[c.to].content)] else []
  }

  /** The paths walkChanged notes, each once, in order. */
  function Noted(changes: seq<Change>): seq<string> {
    if changes == [] then []
    else
      var c := changes[|changes| - 1];
      Note(Note(Noted(changes[..|changes| - 1]), c.from), c.to)
  }

  function Note(noted: seq<string>, path: string): seq<string> {
    if path == "" || path in noted then noted else noted + [path]
  }

  lemma {:induction false} NotedAreTouched(changes: seq<Change>, path: string)
    ensures path in Noted(changes) <==> Touched(changes, path)
    decreases |changes|
  {
    if changes != [] {
      var before, last := changes[..|changes| - 1], changes[|changes| - 1];
      NotedAreTouched(before, path);
      assert changes == before + [last];
    }
  }

  lemma {:induction false} NewSidesAre(changes: seq<Change>, head: Tree, f: SourceFile)
    requires "" !in head
    ensures f in NewSides(changes, head) <==>
            f.path in head && head[f.path] == File(f.content) && exists c :: c in changes && c.to == f.path
    decreases |changes|
  {
    if changes != [] {
      var before, last := changes[..|changes| - 1], changes[|changes| - 1];
      NewSidesAre(before, head, f);
      assert changes == before + [last];
    }
  }

  lemma {:induction false} NewSidesDiffer(changes: seq<Change>, head: Tree)
    requires "" !in head
    requires forall i, j :: 0 <= i < j < |changes| && changes[i].to != "" ==> changes[i].to != changes[j].to
    ensures DistinctPaths(NewSides(changes, head))
    decreases |changes|
  {
    if changes != [] {
      var before, last := changes[..|changes| - 1], changes[|changes| - 1];
      NewSidesDiffer(before, head);
      var files := NewSides(before, head);
      forall f | f in files
        ensures f.path != last.to
      {
        NewSidesAre(before, head, f);
        var c :| c in before && c.to == f.path;
        var i :| 0 <= i < |before| && before[i] == c;
        assert changes[i] == c && changes[|before|] == last;
      }
      var all := NewSides(changes, head);
      forall i, j | 0 <= i < j < |all|
        ensures all[i].path != all[j].path
      {
        assert all[i] == files[i] && files[i] in files;
        assert j < |files| ==> all[j] == files[j];
      }
    }
  }

  /**
    An incremental walk notes every path whose chunks may have changed and holds, at the noted paths,
    exactly head's chunks; elsewhere it holds nothing, and base and head agree.
   */
  lemma StepWalkAt(cut: Cutter, changes: seq<Change>, base: Tree, head: Tree, path: string)
    requires Names(cut) && Diffs(changes, base, head)
    ensures path in Noted(changes) ==> At(CutAll(cut, NewSides(changes, head)), path) == FileChunks(cut, head, path)
    ensures path !in Noted(changes) ==>
              && At(CutAll(cut, NewSides(changes, head)), path) == []
              && FileChunks(cut, base, path) == FileChunks(cut, head, path)
  {
    var files := NewSides(changes, head);
    NotedAreTouched(changes, path);
    NewSidesDiffer(changes, head);
    NewSideAt(changes, base, head, path);
    hide NewSides, Noted, CutAll, At, Touched, Names;
    if path in head && head[path].File? && path in Noted(changes) {
      CutAllHas(cut, files, SourceFile(path, head[path].content));
    } else {
      CutAllLacks(cut, files, path);
    }
  }

  lemma NewSideAt(changes: seq<Change>, base: Tree, head: Tree, path: string)
    requires Diffs(changes, base, head)
    ensures forall f :: f in NewSides(changes, head) && f.path == path ==>
              Touched(changes, path) && path in head && head[path] == File(f.content)
    ensures Touched(changes, path) && path in head && head[path].File? ==>
              SourceFile(path, head[path].content) in NewSides(changes, head)
  {
    forall f | f in NewSides(changes, head) && f.path == path
      ensures Touched(changes, path) && path in head && head[path] == File(f.content)
    {
      NewSidesAre(changes, head, f);
    }
    if Touched(changes, path) && path in head && head[path].File? {
      NewSidesAre(changes, head, SourceFile(path, head[path].content));
    }
  }

  // ---- The walk itself ----

  class Builder {
    const cut: Cutter
    const budget: Budget
    var chunks: seq<Chunk>
    var files: int
    var bytes: int
    var skipped: int
    var truncated: bool

    constructor (cut: Cutter, budget: Budget)
      ensures this.cut == cut && this.budget == budget
      ensures chunks == [] && files == 0 && bytes == 0 && skipped == 0 && !truncated
    {
      this.cut, this.budget := cut, budget;
      chunks, files, bytes, skipped, truncated := [], 0, 0, 0, false;
    }

    predicate Spent()
      reads this
    {
      files >= budget.files || bytes >= budget.bytes || |chunks| >= budget.chunks
    }

    /** Cuts one file, or reports that a budget is spent, which ends the walk. */
    method AddFile(f: SourceFile) returns (stop: bool)
      modifies this
      ensures stop <==> old(files) >= budget.files || old(bytes) >= budget.bytes || |old(chunks)| >= budget.chunks
      ensures stop ==> truncated && chunks == old(chunks) && files == old(files) && bytes == old(bytes) && skipped == old(skipped)
      ensures !stop ==> chunks == old(chunks) + ChunksOf(cut(f)) && truncated == old(truncated)
      ensures !stop ==>
                if cut(f).Skipped? then skipped == old(skipped) + 1 && files == old(files) && bytes == old(bytes)
                else skipped == old(skipped) && files == old(files) + 1 && bytes == old(bytes) + |f.content|
    {
      if Spent() {
        truncated := true;
        return true;
      }
      match cut(f) {
      case Skipped =>
        skipped := skipped + 1;
      case Pieces(pieces) =>
        files := files + 1;
        bytes := bytes + |f.content|;
        for i := 0 to |pieces|
          invariant chunks == old(chunks) + pieces[..i]
          invariant files == old(files) + 1 && bytes == old(bytes) + |f.content|
          invariant skipped == old(skipped) && truncated == old(truncated)
        {
          chunks := chunks + [pieces[i]];
        }
      }
      return false;
    }

    /** Chunks the whole tree; a walk no budget ended holds every file's chunks, a truncated one those of a proper prefix. */
    method WalkAll(head: seq<SourceFile>)
      requires chunks == [] && !truncated
      modifies this
      ensures !truncated ==> chunks == CutAll(cut, head)
      ensures truncated ==> files >= budget.files || bytes >= budget.bytes || |chunks| >= budget.chunks
      ensures truncated ==> exists k :: 0 <= k < |head| && chunks == CutAll(cut, head[..k])
    {
      for i := 0 to |head|
        invariant chunks == CutAll(cut, head[..i]) && !truncated
      {
        assert head[..i + 1][..i] == head[..i];
        var stop := AddFile(head[i]);
        if stop {
          return;
        }
      }
      assert head[..|head|] == head;
    }

    /** Chunks the paths that differ and lists them, the deleted ones included. */
    method WalkChanged(changes: seq<Change>, head: Tree) returns (changed: seq<string>)
      requires chunks == [] && !truncated
      modifies this
      ensures !truncated ==> chunks == CutAll(cut, NewSides(changes, head)) && changed == Noted(changes)
      ensures truncated ==> files >= budget.files || bytes >= budget.bytes || |chunks| >= budget.chunks
      ensures truncated ==> exists k :: 0 <= k < |changes| && chunks == CutAll(cut, NewSides(changes[..k], head))
    {
      changed := [];
      ghost var files: seq<SourceFile> := [];
      for i := 0 to |changes|
        invariant changed == Noted(changes[..i]) && files == NewSides(changes[..i], head)
        invariant chunks == CutAll(cut, files) && !truncated
      {
        assert changes[..i + 1][..i] == changes[..i];
        var c := changes[i];
        changed := Note(Note(changed, c.from), c.to);
        if c.to in head && head[c.to].File? {
          var f := SourceFile(c.to, head[c.to].content);
          assert (files + [f])[..|files|] == files;
          files := files + [f];
          var stop := AddFile(f);
          if stop {
            return;
          }
        }
      }
      assert changes[..|changes|] == changes;
    }
  }
}
