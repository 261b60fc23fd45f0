/**
  How the indexer cuts one file (internal/indexer/indexer.go): the cutter that the walks of module Indexer and
  the generations of module IndexGeneration take as given. The ignore globs, the language table, the sniffing of
  binaries, the parser and the cut at a rune boundary are parameters.
 */
module FileCutter {
  import opened Text
  import Indexer
  import Windows

  datatype Rules = Rules(
    maxFileBytes: int, ignored: string -> bool, known: string -> bool, binary: string -> bool, utf8: string -> bool,
    parse: (string, string) -> seq<Windows.Decl>, prefix: string -> string, pieces: Windows.Options)

  /** A file that is too large, ignored, of no known language, binary, empty or not UTF-8. */
  predicate Skips(r: Rules, f: Indexer.SourceFile) {
    || |f.content| > r.maxFileBytes || r.ignored(f.path) || !r.known(f.path)
    || r.binary(f.content) || f.content == "" || !r.utf8(f.content)
  }

  function ChunkOf(r: Rules, f: Indexer.SourceFile, p: Windows.Piece): Indexer.Chunk {
    var first, last := Windows.First(p), Windows.Last(p);
    Indexer.Chunk(f.path, first, last, r.prefix(Windows.RangeOf(f.content, first, last)))
  }

  /** A chunk a piece, but for those without text. */
  function ChunksOf(r: Rules, f: Indexer.SourceFile, pieces: seq<Windows.Piece>): seq<Indexer.Chunk> {
    if pieces == [] then []
    else
      var c := ChunkOf(r, f, pieces[|pieces| - 1]);
      ChunksOf(r, f, pieces[..|pieces| - 1]) + if c.text == "" then [] else [c]
  }

  function PiecesIn(r: Rules, f: Indexer.SourceFile): seq<Windows.Piece> {
    Windows.Pieces(r.parse(f.path, f.content), f.content, r.pieces)
  }

  function CutFile(r: Rules, f: Indexer.SourceFile): Indexer.Cut {
    if Skips(r, f) then Indexer.Skipped else Indexer.Pieces(ChunksOf(r, f, PiecesIn(r, f)))
  }

  /** The part of `file` past its budget check. */
  method File(r: Rules, f: Indexer.SourceFile) returns (cut: Indexer.Cut)
    ensures cut == CutFile(r, f)
    ensures cut.Skipped? <==>
            |f.content| > r.maxFileBytes || r.ignored(f.path) || !r.known(f.path) || r.binary(f.content)
            || |f.content| == 0 || !r.utf8(f.content)
  {
    hide Windows.Pieces, Windows.RangeOf;
    if |f.content| > r.maxFileBytes || r.ignored(f.path) || !r.known(f.path) || r.binary(f.content)
       || f.content == "" || !r.utf8(f.content) {
      return Indexer.Skipped;
    }
    var pieces := Windows.PiecesOfFile(r.parse(f.path, f.content), f.content, r.pieces);
    var chunks: seq<Indexer.Chunk> := [];
    for i := 0 to |pieces|
      invariant chunks == ChunksOf(r, f, pieces[..i])
    {
      assert pieces[..i + 1][..i] == pieces[..i];
      var c := ChunkOf(r, f, pieces[i]);
      if c.text == "" {
        continue;
      }
      chunks := chunks + [c];
    }
    assert pieces[..|pieces|] == pieces;
    return Indexer.Pieces(chunks);
  }

  lemma {:induction false} ChunksAre(r: Rules, f: Indexer.SourceFile, pieces: seq<Windows.Piece>)
    ensures forall c :: c in ChunksOf(r, f, pieces) <==> c.text != "" && exists p :: p in pieces && c == ChunkOf(r, f, p)
    decreases |pieces|
  {
    hide ChunkOf;
    if pieces != [] {
      var before, last := pieces[..|pieces| - 1], pieces[|pieces| - 1];
      ChunksAre(r, f, before);
      assert pieces == before + [last];
      assert forall p :: p in pieces <==> p in before || p == last;
    }
  }

  /** Every chunk names its file and holds a cut of exactly its lines, and none is empty. */
  lemma ChunksHoldTheirLines(r: Rules, f: Indexer.SourceFile, c: Indexer.Chunk)
    requires c in Indexer.ChunksOf(CutFile(r, f))
    ensures !Skips(r, f) && c.path == f.path && c.text != ""
    ensures c.text == r.prefix(Windows.RangeOf(f.content, c.startLine, c.endLine))
  {
    hide Windows.Pieces, Windows.RangeOf, PiecesIn;
    ChunksAre(r, f, PiecesIn(r, f));
  }

  /** The text of a piece, cut to what a chunk may hold. */
  function TextOf(r: Rules, f: Indexer.SourceFile, p: Windows.Piece): string {
    match p
    case Whole(d) => r.prefix(Windows.RangeOf(f.content, d.startLine, d.endLine))
    case Part(_, startLine, endLine) => r.prefix(Windows.RangeOf(f.content, startLine, endLine))
  }

  /** Every piece of a file that is not skipped has its chunk, unless its text is empty. */
  lemma EveryPieceIsAChunk(r: Rules, f: Indexer.SourceFile, p: Windows.Piece)
    requires CutFile(r, f).Pieces? && p in Windows.Pieces(r.parse(f.path, f.content), f.content, r.pieces)
    requires TextOf(r, f, p) != ""
    ensures
      Indexer.Chunk(f.path, if p.Whole? then p.decl.startLine else p.startLine, if p.Whole? then p.decl.endLine else p.endLine,
                    TextOf(r, f, p)) in Indexer.ChunksOf(CutFile(r, f))
  {
    hide Windows.Pieces, Windows.RangeOf;
    ChunksAre(r, f, PiecesIn(r, f));
    assert ChunkOf(r, f, p).text == TextOf(r, f, p);
  }

  /** The chunks follow the pieces in order: those of the pieces so far come first. */
  lemma {:induction false} ChunksFollowThePieces(r: Rules, f: Indexer.SourceFile, pieces: seq<Windows.Piece>, k: nat)
    requires k <= |pieces|
    ensures ChunksOf(r, f, pieces[..k]) <= ChunksOf(r, f, pieces)
    decreases |pieces|
  {
    hide ChunkOf;
    if k == |pieces| {
      assert pieces[..k] == pieces;
    } else {
      assert pieces[..|pieces| - 1][..k] == pieces[..k];
      ChunksFollowThePieces(r, f, pieces[..|pieces| - 1], k);
    }
  }

  /** So the cutter is one the walks may take, and what they keep for any such cutter holds of this one. */
  lemma CutFileNamesItsFile(r: Rules)
    ensures Indexer.Names(f => CutFile(r, f))
  {
    forall f, c | c in Indexer.ChunksOf(CutFile(r, f)) ensures c.path == f.path {
      ChunksHoldTheirLines(r, f, c);
    }
  }
}
