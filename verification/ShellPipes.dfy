/** The shell's command splitter, and the loop that joins the pieces of a pipeline again.
    A C string is the sequence of its characters before the terminator. */
module ShellPipes {

  datatype Flags = Flags(pipe: bool, redirOut: bool, redirIn: bool, background: bool, ifThenElse: bool)

  predicate IsSeparator(c: char) {
    c == '&' || c == '|' || c == '>' || c == '<' || c == ';'
  }

  function Raise(flags: Flags, c: char): Flags {
    if c == '&' then flags.(background := true)
    else if c == '|' then flags.(pipe := true)
    else if c == '>' then flags.(redirOut := true)
    else if c == '<' then flags.(redirIn := true)
    else if c == ';' then flags.(ifThenElse := true)
    else flags
  }

  /** Drops one trailing space. */
  function Trimmed(s: string): string {
    if s != "" && s[|s| - 1] == ' ' then s[..|s| - 1] else s
  }

  /** The splitter part-way: the text gathered so far and the pieces already cut. */
  datatype Scan = Scan(text: string, pieces: seq<string>, flags: Flags)

  function Feed(st: Scan, c: char): Scan {
    if IsSeparator(c) then Scan("", st.pieces + [Trimmed(st.text)], Raise(st.flags, c))
    else if st.text == "" && c == ' ' then st
    else st.(text := st.text + [c])
  }

  function FeedAll(st: Scan, line: string): Scan
    decreases |line|
  {
    if line == "" then st else FeedAll(Feed(st, line[0]), line[1..])
  }

  datatype Cut = Cut(pieces: seq<string>, flags: Flags)

  function Finish(st: Scan): Cut {
    Cut(if st.text != "" then st.pieces + [st.text] else st.pieces, st.flags)
  }

  function Split(line: string, flags: Flags): Cut {
    Finish(FeedAll(Scan("", [], flags), line))
  }

  function JoinedFrom(cmds: seq<string>): string
    requires cmds != []
  {
    if |cmds| == 1 then cmds[0] else cmds[0] + " | " + JoinedFrom(cmds[1..])
  }

  /** The line handed to `popen`. */
  function Joined(cmds: seq<string>): string
    requires cmds != []
  {
    " " + JoinedFrom(cmds)
  }

  // ---------- splitting what was joined ----------

  lemma {:induction false} FeedConcat(st: Scan, a: string, b: string)
    ensures FeedAll(st, a + b) == FeedAll(FeedAll(st, a), b)
    decreases |a|
  {
    if a == "" {
      assert a + b == b;
    } else {
      assert (a + b)[1..] == a[1..] + b;
      FeedConcat(Feed(st, a[0]), a[1..], b);
    }
  }

  /** No separators in it, and no space in front. */
  predicate Clean(piece: string) {
    && (forall i :: 0 <= i < |piece| ==> !IsSeparator(piece[i]))
    && (piece != "" ==> piece[0] != ' ')
  }

  lemma {:induction false} FeedPlain(st: Scan, piece: string)
    requires forall i :: 0 <= i < |piece| ==> !IsSeparator(piece[i])
    requires st.text != "" || Clean(piece)
    ensures FeedAll(st, piece) == st.(text := st.text + piece)
    decreases |piece|
  {
    if piece == "" {
      assert st.text + piece == st.text;
    } else {
      FeedPlain(Feed(st, piece[0]), piece[1..]);
      assert st.text + [piece[0]] + piece[1..] == st.text + piece;
    }
  }

  /** A clean piece and the bar after it cut exactly that piece. */
  lemma FeedPieceAndBar(done: seq<string>, flags: Flags, piece: string)
    requires Clean(piece)
    ensures FeedAll(Scan("", done, flags), piece + " | ")
         == Scan("", done + [piece], flags.(pipe := true))
  {
    var st := Scan("", done, flags);
    FeedConcat(st, piece, " | ");
    FeedPlain(st, piece);
    var a := st.(text := piece);
    assert st.text + piece == piece;
    var b := Feed(a, ' ');
    var c := Feed(b, '|');
    assert " | "[1..] == "| " && "| "[1..] == " " && " "[1..] == "";
    assert FeedAll(a, " | ") == FeedAll(c, " ") == Feed(c, ' ');
    assert piece != "" ==> (piece + " ")[..|piece|] == piece;
  }

  /** Any of the five separators cuts the text so far and raises its own flag. */
  lemma FeedSeparator(st: Scan, c: char)
    requires c == '&' || c == '|' || c == '>' || c == '<' || c == ';'
    ensures FeedAll(st, [c]) == Scan("", st.pieces + [Trimmed(st.text)], RaisedBy(st.flags, [c]))
  {
    assert [c][1..] == "" && FeedAll(st, [c]) == Feed(st, c);
  }

  lemma FeedSpace(st: Scan)
    ensures FeedAll(st, " ") == st.(text := if st.text == "" then "" else st.text + " ")
  {
    assert " "[1..] == "" && FeedAll(st, " ") == Feed(st, ' ');
  }

  lemma TrimmedIs(text: string)
    ensures text == "" || text[|text| - 1] != ' ' ==> Trimmed(text) == text
    ensures Trimmed(text + " ") == text
  {
    assert (text + " ")[..|text|] == text;
  }

  /** A clean piece before any of the five separators is cut as it is, or without the one space
      that ends it. */
  lemma FeedPieceAndSeparator(done: seq<string>, flags: Flags, piece: string, c: char)
    requires Clean(piece) && (c == '&' || c == '|' || c == '>' || c == '<' || c == ';')
    ensures piece == "" || piece[|piece| - 1] != ' ' ==>
      FeedAll(Scan("", done, flags), piece + [c]) == Scan("", done + [piece], RaisedBy(flags, [c]))
    ensures FeedAll(Scan("", done, flags), piece + " " + [c])
         == Scan("", done + [piece], RaisedBy(flags, [c]))
  {
    hide FeedAll, Feed, RaisedBy, Trimmed, Clean;
    var st := Scan("", done, flags);
    var a := Scan(piece, done, flags);
    assert FeedAll(st, piece) == a by {
      CleanPlain(st, piece);
    }
    FeedConcat(st, piece, [c]);
    FeedSeparator(a, c);
    TrimmedIs(piece);
    FeedConcat(st, piece, " ");
    FeedConcat(st, piece + " ", [c]);
    FeedSpace(a);
    FeedSeparator(a.(text := if piece == "" then "" else piece + " "), c);
  }

  lemma CleanPlain(st: Scan, piece: string)
    requires Clean(piece) && st.text == ""
    ensures FeedAll(st, piece) == st.(text := piece)
  {
    FeedPlain(st, piece);
    assert st.text + piece == piece;
  }

  lemma {:induction false} FeedJoined(done: seq<string>, flags: Flags, cmds: seq<string>)
    requires cmds != [] && forall i :: 0 <= i < |cmds| ==> Clean(cmds[i])
    ensures
      var n := |cmds| - 1;
      FeedAll(Scan("", done, flags), JoinedFrom(cmds))
      == Scan(cmds[n], done + cmds[..n], if n > 0 then flags.(pipe := true) else flags)
    decreases |cmds|
  {
    if |cmds| == 1 {
      FeedPlain(Scan("", done, flags), cmds[0]);
    } else {
      var rest, n := cmds[1..], |cmds| - 1;
      FeedConcat(Scan("", done, flags), cmds[0] + " | ", JoinedFrom(rest));
      FeedPieceAndBar(done, flags, cmds[0]);
      FeedJoined(done + [cmds[0]], flags.(pipe := true), rest);
      assert done + [cmds[0]] + rest[..n - 1] == done + cmds[..n];
    }
  }

  /** Whatever the line, every piece cut and the text gathered are clean. */
  lemma {:induction false} FeedKeepsClean(st: Scan, line: string)
    requires Clean(st.text) && forall i :: 0 <= i < |st.pieces| ==> Clean(st.pieces[i])
    ensures
      var e := FeedAll(st, line);
      Clean(e.text) && forall i :: 0 <= i < |e.pieces| ==> Clean(e.pieces[i])
    decreases |line|
  {
    if line != "" {
      FeedKeepsClean(Feed(st, line[0]), line[1..]);
    }
  }

  /** The pieces a pipeline can be rebuilt from: all clean, and the last one not empty. */
  predicate Rejoinable(cmds: seq<string>) {
    cmds != [] && cmds[|cmds| - 1] != "" && forall i :: 0 <= i < |cmds| ==> Clean(cmds[i])
  }

  /** The space in front of a joined line is dropped. */
  lemma SplitJoined(cmds: seq<string>, flags: Flags)
    requires cmds != []
    ensures Split(Joined(cmds), flags) == Finish(FeedAll(Scan("", [], flags), JoinedFrom(cmds)))
  {
    hide JoinedFrom;
    var st := Scan("", [], flags);
    assert Joined(cmds)[1..] == JoinedFrom(cmds) && Feed(st, ' ') == st;
  }

  lemma SplitCleanPieces(cmds: seq<string>, flags: Flags)
    requires |cmds| >= 2 && forall i :: 0 <= i < |cmds| ==> Clean(cmds[i])
    ensures
      var cut, n := Split(Joined(cmds), flags), |cmds| - 1;
      cut == Cut(if cmds[n] != "" then cmds else cmds[..n], flags.(pipe := true))
  {
    hide FeedAll, Feed, JoinedFrom, Joined, Split, Clean;
    var n := |cmds| - 1;
    SplitJoined(cmds, flags);
    FeedJoined([], flags, cmds);
    assert [] + cmds[..n] == cmds[..n] && cmds == cmds[..n] + [cmds[n]];
  }

  lemma PiecesAreClean(line: string, flags: Flags)
    ensures forall i :: 0 <= i < |Split(line, flags).pieces| ==> Clean(Split(line, flags).pieces[i])
  {
    hide FeedAll, Feed;
    FeedKeepsClean(Scan("", [], flags), line);
  }

  /** Splitting undoes joining exactly for rejoinable pieces, and then raises the pipe flag
      and no other. */
  lemma SplitUndoesJoinIff(cmds: seq<string>, flags: Flags)
    requires |cmds| >= 2
    ensures Split(Joined(cmds), flags).pieces == cmds <==> Rejoinable(cmds)
    ensures Rejoinable(cmds) ==> Split(Joined(cmds), flags).flags == flags.(pipe := true)
  {
    hide Split, Joined, Clean;
    PiecesAreClean(Joined(cmds), flags);
    if forall i :: 0 <= i < |cmds| ==> Clean(cmds[i]) {
      SplitCleanPieces(cmds, flags);
    }
  }

  /** Splitting and joining settle: whatever was typed, if it was cut into two or more pieces
      of which the last is not empty, the joined line is cut into the same pieces. */
  lemma ResplitIsStable(line: string, flags: Flags)
    ensures
      var pieces := Split(line, flags).pieces;
      |pieces| >= 2 && pieces[|pieces| - 1] != "" ==>
        Split(Joined(pieces), flags).pieces == pieces
  {
    hide Split, Joined, Clean;
    PiecesAreClean(line, flags);
    var pieces := Split(line, flags).pieces;
    if |pieces| >= 2 && pieces[|pieces| - 1] != "" {
      SplitUndoesJoinIff(pieces, flags);
    }
  }

  // ---------- the pieces of any line ----------

  /** What lies between the separators of a line. */
  function ChunksOf(line: string): (chunks: seq<string>)
    ensures chunks != []
  {
    if line == "" then [""]
    else
      var rest := ChunksOf(line[1..]);
      if line[0] == '&' || line[0] == '|' || line[0] == '>' || line[0] == '<' || line[0] == ';'
      then [""] + rest
      else [[line[0]] + rest[0]] + rest[1..]
  }

  /** Drops the spaces in front. */
  function Stripped(chunk: string): (r: string)
    ensures r != "" ==> r[0] != ' '
  {
    if chunk != "" && chunk[0] == ' ' then Stripped(chunk[1..]) else chunk
  }

  /** `piece` is the chunk without the spaces in front and without one space at the end. */
  predicate PieceOf(chunk: string, piece: string) {
    var s := Stripped(chunk);
    if s != "" && s[|s| - 1] == ' ' then s == piece + " " else s == piece
  }

  function Gathered(text: string, chunk: string): string {
    if text == "" then Stripped(chunk) else text + chunk
  }

  function PiecesAfter(text: string, chunks: seq<string>): (pieces: seq<string>)
    requires chunks != []
    ensures |pieces| == |chunks| - 1
    decreases |chunks|
  {
    if |chunks| == 1 then [] else [Trimmed(Gathered(text, chunks[0]))] + PiecesAfter("", chunks[1..])
  }

  function LastText(text: string, chunks: seq<string>): string
    requires chunks != []
    decreases |chunks|
  {
    if |chunks| == 1 then Gathered(text, chunks[0]) else LastText("", chunks[1..])
  }

  lemma GatheredChar(text: string, c: char, chunk: string)
    ensures Gathered(text, [c] + chunk)
         == if text == "" && c == ' ' then Gathered("", chunk) else Gathered(text + [c], chunk)
    ensures Gathered(text, "") == text
  {
    assert ([c] + chunk)[1..] == chunk;
    assert text + ([c] + chunk) == text + [c] + chunk;
  }

  lemma {:induction false} FeedChunks(st: Scan, line: string)
    ensures
      var e, chunks := FeedAll(st, line), ChunksOf(line);
      && e.pieces == st.pieces + PiecesAfter(st.text, chunks)
      && e.text == LastText(st.text, chunks)
    decreases |line|
  {
    hide Trimmed, Gathered, Raise;
    if line == "" {
      GatheredChar(st.text, ' ', "");
    } else {
      var rest := ChunksOf(line[1..]);
      FeedChunks(Feed(st, line[0]), line[1..]);
      GatheredChar(st.text, line[0], rest[0]);
      if IsSeparator(line[0]) {
        assert ([""] + rest)[1..] == rest;
        assert st.pieces + [Trimmed(st.text)] + PiecesAfter("", rest)
            == st.pieces + ([Trimmed(st.text)] + PiecesAfter("", rest));
      } else {
        assert ([[line[0]] + rest[0]] + rest[1..])[1..] == rest[1..];
      }
    }
  }

  lemma {:induction false} PiecesAreChunks(chunks: seq<string>)
    requires chunks != []
    ensures forall i :: 0 <= i < |chunks| - 1 ==> PieceOf(chunks[i], PiecesAfter("", chunks)[i])
    ensures LastText("", chunks) == Stripped(chunks[|chunks| - 1])
    decreases |chunks|
  {
    hide PieceOf, Trimmed, Stripped;
    if |chunks| > 1 {
      PiecesAreChunks(chunks[1..]);
      TrimmedChunk(chunks[0]);
    }
  }

  lemma TrimmedChunk(chunk: string)
    ensures PieceOf(chunk, Trimmed(Gathered("", chunk)))
  {
    var s := Stripped(chunk);
    assert s != "" ==> s == s[..|s| - 1] + [s[|s| - 1]];
  }

  /** The pieces of any line: one for every chunk before a separator, and one more for what
      follows the last separator unless that is all spaces. */
  lemma SplitIsChunks(line: string, flags: Flags)
    ensures
      var pieces, chunks := Split(line, flags).pieces, ChunksOf(line);
      var n := |chunks| - 1;
      && |pieces| == (if Stripped(chunks[n]) == "" then n else n + 1)
      && (forall i :: 0 <= i < n ==> PieceOf(chunks[i], pieces[i]))
      && (Stripped(chunks[n]) != "" ==> pieces[n] == Stripped(chunks[n]))
  {
    hide FeedAll, ChunksOf, PiecesAfter, LastText, Stripped, PieceOf;
    FeedChunks(Scan("", [], flags), line);
    PiecesAreChunks(ChunksOf(line));
    assert [] + PiecesAfter("", ChunksOf(line)) == PiecesAfter("", ChunksOf(line));
  }

  /** The joined line, piece by piece: a space, and a bar between spaces before each further one. */
  lemma {:induction false} JoinedMore(cmds: seq<string>, more: string)
    requires cmds != []
    ensures Joined([more]) == " " + more
    ensures Joined(cmds + [more]) == Joined(cmds) + " | " + more
    decreases |cmds|
  {
    assert (cmds + [more])[1..] == cmds[1..] + [more];
    if |cmds| == 1 {
      assert cmds[1..] + [more] == [more];
    } else {
      JoinedMore(cmds[1..], more);
      JoinedTail(cmds[1..], more);
    }
  }

  lemma JoinedTail(cmds: seq<string>, more: string)
    requires cmds != [] && Joined(cmds + [more]) == Joined(cmds) + " | " + more
    ensures JoinedFrom(cmds + [more]) == JoinedFrom(cmds) + " | " + more
  {
    assert JoinedFrom(cmds + [more]) == Joined(cmds + [more])[1..];
    assert JoinedFrom(cmds) == Joined(cmds)[1..];
  }

  function Separators(line: string): nat {
    if line == "" then 0 else (if IsSeparator(line[0]) then 1 else 0) + Separators(line[1..])
  }

  function RaisedBy(flags: Flags, line: string): Flags {
    Flags(flags.pipe || '|' in line, flags.redirOut || '>' in line, flags.redirIn || '<' in line,
          flags.background || '&' in line, flags.ifThenElse || ';' in line)
  }

  lemma RaisedByHead(flags: Flags, line: string)
    requires line != ""
    ensures RaisedBy(flags, line) == RaisedBy(Raise(flags, line[0]), line[1..])
  {
    InHead(line, '|');
    InHead(line, '>');
    InHead(line, '<');
    InHead(line, '&');
    InHead(line, ';');
  }

  lemma InHead(line: string, c: char)
    requires line != ""
    ensures c in line <==> c == line[0] || c in line[1..]
  {
    assert line == [line[0]] + line[1..];
  }

  /** A flag is raised exactly by its own character, and every separator cuts one piece. */
  lemma {:induction false} FeedCounts(st: Scan, line: string)
    ensures |FeedAll(st, line).pieces| == |st.pieces| + Separators(line)
    ensures FeedAll(st, line).flags == RaisedBy(st.flags, line)
    decreases |line|
  {
    hide RaisedBy, Raise;
    if line == "" {
      RaisedByNothing(st.flags);
    } else {
      FeedCounts(Feed(st, line[0]), line[1..]);
      RaisedByHead(st.flags, line);
      RaisedByPlain(st.flags, line[0]);
    }
  }

  lemma RaisedByNothing(flags: Flags)
    ensures RaisedBy(flags, "") == flags
  {
  }

  lemma RaisedByPlain(flags: Flags, c: char)
    ensures !IsSeparator(c) ==> Raise(flags, c) == flags
  {
  }

  // ---------- the program ----------

  lemma {:induction false} FeedGrows(st: Scan, line: string)
    ensures |FeedAll(st, line).pieces| >= |st.pieces|
    decreases |line|
  {
    if line != "" {
      FeedGrows(Feed(st, line[0]), line[1..]);
    }
  }

  lemma FeedNext(st: Scan, line: string, i: nat)
    requires i < |line|
    ensures FeedAll(st, line[i..]) == FeedAll(Feed(st, line[i]), line[i + 1..])
    ensures |Feed(st, line[i]).pieces| <= |FeedAll(st, line[i..]).pieces|
  {
    hide Feed;
    assert line[i..][1..] == line[i + 1..];
    FeedGrows(Feed(st, line[i]), line[i + 1..]);
  }

  lemma FeedNothing(st: Scan, line: string)
    requires line == ""
    ensures FeedAll(st, line) == st
  {
  }

  class Parser {
    var globalFlags: Flags

    constructor ()
      ensures globalFlags == Flags(false, false, false, false, false)
    {
      globalFlags := Flags(false, false, false, false, false);
    }

    /** Fills `localBuf` with the pieces of `line`; it has room for them. */
    method FillCmd(line: string, localBuf: array<string>) returns (index: nat)
      requires |Split(line, globalFlags).pieces| <= localBuf.Length
      modifies this, localBuf
      ensures
        var cut := Split(line, old(globalFlags));
        && index <= localBuf.Length && localBuf[..index] == cut.pieces && globalFlags == cut.flags
      ensures localBuf[index..] == old(localBuf[index..])
    {
      hide FeedAll, RaisedBy;
      ghost var end := FeedAll(Scan("", [], globalFlags), line);
      var text := "";
      var i := 0;
      index := 0;
      while i < |line|
        invariant i <= |line| && index <= |end.pieces| && index <= localBuf.Length
        invariant FeedAll(Scan(text, localBuf[..index], globalFlags), line[i..]) == end
        invariant forall k :: index <= k < localBuf.Length ==> localBuf[k] == old(localBuf[k])
      {
        var c := line[i];
        FeedNext(Scan(text, localBuf[..index], globalFlags), line, i);
        if c == '&' || c == '|' || c == '>' || c == '<' || c == ';' {
          if text != "" && text[|text| - 1] == ' ' {
            text := text[..|text| - 1];
          }
          ghost var before := localBuf[..index];
          localBuf[index] := text;
          assert localBuf[..index + 1] == before + [text];
          if c == '&' { globalFlags := globalFlags.(background := true); }
          if c == '|' { globalFlags := globalFlags.(pipe := true); }
          if c == '>' { globalFlags := globalFlags.(redirOut := true); }
          if c == '<' { globalFlags := globalFlags.(redirIn := true); }
          if c == ';' { globalFlags := globalFlags.(ifThenElse := true); }
          text := "";
          index := index + 1;
        } else if text == "" && c == ' ' {
        } else {
          text := text + [c];
        }
        i := i + 1;
      }
      FeedNothing(Scan(text, localBuf[..index], globalFlags), line[i..]);
      if text != "" {
        localBuf[index] := text;
        index := index + 1;
        assert localBuf[..index] == end.pieces + [text];
      }
    }
  }

  datatype Piped = TooFew | Line(text: string)

  /** The join loop of the pipe handler; fewer than two commands are an error. */
  method PipeHandle(cmds: seq<string>) returns (r: Piped)
    ensures r == if |cmds| < 2 then TooFew else Line(Joined(cmds))
  {
    if |cmds| < 2 {
      return TooFew;
    }
    var cmd := " ";
    cmd := cmd + cmds[0];
    cmd := cmd + " | ";
    var i := 1;
    while i < |cmds| - 1
      invariant 1 <= i <= |cmds| - 1
      invariant cmd + JoinedFrom(cmds[i..]) == Joined(cmds)
    {
      assert cmds[i..][1..] == cmds[i + 1..];
      cmd := cmd + cmds[i];
      cmd := cmd + " | ";
      i := i + 1;
    }
    cmd := cmd + cmds[|cmds| - 1];
    r := Line(cmd);
  }
}
