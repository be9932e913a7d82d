/** One uninterrupted pass over a file: what the tailing is measured against. */
module TailPass {
  import opened Common
  import Json
  import Observations
  import opened Custody
  import opened Tail

  /** Bytes start..end became one record; skipping says the line goes on. */
  datatype Piece = Piece(start: nat, end: nat, skipping: bool, data: Data)

  function Window(content: Bytes, offset: nat): Bytes
    requires offset <= |content|
  {
    content[offset..Min(|content|, offset + MAX_FRAME + 1)]
  }

  /** The next record of a file that is all there, or nothing while the last line is unfinished. */
  function Cut(content: Bytes, offset: nat, skipping: bool, lib: Library): (r: Option<Piece>)
    requires offset <= |content|
    ensures r.Some? ==> r.value.start == offset < r.value.end <= |content|
  {
    var window := Window(content, offset);
    var end := LineEnd(window);
    if end == None && |window| <= MAX_FRAME then None
    else
      var consume := if end.Some? then end.value else |window|;
      Some(Piece(offset, offset + consume, end == None, CutData(window, end, skipping, false, lib)))
  }

  function Pass(content: Bytes, offset: nat, skipping: bool, lib: Library): seq<Piece>
    requires offset <= |content|
    decreases |content| - offset
  {
    match Cut(content, offset, skipping, lib)
    case None => []
    case Some(piece) => [piece] + Pass(content, piece.end, piece.skipping, lib)
  }

  function EndAfter(pieces: seq<Piece>, n: nat, offset: nat): nat
    requires n <= |pieces|
  {
    if n == 0 then offset else pieces[n - 1].end
  }

  function SkippingAfter(pieces: seq<Piece>, n: nat, skipping: bool): bool
    requires n <= |pieces|
  {
    if n == 0 then skipping else pieces[n - 1].skipping
  }

  // ---------------------------------------------------------------- growth

  lemma {:induction false} LineEndGrows(a: Bytes, b: Bytes)
    requires LineEnd(a).Some?
    ensures LineEnd(a + b) == LineEnd(a)
  {
    if a[0] != NEWLINE {
      assert (a + b)[1..] == a[1..] + b;
      LineEndGrows(a[1..], b);
    }
  }

  lemma WindowPrefix(content: Bytes, offset: nat, bytes: Bytes)
    requires offset <= |content| && bytes <= content[offset..] && |bytes| <= MAX_FRAME + 1
    ensures bytes <= Window(content, offset) && (|bytes| == MAX_FRAME + 1 ==> Window(content, offset) == bytes)
  {
  }

  lemma DataPrefix(bytes: Bytes, window: Bytes, skipping: bool, lib: Library)
    requires bytes <= window && LineEnd(bytes).Some?
    ensures LineEnd(window) == LineEnd(bytes)
    ensures CutData(window, LineEnd(window), skipping, false, lib) == CutData(bytes, LineEnd(bytes), skipping, false, lib)
  {
    hide LineEnd, ReadLine;
    assert window == bytes + window[|bytes|..];
    LineEndGrows(bytes, window[|bytes|..]);
    assert window[..LineEnd(bytes).value - 1] == bytes[..LineEnd(bytes).value - 1];
  }

  /** A read that stops short finds the same record or none: the bytes before the newline decide. */
  lemma CutPrefix(content: Bytes, offset: nat, skipping: bool, bytes: Bytes, lib: Library)
    requires offset <= |content| && bytes <= content[offset..] && |bytes| <= MAX_FRAME + 1
    requires LineEnd(bytes).Some? || |bytes| == MAX_FRAME + 1
    ensures var end := LineEnd(bytes);
      var consume := if end.Some? then end.value else |bytes|;
      Cut(content, offset, skipping, lib)
      == Some(Piece(offset, offset + consume, end == None, CutData(bytes, end, skipping, false, lib)))
  {
    hide LineEnd, CutData, Window;
    WindowPrefix(content, offset, bytes);
    if LineEnd(bytes).Some? {
      DataPrefix(bytes, Window(content, offset), skipping, lib);
    }
  }

  lemma CutGrows(content: Bytes, more: Bytes, offset: nat, skipping: bool, lib: Library)
    requires offset <= |content| && Cut(content, offset, skipping, lib).Some?
    ensures Cut(content + more, offset, skipping, lib) == Cut(content, offset, skipping, lib)
  {
    hide LineEnd, ReadLine, CutData;
    var window := Window(content, offset);
    assert window <= content[offset..] <= (content + more)[offset..];
    CutPrefix(content + more, offset, skipping, window, lib);
  }

  /** Growing the file only adds pieces at the end. */
  lemma {:induction false} PassGrows(content: Bytes, more: Bytes, offset: nat, skipping: bool, lib: Library)
    requires offset <= |content|
    ensures Pass(content, offset, skipping, lib) <= Pass(content + more, offset, skipping, lib)
    decreases |content| - offset
  {
    hide Cut;
    var cut := Cut(content, offset, skipping, lib);
    if cut.Some? {
      CutGrows(content, more, offset, skipping, lib);
      PassGrows(content, more, cut.value.end, cut.value.skipping, lib);
    }
  }

  // ---------------------------------------------------------------- what a pass is

  /** The n-th piece starts where the one before it ended, and is the next cut from there; there are no others. */
  lemma {:induction false} PassNth(content: Bytes, offset: nat, skipping: bool, lib: Library, n: nat)
    requires offset <= |content|
    ensures var pass := Pass(content, offset, skipping, lib);
      n <= |pass| ==>
        var end := EndAfter(pass, n, offset);
        && offset <= end <= |content|
        && (n < |pass| <==> Cut(content, end, SkippingAfter(pass, n, skipping), lib).Some?)
        && (n < |pass| ==> Cut(content, end, SkippingAfter(pass, n, skipping), lib) == Some(pass[n]))
    decreases n
  {
    hide Cut;
    var cut := Cut(content, offset, skipping, lib);
    if cut.Some? && n > 0 {
      PassNth(content, cut.value.end, cut.value.skipping, lib, n - 1);
    }
  }

  lemma PassRises(content: Bytes, offset: nat, skipping: bool, lib: Library, j: nat, k: nat)
    requires offset <= |content| && j < k < |Pass(content, offset, skipping, lib)|
    ensures var pass := Pass(content, offset, skipping, lib); pass[j].end <= pass[k].start < pass[k].end
    decreases k - j
  {
    hide Cut;
    PassNth(content, offset, skipping, lib, k);
    if j + 1 < k {
      PassRises(content, offset, skipping, lib, j, k - 1);
    }
  }

  /** What a record made of a whole line says: the very text of a nonempty UTF-8 line, the fields of a JSON one that passes, or why not. */
  ghost predicate Says(line: Bytes, data: Data, lib: Library) {
    && (data.Log? <==> lib.format == PlainText && line != [] && Observations.Utf8(line))
    && (data.Log? ==> data.message == line)
    && (forall fields :: data == JsonLog(fields) <==>
          lib.format == Jsonl && Json.Shallow(line, 32768, 16) && lib.parse(line) == Some(fields) && lib.probe(fields))
    && (data.Gap? ==>
          data.reason == if lib.format == PlainText then BadLine
                         else if Json.Shallow(line, 32768, 16) && lib.parse(line).Some? then BadFields else BadJson)
  }

  lemma LineSays(line: Bytes, lib: Library)
    ensures Says(line, ReadLine(line, lib), lib)
  {
  }

  /** Only a whole short line, from one boundary to its newline, is ever turned into a log; an oversized line's tail never is. */
  lemma {:induction false} LogsAreLines(content: Bytes, offset: nat, skipping: bool, lib: Library, k: nat)
    requires offset <= |content| && k < |Pass(content, offset, skipping, lib)|
    ensures var piece := Pass(content, offset, skipping, lib)[k];
      && offset <= piece.start < piece.end <= |content|
      && (piece.data != Gap(Oversized) ==>
            && (piece.start == offset || content[piece.start - 1] == NEWLINE)
            && piece.end - piece.start <= MAX_LINE && content[piece.end - 1] == NEWLINE
            && NEWLINE !in content[piece.start..piece.end - 1]
            && piece.data == ReadLine(content[piece.start..piece.end - 1], lib)
            && Says(content[piece.start..piece.end - 1], piece.data, lib))
  {
    hide LineEnd, ReadLine, Pass, Cut, Says;
    var pass := Pass(content, offset, skipping, lib);
    PassNth(content, offset, skipping, lib, k);
    CutIsLine(content, EndAfter(pass, k, offset), SkippingAfter(pass, k, skipping), lib);
    if pass[k].data != Gap(Oversized) {
      LineSays(content[pass[k].start..pass[k].end - 1], lib);
    }
    if k > 0 {
      PassNth(content, offset, skipping, lib, k - 1);
      CutIsLine(content, EndAfter(pass, k - 1, offset), SkippingAfter(pass, k - 1, skipping), lib);
    }
  }

  lemma CutIsLine(content: Bytes, offset: nat, skipping: bool, lib: Library)
    requires offset <= |content| && Cut(content, offset, skipping, lib).Some?
    ensures var piece := Cut(content, offset, skipping, lib).value;
      && (!piece.skipping ==> content[piece.end - 1] == NEWLINE)
      && (piece.data != Gap(Oversized) ==>
            && !skipping && !piece.skipping && piece.end - piece.start <= MAX_LINE
            && NEWLINE !in content[piece.start..piece.end - 1]
            && piece.data == ReadLine(content[piece.start..piece.end - 1], lib))
  {
    hide LineEnd, ReadLine;
    var window := Window(content, offset);
    var end := LineEnd(window);
    if end.Some? {
      SliceOfSlice(content, offset, Min(|content|, offset + MAX_FRAME + 1), end.value - 1);
      assert content[offset + end.value - 1] == window[end.value - 1];
    }
  }

  predicate Boundary(content: Bytes, offset: nat, skipping: bool, a: nat)
    requires offset <= |content| && a <= |content|
  {
    (a == offset && !skipping) || (a > offset && content[a - 1] == NEWLINE)
  }

  lemma {:induction false} FirstNewline(line: Bytes, rest: Bytes)
    requires NEWLINE !in line
    ensures LineEnd(line + [NEWLINE] + rest) == Some(|line| + 1)
  {
    if line != [] {
      FirstNewline(line[1..], rest);
      assert (line + [NEWLINE] + rest)[1..] == line[1..] + [NEWLINE] + rest;
    }
  }

  lemma {:induction false} NewlineBounds(bytes: Bytes, k: nat)
    requires k < |bytes| && bytes[k] == NEWLINE
    ensures LineEnd(bytes).Some? && LineEnd(bytes).value <= k + 1
  {
    if bytes[0] != NEWLINE {
      NewlineBounds(bytes[1..], k - 1);
    }
  }

  /** A short whole line at the offset is the next cut. */
  lemma LineIsCut(content: Bytes, a: nat, b: nat, lib: Library)
    requires a < b <= |content| && b - a <= MAX_LINE && content[b - 1] == NEWLINE && NEWLINE !in content[a..b - 1]
    ensures Cut(content, a, false, lib) == Some(Piece(a, b, false, ReadLine(content[a..b - 1], lib)))
  {
    hide LineEnd, ReadLine;
    var window, line := Window(content, a), content[a..b - 1];
    assert window == line + [NEWLINE] + window[b - a..];
    FirstNewline(line, window[b - a..]);
    assert window[..b - a - 1] == line;
  }

  /** A cut never runs past the end of a line. */
  lemma CutStops(content: Bytes, offset: nat, skipping: bool, a: nat, lib: Library)
    requires offset < a <= |content| && content[a - 1] == NEWLINE
    ensures var cut := Cut(content, offset, skipping, lib);
      cut.Some? && cut.value.end <= a && (cut.value.end == a ==> !cut.value.skipping)
  {
    hide LineEnd, CutData;
    var window := Window(content, offset);
    if a - 1 - offset < |window| {
      NewlineBounds(window, a - 1 - offset);
    }
  }

  /** And every whole short line is: none is missed. */
  lemma {:induction false} LinesAreRead(content: Bytes, offset: nat, skipping: bool, lib: Library, a: nat, b: nat)
    requires offset <= a < b <= |content| && Boundary(content, offset, skipping, a)
    requires b - a <= MAX_LINE && content[b - 1] == NEWLINE && NEWLINE !in content[a..b - 1]
    ensures Piece(a, b, false, ReadLine(content[a..b - 1], lib)) in Pass(content, offset, skipping, lib)
    ensures Says(content[a..b - 1], ReadLine(content[a..b - 1], lib), lib)
    decreases a - offset
  {
    hide Cut, ReadLine, Says;
    LineSays(content[a..b - 1], lib);
    if a == offset {
      LineIsCut(content, a, b, lib);
    } else {
      CutStops(content, offset, skipping, a, lib);
      var cut := Cut(content, offset, skipping, lib).value;
      LinesAreRead(content, cut.end, cut.skipping, lib, a, b);
    }
  }
}
