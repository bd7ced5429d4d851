/** The key-list splitter of services/utils/xml_parse.cpp. The delimiter is not empty: the code reads
    its last character.
 */
module XmlParse {
  import opened Wrappers
  import opened Text

  /** The text that is split: the delimiter is added unless the last characters agree. */
  function Terminated(str: string, delim: string): string
    requires str != "" && delim != ""
  {
    if str[|str| - 1] != delim[|delim| - 1] then str + delim else str
  }

  /** The pieces cut off from position `i` on. */
  function Pieces(text: string, delim: string, i: nat): seq<string>
    requires delim != ""
    decreases |text| - i
  {
    if i >= |text| then []
    else
      match Find(text, delim, i)
      case None => []
      case Some(pos) => [text[i..pos]] + Pieces(text, delim, pos + |delim|)
  }

  /** What is left after the last delimiter. */
  function Rest(text: string, delim: string, i: nat): string
    requires delim != "" && i <= |text|
    decreases |text| - i
  {
    match Find(text, delim, i)
    case None => text[i..]
    case Some(pos) => Rest(text, delim, pos + |delim|)
  }

  function Split(str: string, delim: string): seq<string>
    requires str != "" && delim != ""
  {
    Pieces(Terminated(str, delim), delim, 0)
  }

  /** One turn of the loop at position `i`. */
  lemma PiecesStep(text: string, delim: string, i: nat)
    requires delim != "" && i < |text|
    ensures match Find(text, delim, i)
            case None => Pieces(text, delim, i) == [] == Pieces(text, delim, i + 1)
            case Some(pos) =>
              pos <= |text| && Pieces(text, delim, i) == [text[i..pos]] + Pieces(text, delim, pos + |delim|)
  {
  }

  lemma PushPiece(a: seq<string>, p: string, b: seq<string>, c: seq<string>)
    requires a + ([p] + b) == c
    ensures a + [p] + b == c
  {
  }

  /** SpiltKeyList: the pieces are appended to `before`. */
  method SpiltKeyList(str: string, delim: string, before: seq<string>) returns (ok: bool, spilt: seq<string>)
    requires delim != ""
    ensures ok == (str != "")
    ensures spilt == if ok then before + Split(str, delim) else before
  {
    if str == "" {
      return false, before;
    }
    var text := str;
    if str[|str| - 1] != delim[|delim| - 1] {
      text := str + delim;
    }
    spilt := CutText(text, delim, before);
    return true, spilt;
  }

  /** The loop of SpiltKeyList. */
  method CutText(text: string, delim: string, before: seq<string>) returns (spilt: seq<string>)
    requires delim != ""
    ensures spilt == before + Pieces(text, delim, 0)
  {
    spilt := before;
    ghost var all := before + Pieces(text, delim, 0);
    var i: nat := 0;
    while i < |text|
      invariant spilt + Pieces(text, delim, i) == all
    {
      spilt, i := CutOne(text, delim, i, spilt, all);
    }
    assert spilt + [] == spilt;
  }

  /** One turn of the loop. */
  method CutOne(text: string, delim: string, i: nat, spilt: seq<string>, ghost all: seq<string>)
    returns (spilt1: seq<string>, i1: nat)
    requires delim != "" && i < |text|
    requires spilt + Pieces(text, delim, i) == all
    ensures spilt1 + Pieces(text, delim, i1) == all && i1 > i
  {
    PiecesStep(text, delim, i);
    var pos := Find(text, delim, i);
    spilt1, i1 := spilt, i;
    if pos.Some? {
      PushPiece(spilt, text[i..pos.value], Pieces(text, delim, pos.value + |delim|), all);
      spilt1 := spilt + [text[i..pos.value]];
      i1 := pos.value + |delim| - 1;
    }
    i1 := i1 + 1;
  }

  /** The pieces, each followed by the delimiter, appended to `start`. */
  function JoinOnto(start: string, pieces: seq<string>, delim: string): string
    decreases |pieces|
  {
    if pieces == [] then start else JoinOnto(start + pieces[0] + delim, pieces[1..], delim)
  }

  function Join(pieces: seq<string>, delim: string): string {
    JoinOnto("", pieces, delim)
  }

  lemma SliceFree(text: string, delim: string, i: nat, pos: nat)
    requires i <= pos <= |text| && forall j :: i <= j < pos ==> !MatchAt(text, delim, j)
    requires delim != ""
    ensures !Contains(text[i..pos], delim)
  {
    ContainsIff(text[i..pos], delim);
    if k :| MatchAt(text[i..pos], delim, k) {
      forall j | 0 <= j < |delim| ensures text[i + k + j] == delim[j] {
        assert text[i..pos][k + j] == delim[j];
      }
      assert MatchAt(text, delim, i + k);
    }
  }

  lemma CutAt(text: string, delim: string, i: nat, pos: nat)
    requires i <= pos && MatchAt(text, delim, pos)
    ensures text[..i] + text[i..pos] + delim == text[..pos + |delim|]
  {
  }

  lemma PiecesUnfold(text: string, delim: string, i: nat)
    requires delim != "" && i <= |text|
    ensures match Find(text, delim, i)
            case None => Pieces(text, delim, i) == [] && Rest(text, delim, i) == text[i..]
            case Some(pos) =>
              && i <= pos && pos + |delim| <= |text|
              && Pieces(text, delim, i) == [text[i..pos]] + Pieces(text, delim, pos + |delim|)
              && Rest(text, delim, i) == Rest(text, delim, pos + |delim|)
  {
  }

  lemma JoinFirst(start: string, p: string, tail: seq<string>, delim: string)
    ensures JoinOnto(start, [p] + tail, delim) == JoinOnto(start + p + delim, tail, delim)
  {
    assert ([p] + tail)[1..] == tail;
  }

  /** For any delimiter: joining the pieces and adding what is left gives the text back. */
  lemma {:induction false} PiecesRebuild(text: string, delim: string, i: nat)
    requires delim != "" && i <= |text|
    ensures JoinOnto(text[..i], Pieces(text, delim, i), delim) + Rest(text, delim, i) == text
    decreases |text| - i
  {
    PiecesUnfold(text, delim, i);
    var found := Find(text, delim, i);
    if found.None? {
      assert text[..i] + text[i..] == text;
    } else {
      var pos, next := found.value, found.value + |delim|;
      PiecesRebuild(text, delim, next);
      CutAt(text, delim, i, pos) by { FindFirst(text, delim, i); }
      JoinFirst(text[..i], text[i..pos], Pieces(text, delim, next), delim);
    }
  }

  /** For any delimiter: the pieces and what is left are delimiter-free, and what is left ends like the
      text. */
  lemma {:induction false} PiecesFree(text: string, delim: string, i: nat)
    requires delim != "" && i <= |text|
    ensures forall p :: p in Pieces(text, delim, i) ==> !Contains(p, delim)
    ensures var rest := Rest(text, delim, i);
            !Contains(rest, delim) && (rest != "" ==> text != "" && rest[|rest| - 1] == text[|text| - 1])
    decreases |text| - i
  {
    PiecesUnfold(text, delim, i);
    var found := Find(text, delim, i);
    FindFirst(text, delim, i);
    if found.None? {
      SliceFree(text, delim, i, |text|);
      assert text[i..|text|] == text[i..];
    } else {
      SliceFree(text, delim, i, found.value);
      PiecesFree(text, delim, found.value + |delim|);
    }
  }

  /** One-character delimiters: no piece holds the delimiter, and each piece followed by the delimiter
      gives back exactly the delimiter-terminated input. */
  lemma SplitRebuilds(str: string, delim: string)
    requires str != "" && |delim| == 1
    ensures Join(Split(str, delim), delim) == Terminated(str, delim)
    ensures forall p :: p in Split(str, delim) ==> !Contains(p, delim)
    ensures Terminated(str, delim) == str || Terminated(str, delim) == str + delim
  {
    var text := Terminated(str, delim);
    var rest := Rest(text, delim, 0);
    PiecesRebuild(text, delim, 0);
    PiecesFree(text, delim, 0);
    assert text[..0] == "";
    assert text[|text| - 1] == delim[0];
    if rest != "" {
      LastCharFound(rest, delim);
      assert false;
    }
    assert Join(Split(str, delim), delim) + "" == Join(Split(str, delim), delim);
  }

  lemma LastCharFound(rest: string, delim: string)
    requires rest != "" && |delim| == 1 && rest[|rest| - 1] == delim[0]
    ensures Contains(rest, delim)
  {
    ContainsIff(rest, delim);
    assert MatchAt(rest, delim, |rest| - 1);
  }

  lemma CharMatch(text: string, delim: string, j: nat)
    requires |delim| == 1 && j < |text|
    ensures MatchAt(text, delim, j) <==> text[j] == delim[0]
  {
    assert text[j + 0] == text[j];
  }

  lemma FirstCharMatch(text: string, delim: string, j: nat)
    requires delim != "" && j < |text| && text[j] != delim[0]
    ensures !MatchAt(text, delim, j)
  {
    assert text[j + 0] == text[j];
  }

  lemma FreeOfChar(p: string, delim: string, j: nat)
    requires |delim| == 1 && !Contains(p, delim) && j < |p|
    ensures p[j] != delim[0]
  {
    ContainsIff(p, delim);
    assert !MatchAt(p, delim, j);
  }

  lemma PieceAt(text: string, start: string, p: string, delim: string)
    requires start + p + delim <= text
    ensures text[|start|..|start| + |p|] == p
    ensures |delim| == 1 ==> text[|start| + |p|] == delim[0]
  {
    var longer := start + p + delim;
    assert text[..|longer|] == longer;
    assert longer[|start|..|start| + |p|] == p;
  }

  /** The first delimiter of a text that continues with a delimiter-free piece and the delimiter. */
  lemma FindPiece(text: string, start: string, p: string, delim: string)
    requires |delim| == 1 && !Contains(p, delim) && start + p + delim <= text
    ensures Find(text, delim, |start|) == Some(|start| + |p|)
    ensures text[|start|..|start| + |p|] == p
  {
    PieceAt(text, start, p, delim);
    FindBetween(text, |start|, p, delim);
  }

  lemma FindBetween(text: string, i: nat, p: string, delim: string)
    requires |delim| == 1 && !Contains(p, delim)
    requires i + |p| < |text| && text[i..i + |p|] == p && text[i + |p|] == delim[0]
    ensures Find(text, delim, i) == Some(i + |p|)
  {
    forall j | i <= j < i + |p| ensures !MatchAt(text, delim, j) {
      FreeOfChar(p, delim, j - i);
      assert text[j] == p[j - i];
      CharMatch(text, delim, j);
    }
    CharMatch(text, delim, i + |p|);
    FindIs(text, delim, i, i + |p|);
  }

  lemma {:induction false} JoinStarts(start: string, pieces: seq<string>, delim: string)
    ensures start <= JoinOnto(start, pieces, delim)
    ensures delim != "" && pieces != [] ==>
              |JoinOnto(start, pieces, delim)| > |start| &&
              JoinOnto(start, pieces, delim)[|JoinOnto(start, pieces, delim)| - 1] == delim[|delim| - 1]
    decreases |pieces|
  {
    if pieces != [] {
      JoinStarts(start + pieces[0] + delim, pieces[1..], delim);
    }
  }

  lemma FoundPiece(text: string, i: nat, p: string, delim: string, next: nat)
    requires delim != "" && i + |p| < |text| && Find(text, delim, i) == Some(i + |p|)
    requires text[i..i + |p|] == p && next == i + |p| + |delim|
    ensures Pieces(text, delim, i) == [p] + Pieces(text, delim, next)
  {
    PiecesStep(text, delim, i);
  }

  lemma FirstPiece(text: string, start: string, p: string, delim: string)
    requires |delim| == 1 && !Contains(p, delim) && start + p + delim <= text
    ensures Pieces(text, delim, |start|) == [p] + Pieces(text, delim, |start + p + delim|)
  {
    FindPiece(text, start, p, delim);
    FoundPiece(text, |start|, p, delim, |start + p + delim|);
  }

  lemma {:induction false} PiecesOfJoin(start: string, pieces: seq<string>, delim: string)
    requires |delim| == 1 && forall p :: p in pieces ==> !Contains(p, delim)
    ensures Pieces(JoinOnto(start, pieces, delim), delim, |start|) == pieces
    decreases |pieces|
  {
    if pieces != [] {
      var p, tail := pieces[0], pieces[1..];
      var longer := start + p + delim;
      JoinStarts(longer, tail, delim);
      PiecesOfJoin(longer, tail, delim);
      FirstPiece(JoinOnto(longer, tail, delim), start, p, delim);
      assert pieces == [p] + tail;
    }
  }

  /** Splitting inverts joining: the pieces of any joined non-empty list of delimiter-free pieces are
      those pieces. */
  lemma SplitInvertsJoin(pieces: seq<string>, delim: string)
    requires |delim| == 1 && pieces != [] && forall p :: p in pieces ==> !Contains(p, delim)
    ensures Join(pieces, delim) != "" && Split(Join(pieces, delim), delim) == pieces
  {
    JoinStarts("", pieces, delim);
    PiecesOfJoin("", pieces, delim);
  }

  // ----- longer delimiters -----

  /** For any delimiter: the pieces give back the terminated input exactly if nothing is left after the
      last delimiter that was found. */
  lemma RebuildsIffNothingLeft(str: string, delim: string)
    requires str != "" && delim != ""
    ensures Join(Split(str, delim), delim) == Terminated(str, delim) <==> Rest(Terminated(str, delim), delim, 0) == ""
  {
    var text := Terminated(str, delim);
    PiecesRebuild(text, delim, 0);
    assert text[..0] == "";
    assert |Join(Split(str, delim), delim)| + |Rest(text, delim, 0)| == |text|;
    if Rest(text, delim, 0) == "" {
      assert Join(Split(str, delim), delim) + "" == Join(Split(str, delim), delim);
    }
  }

  /** No proper prefix of the delimiter is also a suffix of it. */
  predicate Unbordered(delim: string) {
    forall k :: 0 < k < |delim| ==> delim[k..] != delim[..|delim| - k]
  }

  predicate EndsWith(text: string, delim: string) {
    MatchAt(text, delim, |text| - |delim|)
  }

  lemma OverlapIsBorder(text: string, delim: string, i: nat, j: nat)
    requires MatchAt(text, delim, i) && MatchAt(text, delim, j) && i < j < i + |delim|
    ensures delim[j - i..] == delim[..|delim| - (j - i)]
  {
    var k := j - i;
    forall m | 0 <= m < |delim| - k ensures delim[k..][m] == delim[..|delim| - k][m] {
      assert text[i + (k + m)] == delim[k + m] && text[j + m] == delim[m];
    }
  }

  /** Two occurrences of such a delimiter do not overlap. */
  lemma OccurrencesApart(text: string, delim: string, i: nat, j: nat)
    requires Unbordered(delim) && MatchAt(text, delim, i) && MatchAt(text, delim, j) && i < j
    ensures i + |delim| <= j
  {
    if j < i + |delim| {
      OverlapIsBorder(text, delim, i, j);
    }
  }

  /** Nothing is left only if the text ends with the delimiter. */
  lemma {:induction false} NothingLeftEnds(text: string, delim: string, i: nat)
    requires delim != "" && i < |text| && Rest(text, delim, i) == ""
    ensures EndsWith(text, delim)
    decreases |text| - i
  {
    PiecesUnfold(text, delim, i);
    FindFirst(text, delim, i);
    var next := Find(text, delim, i).value + |delim|;
    if next < |text| {
      NothingLeftEnds(text, delim, next);
    }
  }

  /** With a delimiter whose occurrences do not overlap, the one at the end is always found. */
  lemma {:induction false} EndsNothingLeft(text: string, delim: string, i: nat)
    requires delim != "" && Unbordered(delim) && EndsWith(text, delim)
    requires i <= |text| - |delim| || i == |text|
    ensures Rest(text, delim, i) == ""
    decreases |text| - i
  {
    PiecesUnfold(text, delim, i);
    FindFirst(text, delim, i);
    var found, end := Find(text, delim, i), |text| - |delim|;
    if i < |text| {
      assert found.Some? && found.value <= end;
      if found.value < end {
        OccurrencesApart(text, delim, found.value, end);
      }
      EndsNothingLeft(text, delim, found.value + |delim|);
    } else {
      assert found.None?;
    }
  }

  /** In the caller's terms, for a delimiter that does not overlap itself: the pieces give back the
      terminated input exactly if the input ends with the whole delimiter or with another character than
      the delimiter does. What goes wrong is an input that ends with just the last part of it. */
  lemma RebuildsIff(str: string, delim: string)
    requires str != "" && delim != "" && Unbordered(delim)
    ensures Join(Split(str, delim), delim) == Terminated(str, delim) <==>
            EndsWith(str, delim) || str[|str| - 1] != delim[|delim| - 1]
  {
    var text := Terminated(str, delim);
    RebuildsIffNothingLeft(str, delim);
    if Rest(text, delim, 0) == "" {
      NothingLeftEnds(text, delim, 0);
    }
    if str[|str| - 1] != delim[|delim| - 1] {
      assert MatchAt(str + delim, delim, |str|);
    }
    if EndsWith(text, delim) {
      EndsNothingLeft(text, delim, 0);
    }
  }

  /** A delimiter that overlaps itself can lose the end even of an input that ends with it. */
  lemma OverlapLoses()
    ensures EndsWith("aaa", "aa") && Split("aaa", "aa") == [""] && Rest("aaa", "aa", 0) == "a"
  {
    var text, delim := "aaa", "aa";
    assert MatchAt(text, delim, 0);
    assert MatchAt(text, delim, 1);
    FindIs(text, delim, 0, 0);
    FindFirst(text, delim, 2);
    assert Find(text, delim, 2).None?;
  }

  /** An input that ends with just the last part of the delimiter: all of it is dropped. */
  lemma LongDelimiterLoses()
    ensures Split("ab", "cb") == [] && Terminated("ab", "cb") == "ab"
  {
    var text, delim := "ab", "cb";
    FirstCharMatch(text, delim, 0);
    FindFirst(text, delim, 0);
    assert Find(text, delim, 0).None?;
  }
}
