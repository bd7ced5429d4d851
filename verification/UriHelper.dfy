/** The fd part of services/utils/uri_helper.cpp: splitting a URI, parsing and printing fd URIs, and the
    correction against the file size.

    What the system answers is an input: `copy` is the result of dup, `fileSize` the size fcntl and fstat64
    give for the descriptor, None if one of them fails, and `realPath` the resolved path of a file URI,
    None if it does not resolve.
 */
module UriHelperModel {
  import opened Wrappers
  import opened Text
  import opened Decimal

  datatype Kind = File | Fd | Http | Unknown

  datatype Uri = Uri(formatted: string, kind: Kind, fd: int, offset: int, size: int)

  const NEW_URI := Uri("", File, -1, 0, 0)

  /** A file size is a non-negative int64. */
  predicate FileSize(fileSize: Option<nat>) {
    fileSize.Some? ==> fileSize.value <= INT64_MAX
  }

  predicate Widths(u: Uri) {
    Int32(u.fd) && Int64(u.offset) && Int64(u.size)
  }

  function FdBody(fd: int, offset: int, size: int): string {
    Print(fd) + "?offset=" + Print(offset) + "&size=" + Print(size)
  }

  /** The URI CorrectFdParam prints. */
  function FdUri(fd: int, offset: int, size: int): string {
    "fd://" + FdBody(fd, offset, size)
  }

  /** CorrectFdParam. */
  function Correct(u: Uri, fileSize: Option<nat>): (Uri, bool) {
    match fileSize
    case None => (u, false)
    case Some(n) =>
      var offset := if u.offset < 0 || u.offset > n then 0 else u.offset;
      var size := if u.size <= 0 || u.size > n - offset then n - offset else u.size;
      (u.(offset := offset, size := size, formatted := FdUri(u.fd, offset, size)), true)
  }

  /** The text taken for the offset between the delimiters at d1 and d2. The count d2 - d1 - 8 is unsigned
      in the code: when d2 comes earlier it wraps to a huge count, and the rest of the text is taken. */
  function OffsetText(uri: string, d1: nat, d2: nat): string
    requires d1 + 8 < |uri| && d2 < |uri|
  {
    if d1 + 8 <= d2 then uri[d1 + 8..d2] else uri[d1 + 8..]
  }

  /** ParseFdUri after both delimiters were found. */
  function ParseFields(u: Uri, uri: string, d1: nat, d2: nat, copy: int, fileSize: Option<nat>): (Uri, bool)
    requires d1 < |uri| && d2 < |uri|
  {
    var fd := StrToInt(uri[..d1], INT32_MIN, INT32_MAX);
    if fd.None? || d1 + 8 >= |uri| || d2 == d1 + 8 then (u, false)
    else
      match StrToInt(OffsetText(uri, d1, d2), INT64_MIN, INT64_MAX)
      case None => (u, false)
      case Some(offset) =>
        var u1 := u.(offset := offset);
        if d2 + 6 >= |uri| then (u1, false)
        else
          match StrToInt(uri[d2 + 6..], INT64_MIN, INT64_MAX)
          case None => (u1, false)
          case Some(size) => Correct(u1.(size := size, fd := copy), fileSize)
  }

  /** ParseFdUri. */
  function ParseFd(u: Uri, uri: string, copy: int, fileSize: Option<nat>): (Uri, bool) {
    match (Find(uri, "?", 0), Find(uri, "&", 0))
    case (None, None) =>
      (match StrToInt(uri, INT32_MIN, INT32_MAX)
       case None => (u, false)
       case Some(fd) => Correct(u.(fd := fd), fileSize))
    case (Some(d1), Some(d2)) => ParseFields(u, uri, d1, d2, copy, fileSize)
    case _ => (u, false)
  }

  function TrimLeft(s: string): string {
    if s != "" && s[0] == ' ' then TrimLeft(s[1..]) else s
  }

  function TrimRight(s: string): string {
    if s != "" && s[|s| - 1] == ' ' then TrimRight(s[..|s| - 1]) else s
  }

  /** SplitUriHeadAndBody. */
  function SplitHeadAndBody(str: string): (string, string) {
    var s := TrimRight(TrimLeft(str));
    match Find(s, "://", 0)
    case None => ("", s)
    case Some(pos) => (s[..pos], s[pos + 3..])
  }

  const PATH_MAX: nat := 4096

  /** The table of URI types. */
  function KindOf(head: string): Option<Kind> {
    if head == "" || head == "file" then Some(File)
    else if head == "fd" then Some(Fd)
    else if head == "http" then Some(Http)
    else None
  }

  /** FormatMeForUri. */
  function Format(u: Uri, uri: string, copy: int, fileSize: Option<nat>, realPath: Option<string>): Uri {
    if u.formatted != "" || uri == "" then u
    else
      var (head, body) := SplitHeadAndBody(uri);
      match KindOf(head)
      case None => u
      case Some(File) =>
        if body == "" || |body| >= PATH_MAX || realPath.None? then u.(kind := Unknown, formatted := body)
        else u.(kind := File, formatted := "file://" + realPath.value)
      case Some(Fd) =>
        var (parsed, ok) := ParseFd(u.(kind := Fd), body, copy, fileSize);
        if ok then parsed else parsed.(kind := Unknown, formatted := "")
      case Some(other) => u.(kind := other, formatted := head + body)
  }

  /** The constructor from a descriptor, with the descriptor it keeps. */
  function FromFd(fd: int, offset: int, size: int, fileSize: Option<nat>): Uri {
    Correct(Uri("", Fd, fd, offset, size), fileSize).0
  }

  class UriHelper {
    var formattedUri: string
    var kind: Kind
    var fd: int
    var offset: int
    var size: int

    ghost function Model(): Uri
      reads this
    {
      Uri(formattedUri, kind, fd, offset, size)
    }

    constructor FromUri(uri: string, copy: int, fileSize: Option<nat>, realPath: Option<string>)
      ensures Model() == Format(NEW_URI, uri, copy, fileSize, realPath)
    {
      formattedUri, kind, fd, offset, size := "", File, -1, 0, 0;
      new;
      FormatMeForUri(uri, copy, fileSize, realPath);
    }

    constructor FromDescriptor(keep: int, off: int, sz: int, fileSize: Option<nat>)
      ensures Model() == FromFd(keep, off, sz, fileSize)
    {
      formattedUri, kind, fd, offset, size := "", Fd, keep, off, sz;
      new;
      var _ := CorrectFdParam(fileSize);
    }

    method CorrectFdParam(fileSize: Option<nat>) returns (ok: bool)
      modifies this
      ensures (Model(), ok) == Correct(old(Model()), fileSize)
    {
      if fileSize.None? {
        return false;
      }
      var fdSize := fileSize.value;
      if offset < 0 || offset > fdSize {
        offset := 0;
      }
      if size <= 0 || size > fdSize - offset {
        size := fdSize - offset;
      }
      formattedUri := FdUri(fd, offset, size);
      return true;
    }

    method ParseFdUri(uri: string, copy: int, fileSize: Option<nat>) returns (ok: bool)
      modifies this
      ensures (Model(), ok) == ParseFd(old(Model()), uri, copy, fileSize)
    {
      var delim1, delim2 := Find(uri, "?", 0), Find(uri, "&", 0);
      if delim1.None? && delim2.None? {
        var number := StrToInt(uri, INT32_MIN, INT32_MAX);
        if number.None? {
          return false;
        }
        fd := number.value;
      } else if delim1.Some? && delim2.Some? {
        ok := SetFields(uri, delim1.value, delim2.value, copy);
        if !ok {
          return false;
        }
      } else {
        return false;
      }
      ok := CorrectFdParam(fileSize);
    }

    /** The three numbers of a URI with both delimiters; the offset is stored as soon as it is read. */
    method SetFields(uri: string, d1: nat, d2: nat, copy: int) returns (ok: bool)
      requires d1 < |uri| && d2 < |uri|
      modifies this
      ensures forall fileSize :: ParseFields(old(Model()), uri, d1, d2, copy, fileSize) ==
                                 if ok then Correct(Model(), fileSize) else (Model(), false)
    {
      var number := StrToInt(uri[..d1], INT32_MIN, INT32_MAX);
      if number.None? || d1 + 8 >= |uri| || d2 == d1 + 8 {
        return false;
      }
      var first := StrToInt(OffsetText(uri, d1, d2), INT64_MIN, INT64_MAX);
      if first.None? {
        return false;
      }
      offset := first.value;
      if d2 + 6 >= |uri| {
        return false;
      }
      var second := StrToInt(uri[d2 + 6..], INT64_MIN, INT64_MAX);
      if second.None? {
        return false;
      }
      size := second.value;
      fd := copy;
      return true;
    }

    method FormatMeForUri(uri: string, copy: int, fileSize: Option<nat>, realPath: Option<string>)
      modifies this
      ensures Model() == Format(old(Model()), uri, copy, fileSize, realPath)
    {
      if formattedUri != "" || uri == "" {
        return;
      }
      var (head, body) := SplitHeadAndBody(uri);
      var entry := KindOf(head);
      if entry.None? {
        return;
      }
      kind := entry.value;
      match kind {
        case File =>
          if body == "" || |body| >= PATH_MAX || realPath.None? {
            kind := Unknown;
            formattedUri := body;
          } else {
            formattedUri := "file://" + realPath.value;
          }
        case Fd =>
          var ok := ParseFdUri(body, copy, fileSize);
          if !ok {
            kind := Unknown;
            formattedUri := "";
          }
        case _ =>
          formattedUri := head + body;
      }
    }
  }

  // ----- correction -----

  /** After a correction the part of the file asked for lies inside the file, only impossible requests were
      changed, an impossible offset to the start and an impossible size to the rest of the file, and correcting
      again changes nothing. */
  lemma CorrectedInside(u: Uri, fileSize: Option<nat>)
    requires fileSize.Some?
    ensures var v, n := Correct(u, fileSize).0, fileSize.value;
            && 0 <= v.offset <= n && 0 <= v.size <= n - v.offset
            && (v.size == 0 <==> v.offset == n)
            && (v.offset != u.offset ==> v.offset == 0 && !(0 <= u.offset <= n))
            && (v.size != u.size ==> v.size == n - v.offset && !(0 < u.size <= n - v.offset))
            && ((v.offset, v.size) == (u.offset, u.size) <==>
                  0 <= u.offset <= n && u.size <= n - u.offset && (u.size > 0 || (u.size == 0 && u.offset == n)))
            && Correct(v, fileSize) == (v, true)
            && (Int32(u.fd) && FileSize(fileSize) ==> Widths(v))
  {
  }

  // ----- printing and parsing are inverse -----

  lemma NoneBefore(s: string, c: char, k: nat)
    requires k < |s| && s[k] == c && c !in s[..k]
    ensures Find(s, [c], 0) == Some(k)
  {
    assert forall j :: 0 <= j < k ==> s[..k][j] == s[j];
    assert forall j :: 0 <= j < k ==> !MatchAt(s, [c], j) by {
      forall j | 0 <= j < k ensures !MatchAt(s, [c], j) {
        assert s[j + 0] != [c][0];
      }
    }
    FindIs(s, [c], 0, k);
  }

  /** A body with other texts in place of "offset=" and "size=". */
  function NamedBody(fd: int, name1: string, offset: int, name2: string, size: int): string {
    Print(fd) + "?" + name1 + Print(offset) + "&" + name2 + Print(size)
  }

  lemma FdBodyNames(fd: int, offset: int, size: int)
    ensures FdBody(fd, offset, size) == NamedBody(fd, "offset=", offset, "size=", size)
  {
  }

  /** The two delimiters of such a body, and the three numbers around them. */
  lemma BodyFields(fd: int, name1: string, offset: int, name2: string, size: int)
    requires |name1| == 7 && |name2| == 5 && '&' !in name1
    ensures var s, d1 := NamedBody(fd, name1, offset, name2, size), |Print(fd)|;
            var d2 := d1 + 8 + |Print(offset)|;
            && Find(s, "?", 0) == Some(d1) && Find(s, "&", 0) == Some(d2) && d2 + 6 < |s|
            && s[..d1] == Print(fd) && s[d1 + 8..d2] == Print(offset) && s[d2 + 6..] == Print(size)
  {
    var s, d1 := NamedBody(fd, name1, offset, name2, size), |Print(fd)|;
    var d2 := d1 + 8 + |Print(offset)|;
    PrintChars(fd);
    PrintChars(offset);
    PrintChars(size);
    assert s[..d1] == Print(fd);
    assert s[..d2] == Print(fd) + "?" + name1 + Print(offset);
    NoneBefore(s, '?', d1);
    NoneBefore(s, '&', d2);
  }

  lemma BothFound(u: Uri, s: string, d1: nat, d2: nat, copy: int, fileSize: Option<nat>)
    requires Find(s, "?", 0) == Some(d1) && Find(s, "&", 0) == Some(d2)
    ensures d1 < |s| && d2 < |s|
    ensures ParseFd(u, s, copy, fileSize) == ParseFields(u, s, d1, d2, copy, fileSize)
  {
  }

  lemma FieldsRead(u: Uri, s: string, d1: nat, d2: nat, fd: int, offset: int, size: int, copy: int,
                   fileSize: Option<nat>)
    requires d1 + 8 < d2 && d2 + 6 < |s|
    requires StrToInt(s[..d1], INT32_MIN, INT32_MAX) == Some(fd)
    requires StrToInt(s[d1 + 8..d2], INT64_MIN, INT64_MAX) == Some(offset)
    requires StrToInt(s[d2 + 6..], INT64_MIN, INT64_MAX) == Some(size)
    ensures ParseFields(u, s, d1, d2, copy, fileSize) ==
              Correct(u.(fd := copy, offset := offset, size := size), fileSize)
  {
    assert OffsetText(s, d1, d2) == s[d1 + 8..d2];
  }

  lemma PrintsRead(u: Uri, s: string, d1: nat, d2: nat, fd: int, offset: int, size: int, copy: int,
                   fileSize: Option<nat>)
    requires Int32(fd) && Int64(offset) && Int64(size)
    requires Find(s, "?", 0) == Some(d1) && Find(s, "&", 0) == Some(d2) && d1 + 8 < d2 && d2 + 6 < |s|
    requires s[..d1] == Print(fd) && s[d1 + 8..d2] == Print(offset) && s[d2 + 6..] == Print(size)
    ensures ParseFd(u, s, copy, fileSize) == Correct(u.(fd := copy, offset := offset, size := size), fileSize)
  {
    PrintRoundTrip(fd, INT32_MIN, INT32_MAX);
    PrintRoundTrip(offset, INT64_MIN, INT64_MAX);
    PrintRoundTrip(size, INT64_MIN, INT64_MAX);
    BothFound(u, s, d1, d2, copy, fileSize);
    FieldsRead(u, s, d1, d2, fd, offset, size, copy, fileSize);
  }

  /** Parsing gives back the three numbers, for every int32 and every int64 there is, and whatever the two
      names are: only their lengths matter. */
  lemma ParseInvertsPrint(u: Uri, fd: int, name1: string, offset: int, name2: string, size: int, copy: int,
                          fileSize: Option<nat>)
    requires Int32(fd) && Int64(offset) && Int64(size)
    requires |name1| == 7 && |name2| == 5 && '&' !in name1
    ensures ParseFd(u, NamedBody(fd, name1, offset, name2, size), copy, fileSize) ==
              Correct(u.(fd := copy, offset := offset, size := size), fileSize)
  {
    var s, d1 := NamedBody(fd, name1, offset, name2, size), |Print(fd)|;
    var d2 := d1 + 8 + |Print(offset)|;
    BodyFields(fd, name1, offset, name2, size);
    PrintChars(offset);
    PrintsRead(u, s, d1, d2, fd, offset, size, copy, fileSize);
  }

  /** Spaces around a text do not reach the split. */
  function Spaces(n: nat): string {
    seq(n, _ => ' ')
  }

  lemma {:induction false} TrimLeftDrops(n: nat, s: string)
    requires s == "" || s[0] != ' '
    ensures TrimLeft(Spaces(n) + s) == s
  {
    if n == 0 {
      assert Spaces(n) + s == s;
    } else {
      assert (Spaces(n) + s)[1..] == Spaces(n - 1) + s;
      TrimLeftDrops(n - 1, s);
    }
  }

  lemma {:induction false} TrimRightDrops(s: string, n: nat)
    requires s == "" || s[|s| - 1] != ' '
    ensures TrimRight(s + Spaces(n)) == s
  {
    if n == 0 {
      assert s + Spaces(n) == s;
    } else {
      assert (s + Spaces(n))[..|s| + n - 1] == s + Spaces(n - 1);
      TrimRightDrops(s, n - 1);
    }
  }

  /** Head and body are found around the first "://", whatever spaces surround the text. */
  lemma SplitFinds(a: nat, head: string, body: string, b: nat)
    requires head != "" && head[0] != ' ' && body != "" && body[|body| - 1] != ' ' && ':' !in head
    ensures SplitHeadAndBody(Spaces(a) + (head + "://" + body) + Spaces(b)) == (head, body)
  {
    var s := head + "://" + body;
    assert Spaces(a) + s + Spaces(b) == Spaces(a) + (s + Spaces(b));
    TrimLeftDrops(a, s + Spaces(b));
    TrimRightDrops(s, b);
    forall j | 0 <= j < |head| ensures !MatchAt(s, "://", j) {
      assert s[j + 0] == head[j] && "://"[0] == ':';
    }
    assert MatchAt(s, "://", |head|);
    FindIs(s, "://", 0, |head|);
    assert s[..|head|] == head && s[|head| + 3..] == body;
  }

  /** A URI with the head "fd" is parsed. */
  lemma FormatParses(uri: string, body: string, copy: int, fileSize: Option<nat>, realPath: Option<string>)
    requires uri != "" && SplitHeadAndBody(uri) == ("fd", body)
    ensures var (parsed, ok) := ParseFd(NEW_URI.(kind := Fd), body, copy, fileSize);
            Format(NEW_URI, uri, copy, fileSize, realPath) ==
              if ok then parsed else parsed.(kind := Unknown, formatted := "")
  {
  }

  lemma PrintedSplits(fd: int, offset: int, size: int, a: nat, b: nat)
    ensures SplitHeadAndBody(Spaces(a) + FdUri(fd, offset, size) + Spaces(b)) == ("fd", FdBody(fd, offset, size))
  {
    var body := FdBody(fd, offset, size);
    PrintChars(size);
    assert body[|body| - 1] == Print(size)[|Print(size)| - 1];
    assert FdUri(fd, offset, size) == "fd" + "://" + body;
    SplitFinds(a, "fd", body, b);
  }

  lemma FormatPrinted(fd: int, offset: int, size: int, a: nat, b: nat, copy: int, fileSize: Option<nat>,
                      realPath: Option<string>)
    requires Int32(fd) && Int64(offset) && Int64(size)
    ensures Format(NEW_URI, Spaces(a) + FdUri(fd, offset, size) + Spaces(b), copy, fileSize, realPath) ==
              if fileSize.Some? then FromFd(copy, offset, size, fileSize)
              else Uri("", Unknown, copy, offset, size)
  {
    PrintedSplits(fd, offset, size, a, b);
    FdBodyNames(fd, offset, size);
    ParseInvertsPrint(NEW_URI.(kind := Fd), fd, "offset=", offset, "size=", size, copy, fileSize);
    FormatParses(Spaces(a) + FdUri(fd, offset, size) + Spaces(b), FdBody(fd, offset, size), copy, fileSize, realPath);
  }

  /** The whole round trip: the URI a corrected helper prints, read by a new helper for a file of the same
      size, even with spaces around it, gives a helper with the same offset and size, which prints the same
      URI but for the descriptor; with the same descriptor number it is the same helper. */
  lemma RoundTrip(fd: int, offset: int, size: int, fileSize: Option<nat>, a: nat, b: nat, copy: int,
                  realPath: Option<string>)
    requires Int32(fd) && fileSize.Some? && FileSize(fileSize)
    ensures var u := FromFd(fd, offset, size, fileSize);
            var v := Format(NEW_URI, Spaces(a) + u.formatted + Spaces(b), copy, fileSize, realPath);
            && v == u.(fd := copy, formatted := FdUri(copy, u.offset, u.size))
            && (copy == fd ==> v == u)
  {
    var u := FromFd(fd, offset, size, fileSize);
    FormatPrinted(u.fd, u.offset, u.size, a, b, copy, fileSize, realPath);
  }

  // ----- which URIs are accepted -----

  /** The text stands, up to its first NUL, for a number in the range. */
  ghost predicate Stands(text: string, lo: int, hi: int, v: int) {
    lo <= v <= hi && Writes(CString(text), v)
  }

  /** The URI with its first '?' at d1 and its first '&' at d2 spells the three numbers. The offset is
      written between the place after d1 and the '&', or, if the '&' comes earlier, in all that follows. */
  ghost predicate Spells(uri: string, d1: nat, d2: nat, fd: int, offset: int, size: int)
    requires d1 < |uri| && d2 < |uri|
  {
    && Stands(uri[..d1], INT32_MIN, INT32_MAX, fd)
    && d1 + 8 < |uri| && d2 + 6 < |uri|
    && Stands(if d1 + 8 <= d2 then uri[d1 + 8..d2] else uri[d1 + 8..], INT64_MIN, INT64_MAX, offset)
    && Stands(uri[d2 + 6..], INT64_MIN, INT64_MAX, size)
  }

  lemma StandsNonEmpty(text: string, lo: int, hi: int, v: int)
    requires Stands(text, lo, hi, v)
    ensures text != ""
  {
  }

  /** The text stands for some int32, for some int64. */
  ghost predicate StandsForInt32(text: string) {
    exists v :: Stands(text, INT32_MIN, INT32_MAX, v)
  }

  ghost predicate StandsForInt64(text: string) {
    exists v :: Stands(text, INT64_MIN, INT64_MAX, v)
  }

  /** Parsing stores exactly the numbers the URI spells. */
  lemma ParseStores(u: Uri, uri: string, d1: nat, d2: nat, fd: int, offset: int, size: int, copy: int,
                    fileSize: Option<nat>)
    requires Find(uri, "?", 0) == Some(d1) && Find(uri, "&", 0) == Some(d2)
    requires Spells(uri, d1, d2, fd, offset, size)
    ensures ParseFd(u, uri, copy, fileSize) == Correct(u.(fd := copy, offset := offset, size := size), fileSize)
  {
    BothFound(u, uri, d1, d2, copy, fileSize);
    var text := OffsetText(uri, d1, d2);
    StrToIntExactly(uri[..d1], INT32_MIN, INT32_MAX, fd);
    StrToIntExactly(text, INT64_MIN, INT64_MAX, offset);
    StrToIntExactly(uri[d2 + 6..], INT64_MIN, INT64_MAX, size);
    StandsNonEmpty(text, INT64_MIN, INT64_MAX, offset);
    FieldsStored(u, uri, d1, d2, fd, offset, size, copy, fileSize);
  }

  lemma FieldsStored(u: Uri, s: string, d1: nat, d2: nat, fd: int, offset: int, size: int, copy: int,
                     fileSize: Option<nat>)
    requires d1 < |s| && d2 < |s| && d1 + 8 < |s| && d2 + 6 < |s| && d2 != d1 + 8
    requires StrToInt(s[..d1], INT32_MIN, INT32_MAX) == Some(fd)
    requires StrToInt(OffsetText(s, d1, d2), INT64_MIN, INT64_MAX) == Some(offset)
    requires StrToInt(s[d2 + 6..], INT64_MIN, INT64_MAX) == Some(size)
    ensures ParseFields(u, s, d1, d2, copy, fileSize) ==
              Correct(u.(fd := copy, offset := offset, size := size), fileSize)
  {
  }

  /** What the three reads of an accepted URI returned. */
  lemma FieldsOf(u: Uri, s: string, d1: nat, d2: nat, copy: int, fileSize: Option<nat>)
    requires d1 < |s| && d2 < |s| && ParseFields(u, s, d1, d2, copy, fileSize).1
    ensures d1 + 8 < |s| && d2 + 6 < |s| && fileSize.Some?
    ensures StrToInt(s[..d1], INT32_MIN, INT32_MAX).Some?
    ensures StrToInt(OffsetText(s, d1, d2), INT64_MIN, INT64_MAX).Some?
    ensures StrToInt(s[d2 + 6..], INT64_MIN, INT64_MAX).Some?
  {
  }

  lemma AcceptedSpells(u: Uri, uri: string, d1: nat, d2: nat, copy: int, fileSize: Option<nat>)
    returns (fd: int, offset: int, size: int)
    requires Find(uri, "?", 0) == Some(d1) && Find(uri, "&", 0) == Some(d2)
    requires ParseFd(u, uri, copy, fileSize).1
    ensures d1 < |uri| && d2 < |uri| && fileSize.Some? && Spells(uri, d1, d2, fd, offset, size)
  {
    BothFound(u, uri, d1, d2, copy, fileSize);
    FieldsOf(u, uri, d1, d2, copy, fileSize);
    fd := StrToInt(uri[..d1], INT32_MIN, INT32_MAX).value;
    offset := StrToInt(OffsetText(uri, d1, d2), INT64_MIN, INT64_MAX).value;
    size := StrToInt(uri[d2 + 6..], INT64_MIN, INT64_MAX).value;
    StrToIntExactly(uri[..d1], INT32_MIN, INT32_MAX, fd);
    StrToIntExactly(OffsetText(uri, d1, d2), INT64_MIN, INT64_MAX, offset);
    StrToIntExactly(uri[d2 + 6..], INT64_MIN, INT64_MAX, size);
  }

  /** A URI with both delimiters is accepted exactly if the descriptor can be inspected and the URI spells
      three numbers. */
  lemma AcceptedIff(u: Uri, uri: string, d1: nat, d2: nat, copy: int, fileSize: Option<nat>)
    requires Find(uri, "?", 0) == Some(d1) && Find(uri, "&", 0) == Some(d2)
    ensures d1 < |uri| && d2 < |uri|
    ensures ParseFd(u, uri, copy, fileSize).1 <==>
              fileSize.Some? && exists fd, offset, size :: Spells(uri, d1, d2, fd, offset, size)
  {
    if ParseFd(u, uri, copy, fileSize).1 {
      var fd, offset, size := AcceptedSpells(u, uri, d1, d2, copy, fileSize);
    }
    if fd, offset, size :| Spells(uri, d1, d2, fd, offset, size) {
      ParseStores(u, uri, d1, d2, fd, offset, size, copy, fileSize);
    }
  }

  /** The guard on the unsigned length only refuses an empty offset text: a URI whose '&' comes too early
      gets as far as the correction exactly if what precedes the '?' stands for an int32, and what follows
      the place of the offset, and the place of the size, each stands for an int64. */
  lemma EarlyAmpersandAcceptedIff(u: Uri, uri: string, d1: nat, d2: nat, copy: int, fileSize: Option<nat>)
    requires Find(uri, "?", 0) == Some(d1) && Find(uri, "&", 0) == Some(d2)
    requires d2 < d1 + 8 && fileSize.Some?
    ensures d1 < |uri| && d2 < |uri|
    ensures ParseFd(u, uri, copy, fileSize).1 <==>
              && StandsForInt32(uri[..d1])
              && d1 + 8 < |uri| && StandsForInt64(uri[d1 + 8..])
              && d2 + 6 < |uri| && StandsForInt64(uri[d2 + 6..])
  {
    if ParseFd(u, uri, copy, fileSize).1 {
      var fd, offset, size := AcceptedSpells(u, uri, d1, d2, copy, fileSize);
      assert Stands(uri[..d1], INT32_MIN, INT32_MAX, fd) && Stands(uri[d1 + 8..], INT64_MIN, INT64_MAX, offset);
    } else {
      BothFound(u, uri, d1, d2, copy, fileSize);
      if d1 + 8 < |uri| && d2 + 6 < |uri| {
        NotSpelled(u, uri, d1, d2, copy, fileSize);
      }
    }
  }

  lemma NotSpelled(u: Uri, uri: string, d1: nat, d2: nat, copy: int, fileSize: Option<nat>)
    requires Find(uri, "?", 0) == Some(d1) && Find(uri, "&", 0) == Some(d2)
    requires d2 < d1 + 8 < |uri| && d2 + 6 < |uri| && fileSize.Some? && !ParseFd(u, uri, copy, fileSize).1
    ensures StandsForInt32(uri[..d1]) && StandsForInt64(uri[d1 + 8..]) ==> !StandsForInt64(uri[d2 + 6..])
  {
    if StandsForInt32(uri[..d1]) && StandsForInt64(uri[d1 + 8..]) && StandsForInt64(uri[d2 + 6..]) {
      var fd :| Stands(uri[..d1], INT32_MIN, INT32_MAX, fd);
      var text, rest := uri[d1 + 8..], uri[d2 + 6..];
      var offset :| Stands(text, INT64_MIN, INT64_MAX, offset);
      var size :| Stands(rest, INT64_MIN, INT64_MAX, size);
      ParseStores(u, uri, d1, d2, fd, offset, size, copy, fileSize);
      assert false;
    }
  }

  /** In an accepted URI the stored offset is the number written before the '&' exactly if the '&' comes
      after the place of the offset. */
  lemma OffsetBeforeAmpersandIff(u: Uri, uri: string, d1: nat, d2: nat, copy: int, fileSize: Option<nat>)
    returns (offset: int, size: int)
    requires Find(uri, "?", 0) == Some(d1) && Find(uri, "&", 0) == Some(d2)
    requires ParseFd(u, uri, copy, fileSize).1
    ensures ParseFd(u, uri, copy, fileSize) == Correct(u.(fd := copy, offset := offset, size := size), fileSize)
    ensures d1 < |uri| && d2 < |uri|
    ensures (d1 + 8 <= d2 && Stands(uri[d1 + 8..d2], INT64_MIN, INT64_MAX, offset)) <==> d1 + 8 < d2
  {
    var fd;
    fd, offset, size := AcceptedSpells(u, uri, d1, d2, copy, fileSize);
    ParseStores(u, uri, d1, d2, fd, offset, size, copy, fileSize);
    StandsNonEmpty(OffsetText(uri, d1, d2), INT64_MIN, INT64_MAX, offset);
  }

  /** An early '&': the offset is read from the place of the size. */
  lemma EarlyAmpersand(u: Uri, copy: int, fileSize: Option<nat>)
    ensures ParseFd(u, "3?a&size=77", copy, fileSize) ==
              Correct(u.(fd := copy, offset := 77, size := 77), fileSize)
  {
    var s := "3?a&size=77";
    NoneBefore(s, '?', 1);
    NoneBefore(s, '&', 3);
    PrintRoundTrip(3, INT32_MIN, INT32_MAX);
    PrintRoundTrip(77, INT64_MIN, INT64_MAX);
    assert s[..1] == Print(3) && s[9..] == Print(77);
  }

  // ----- URIs with one delimiter or none -----

  lemma FindIffPresent(s: string, c: char)
    ensures Find(s, [c], 0).Some? <==> c in s
  {
    FindFirst(s, [c], 0);
    if c in s {
      var k :| 0 <= k < |s| && s[k] == c;
      assert MatchAt(s, [c], k);
    }
    if Find(s, [c], 0).Some? {
      var k := Find(s, [c], 0).value;
      assert s[k + 0] == [c][0];
    }
  }

  /** A body without '?' and '&' is accepted exactly if it stands for an int32 and the descriptor can be
      inspected; it gives that descriptor, and the offset and size it had are corrected against the file. */
  lemma PlainAcceptedIff(u: Uri, uri: string, copy: int, fileSize: Option<nat>)
    requires '?' !in uri && '&' !in uri
    ensures var (v, ok) := ParseFd(u, uri, copy, fileSize);
            && (ok <==> StandsForInt32(uri) && fileSize.Some?)
            && (ok ==> Stands(uri, INT32_MIN, INT32_MAX, v.fd) && v.kind == u.kind
                       && 0 <= v.offset <= fileSize.value && 0 <= v.size <= fileSize.value - v.offset
                       && v.formatted == "fd://" + Print(v.fd) + "?offset=" + Print(v.offset) + "&size=" + Print(v.size))
            && (ok && u.offset == u.size == 0 ==> v.offset == 0 && v.size == fileSize.value)
  {
    FindIffPresent(uri, '?');
    FindIffPresent(uri, '&');
    var number := StrToInt(uri, INT32_MIN, INT32_MAX);
    if number.Some? {
      StrToIntExactly(uri, INT32_MIN, INT32_MAX, number.value);
      assert Stands(uri, INT32_MIN, INT32_MAX, number.value);
    }
    if StandsForInt32(uri) {
      var v :| Stands(uri, INT32_MIN, INT32_MAX, v);
      StrToIntExactly(uri, INT32_MIN, INT32_MAX, v);
    }
    if number.Some? && fileSize.Some? {
      CorrectedText(u.(fd := number.value), fileSize.value);
    }
  }

  lemma CorrectedText(u: Uri, n: nat)
    ensures var v := Correct(u, Some(n)).0;
            v.formatted == "fd://" + Print(v.fd) + "?offset=" + Print(v.offset) + "&size=" + Print(v.size)
  {
    var v := Correct(u, Some(n)).0;
    assert "fd://" + (Print(v.fd) + "?offset=" + Print(v.offset) + "&size=" + Print(v.size)) ==
           "fd://" + Print(v.fd) + "?offset=" + Print(v.offset) + "&size=" + Print(v.size);
  }

  /** A body with just one of the two delimiters is refused and changes nothing. */
  lemma OneDelimiterRefused(u: Uri, uri: string, copy: int, fileSize: Option<nat>)
    requires ('?' in uri) != ('&' in uri)
    ensures ParseFd(u, uri, copy, fileSize) == (u, false)
  {
    FindIffPresent(uri, '?');
    FindIffPresent(uri, '&');
  }

  /** A new helper for "fd://" and a number, spaces around it, has that descriptor and the whole file, and is
      of unknown type without a text if the descriptor cannot be inspected. */
  lemma FormatPlain(fd: int, a: nat, b: nat, copy: int, fileSize: Option<nat>, realPath: Option<string>)
    requires Int32(fd)
    ensures var u := Format(NEW_URI, Spaces(a) + ("fd://" + Print(fd)) + Spaces(b), copy, fileSize, realPath);
            u == match fileSize {
              case Some(n) => Uri("fd://" + Print(fd) + "?offset=0&size=" + Print(n), Fd, fd, 0, n)
              case None => Uri("", Unknown, fd, 0, 0)
            }
  {
    var body := Print(fd);
    var uri := Spaces(a) + ("fd://" + body) + Spaces(b);
    PrintChars(fd);
    assert "fd://" + body == "fd" + "://" + body;
    SplitFinds(a, "fd", body, b);
    FormatParses(uri, body, copy, fileSize, realPath);
    PlainParsed(NEW_URI.(kind := Fd), fd, copy, fileSize);
  }

  lemma PlainParsed(u: Uri, fd: int, copy: int, fileSize: Option<nat>)
    requires Int32(fd) && u.offset == u.size == 0
    ensures ParseFd(u, Print(fd), copy, fileSize) ==
              match fileSize {
                case Some(n) =>
                  (u.(fd := fd, size := n, formatted := "fd://" + Print(fd) + "?offset=0&size=" + Print(n)), true)
                case None => (u.(fd := fd), false)
              }
  {
    var body := Print(fd);
    PrintChars(fd);
    FindIffPresent(body, '?');
    FindIffPresent(body, '&');
    PrintRoundTrip(fd, INT32_MIN, INT32_MAX);
    if fileSize.Some? {
      WholeFileText(fd, fileSize.value);
    }
  }

  lemma WholeFileText(fd: int, n: nat)
    ensures FdUri(fd, 0, n) == "fd://" + Print(fd) + "?offset=0&size=" + Print(n)
  {
    assert Print(0) == "0";
    assert FdUri(fd, 0, n) == "fd://" + Print(fd) + "?offset=" + "0" + "&size=" + Print(n);
  }

  /** Reading gives a number exactly if the text stands for one, and then that one. */
  lemma ReadsInt32(text: string)
    ensures match StrToInt(text, INT32_MIN, INT32_MAX)
            case Some(v) => Stands(text, INT32_MIN, INT32_MAX, v) && StandsForInt32(text)
            case None => !StandsForInt32(text)
  {
    var number := StrToInt(text, INT32_MIN, INT32_MAX);
    if number.Some? {
      StrToIntExactly(text, INT32_MIN, INT32_MAX, number.value);
      assert Stands(text, INT32_MIN, INT32_MAX, number.value);
    }
    forall v ensures Stands(text, INT32_MIN, INT32_MAX, v) ==> number == Some(v) {
      StrToIntExactly(text, INT32_MIN, INT32_MAX, v);
    }
  }

  lemma ReadsInt64(text: string)
    ensures match StrToInt(text, INT64_MIN, INT64_MAX)
            case Some(v) => Stands(text, INT64_MIN, INT64_MAX, v) && StandsForInt64(text)
            case None => !StandsForInt64(text)
  {
    var number := StrToInt(text, INT64_MIN, INT64_MAX);
    if number.Some? {
      StrToIntExactly(text, INT64_MIN, INT64_MAX, number.value);
      assert Stands(text, INT64_MIN, INT64_MAX, number.value);
    }
    forall v ensures Stands(text, INT64_MIN, INT64_MAX, v) ==> number == Some(v) {
      StrToIntExactly(text, INT64_MIN, INT64_MAX, v);
    }
  }

  /** The descriptor and the offset are numbers in range. */
  ghost predicate OffsetSpelled(uri: string, d1: nat, d2: nat)
    requires d1 < |uri| && d2 < |uri|
  {
    StandsForInt32(uri[..d1]) && d1 + 8 < |uri| && StandsForInt64(OffsetText(uri, d1, d2))
  }

  lemma OffsetReads(u: Uri, uri: string, d1: nat, d2: nat, copy: int, fileSize: Option<nat>)
    requires d1 < |uri| && d2 < |uri|
    ensures !OffsetSpelled(uri, d1, d2) ==> ParseFields(u, uri, d1, d2, copy, fileSize) == (u, false)
    ensures OffsetSpelled(uri, d1, d2) ==>
              && StrToInt(uri[..d1], INT32_MIN, INT32_MAX).Some? && d2 != d1 + 8
              && var offset := StrToInt(OffsetText(uri, d1, d2), INT64_MIN, INT64_MAX);
                 offset.Some? && Stands(OffsetText(uri, d1, d2), INT64_MIN, INT64_MAX, offset.value)
  {
    ReadsInt32(uri[..d1]);
    if d1 + 8 < |uri| {
      ReadsInt64(OffsetText(uri, d1, d2));
    }
  }

  /** What a refused URI with both delimiters leaves behind: nothing, if its descriptor or its offset is not a
      number in range; else the offset, and with it the size and the descriptor if the size is one too, so that
      only the file could not be inspected. */
  lemma RefusedLeaves(u: Uri, uri: string, d1: nat, d2: nat, copy: int, fileSize: Option<nat>)
    requires Find(uri, "?", 0) == Some(d1) && Find(uri, "&", 0) == Some(d2)
    requires !ParseFd(u, uri, copy, fileSize).1
    ensures d1 < |uri| && d2 < |uri|
    ensures var v := ParseFd(u, uri, copy, fileSize).0;
            if OffsetSpelled(uri, d1, d2) then
              && Stands(OffsetText(uri, d1, d2), INT64_MIN, INT64_MAX, v.offset)
              && v.formatted == u.formatted && v.kind == u.kind
              && if d2 + 6 < |uri| && StandsForInt64(uri[d2 + 6..]) then
                   v.fd == copy && Stands(uri[d2 + 6..], INT64_MIN, INT64_MAX, v.size) && fileSize.None?
                 else v.fd == u.fd && v.size == u.size
            else v == u
  {
    BothFound(u, uri, d1, d2, copy, fileSize);
    OffsetReads(u, uri, d1, d2, copy, fileSize);
    if d2 + 6 < |uri| {
      ReadsInt64(uri[d2 + 6..]);
    }
  }

  // ----- other kinds of URIs -----

  /** A text without "://" is all body, whatever spaces surround it. */
  lemma SplitWhole(a: nat, body: string, b: nat)
    requires body != "" && body[0] != ' ' && body[|body| - 1] != ' ' && !Contains(body, "://")
    ensures SplitHeadAndBody(Spaces(a) + body + Spaces(b)) == ("", body)
  {
    assert Spaces(a) + body + Spaces(b) == Spaces(a) + (body + Spaces(b));
    TrimLeftDrops(a, body + Spaces(b));
    TrimRightDrops(body, b);
  }

  /** Blanks have neither. */
  lemma SplitBlank(n: nat)
    ensures SplitHeadAndBody(Spaces(n)) == ("", "")
  {
    assert Spaces(n) == Spaces(n) + "";
    TrimLeftDrops(n, "");
    FindFirst("", "://", 0);
  }

  /** A helper for a file: the resolved path after "file://", or, for a path that is too long or does not
      resolve, the text as it is and an unknown type. */
  function ForFile(body: string, realPath: Option<string>): Uri {
    if |body| < 4096 && realPath.Some? then Uri("file://" + realPath.value, File, -1, 0, 0)
    else Uri(body, Unknown, -1, 0, 0)
  }

  /** A new helper by the head of its URI, spaces around it: a file, an http address, which loses its "://",
      or, for any other head than "fd", nothing. */
  lemma FormatByHead(a: nat, head: string, body: string, b: nat, copy: int, fileSize: Option<nat>,
                     realPath: Option<string>)
    requires head != "" && head[0] != ' ' && body != "" && body[|body| - 1] != ' ' && ':' !in head
    ensures var u := Format(NEW_URI, Spaces(a) + (head + "://" + body) + Spaces(b), copy, fileSize, realPath);
            && (head == "file" ==> u == ForFile(body, realPath))
            && (head == "http" ==> u == Uri("http" + body, Http, -1, 0, 0))
            && (head != "file" && head != "http" && head != "fd" ==> u == NEW_URI)
  {
    SplitFinds(a, head, body, b);
  }

  /** A text without "://" is a file path. */
  lemma FormatPath(a: nat, body: string, b: nat, copy: int, fileSize: Option<nat>, realPath: Option<string>)
    requires body != "" && body[0] != ' ' && body[|body| - 1] != ' ' && !Contains(body, "://")
    ensures Format(NEW_URI, Spaces(a) + body + Spaces(b), copy, fileSize, realPath) == ForFile(body, realPath)
  {
    SplitWhole(a, body, b);
  }

  /** Blanks are an unknown URI, whatever the path resolves to, and the empty text leaves the helper as it is;
      so does any text once the helper has a formatted URI. */
  lemma FormatNothing(u: Uri, uri: string, n: nat, copy: int, fileSize: Option<nat>, realPath: Option<string>)
    ensures u.formatted != "" ==> Format(u, uri, copy, fileSize, realPath) == u
    ensures Format(u, "", copy, fileSize, realPath) == u
    ensures n > 0 ==> Format(NEW_URI, Spaces(n), copy, fileSize, realPath) == Uri("", Unknown, -1, 0, 0)
  {
    SplitBlank(n);
  }
}
