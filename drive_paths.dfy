/** Path handling of the Drive utilities: POSIX `os.path.split`, the
    `split_path` loop built on it, Python's `str.split('/')`, and the path
    validation `check_path_format`. */
module DrivePaths {
  import opened Wrappers
  import opened Strings

  predicate AllSlashes(s: string) {
    forall k :: 0 <= k < |s| ==> s[k] == '/'
  }

  predicate SlashFree(s: string) {
    forall k :: 0 <= k < |s| ==> s[k] != '/'
  }

  /** One past the index of the last '/', or 0 when there is none
      (`p.rfind('/') + 1`). */
  function AfterLastSlash(s: string): (i: nat)
    ensures i <= |s| && SlashFree(s[i..])
    ensures i > 0 ==> s[i - 1] == '/'
  {
    if s == [] then 0
    else if s[|s| - 1] == '/' then |s|
    else
      var i := AfterLastSlash(s[..|s| - 1]);
      assert s[i..] == s[..|s| - 1][i..] + [s[|s| - 1]];
      i
  }

  /** `s.rstrip('/')`. */
  function RStripSlashes(s: string): (r: string)
    ensures |r| <= |s| && r == s[..|r|] && AllSlashes(s[|r|..])
    ensures r == [] || r[|r| - 1] != '/'
  {
    if s != [] && s[|s| - 1] == '/' then
      var r := RStripSlashes(s[..|s| - 1]);
      assert s[|r|..] == s[..|s| - 1][|r|..] + ['/'];
      r
    else s
  }

  /** POSIX `os.path.split`: everything up to the last '/', with trailing
      slashes removed unless it is all slashes, and the rest. */
  function PosixSplit(p: string): (string, string) {
    var i := AfterLastSlash(p);
    var head := p[..i];
    var tail := p[i..];
    if head != "" && !AllSlashes(head) then (RStripSlashes(head), tail) else (head, tail)
  }

  /** A head produced by `PosixSplit`: empty, all slashes, or not ending in '/'. */
  predicate Normal(s: string) {
    s == [] || AllSlashes(s) || s[|s| - 1] != '/'
  }

  /** Python's `s.split('/')`. */
  function Pieces(s: string): (r: seq<string>)
    ensures |r| >= 1
  {
    if s == [] then [""]
    else if s[0] == '/' then [""] + Pieces(s[1..])
    else
      var rest := Pieces(s[1..]);
      [[s[0]] + rest[0]] + rest[1..]
  }

  /** Keeps the non-empty strings, in order. */
  function NonEmpty(xs: seq<string>): (r: seq<string>)
    ensures forall k :: 0 <= k < |r| ==> r[k] != ""
    ensures forall x :: x in r ==> x in xs
  {
    if xs == [] then []
    else (if xs[0] == "" then [] else [xs[0]]) + NonEmpty(xs[1..])
  }

  /** The words of a path: the non-empty '/'-separated pieces. */
  function Words(s: string): seq<string> {
    NonEmpty(Pieces(s))
  }

  /** Length of the leading run of '/'. */
  function LeadingSlashes(s: string): (n: nat)
    ensures n <= |s| && AllSlashes(s[..n])
    ensures n < |s| ==> s[n] != '/'
  {
    if s != [] && s[0] == '/' then
      var n := 1 + LeadingSlashes(s[1..]);
      assert s[..n] == [s[0]] + s[1..][..n - 1];
      n
    else 0
  }

  /** What `split_path` returns: the leading run of slashes, if any, as one
      segment, then the words of the rest of the path. */
  function SplitSpec(p: string): seq<string> {
    var n := LeadingSlashes(p);
    (if n > 0 then [p[..n]] else []) + Words(p[n..])
  }

  function Reverse<T>(s: seq<T>): (r: seq<T>)
    ensures |r| == |s|
  {
    if s == [] then [] else [s[|s| - 1]] + Reverse(s[..|s| - 1])
  }

  /** `GoogleDriveUtils.split_path`: splits off the file name with
      `os.path.split`, then splits the directory part repeatedly, collecting
      the folder names backwards, and ends with the remaining root part. */
  method SplitPath(pathAndFile: string) returns (folders: seq<string>)
    ensures folders == SplitSpec(pathAndFile)
  {
    var path, file := PosixSplit(pathAndFile).0, PosixSplit(pathAndFile).1;
    var collected: seq<string> := [];
    SplitLoopEntry(pathAndFile);
    while true
      invariant SplitLoopInv(pathAndFile, path, collected, file)
      decreases |path|
    {
      var rest, folder := PosixSplit(path).0, PosixSplit(path).1;
      SplitHeadNormal(path);
      if folder != "" {
        SplitLoopStep(pathAndFile, path, collected, file);
        collected := collected + [folder];
        path := rest;
      } else {
        SplitLoopExit(pathAndFile, path, collected, file);
        if rest != "" {
          collected := collected + [rest];
        }
        break;
      }
    }
    folders := Reverse(collected);
    if file != "" {
      folders := folders + [file];
    }
  }

  /** The loop invariant of `SplitPath`: the segments still to come from
      `path`, then the folders collected so far (in reverse), then the file
      name, make up the whole answer. */
  predicate SplitLoopInv(p: string, path: string, collected: seq<string>, file: string) {
    && Normal(path)
    && SplitSpec(p) == SplitSpec(path) + Reverse(collected) + (if file != "" then [file] else [])
  }

  lemma {:induction false} SplitLoopEntry(p: string)
    ensures SplitLoopInv(p, PosixSplit(p).0, [], PosixSplit(p).1)
  {
    SplitStep(p);
    SplitHeadNormal(p);
  }

  lemma {:induction false} SplitLoopStep(p: string, path: string, collected: seq<string>, file: string)
    requires SplitLoopInv(p, path, collected, file) && PosixSplit(path).1 != ""
    ensures SplitLoopInv(p, PosixSplit(path).0, collected + [PosixSplit(path).1], file)
  {
    var head, tail := PosixSplit(path).0, PosixSplit(path).1;
    SplitStep(path);
    SplitHeadNormal(path);
    ReverseSnoc(collected, tail);
    WordListAssoc(SplitSpec(head), [tail], Reverse(collected));
  }

  lemma {:induction false} SplitLoopExit(p: string, path: string, collected: seq<string>, file: string)
    requires SplitLoopInv(p, path, collected, file) && PosixSplit(path).1 == ""
    ensures var rest := PosixSplit(path).0;
      SplitSpec(p) == Reverse(if rest != "" then collected + [rest] else collected)
                      + (if file != "" then [file] else [])
  {
    var rest := PosixSplit(path).0;
    NormalWithoutTail(path);
    if rest != "" {
      ReverseSnoc(collected, rest);
      AllSlashesSpec(rest);
    } else {
      assert SplitSpec(path) == [];
    }
  }

  lemma {:induction false} ReverseSnoc<T>(s: seq<T>, x: T)
    ensures Reverse(s + [x]) == [x] + Reverse(s)
  {
    assert (s + [x])[..|s|] == s;
  }

  // ---- Lemmas about the pieces of a path ----

  lemma {:induction false} PiecesOfSlashFree(s: string)
    requires SlashFree(s)
    ensures Pieces(s) == [s]
  {
    if s != [] {
      PiecesOfSlashFree(s[1..]);
      assert [s[0]] + s[1..] == s;
    }
  }

  lemma {:induction false} PiecesAreSlashFree(s: string)
    ensures forall x :: x in Pieces(s) ==> SlashFree(x)
  {
    if s != [] {
      PiecesAreSlashFree(s[1..]);
      if s[0] != '/' {
        var rest := Pieces(s[1..]);
        assert rest[0] in rest;
        var first := [s[0]] + rest[0];
        assert SlashFree(first) by {
          forall k | 0 <= k < |first| ensures first[k] != '/' {
            if k > 0 { assert first[k] == rest[0][k - 1]; }
          }
        }
        forall x | x in Pieces(s) ensures SlashFree(x) {
          if x != first { assert x in rest[1..]; }
        }
      }
    }
  }

  lemma {:induction false} PiecesAppend(a: string, b: string)
    ensures Pieces(a + "/" + b) == Pieces(a) + Pieces(b)
  {
    if a == [] {
      assert a + "/" + b == ['/'] + b;
      PiecesCons('/', b);
    } else {
      var c, a' := a[0], a[1..];
      assert a == [c] + a';
      assert a + "/" + b == [c] + (a' + "/" + b);
      PiecesAppend(a', b);
      PiecesCons(c, a');
      PiecesCons(c, a' + "/" + b);
      if c != '/' {
        GlueAppend(c, Pieces(a'), Pieces(b));
      } else {
        WordListAssoc([""], Pieces(a'), Pieces(b));
      }
    }
  }

  lemma WordListAssoc(x: seq<string>, y: seq<string>, z: seq<string>)
    ensures x + (y + z) == (x + y) + z
  {
  }

  /** `Pieces` of a string by its first character. */
  lemma PiecesCons(c: char, s: string)
    ensures Pieces([c] + s)
            == if c == '/' then [""] + Pieces(s) else [[c] + Pieces(s)[0]] + Pieces(s)[1..]
  {
    assert ([c] + s)[0] == c;
    assert ([c] + s)[1..] == s;
  }

  lemma GlueAppend(c: char, x: seq<string>, y: seq<string>)
    requires |x| >= 1
    ensures [[c] + (x + y)[0]] + (x + y)[1..] == ([[c] + x[0]] + x[1..]) + y
  {
    assert (x + y)[0] == x[0];
    assert (x + y)[1..] == x[1..] + y;
  }

  lemma {:induction false} NonEmptyAppend(a: seq<string>, b: seq<string>)
    ensures NonEmpty(a + b) == NonEmpty(a) + NonEmpty(b)
  {
    if a != [] {
      var ab := a + b;
      assert ab[0] == a[0];
      assert ab[1..] == a[1..] + b;
      NonEmptyAppend(a[1..], b);
      assert NonEmpty(ab) == (if a[0] == "" then [] else [a[0]]) + NonEmpty(a[1..] + b);
    } else {
      assert a + b == b;
    }
  }

  lemma {:induction false} WordsAppend(a: string, b: string)
    ensures Words(a + "/" + b) == Words(a) + Words(b)
  {
    PiecesAppend(a, b);
    NonEmptyAppend(Pieces(a), Pieces(b));
  }

  lemma {:induction false} WordsOfSlashFree(s: string)
    requires SlashFree(s)
    ensures Words(s) == if s == "" then [] else [s]
  {
    PiecesOfSlashFree(s);
    assert [s][1..] == [];
    assert NonEmpty([s]) == (if s == "" then [] else [s]) + NonEmpty([]);
  }

  lemma {:induction false} WordsAfterSlashes(s: string, b: string)
    requires AllSlashes(s)
    ensures Words(s + b) == Words(b)
    decreases |s|
  {
    if s != [] {
      var rest := s[1..] + b;
      assert s + b == "" + "/" + rest by {
        assert s == [s[0]] + s[1..];
      }
      WordsAppend("", rest);
      WordsOfSlashFree("");
      assert Words(s + b) == Words(rest);
      WordsAfterSlashes(s[1..], b);
    } else {
      assert s + b == b;
    }
  }

  lemma {:induction false} LeadingSlashesOfPrefix(x: string, y: string)
    requires LeadingSlashes(x) < |x|
    ensures LeadingSlashes(x + y) == LeadingSlashes(x)
  {
    if x[0] == '/' {
      assert (x + y)[1..] == x[1..] + y;
      LeadingSlashesOfPrefix(x[1..], y);
    }
  }

  lemma {:induction false} LeadingSlashesOfRun(x: string, y: string)
    requires AllSlashes(x)
    ensures LeadingSlashes(x + y) == |x| + LeadingSlashes(y)
  {
    if x != [] {
      var xy := x + y;
      assert xy[0] == '/';
      assert xy[1..] == x[1..] + y;
      LeadingSlashesOfRun(x[1..], y);
      assert LeadingSlashes(xy) == 1 + LeadingSlashes(xy[1..]);
    } else {
      assert x + y == y;
    }
  }

  lemma {:induction false} AllSlashesSpec(s: string)
    requires s != "" && AllSlashes(s)
    ensures SplitSpec(s) == [s]
  {
    LeadingSlashesOfRun(s, "");
    assert s + "" == s;
    assert s[|s|..] == "";
    WordsOfSlashFree("");
  }

  /** One step of the loop: splitting `q` into head and tail loses nothing. */
  lemma {:induction false} SplitStep(q: string)
    ensures SplitSpec(q) == SplitSpec(PosixSplit(q).0) + (if PosixSplit(q).1 != "" then [PosixSplit(q).1] else [])
  {
    var i := AfterLastSlash(q);
    var head, tail := q[..i], q[i..];
    assert q == head + tail;
    WordsOfSlashFree(tail);
    if i == 0 {
      SplitStepNoSlash(q);
    } else if AllSlashes(head) {
      SplitStepRootRun(head, tail);
    } else {
      SplitStepStripped(head, tail);
    }
  }

  lemma {:induction false} SplitStepNoSlash(q: string)
    requires SlashFree(q)
    ensures SplitSpec(q) == SplitSpec("") + (if q != "" then [q] else [])
  {
    WordsOfSlashFree(q);
    WordsOfSlashFree("");
    assert LeadingSlashes(q) == 0;
    assert q[0..] == q;
  }

  lemma {:induction false} SplitStepRootRun(head: string, tail: string)
    requires head != "" && AllSlashes(head) && SlashFree(tail)
    ensures SplitSpec(head + tail) == SplitSpec(head) + (if tail != "" then [tail] else [])
  {
    var q := head + tail;
    WordsOfSlashFree(tail);
    AllSlashesSpec(head);
    LeadingSlashesOfRun(head, tail);
    assert LeadingSlashes(tail) == 0;
    assert q[|head|..] == tail;
    assert q[..|head|] == head;
  }

  lemma {:induction false} SplitStepStripped(head: string, tail: string)
    requires head != "" && !AllSlashes(head) && head[|head| - 1] == '/' && SlashFree(tail)
    ensures SplitSpec(head + tail) == SplitSpec(RStripSlashes(head)) + (if tail != "" then [tail] else [])
  {
    var h := RStripSlashes(head);
    var run := head[|h|..];
    StripFacts(head);
    SplitAcrossRun(h, run, tail);
    assert head + tail == h + run + tail;
  }

  /** A head that does not consist of slashes alone is its stripped part
      followed by a non-empty run of slashes. */
  lemma {:induction false} StripFacts(head: string)
    requires head != "" && !AllSlashes(head) && head[|head| - 1] == '/'
    ensures var h := RStripSlashes(head);
      && head == h + head[|h|..]
      && LeadingSlashes(h) < |h|
      && head[|h|..] != [] && AllSlashes(head[|h|..])
  {
    var h := RStripSlashes(head);
    var run := head[|h|..];
    assert head == h + run;
    assert |h| < |head|;
    forall j | |h| <= j < |head|
      ensures head[j] == '/'
    {
      assert head[j] == run[j - |h|];
    }
    var k :| 0 <= k < |head| && head[k] != '/';
    assert h[k] == head[k];
    assert h[|h| - 1] != '/';
  }

  lemma {:induction false} SplitAcrossRun(h: string, run: string, tail: string)
    requires LeadingSlashes(h) < |h| && run != [] && AllSlashes(run) && SlashFree(tail)
    ensures SplitSpec(h + run + tail) == SplitSpec(h) + (if tail != "" then [tail] else [])
  {
    var n := LeadingSlashes(h);
    var q := h + run + tail;
    var lead: seq<string> := if n > 0 then [h[..n]] else [];
    var tailWords: seq<string> := if tail != "" then [tail] else [];
    assert LeadingSlashes(q) == n && q[..n] == h[..n] by {
      LeadSame(h, run + tail);
      AppendAssoc(h, run, tail);
    }
    assert Words(q[n..]) == Words(h[n..]) + tailWords by {
      WordsAcrossRun(h[n..], run, tail);
      SliceAppend(h, n, run + tail);
      AppendAssoc(h, run, tail);
      AppendAssoc(h[n..], run, tail);
      WordsOfSlashFree(tail);
    }
    assert SplitSpec(q) == lead + (Words(h[n..]) + tailWords);
    WordListAssoc(lead, Words(h[n..]), tailWords);
  }

  lemma {:induction false} LeadSame(h: string, x: string)
    requires LeadingSlashes(h) < |h|
    ensures LeadingSlashes(h + x) == LeadingSlashes(h)
    ensures (h + x)[..LeadingSlashes(h)] == h[..LeadingSlashes(h)]
  {
    LeadingSlashesOfPrefix(h, x);
  }

  lemma {:induction false} WordsAcrossRun(x: string, run: string, tail: string)
    requires run != [] && AllSlashes(run)
    ensures Words(x + run + tail) == Words(x) + Words(tail)
  {
    var rest := run[1..] + tail;
    assert x + run + tail == x + "/" + rest by {
      assert run == "/" + run[1..];
    }
    WordsAppend(x, rest);
    WordsAfterSlashes(run[1..], tail);
  }

  lemma {:induction false} SliceAppend(a: string, n: nat, b: string)
    requires n <= |a|
    ensures (a + b)[n..] == a[n..] + b
  {
  }

  lemma {:induction false} PrefixOfAppend(a: string, n: nat, b: string)
    requires n <= |a|
    ensures (a + b)[..n] == a[..n]
  {
  }

  lemma {:induction false} SplitHeadNormal(q: string)
    ensures Normal(PosixSplit(q).0)
    ensures PosixSplit(q).1 != "" ==> |PosixSplit(q).0| < |q|
  {
  }

  /** A normal path whose split has an empty tail is empty or all slashes and
      splits to itself. */
  lemma {:induction false} NormalWithoutTail(q: string)
    requires Normal(q) && PosixSplit(q).1 == ""
    ensures PosixSplit(q).0 == q && (q == "" || AllSlashes(q))
  {
    var i := AfterLastSlash(q);
    if q != [] {
      assert i == |q|;
      assert q[..i] == q;
    }
  }

  /** The shape `split_path` always returns: non-empty segments, the first of
      them a run of slashes exactly when the path starts with '/', and no '/'
      in any later segment or in a first segment that is not a slash run. */
  lemma {:induction false} SplitSpecShape(p: string)
    ensures forall k :: 0 <= k < |SplitSpec(p)| ==> SplitSpec(p)[k] != ""
    ensures forall k :: 1 <= k < |SplitSpec(p)| ==> SlashFree(SplitSpec(p)[k])
    ensures LeadingSlashes(p) > 0 ==> SplitSpec(p) != [] && SplitSpec(p)[0] == p[..LeadingSlashes(p)]
    ensures LeadingSlashes(p) == 0 && SplitSpec(p) != [] ==> SlashFree(SplitSpec(p)[0])
  {
    var n := LeadingSlashes(p);
    var w := Words(p[n..]);
    PiecesAreSlashFree(p[n..]);
    assert forall k :: 0 <= k < |w| ==> SlashFree(w[k]);
  }

  /** Slash-free names joined by single slashes split back into those names. */
  lemma {:induction false} SplitJoinRelative(segs: seq<string>)
    requires forall k :: 0 <= k < |segs| ==> segs[k] != "" && SlashFree(segs[k])
    ensures SplitSpec(Join(segs, "/")) == segs
  {
    var j := Join(segs, "/");
    WordsOfJoin(segs);
    if segs != [] {
      JoinStartsWithFirst(segs);
      assert j[0] == segs[0][0];
      assert LeadingSlashes(j) == 0;
    }
  }

  /** A '/' in front of such a path adds the root segment "/". */
  lemma {:induction false} SplitJoinAbsolute(segs: seq<string>)
    requires forall k :: 0 <= k < |segs| ==> segs[k] != "" && SlashFree(segs[k])
    ensures SplitSpec("/" + Join(segs, "/")) == ["/"] + segs
  {
    var j := Join(segs, "/");
    var p := "/" + j;
    WordsOfJoin(segs);
    if segs != [] {
      JoinStartsWithFirst(segs);
    }
    assert LeadingSlashes(j) == 0;
    LeadingSlashesOfRun("/", j);
    assert p[1..] == j;
    assert p[..1] == "/";
  }

  lemma {:induction false} WordsOfJoin(segs: seq<string>)
    requires forall k :: 0 <= k < |segs| ==> segs[k] != "" && SlashFree(segs[k])
    ensures Words(Join(segs, "/")) == segs
  {
    if segs == [] {
      WordsOfSlashFree("");
    } else if |segs| == 1 {
      WordsOfSlashFree(segs[0]);
    } else {
      WordsAppend(segs[0], Join(segs[1..], "/"));
      WordsOfSlashFree(segs[0]);
      WordsOfJoin(segs[1..]);
    }
  }

  lemma {:induction false} JoinStartsWithFirst(segs: seq<string>)
    requires segs != [] && segs[0] != ""
    ensures |Join(segs, "/")| > 0 && Join(segs, "/")[0] == segs[0][0]
  {
  }

  // ---- os.path.join ----

  /** POSIX `os.path.join(a, b)`: an absolute `b` replaces `a`; otherwise
      `b` is appended, after a '/' unless `a` is empty or already ends in
      one. */
  function PosixJoin(a: string, b: string): string {
    if StartsWith(b, "/") then b
    else if a == "" || EndsWith(a, "/") then a + b
    else a + "/" + b
  }

  /** The joined path always ends with `b`, and starts with `a` unless `b`
      is absolute; exactly one '/' separates them when `a` does not end in
      one. */
  lemma PosixJoinMeaning(a: string, b: string)
    ensures EndsWith(PosixJoin(a, b), b)
    ensures StartsWith(b, "/") ==> PosixJoin(a, b) == b
    ensures !StartsWith(b, "/") ==> StartsWith(PosixJoin(a, b), a)
    ensures !StartsWith(b, "/") && a != "" && !EndsWith(a, "/") ==> PosixJoin(a, b)[|a|] == '/'
  {
  }

  // ---- check_path_format ----

  /** Characters of Python's `string.printable`: ASCII 0x20 to 0x7E and the
      whitespace characters TAB, LF, VT, FF and CR. */
  predicate IsPrintable(c: char) {
    (' ' <= c <= '~') || ('\t' <= c <= '\r')
  }

  datatype PathError =
    | NonPrintable
    | ElementTooLong
    | SpecialName(element: string)
    | TrailingSpace
    | AcmeChallenge

  function PathErrorMessage(e: PathError): string {
    match e
    case NonPrintable => "The path contains non-printable char(s)"
    case ElementTooLong => "An element of the path is longer than the allowed 1024 characters"
    case SpecialName(element) => "Special name \"" + element + "\" is not allowed in a box.com path"
    case TrailingSpace => "An element of the path contains a trailing space"
    case AcmeChallenge => "An element of the path starts with \".well-known/acme-challenge\""
  }

  const AcmePrefix: string := ".well-known/acme-challenge"

  /** The checks on one element, in the order `check_path_format` makes them. */
  function CheckElement(e: string): Option<PathError> {
    if |e| > 1024 then Some(ElementTooLong)
    else if e == "." || e == ".." then Some(SpecialName(e))
    else if EndsWith(e, " ") then Some(TrailingSpace)
    else if StartsWith(e, AcmePrefix) then Some(AcmeChallenge)
    else None
  }

  /** The first error among the elements, `None` when all pass. */
  function CheckElements(es: seq<string>): (r: Option<PathError>)
    ensures r.None? <==> forall k :: 0 <= k < |es| ==> CheckElement(es[k]).None?
    ensures r.Some? ==> exists k :: 0 <= k < |es| && CheckElement(es[k]) == r
  {
    if es == [] then None
    else if CheckElement(es[0]).Some? then CheckElement(es[0])
    else
      var r := CheckElements(es[1..]);
      assert forall k :: 1 <= k < |es| ==> es[k] == es[1..][k - 1];
      r
  }

  /** `GoogleDriveUtils.check_path_format`: `None` when it returns, the error
      it raises otherwise. */
  function CheckPathFormat(path: string): Option<PathError> {
    if !(forall k :: 0 <= k < |path| ==> IsPrintable(path[k])) then Some(NonPrintable)
    else CheckElements(Pieces(path))
  }

  /** What `check_path_format` asks of one '/'-separated element. */
  predicate ElementAcceptable(e: string) {
    |e| <= 1024 && e != "." && e != ".." && !EndsWith(e, " ")
  }

  /** A path passes exactly when it is printable and each '/'-separated
      element is at most 1024 characters, is not "." or "..", and does not end
      in a space; the acme-challenge check never fires, since no element of
      `split('/')` contains a '/'. */
  lemma {:induction false} CheckPathFormatMeaning(path: string)
    ensures CheckPathFormat(path).None? <==>
      (forall k :: 0 <= k < |path| ==> IsPrintable(path[k])) &&
      (forall e :: e in Pieces(path) ==> ElementAcceptable(e))
    ensures CheckPathFormat(path) != Some(AcmeChallenge)
  {
    PiecesAreSlashFree(path);
    CheckSlashFreeElements(Pieces(path));
  }

  lemma {:induction false} CheckSlashFreeElements(es: seq<string>)
    requires forall e :: e in es ==> SlashFree(e)
    ensures CheckElements(es).None? <==> forall e :: e in es ==> ElementAcceptable(e)
    ensures CheckElements(es) != Some(AcmeChallenge)
  {
    forall k | 0 <= k < |es|
      ensures CheckElement(es[k]).None? <==> ElementAcceptable(es[k])
      ensures CheckElement(es[k]) != Some(AcmeChallenge)
    {
      assert es[k] in es;
      AcmePrefixHasSlash(es[k]);
    }
  }

  /** Any string starting with the acme-challenge prefix contains a '/'. */
  lemma {:induction false} AcmePrefixHasSlash(e: string)
    ensures StartsWith(e, AcmePrefix) ==> !SlashFree(e)
  {
    if StartsWith(e, AcmePrefix) {
      assert e[11] == AcmePrefix[11];
    }
  }
}
