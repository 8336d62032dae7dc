/** The two path conventions the scripts use: `os.path.join`, which glues
    strings together, and `pathlib.Path`, which parses a path into parts and
    prints it back in normal form. POSIX only. */
module Paths {
  import opened Strings

  /** `os.path.join(a, b)` on POSIX: an absolute `b` replaces `a`; otherwise
      `b` is appended, with a `/` in between unless `a` is empty or already
      ends in `/`. */
  function PosixJoin(a: string, b: string): (r: string)
    ensures |b| <= |r| && r[|r| - |b|..] == b
    ensures (|b| > 0 && b[0] == '/') ==> r == b
    ensures !(|b| > 0 && b[0] == '/') ==> StartsWith(r, a)
  {
    if |b| > 0 && b[0] == '/' then b
    else if a == "" || a[|a| - 1] == '/' then a + b
    else a + "/" + b
  }

  /** A `pathlib.PurePosixPath`: whether it is rooted, and its parts. */
  datatype PurePath = PurePath(absolute: bool, parts: seq<string>)

  /** A part pathlib keeps: not empty, not `.`, and without a `/`. */
  predicate ValidPart(p: string) {
    p != "" && p != "." && '/' !in p
  }

  /** The paths pathlib can produce: every part is one it keeps. */
  predicate WellFormed(x: PurePath) {
    forall k :: 0 <= k < |x.parts| ==> ValidPart(x.parts[k])
  }

  /** Drop the empty and `.` pieces of a split path, keeping the order of the
      rest. */
  function KeptParts(pieces: seq<string>): seq<string> {
    if pieces == [] then []
    else (if ValidPart(pieces[0]) then [pieces[0]] else []) + KeptParts(pieces[1..])
  }

  /** `PurePosixPath(s)`: rooted when `s` starts with `/`; the parts are the
      non-empty pieces between slashes other than `.`. */
  function Parse(s: string): PurePath {
    PurePath(|s| > 0 && s[0] == '/', KeptParts(Split(s, '/')))
  }

  /** `str(path)`: the root, then the parts joined by `/`; `.` for the empty
      relative path. */
  function ToString(x: PurePath): string {
    if x.absolute then "/" + Join(x.parts, '/')
    else if x.parts == [] then "."
    else Join(x.parts, '/')
  }

  /** `x / y`: an absolute `y` replaces `x`; otherwise `y`'s parts follow `x`'s. */
  function Div(x: PurePath, y: PurePath): (r: PurePath)
    ensures WellFormed(x) && WellFormed(y) ==> WellFormed(r)
    ensures r.absolute <==> x.absolute || y.absolute
  {
    if y.absolute then y else PurePath(x.absolute, x.parts + y.parts)
  }

  /** `str(Path(s))`: the normal form pathlib prints for `s`. */
  function Normalize(s: string): string {
    ToString(Parse(s))
  }

  // ---------------------------------------------------------------------------
  // Properties

  /** Only parts pathlib keeps survive. */
  lemma {:induction false} KeptPartsValid(pieces: seq<string>)
    ensures forall k :: 0 <= k < |KeptParts(pieces)| ==> ValidPart(KeptParts(pieces)[k])
  {
    if pieces != [] {
      KeptPartsValid(pieces[1..]);
    }
  }

  /** Nothing is dropped when every piece is one pathlib keeps. */
  lemma {:induction false} KeptPartsOfValid(pieces: seq<string>)
    requires forall k :: 0 <= k < |pieces| ==> ValidPart(pieces[k])
    ensures KeptParts(pieces) == pieces
  {
    if pieces != [] {
      KeptPartsOfValid(pieces[1..]);
      assert pieces == [pieces[0]] + pieces[1..];
    }
  }

  /** Every parsed path is well formed. */
  lemma ParseWellFormed(s: string)
    ensures WellFormed(Parse(s))
  {
    KeptPartsValid(Split(s, '/'));
  }

  /** A parsed path is rooted exactly when the text starts with `/`. */
  lemma ParseAbsolute(s: string)
    ensures Parse(s).absolute <==> StartsWith(s, "/")
  {
    if |s| > 0 && s[0] == '/' {
      assert s[..1] == "/";
    }
  }

  lemma {:induction false} JoinStartsWithFirstPart(parts: seq<string>, sep: char)
    requires |parts| >= 1
    ensures StartsWith(Join(parts, sep), parts[0])
  {
  }

  /** `x / name` for a single plain name: one more part. */
  lemma DivByName(x: PurePath, name: string)
    requires ValidPart(name)
    ensures Div(x, Parse(name)) == PurePath(x.absolute, x.parts + [name])
  {
    SplitWithoutSeparator(name, '/');
    assert KeptParts([name]) == [name];
  }

  /** Joining relative names onto the same directory keeps them apart. */
  lemma PosixJoinRightInjective(a: string, b1: string, b2: string)
    requires |b1| > 0 && b1[0] != '/' && |b2| > 0 && b2[0] != '/'
    requires PosixJoin(a, b1) == PosixJoin(a, b2)
    ensures b1 == b2
  {
    var r := PosixJoin(a, b1);
    var n := if a == "" || a[|a| - 1] == '/' then |a| else |a| + 1;
    assert r[n..] == b1;
    assert r[n..] == b2;
  }

  /** Printing a well-formed path and parsing the text again gives the same
      path back. */
  lemma ParseToString(x: PurePath)
    requires WellFormed(x)
    ensures Parse(ToString(x)) == x
  {
    var s := ToString(x);
    if x.parts == [] {
      if x.absolute {
        assert s == "/";
        assert Split(s, '/') == ["", ""];
        assert KeptParts(["", ""]) == [];
      } else {
        assert s == ".";
        SplitWithoutSeparator(s, '/');
        assert KeptParts([s]) == [];
      }
    } else {
      var j := Join(x.parts, '/');
      SplitJoin(x.parts, '/');
      KeptPartsOfValid(x.parts);
      JoinStartsWithFirstPart(x.parts, '/');
      assert j[0] == x.parts[0][0] != '/';
      if x.absolute {
        assert s == [] + ['/'] + j;
        SplitAfterPiece([], '/', j);
        assert Split(s, '/') == [""] + x.parts;
        assert KeptParts([""] + x.parts) == KeptParts(x.parts) by {
          assert ([""] + x.parts)[1..] == x.parts;
        }
      }
    }
  }

  /** Parsing is idempotent on printed paths: a normalised path is its own
      normal form. */
  lemma NormalizeIdempotent(s: string)
    ensures Normalize(Normalize(s)) == Normalize(s)
  {
    ParseWellFormed(s);
    ParseToString(Parse(s));
  }
}
