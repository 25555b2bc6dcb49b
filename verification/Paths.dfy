/**
 * The part of Python's `pathlib` (POSIX flavour) the server relies on: a path is
 * a root flag and a list of components; `Parse` is `Path(s)`, `Render` is `str(p)`.
 */
module Paths {
  import opened Wrappers
  import opened Text

  datatype Path = Path(absolute: bool, parts: seq<string>)

  /** A component as `pathlib` keeps it: not empty, not `.`, no separator. */
  predicate IsPart(p: string)
  {
    p != "" && p != "." && '/' !in p
  }

  predicate WellFormed(p: Path)
  {
    forall i :: 0 <= i < |p.parts| ==> IsPart(p.parts[i])
  }

  /** `s.split('/')`. */
  function Segments(s: string): (r: seq<string>)
    ensures |r| >= 1
    ensures forall i :: 0 <= i < |r| ==> '/' !in r[i]
  {
    match LastIndexOf(s, '/')
    case None => [s]
    case Some(k) => Segments(s[..k]) + [s[k + 1..]]
  }

  /** The segments `pathlib` keeps: empty ones (from `//` or a trailing `/`) and `.` are dropped. */
  function KeepParts(segs: seq<string>): (r: seq<string>)
    requires forall i :: 0 <= i < |segs| ==> '/' !in segs[i]
    ensures forall i :: 0 <= i < |r| ==> IsPart(r[i])
  {
    if segs == [] then []
    else
      var init := KeepParts(segs[..|segs| - 1]);
      var last := segs[|segs| - 1];
      if last == "" || last == "." then init else init + [last]
  }

  /** `PurePosixPath(s)`. */
  function Parse(s: string): (p: Path)
    ensures WellFormed(p)
    ensures p.absolute <==> |s| > 0 && s[0] == '/'
  {
    Path(|s| > 0 && s[0] == '/', KeepParts(Segments(s)))
  }

  /** `'/'.join(parts)`. */
  function JoinParts(parts: seq<string>): (r: string)
  {
    if parts == [] then ""
    else if |parts| == 1 then parts[0]
    else JoinParts(parts[..|parts| - 1]) + "/" + parts[|parts| - 1]
  }

  /** `str(p)`: `.` for the empty relative path. */
  function Render(p: Path): (r: string)
    ensures p.absolute ==> |r| >= 1 && r[0] == '/'
    ensures !p.absolute && p.parts == [] ==> r == "."
  {
    if p.absolute then "/" + JoinParts(p.parts)
    else if p.parts == [] then "."
    else JoinParts(p.parts)
  }

  /** `p.joinpath(q)`: an absolute `q` replaces `p`. */
  function Joinpath(p: Path, q: Path): (r: Path)
    ensures WellFormed(p) && WellFormed(q) ==> WellFormed(r)
  {
    if q.absolute then q else Path(p.absolute, p.parts + q.parts)
  }

  /** `p.relative_to(root)`: `None` where Python raises `ValueError`. */
  function RelativeTo(p: Path, root: Path): (r: Option<Path>)
    ensures r.Some? <==> p.absolute == root.absolute && |root.parts| <= |p.parts| && p.parts[..|root.parts|] == root.parts
    ensures r.Some? ==> !r.value.absolute && Joinpath(root, r.value) == p
    ensures r.Some? && WellFormed(p) ==> WellFormed(r.value)
  {
    if p.absolute == root.absolute && |root.parts| <= |p.parts| && p.parts[..|root.parts|] == root.parts then
      assert root.parts + p.parts[|root.parts|..] == p.parts;
      Some(Path(false, p.parts[|root.parts|..]))
    else None
  }

  /** `p.parent`: the root and the empty relative path are their own parents. */
  function Parent(p: Path): (r: Path)
    ensures |p.parts| == 0 ==> r == p
    ensures |p.parts| > 0 ==> Joinpath(r, Path(false, [p.parts[|p.parts| - 1]])) == p
  {
    if |p.parts| == 0 then p else Path(p.absolute, p.parts[..|p.parts| - 1])
  }

  /** `p.absolute()`, with the working directory given. */
  function Absolute(p: Path, cwd: Path): (r: Path)
    ensures p.absolute ==> r == p
    ensures !p.absolute && cwd.absolute ==> r.absolute && r.parts == cwd.parts + p.parts
  {
    if p.absolute then p else Joinpath(cwd, p)
  }

  lemma {:induction false} RelativeToJoinpath(root: Path, rel: Path)
    requires !rel.absolute
    ensures RelativeTo(Joinpath(root, rel), root) == Some(rel)
  {
    assert (root.parts + rel.parts)[..|root.parts|] == root.parts;
    assert (root.parts + rel.parts)[|root.parts|..] == rel.parts;
  }

  lemma {:induction false} SegmentsAppend(a: string, b: string)
    requires '/' !in b
    ensures Segments(a + "/" + b) == Segments(a) + [b]
  {
    var s := a + "/" + b;
    assert s[|a|] == '/';
    assert s[|a| + 1..] == b;
    assert s[..|a|] == a;
  }

  lemma {:induction false} SegmentsOfPart(x: string)
    requires '/' !in x
    ensures Segments(x) == [x]
  {
  }

  /** Splitting what `JoinParts` joins gives back the separator-free pieces. */
  lemma {:induction false} SegmentsJoinParts(parts: seq<string>)
    requires |parts| >= 1 && forall i :: 0 <= i < |parts| ==> '/' !in parts[i]
    ensures Segments(JoinParts(parts)) == parts
  {
    var last := parts[|parts| - 1];
    if |parts| == 1 {
      SegmentsOfPart(last);
    } else {
      var init := parts[..|parts| - 1];
      SegmentsJoinParts(init);
      SegmentsAppend(JoinParts(init), last);
      assert init + [last] == parts;
    }
  }

  /** Joining behind an empty first piece puts a separator in front. */
  lemma {:induction false} JoinPartsRooted(parts: seq<string>)
    requires |parts| >= 1
    ensures JoinParts([""] + parts) == "/" + JoinParts(parts)
  {
    var all := [""] + parts;
    var last := parts[|parts| - 1];
    assert all[|all| - 1] == last;
    if |parts| == 1 {
      assert all[..1] == [""];
      assert JoinParts(all) == JoinParts([""]) + "/" + last;
    } else {
      var init := parts[..|parts| - 1];
      assert all[..|all| - 1] == [""] + init;
      JoinPartsRooted(init);
      assert JoinParts(all) == JoinParts([""] + init) + "/" + last;
    }
  }

  lemma {:induction false} SegmentsRootedJoinParts(parts: seq<string>)
    requires |parts| >= 1 && forall i :: 0 <= i < |parts| ==> '/' !in parts[i]
    ensures Segments("/" + JoinParts(parts)) == [""] + parts
  {
    JoinPartsRooted(parts);
    var all := [""] + parts;
    assert forall i :: 0 <= i < |all| ==> '/' !in all[i] by {
      forall i | 0 <= i < |all| ensures '/' !in all[i] {
        if i > 0 { assert all[i] == parts[i - 1]; }
      }
    }
    SegmentsJoinParts(all);
  }

  lemma {:induction false} KeepPartsOfParts(segs: seq<string>)
    requires forall i :: 0 <= i < |segs| ==> IsPart(segs[i])
    ensures forall i :: 0 <= i < |segs| ==> '/' !in segs[i]
    ensures KeepParts(segs) == segs
    ensures KeepParts([""] + segs) == segs
  {
    assert forall i :: 0 <= i < |segs| ==> '/' !in segs[i] by {
      forall i | 0 <= i < |segs| ensures '/' !in segs[i] { assert IsPart(segs[i]); }
    }
    if segs != [] {
      var init := segs[..|segs| - 1];
      KeepPartsOfParts(init);
      assert ([""] + segs)[..|segs|] == [""] + init;
      assert init + [segs[|segs| - 1]] == segs;
    }
  }

  /** Parsing what `str` renders gives back the path. */
  lemma {:induction false} ParseRender(p: Path)
    requires WellFormed(p)
    ensures Parse(Render(p)) == p
  {
    if p.parts == [] {
      if p.absolute {
        assert Render(p) == "" + "/" + "";
        SegmentsAppend("", "");
        SegmentsOfPart("");
        assert Segments(Render(p)) == ["", ""];
        assert KeepParts(["", ""]) == KeepParts([""]) == [];
      }
    } else {
      KeepPartsOfParts(p.parts);
      if p.absolute {
        SegmentsRootedJoinParts(p.parts);
      } else {
        SegmentsJoinParts(p.parts);
      }
      if !p.absolute {
        var first := p.parts[0];
        assert first[0] != '/';
        assert JoinParts(p.parts)[0] == first[0] by { JoinPartsHead(p.parts); }
      }
    }
  }

  lemma {:induction false} JoinPartsHead(parts: seq<string>)
    requires |parts| >= 1 && |parts[0]| >= 1
    ensures |JoinParts(parts)| >= 1 && JoinParts(parts)[0] == parts[0][0]
  {
    if |parts| > 1 {
      JoinPartsHead(parts[..|parts| - 1]);
    }
  }
}
