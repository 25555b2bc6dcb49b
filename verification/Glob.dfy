/**
 * Shell-style matching as Python's `fnmatch.fnmatch` does it on POSIX for
 * patterns made of `*`, `?` and ordinary characters: the whole name must
 * match, `*` matches any run of characters (separators included) and `?`
 * any one character.
 */
module Glob {
  import Text

  datatype Token = Star | AnyChar | Literal(c: char)

  function TokenOf(c: char): (t: Token)
  {
    if c == '*' then Star else if c == '?' then AnyChar else Literal(c)
  }

  function Compile(pattern: string): (r: seq<Token>)
    ensures |r| == |pattern|
  {
    seq(|pattern|, i requires 0 <= i < |pattern| => TokenOf(pattern[i]))
  }

  predicate Matches(pat: seq<Token>, s: string)
    decreases |pat|, |s|
  {
    if pat == [] then s == []
    else match pat[0]
      case Star => Matches(pat[1..], s) || (s != [] && Matches(pat, s[1..]))
      case AnyChar => s != [] && Matches(pat[1..], s[1..])
      case Literal(c) => s != [] && s[0] == c && Matches(pat[1..], s[1..])
  }

  /** `fnmatch(name, pattern)`. */
  predicate FnMatch(name: string, pattern: string)
  {
    Matches(Compile(pattern), name)
  }

  /** The backup files one IDE family writes next to a file it saves. */
  const JbBackupFile := "*___jb_???___"

  predicate IsJbBackup(path: string)
  {
    FnMatch(path, JbBackupFile)
  }

  /** One non-star token against one character. */
  predicate TokenAccepts(t: Token, c: char)
  {
    match t
    case Star => true
    case AnyChar => true
    case Literal(d) => c == d
  }

  predicate StarFree(pat: seq<Token>)
  {
    forall i :: 0 <= i < |pat| ==> pat[i] != Star
  }

  /** Without stars, a pattern matches exactly the names of its length that agree position by position. */
  lemma {:induction false} StarFreeMatches(pat: seq<Token>, s: string)
    requires StarFree(pat)
    ensures Matches(pat, s) <==> |s| == |pat| && forall i :: 0 <= i < |s| ==> TokenAccepts(pat[i], s[i])
  {
    if pat != [] && s != [] {
      StarFreeMatches(pat[1..], s[1..]);
      if |s| == |pat| && forall i :: 1 <= i < |s| ==> TokenAccepts(pat[i], s[i]) {
        assert forall i :: 0 <= i < |s| - 1 ==> TokenAccepts(pat[1..][i], s[1..][i]) by {
          forall i | 0 <= i < |s| - 1 ensures TokenAccepts(pat[1..][i], s[1..][i]) {
            assert TokenAccepts(pat[i + 1], s[i + 1]);
          }
        }
      }
      if Matches(pat, s) {
        forall i | 0 <= i < |s| ensures TokenAccepts(pat[i], s[i]) {
          if i > 0 { assert TokenAccepts(pat[1..][i - 1], s[1..][i - 1]); }
        }
      }
    }
  }

  /** A leading star matches some suffix of the name to the rest of the pattern. */
  lemma {:induction false} LeadingStar(pat: seq<Token>, s: string)
    ensures Matches([Star] + pat, s) <==> exists k :: 0 <= k <= |s| && Matches(pat, s[k..])
  {
    var p := [Star] + pat;
    assert p[1..] == pat;
    if s == [] {
      assert s[0..] == s;
    } else {
      LeadingStar(pat, s[1..]);
      assert s[0..] == s;
      if exists k :: 0 <= k <= |s| && Matches(pat, s[k..]) {
        var k :| 0 <= k <= |s| && Matches(pat, s[k..]);
        if k > 0 { assert s[1..][k - 1..] == s[k..]; }
      }
      if exists k :: 0 <= k <= |s| - 1 && Matches(pat, s[1..][k..]) {
        var k :| 0 <= k <= |s| - 1 && Matches(pat, s[1..][k..]);
        assert s[1..][k..] == s[k + 1..];
      }
    }
  }

  const JbSuffix := "___jb_"
  const JbTail := "___"

  /** The tokens of the backup pattern after its leading star. */
  const JbRest := [Literal('_'), Literal('_'), Literal('_'), Literal('j'), Literal('b'), Literal('_'),
                   AnyChar, AnyChar, AnyChar, Literal('_'), Literal('_'), Literal('_')]

  lemma CompileJbBackup()
    ensures Compile(JbBackupFile) == [Star] + JbRest
  {
    var pat := Compile(JbBackupFile);
    assert |pat| == 13;
    forall i | 0 <= i < 13 ensures pat[i] == ([Star] + JbRest)[i] {
      assert pat[i] == TokenOf(JbBackupFile[i]);
    }
  }

  /** Twelve characters fit the tokens after the star exactly when they are `___jb_`, three more, and `___`. */
  lemma JbRestAccepts(t: string)
    requires |t| == 12
    ensures (forall i :: 0 <= i < 12 ==> TokenAccepts(JbRest[i], t[i])) <==> t[..6] == JbSuffix && t[9..] == JbTail
  {
    var fits := t[0] == '_' && t[1] == '_' && t[2] == '_' && t[3] == 'j' && t[4] == 'b' && t[5] == '_'
      && t[9] == '_' && t[10] == '_' && t[11] == '_';
    assert (forall i :: 0 <= i < 12 ==> TokenAccepts(JbRest[i], t[i])) <==> fits by {
      if fits {
        forall i | 0 <= i < 12 ensures TokenAccepts(JbRest[i], t[i]) {
        }
      }
    }
    assert t[..6] == JbSuffix <==> t[0] == '_' && t[1] == '_' && t[2] == '_' && t[3] == 'j' && t[4] == 'b' && t[5] == '_' by {
      if t[0] == '_' && t[1] == '_' && t[2] == '_' && t[3] == 'j' && t[4] == 'b' && t[5] == '_' {
        assert t[..6] == [t[0], t[1], t[2], t[3], t[4], t[5]];
      }
    }
    assert t[9..] == JbTail <==> t[9] == '_' && t[10] == '_' && t[11] == '_' by {
      if t[9] == '_' && t[10] == '_' && t[11] == '_' {
        assert t[9..] == [t[9], t[10], t[11]];
      }
    }
  }

  /** The path ends in `___jb_`, any three characters and `___`. */
  predicate HasBackupTail(path: string)
  {
    |path| >= 12 && path[|path| - 12..|path| - 6] == JbSuffix && path[|path| - 3..] == JbTail
  }

  /**
   * A path is a backup file exactly when it ends in `___jb_`, any three
   * characters and `___`, whatever comes before (directories included).
   */
  lemma JbBackupSuffix(path: string)
    ensures IsJbBackup(path) <==>
      |path| >= 12 && path[|path| - 12..|path| - 6] == JbSuffix && path[|path| - 3..] == JbTail
  {
    CompileJbBackup();
    assert StarFree(JbRest);
    LeadingStar(JbRest, path);
    forall k | 0 <= k <= |path|
      ensures Matches(JbRest, path[k..]) <==>
        k == |path| - 12 && path[|path| - 12..|path| - 6] == JbSuffix && path[|path| - 3..] == JbTail
    {
      StarFreeMatches(JbRest, path[k..]);
      var t := path[k..];
      if |t| == 12 {
        assert t[..6] == path[|path| - 12..|path| - 6];
        assert t[9..] == path[|path| - 3..];
        JbRestAccepts(t);
      }
    }
    if |path| >= 12 && path[|path| - 12..|path| - 6] == JbSuffix && path[|path| - 3..] == JbTail {
      assert Matches(JbRest, path[|path| - 12..]);
    }
  }

  /**
   * The watcher's own test, which lower-cases the path before matching (the
   * pattern is lower case already): a backup file exactly when the last
   * twelve characters are `___jb_`, three more and `___`, in any case.
   */
  lemma JbBackupAnyCase(path: string)
    ensures IsJbBackup(Text.Lower(path)) <==>
      && |path| >= 12
      && Text.Lower(path[|path| - 12..|path| - 6]) == JbSuffix
      && Text.Lower(path[|path| - 3..]) == JbTail
  {
    JbBackupSuffix(Text.Lower(path));
    if |path| >= 12 {
      Text.LowerSlice(path, |path| - 12, |path| - 6);
      Text.LowerSlice(path, |path| - 3, |path|);
    }
  }

  /** Lower-casing keeps a backup name one, so the case-insensitive test catches whatever the case-sensitive one does. */
  lemma LowerKeepsBackup(path: string)
    requires IsJbBackup(path)
    ensures IsJbBackup(Text.Lower(path))
  {
    JbBackupSuffix(path);
    JbBackupAnyCase(path);
    Text.LowerNoUpper(JbSuffix);
    Text.LowerNoUpper(JbTail);
  }

  /** An upper-case backup name (`___JB_TMP___`, say): `fnmatch` on POSIX misses it, the lower-casing test catches it. */
  lemma UpperCaseBackup(path: string)
    requires |path| >= 12 && path[|path| - 12..|path| - 6] == "___JB_" && path[|path| - 3..] == JbTail
    ensures !IsJbBackup(path)
    ensures IsJbBackup(Text.Lower(path))
  {
    var head := path[|path| - 12..|path| - 6];
    JbBackupSuffix(path);
    assert head[3] == 'J';
    JbBackupAnyCase(path);
    assert Text.Lower(head) == JbSuffix by {
      assert Text.Lower(head)[3] == 'j' && Text.Lower(head)[4] == 'b';
    }
    Text.LowerNoUpper(JbTail);
  }
}
