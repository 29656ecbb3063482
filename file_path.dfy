/**
 * The two string tests of the new-bill file handler: the regular expression
 * `/\.(jpg|JPG|jpeg|JPEG|png|PNG)$/` matched against the selected file's
 * name, and `value.split(/\\/g)` followed by taking the last piece, which
 * derives the stored file name from the file input's value.
 */
module FilePath {

  /** The alternatives of the regular expression, after its literal dot. */
  const ImageExtensions: set<string> := {"jpg", "JPG", "jpeg", "JPEG", "png", "PNG"}

  /**
   * The regular expression finds a match in `name`: some dot is followed by
   * one of the alternatives and then by the end of the input (`$` without the
   * multiline flag).
   */
  predicate MatchesImagePattern(name: string)
    ensures MatchesImagePattern(name) ==>
      |name| >= 4 && (name[|name| - 4] == '.' || (|name| >= 5 && name[|name| - 5] == '.'))
  {
    exists i :: 0 <= i < |name| && name[i] == '.' && name[i + 1..] in ImageExtensions
  }

  predicate EndsWith(s: string, suffix: string) {
    |suffix| <= |s| && s[|s| - |suffix|..] == suffix
  }

  /** The accepted names are exactly those ending in one of six suffixes. */
  lemma MatchesImagePatternIff(name: string)
    ensures MatchesImagePattern(name) <==>
      EndsWith(name, ".jpg") || EndsWith(name, ".JPG") || EndsWith(name, ".jpeg")
      || EndsWith(name, ".JPEG") || EndsWith(name, ".png") || EndsWith(name, ".PNG")
  {
    if MatchesImagePattern(name) {
      var i :| 0 <= i < |name| && name[i] == '.' && name[i + 1..] in ImageExtensions;
      MatchEndsWithSuffix(name, i);
    }
    SuffixMatches(name, ".jpg");
    SuffixMatches(name, ".JPG");
    SuffixMatches(name, ".jpeg");
    SuffixMatches(name, ".JPEG");
    SuffixMatches(name, ".png");
    SuffixMatches(name, ".PNG");
  }

  lemma MatchEndsWithSuffix(name: string, i: int)
    requires 0 <= i < |name| && name[i] == '.' && name[i + 1..] in ImageExtensions
    ensures EndsWith(name, ".jpg") || EndsWith(name, ".JPG") || EndsWith(name, ".jpeg")
      || EndsWith(name, ".JPEG") || EndsWith(name, ".png") || EndsWith(name, ".PNG")
  {
    var e := name[i + 1..];
    assert name[|name| - |"." + e|..] == "." + e;
    EndsWithOneOf(name, e);
  }

  lemma EndsWithOneOf(name: string, e: string)
    requires e in ImageExtensions && EndsWith(name, "." + e)
    ensures EndsWith(name, ".jpg") || EndsWith(name, ".JPG") || EndsWith(name, ".jpeg")
      || EndsWith(name, ".JPEG") || EndsWith(name, ".png") || EndsWith(name, ".PNG")
  {
    if e == "jpg" { assert "." + e == ".jpg"; }
    else if e == "JPG" { assert "." + e == ".JPG"; }
    else if e == "jpeg" { assert "." + e == ".jpeg"; }
    else if e == "JPEG" { assert "." + e == ".JPEG"; }
    else if e == "png" { assert "." + e == ".png"; }
    else { assert "." + e == ".PNG"; }
  }

  lemma SuffixMatches(name: string, suffix: string)
    requires |suffix| >= 1 && suffix[0] == '.' && suffix[1..] in ImageExtensions
    ensures EndsWith(name, suffix) ==> MatchesImagePattern(name)
  {
    if EndsWith(name, suffix) {
      var i := |name| - |suffix|;
      assert name[i] == suffix[0];
      assert name[i + 1..] == suffix[1..];
    }
  }

  /** After a match position there is no other dot. */
  lemma NoDotAfterMatch(name: string, i: int)
    requires 0 <= i < |name| && name[i] == '.' && name[i + 1..] in ImageExtensions
    ensures forall k :: i < k < |name| ==> name[k] != '.'
  {
    var e := name[i + 1..];
    assert e == "jpg" || e == "JPG" || e == "jpeg" || e == "JPEG" || e == "png" || e == "PNG";
    assert forall k :: 0 <= k < |e| ==> e[k] != '.';
    forall k | i < k < |name| ensures name[k] != '.' {
      assert name[k] == e[k - i - 1];
    }
  }

  /** No name has two matches: the extension that makes a name acceptable is unique. */
  lemma MatchPositionUnique(name: string, i: int, j: int)
    requires 0 <= i < |name| && name[i] == '.' && name[i + 1..] in ImageExtensions
    requires 0 <= j < |name| && name[j] == '.' && name[j + 1..] in ImageExtensions
    ensures i == j && name[i + 1..] == name[j + 1..]
  {
    NoDotAfterMatch(name, i);
    NoDotAfterMatch(name, j);
  }

  /** Names the handler accepts, as its tests exercise them. */
  lemma ImagePatternAccepts()
    ensures MatchesImagePattern("justif.png")
    ensures MatchesImagePattern("scan.JPEG")
  {
    MatchesImagePatternIff("justif.png");
    MatchesImagePatternIff("scan.JPEG");
  }

  /** Names it rejects: another extension, and a mixed-case suffix. */
  lemma ImagePatternRejects()
    ensures !MatchesImagePattern("justif.webp")
    ensures !MatchesImagePattern("justif.Png")
  {
    MatchesImagePatternIff("justif.webp");
    MatchesImagePatternIff("justif.Png");
  }

  /** `s.split(/\\/g)`: the pieces between backslashes, always at least one. */
  function SplitBackslash(s: string): (parts: seq<string>)
    ensures |parts| >= 1
    ensures forall k :: 0 <= k < |parts| ==> '\\' !in parts[k]
  {
    if s == [] then [""]
    else
      var rest := SplitBackslash(s[1..]);
      if s[0] == '\\' then [""] + rest else [[s[0]] + rest[0]] + rest[1..]
  }

  /** `parts.join("\\")`, the inverse of the split. */
  function JoinBackslash(parts: seq<string>): string
    requires |parts| >= 1
  {
    if |parts| == 1 then parts[0] else parts[0] + "\\" + JoinBackslash(parts[1..])
  }

  /** Joining the pieces gives back the value that was split. */
  lemma {:induction false} JoinSplit(s: string)
    ensures JoinBackslash(SplitBackslash(s)) == s
  {
    if s != [] {
      var rest := SplitBackslash(s[1..]);
      JoinSplit(s[1..]);
      if s[0] == '\\' {
        assert [""] + rest == [""] + rest;
        assert ([""] + rest)[1..] == rest;
      } else {
        var parts := [[s[0]] + rest[0]] + rest[1..];
        if |rest| > 1 {
          assert parts[1..] == rest[1..];
          assert JoinBackslash(rest) == rest[0] + "\\" + JoinBackslash(rest[1..]);
        }
        assert JoinBackslash(parts) == [s[0]] + JoinBackslash(rest);
        assert s == [s[0]] + s[1..];
      }
    }
  }

  /** Splitting a join of backslash-free pieces gives back the pieces. */
  lemma {:induction false} SplitJoin(parts: seq<string>)
    requires |parts| >= 1
    requires forall k :: 0 <= k < |parts| ==> '\\' !in parts[k]
    ensures SplitBackslash(JoinBackslash(parts)) == parts
  {
    if |parts| == 1 {
      SplitNoBackslash(parts[0]);
    } else {
      SplitJoin(parts[1..]);
      SplitAfterPiece(parts[0], JoinBackslash(parts[1..]));
      assert [parts[0]] + parts[1..] == parts;
    }
  }

  lemma {:induction false} SplitNoBackslash(p: string)
    requires '\\' !in p
    ensures SplitBackslash(p) == [p]
  {
    if p != [] {
      SplitNoBackslash(p[1..]);
      assert [p[0]] + p[1..] == p;
    }
  }

  /** A backslash-free piece, a backslash, then `t`: the piece comes first. */
  lemma {:induction false} SplitAfterPiece(p: string, t: string)
    requires '\\' !in p
    ensures SplitBackslash(p + "\\" + t) == [p] + SplitBackslash(t)
  {
    var s := p + "\\" + t;
    if p == [] {
      assert s == "\\" + t;
      assert s[1..] == t;
    } else {
      assert s[1..] == p[1..] + "\\" + t;
      SplitAfterPiece(p[1..], t);
      assert [p[0]] + p[1..] == p;
    }
  }

  /** The last piece of the split is the part of `s` after its last backslash. */
  lemma {:induction false} LastPiece(s: string)
    ensures var parts := SplitBackslash(s);
            var r := parts[|parts| - 1];
            |r| <= |s| && r == s[|s| - |r|..] && (|r| == |s| || s[|s| - |r| - 1] == '\\')
            && (|parts| > 1 ==> |r| < |s|)
  {
    if s != [] {
      LastPiece(s[1..]);
      var rest := SplitBackslash(s[1..]);
      var r := rest[|rest| - 1];
      assert s[1..][|s| - 1 - |r|..] == s[|s| - |r|..];
      if s[0] != '\\' {
        assert SplitBackslash(s) == [[s[0]] + rest[0]] + rest[1..];
        if |rest| == 1 {
          JoinSplit(s[1..]);
          assert r == s[1..];
          assert [s[0]] + r == s;
          assert rest[1..] == [];
          assert SplitBackslash(s) == [s];
        } else {
          assert SplitBackslash(s)[|SplitBackslash(s)| - 1] == r;
        }
      }
    }
  }

  /**
   * `filePath[filePath.length - 1]` after `filePath = value.split(/\\/g)`:
   * a suffix of the value with no backslash in it, that is either the whole
   * value or starts right after a backslash.
   */
  function LastSegment(value: string): (name: string)
    ensures '\\' !in name
    ensures |name| <= |value| && name == value[|value| - |name|..]
    ensures |name| == |value| || value[|value| - |name| - 1] == '\\'
  {
    LastPiece(value);
    var parts := SplitBackslash(value);
    parts[|parts| - 1]
  }

  lemma {:induction false} SplitEndsWithPiece(t: string, name: string)
    requires '\\' !in name
    ensures var parts := SplitBackslash(t + "\\" + name);
            |parts| >= 2 && parts[|parts| - 1] == name
  {
    var s := t + "\\" + name;
    if t == [] {
      assert s == "\\" + name;
      assert s[1..] == name;
      SplitNoBackslash(name);
    } else {
      assert s[1..] == t[1..] + "\\" + name;
      SplitEndsWithPiece(t[1..], name);
    }
  }

  /** When the value has a backslash, the name is what follows the last one. */
  lemma LastSegmentAfterSeparator(prefix: string, name: string)
    requires '\\' !in name
    ensures LastSegment(prefix + "\\" + name) == name
  {
    SplitEndsWithPiece(prefix, name);
  }

  /** When it has none, the name is the whole value. */
  lemma LastSegmentWithoutSeparator(name: string)
    requires '\\' !in name
    ensures LastSegment(name) == name
  {
    SplitNoBackslash(name);
  }

  /** The value a browser gives a file input, with its fake directory. */
  lemma LastSegmentExample()
    ensures LastSegment("C:\\fakepath\\justif.png") == "justif.png"
  {
    LastSegmentAfterSeparator("C:\\fakepath", "justif.png");
    assert "C:\\fakepath" + "\\" + "justif.png" == "C:\\fakepath\\justif.png";
  }
}
