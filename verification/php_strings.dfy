/**
 * The PHP string built-ins the import relies on: truthiness of a string,
 * `trim`, `str_replace(' ', '', ·)`, the first piece of `explode`, and
 * `basename` (POSIX form, no suffix argument).
 */
module PhpStrings {

  /** A string is falsy in PHP exactly when it is "" or "0". */
  predicate Truthy(s: string)
  {
    s != "" && s != "0"
  }

  /** The characters `trim` strips by default: space, tab, LF, CR, NUL and vertical tab. */
  predicate TrimChar(c: char)
  {
    c == ' ' || c == '\t' || c == '\n' || c == '\r' || c == '\0' || c == '\U{B}'
  }

  /** Neither end of `t` is a trim character. */
  predicate Trimmed(t: string)
  {
    t == [] || (!TrimChar(t[0]) && !TrimChar(t[|t| - 1]))
  }

  ghost predicate AllTrim(t: string)
  {
    forall k :: 0 <= k < |t| ==> TrimChar(t[k])
  }

  /** `r` is a slice of `s` whose two surroundings consist of trim characters only. */
  ghost predicate StrippedOf(r: string, s: string)
  {
    exists i, j :: 0 <= i <= j <= |s| && r == s[i..j] && AllTrim(s[..i]) && AllTrim(s[j..])
  }

  /** `ltrim`: drops the leading trim characters. */
  function TrimLeft(s: string): (r: string)
    ensures |r| <= |s| && r == s[|s| - |r|..]
    ensures r == [] || !TrimChar(r[0])
    ensures AllTrim(s[..|s| - |r|])
  {
    if s != [] && TrimChar(s[0]) then TrimLeft(s[1..]) else s
  }

  /** `rtrim`: drops the trailing trim characters. */
  function TrimRight(s: string): (r: string)
    ensures |r| <= |s| && r == s[..|r|]
    ensures r == [] || !TrimChar(r[|r| - 1])
    ensures AllTrim(s[|r|..])
  {
    if s != [] && TrimChar(s[|s| - 1]) then TrimRight(s[..|s| - 1]) else s
  }

  /** `trim`: the slice of `s` left once both runs of trim characters are removed. */
  function Trim(s: string): (r: string)
    ensures Trimmed(r)
    ensures StrippedOf(r, s)
  {
    var l := TrimLeft(s);
    var r := TrimRight(l);
    TrimLeftRightStripped(s, l, r);
    r
  }

  lemma TrimLeftRightStripped(s: string, l: string, r: string)
    requires l == TrimLeft(s) && r == TrimRight(l)
    ensures StrippedOf(r, s)
  {
    var i := |s| - |l|;
    var j := i + |r|;
    assert r == s[i..j];
    assert s[j..] == l[|r|..];
    assert AllTrim(s[..i]) && AllTrim(s[j..]);
  }

  /** When `s[..i]` is all trim characters and `s[i]` is not, `ltrim` starts at `i`. */
  lemma {:induction false} TrimLeftAt(s: string, i: nat)
    requires i <= |s| && AllTrim(s[..i])
    requires i == |s| || !TrimChar(s[i])
    ensures TrimLeft(s) == s[i..]
  {
    if i > 0 {
      assert s[..i][0] == s[0];
      assert s[1..][..i - 1] == s[..i][1..];
      TrimLeftAt(s[1..], i - 1);
    }
  }

  lemma AllTrimJoin(s: string, i: nat)
    requires i <= |s| && AllTrim(s[..i]) && AllTrim(s[i..])
    ensures AllTrim(s[..|s|])
  {
    forall k | 0 <= k < |s| ensures TrimChar(s[..|s|][k]) {
      if k < i { assert s[..i][k] == s[k]; } else { assert s[i..][k - i] == s[k]; }
    }
  }

  /** Trim is characterised by its contract: any slice with trim-only surroundings and non-trim ends is Trim(s). */
  lemma TrimUnique(s: string, r: string)
    requires Trimmed(r)
    requires StrippedOf(r, s)
    ensures r == Trim(s)
  {
    var i, j :| 0 <= i <= j <= |s| && r == s[i..j] && AllTrim(s[..i]) && AllTrim(s[j..]);
    TrimOfSlice(s, i, j);
  }

  lemma TrimOfSlice(s: string, i: nat, j: nat)
    requires i <= j <= |s| && AllTrim(s[..i]) && AllTrim(s[j..])
    requires i == j || (!TrimChar(s[i]) && !TrimChar(s[j - 1]))
    ensures Trim(s) == s[i..j]
  {
    if i == j {
      TrimOfAllTrim(s, i);
    } else {
      TrimOfInner(s, i, j);
    }
  }

  lemma TrimOfAllTrim(s: string, i: nat)
    requires i <= |s| && AllTrim(s[..i]) && AllTrim(s[i..])
    ensures Trim(s) == []
  {
    AllTrimJoin(s, i);
    assert s[..|s|] == s;
    TrimLeftAt(s, |s|);
    assert TrimLeft(s) == [];
  }

  lemma TrimOfInner(s: string, i: nat, j: nat)
    requires i < j <= |s| && AllTrim(s[..i]) && AllTrim(s[j..])
    requires !TrimChar(s[i]) && !TrimChar(s[j - 1])
    ensures Trim(s) == s[i..j]
  {
    TrimLeftAt(s, i);
    TrimRightOfDrop(s, i, j);
  }

  /** `rtrim` of the suffix from `i` stops at `j` when everything from `j` on is a trim character and `s[j - 1]` is not. */
  lemma {:induction false} TrimRightOfDrop(s: string, i: nat, j: nat)
    requires i < j <= |s| && AllTrim(s[j..]) && !TrimChar(s[j - 1])
    ensures TrimRight(s[i..]) == s[i..j]
    decreases |s| - j
  {
    var t := s[i..];
    if j < |s| {
      var p := s[..|s| - 1];
      forall k | 0 <= k < |p| - j
        ensures TrimChar(p[j..][k])
      {
        assert p[j..][k] == s[j..][k];
      }
      TrimRightOfDrop(p, i, j);
      assert t[|t| - 1] == s[j..][|s| - 1 - j];
      assert t[..|t| - 1] == p[i..];
      assert p[i..j] == s[i..j];
    } else {
      assert t[|t| - 1] == s[j - 1];
      assert t == s[i..j];
    }
  }

  lemma TrimIdempotent(s: string)
    ensures Trim(Trim(s)) == Trim(s)
  {
    var r := Trim(s);
    assert r == r[0..|r|] && r[..0] == [] && r[|r|..] == [];
    TrimUnique(r, r);
  }

  /** `str_replace(' ', '', s)`: every space removed, every other character kept in order. */
  function StripSpaces(s: string): (r: string)
    ensures ' ' !in r
    ensures |r| <= |s|
    ensures forall c :: c != ' ' ==> multiset(r)[c] == multiset(s)[c]
  {
    if s == [] then []
    else
      assert s == [s[0]] + s[1..];
      (if s[0] == ' ' then [] else [s[0]]) + StripSpaces(s[1..])
  }

  /** Removing spaces commutes with concatenation, so the kept characters stay in their order. */
  lemma {:induction false} StripSpacesAppend(a: string, b: string)
    ensures StripSpaces(a + b) == StripSpaces(a) + StripSpaces(b)
  {
    if a != [] {
      var head := if a[0] == ' ' then [] else [a[0]];
      assert (a + b)[0] == a[0] && (a + b)[1..] == a[1..] + b;
      assert StripSpaces(a + b) == head + StripSpaces(a[1..] + b);
      StripSpacesAppend(a[1..], b);
      assert StripSpaces(a) == head + StripSpaces(a[1..]);
    } else {
      assert a + b == b;
    }
  }

  /** A string without spaces is left as it is. */
  lemma {:induction false} StripSpacesKeeps(s: string)
    requires ' ' !in s
    ensures StripSpaces(s) == s
  {
    if s != [] {
      StripSpacesKeeps(s[1..]);
    }
  }

  /** `explode(sep, s)[0]`: the text before the first `sep`, or all of `s` when there is none. */
  function ExplodeHead(s: string, sep: char): (r: string)
    ensures sep !in r
    ensures r <= s
    ensures |r| == |s| || s[|r|] == sep
  {
    if s == [] || s[0] == sep then [] else [s[0]] + ExplodeHead(s[1..], sep)
  }

  function DropTrailingSlashes(p: string): (r: string)
    ensures r <= p
    ensures r == [] || r[|r| - 1] != '/'
    ensures forall k :: |r| <= k < |p| ==> p[k] == '/'
  {
    if p != [] && p[|p| - 1] == '/' then DropTrailingSlashes(p[..|p| - 1]) else p
  }

  function AfterLastSlash(p: string): (r: string)
    ensures '/' !in r
    ensures |r| <= |p| && r == p[|p| - |r|..]
    ensures |r| == |p| || p[|p| - |r| - 1] == '/'
  {
    if p == [] || p[|p| - 1] == '/' then [] else AfterLastSlash(p[..|p| - 1]) + [p[|p| - 1]]
  }

  /** `basename(path)`: the last '/'-separated component once trailing slashes are dropped. */
  function Basename(path: string): (r: string)
    ensures '/' !in r
    ensures '/' !in path ==> r == path
  {
    var p := DropTrailingSlashes(path);
    if '/' !in path then
      assert p == path;
      AfterLastSlashKeeps(p);
      AfterLastSlash(p)
    else
      AfterLastSlash(p)
  }

  lemma {:induction false} AfterLastSlashKeeps(p: string)
    requires '/' !in p
    ensures AfterLastSlash(p) == p
  {
    if p != [] {
      AfterLastSlashKeeps(p[..|p| - 1]);
    }
  }

  lemma {:induction false} AfterLastSlashOfJoin(dir: string, name: string)
    requires '/' !in name
    ensures AfterLastSlash(dir + "/" + name) == name
  {
    var p := dir + "/" + name;
    if name != [] {
      assert p[..|p| - 1] == dir + "/" + name[..|name| - 1];
      AfterLastSlashOfJoin(dir, name[..|name| - 1]);
    }
  }

  /** The base name of `dir/name` is `name`, whatever `dir` holds. */
  lemma BasenameOfJoin(dir: string, name: string)
    requires '/' !in name && name != []
    ensures Basename(dir + "/" + name) == name
  {
    var p := dir + "/" + name;
    assert p[|p| - 1] == name[|name| - 1];
    AfterLastSlashOfJoin(dir, name);
  }

  /** Trailing slashes do not change the base name. */
  lemma BasenameTrailingSlash(path: string)
    ensures Basename(path + "/") == Basename(path)
  {
    var q := path + "/";
    assert q[..|q| - 1] == path;
  }

  /** The decimal digit character of a value 0..9, as PHP prints a small integer. */
  function DecimalDigit(n: int): (c: char)
    requires 0 <= n <= 9
    ensures '0' <= c <= '9' && c as int - '0' as int == n
  {
    ('0' as int + n) as char
  }

}
