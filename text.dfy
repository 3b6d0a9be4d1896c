/**
 * String helpers with the semantics of the library calls the program uses:
 * Go's strings.HasPrefix/HasSuffix/TrimSuffix/ToLower, the last element of
 * strings.Split(s, "/"), filepath.Ext, and Python's os.path.basename.
 * Strings are sequences of characters; only ASCII letters are case-folded.
 */
module Text {

  predicate HasPrefix(s: string, prefix: string) {
    |prefix| <= |s| && s[..|prefix|] == prefix
  }

  predicate HasSuffix(s: string, suffix: string) {
    |suffix| <= |s| && s[|s| - |suffix|..] == suffix
  }

  /** strings.TrimSuffix: drops `suffix` once when `s` ends with it. */
  function TrimSuffix(s: string, suffix: string): (r: string)
    ensures HasSuffix(s, suffix) ==> r + suffix == s
    ensures !HasSuffix(s, suffix) ==> r == s
  {
    if HasSuffix(s, suffix) then s[..|s| - |suffix|] else s
  }

  function LowerChar(c: char): char {
    if 'A' <= c <= 'Z' then (c as int + 32) as char else c
  }

  /** strings.ToLower restricted to ASCII letters. */
  function ToLower(s: string): (r: string)
    ensures |r| == |s|
  {
    seq(|s|, i requires 0 <= i < |s| => LowerChar(s[i]))
  }

  /**
   * The text after the last '/' (the whole string when it has none, "" when
   * it ends in '/'): the last element of strings.Split(s, "/") and
   * os.path.basename on POSIX.
   */
  function AfterLastSlash(s: string): string
  {
    if |s| == 0 then []
    else if s[|s| - 1] == '/' then []
    else AfterLastSlash(s[..|s| - 1]) + [s[|s| - 1]]
  }

  /**
   * The result holds no '/', is a suffix of `s`, and is either all of `s`
   * or preceded by a '/'.
   */
  lemma {:induction false} AfterLastSlashShape(s: string)
    ensures var r := AfterLastSlash(s);
      && '/' !in r
      && |r| <= |s| && r == s[|s| - |r|..]
      && (|r| < |s| ==> s[|s| - |r| - 1] == '/')
  {
    if |s| > 0 && s[|s| - 1] != '/' {
      var init := s[..|s| - 1];
      AfterLastSlashShape(init);
      var r0 := AfterLastSlash(init);
      assert s[|s| - |r0| - 1..] == init[|init| - |r0|..] + [s[|s| - 1]];
      if |r0| < |init| {
        assert s[|s| - |r0| - 2] == init[|init| - |r0| - 1];
      }
    }
  }

  /**
   * filepath.Ext on a system whose separator is '/': scanning back from the
   * end, the suffix starting at the first '.' met before any '/', or "" when
   * a '/' or the start of the string comes first.
   */
  function Ext(path: string): string {
    if |path| == 0 then []
    else
      var c := path[|path| - 1];
      if c == '/' then []
      else if c == '.' then "."
      else
        var e := Ext(path[..|path| - 1]);
        if e == [] then [] else e + [c]
  }

  /** The extension is a suffix of the path. */
  lemma {:induction false} ExtIsSuffix(path: string)
    ensures |Ext(path)| <= |path| && Ext(path) == path[|path| - |Ext(path)|..]
  {
    if |path| > 0 {
      var c := path[|path| - 1];
      var init := path[..|path| - 1];
      if c != '/' && c != '.' {
        ExtIsSuffix(init);
        var e := Ext(init);
        if e != [] {
          assert path[|path| - |e| - 1..] == init[|init| - |e|..] + [c];
        }
      }
    }
  }

  /** A non-empty extension is a dot followed by no other dot and no '/'. */
  lemma {:induction false} ExtForm(path: string)
    ensures var r := Ext(path);
      r != [] ==> r[0] == '.' && '.' !in r[1..] && '/' !in r
  {
    if |path| > 0 {
      var c := path[|path| - 1];
      var init := path[..|path| - 1];
      if c != '/' && c != '.' {
        ExtForm(init);
        var e := Ext(init);
        if e != [] {
          assert (e + [c])[1..] == e[1..] + [c];
        }
      }
    }
  }

  /** The extension is empty exactly when the last path element has no '.'. */
  lemma {:induction false} ExtEmptyIff(path: string)
    ensures Ext(path) == [] <==> '.' !in AfterLastSlash(path)
  {
    if |path| > 0 {
      var c := path[|path| - 1];
      var init := path[..|path| - 1];
      if c != '/' {
        assert AfterLastSlash(path) == AfterLastSlash(init) + [c];
        if c != '.' {
          ExtEmptyIff(init);
        }
      }
    }
  }

  /** The three facts together. */
  lemma ExtShape(path: string)
    ensures var r := Ext(path);
      && (r == [] <==> '.' !in AfterLastSlash(path))
      && (r != [] ==> r[0] == '.' && '.' !in r[1..] && '/' !in r)
      && |r| <= |path| && r == path[|path| - |r|..]
  {
    ExtIsSuffix(path);
    ExtForm(path);
    ExtEmptyIff(path);
  }

  lemma ToLowerIdempotent(s: string)
    ensures ToLower(ToLower(s)) == ToLower(s)
  {
  }

  lemma ToLowerSnoc(a: string, c: char)
    ensures ToLower(a + [c]) == ToLower(a) + [LowerChar(c)]
  {
  }

  /** One step of filepath.Ext's backward scan over a character that is neither '.' nor '/'. */
  lemma ExtSnoc(a: string, c: char)
    requires c != '.' && c != '/'
    ensures Ext(a + [c]) == if Ext(a) == [] then [] else Ext(a) + [c]
  {
    assert (a + [c])[..|a|] == a;
  }

  /** filepath.Ext commutes with ASCII lower-casing ('.' and '/' are not letters). */
  lemma {:induction false} ExtOfLower(s: string)
    ensures Ext(ToLower(s)) == ToLower(Ext(s))
  {
    if |s| > 0 {
      var n := |s|;
      var c := s[n - 1];
      var init := s[..n - 1];
      assert s == init + [c];
      ToLowerSnoc(init, c);
      if c == '/' || c == '.' {
        assert ToLower(s)[n - 1] == c;
      } else {
        ExtOfLower(init);
        ExtSnoc(init, c);
        ExtSnoc(ToLower(init), LowerChar(c));
        var e := Ext(init);
        if e != [] {
          ToLowerSnoc(e, c);
        }
      }
    }
  }

  /** A name ending in ".ext" (a dot, then no dot and no '/') has exactly that extension. */
  lemma {:induction false} ExtOfSuffix(stem: string, e: string)
    requires e != [] && e[0] == '.' && '.' !in e[1..] && '/' !in e
    ensures Ext(stem + e) == e
  {
    var s := stem + e;
    if |e| > 1 {
      var init := e[..|e| - 1];
      assert init[1..] == e[1..][..|e| - 2];
      assert s[..|s| - 1] == stem + init;
      assert s[|s| - 1] == e[|e| - 1] == e[1..][|e| - 2];
      ExtOfSuffix(stem, init);
      assert init + [e[|e| - 1]] == e;
    }
  }

  /** The last element of "dir/name" is name when name has no '/'. */
  lemma {:induction false} AfterLastSlashOfJoin(dir: string, name: string)
    requires '/' !in name
    ensures AfterLastSlash(dir + "/" + name) == name
  {
    var s := dir + "/" + name;
    if name != [] {
      var init := name[..|name| - 1];
      assert s[..|s| - 1] == dir + "/" + init;
      assert s[|s| - 1] == name[|name| - 1];
      AfterLastSlashOfJoin(dir, init);
      assert init + [name[|name| - 1]] == name;
    }
  }
}
