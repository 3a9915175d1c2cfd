/** The two functions of Go's `strings` package that path resolution relies on,
    specialised to a one-character cut set / separator:
    `strings.Trim(s, "/")` and `strings.Split(s, "/")`. */
module GoStrings {

  /** Drops every leading occurrence of `c`. */
  function TrimLeft(s: string, c: char): (r: string)
    ensures |r| <= |s| && r == s[|s| - |r|..]
    ensures forall i :: 0 <= i < |s| - |r| ==> s[i] == c
    ensures r == [] || r[0] != c
  {
    if s != [] && s[0] == c then TrimLeft(s[1..], c) else s
  }

  /** Drops every trailing occurrence of `c`. */
  function TrimRight(s: string, c: char): (r: string)
    ensures |r| <= |s| && r == s[..|r|]
    ensures forall i :: |r| <= i < |s| ==> s[i] == c
    ensures r == [] || r[|r| - 1] != c
  {
    if s != [] && s[|s| - 1] == c then TrimRight(s[..|s| - 1], c) else s
  }

  /** `strings.Trim(s, string(c))`: leading and trailing runs of `c` removed. */
  function Trim(s: string, c: char): (r: string)
    ensures r == [] || (r[0] != c && r[|r| - 1] != c)
  {
    TrimRight(TrimLeft(s, c), c)
  }

  /** `strings.Split(s, string(sep))`: the pieces between separators; the empty
      string splits into one empty piece. */
  function Split(s: string, sep: char): (r: seq<string>)
    ensures |r| >= 1
    ensures forall i :: 0 <= i < |r| ==> sep !in r[i]
  {
    if s == [] then [""]
    else
      var rest := Split(s[1..], sep);
      if s[0] == sep then [""] + rest
      else [[s[0]] + rest[0]] + rest[1..]
  }

  /** `strings.Join(parts, string(sep))`, the reference inverse of `Split`. */
  function Join(parts: seq<string>, sep: char): string
    requires |parts| >= 1
  {
    if |parts| == 1 then parts[0] else parts[0] + [sep] + Join(parts[1..], sep)
  }

  ghost predicate AllChar(s: string, c: char)
  {
    forall i :: 0 <= i < |s| ==> s[i] == c
  }

  /** A string trims to nothing exactly when it consists of the cut character only. */
  lemma TrimEmptyIff(s: string, c: char)
    ensures Trim(s, c) == [] <==> AllChar(s, c)
  {
    var l := TrimLeft(s, c);
    if AllChar(s, c) {
      assert |l| > 0 ==> l[0] == s[|s| - |l|];
    }
  }

  lemma {:induction false} TrimLeftAppend(s: string, t: string, c: char)
    requires !AllChar(s, c)
    ensures TrimLeft(s + t, c) == TrimLeft(s, c) + t
  {
    assert s != [];
    if s[0] == c {
      assert (s + t)[1..] == s[1..] + t;
      assert !AllChar(s[1..], c) by {
        var i :| 0 <= i < |s| && s[i] != c;
        assert s[1..][i - 1] == s[i];
      }
      TrimLeftAppend(s[1..], t, c);
    }
  }

  /** A trailing cut character never changes what `Trim` returns. */
  lemma TrimDropsTrailing(s: string, c: char)
    ensures Trim(s + [c], c) == Trim(s, c)
  {
    if AllChar(s, c) {
      TrimEmptyIff(s, c);
      assert AllChar(s + [c], c);
      TrimEmptyIff(s + [c], c);
    } else {
      TrimLeftAppend(s, [c], c);
      var l := TrimLeft(s, c);
      assert TrimLeft(s + [c], c) == l + [c];
      assert (l + [c])[..|l + [c]| - 1] == l;
    }
  }

  /** A leading cut character never changes what `Trim` returns. */
  lemma TrimDropsLeading(s: string, c: char)
    ensures Trim([c] + s, c) == Trim(s, c)
  {
    assert ([c] + s)[1..] == s;
  }

  /** Splitting inverts joining when no piece contains the separator. */
  lemma {:induction false} SplitJoin(parts: seq<string>, sep: char)
    requires |parts| >= 1
    requires forall i :: 0 <= i < |parts| ==> sep !in parts[i]
    ensures Split(Join(parts, sep), sep) == parts
  {
    if |parts| == 1 {
      SplitNoSep(parts[0], sep);
    } else {
      var tail := Join(parts[1..], sep);
      var rest := [sep] + tail;
      SplitJoin(parts[1..], sep);
      assert Join(parts, sep) == parts[0] + rest;
      SplitPrefix(parts[0], rest, sep);
      assert rest[1..] == tail;
      assert Split(rest, sep) == [""] + parts[1..];
      assert parts[0] + Split(rest, sep)[0] == parts[0];
      assert Split(rest, sep)[1..] == parts[1..];
      assert parts == [parts[0]] + parts[1..];
    }
  }

  /** Joining inverts splitting: no character of the input is lost. */
  lemma {:induction false} JoinSplit(s: string, sep: char)
    ensures Join(Split(s, sep), sep) == s
  {
    if s != [] {
      var rest := Split(s[1..], sep);
      JoinSplit(s[1..], sep);
      if s[0] == sep {
        assert ([""] + rest)[1..] == rest;
      } else {
        var r := [[s[0]] + rest[0]] + rest[1..];
        if |rest| == 1 {
        } else {
          assert r[1..] == rest[1..];
          assert Join(rest, sep) == rest[0] + [sep] + Join(rest[1..], sep);
        }
      }
    }
  }

  lemma {:induction false} SplitNoSep(s: string, sep: char)
    requires sep !in s
    ensures Split(s, sep) == [s]
  {
    if s != [] {
      SplitNoSep(s[1..], sep);
      assert [s[0]] + s[1..] == s;
    }
  }

  /** A separator-free prefix glues onto the first piece of what follows it. */
  lemma {:induction false} SplitPrefix(p: string, t: string, sep: char)
    requires sep !in p
    ensures Split(p + t, sep) == [p + Split(t, sep)[0]] + Split(t, sep)[1..]
  {
    if p != [] {
      assert (p + t)[1..] == p[1..] + t;
      SplitPrefix(p[1..], t, sep);
      assert [p[0]] + (p[1..] + Split(t, sep)[0]) == p + Split(t, sep)[0];
    } else {
      assert p + t == t;
      assert p + Split(t, sep)[0] == Split(t, sep)[0];
      assert Split(t, sep) == [Split(t, sep)[0]] + Split(t, sep)[1..];
    }
  }
}
