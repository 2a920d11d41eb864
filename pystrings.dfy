/** The Python string operations the controllers rely on: `str.split(sep)` with a
    one-character separator, `sep.join(parts)`, and the last path component
    (`s.split('/')[-1]`, which is also the tail returned by `os.path.split`). */
module PyStrings {

  /** `s.split(sep)`: the pieces between consecutive separators, empty pieces
      included, so the result is never empty. */
  function Split(s: string, sep: char): (parts: seq<string>)
    ensures |parts| >= 1
    decreases |s|
  {
    if |s| == 0 then [""]
    else
      var rest := Split(s[1..], sep);
      if s[0] == sep then [""] + rest
      else [[s[0]] + rest[0]] + rest[1..]
  }

  /** `sep.join(parts)`. */
  function Join(parts: seq<string>, sep: char): string
    decreases |parts|
  {
    if |parts| == 0 then ""
    else if |parts| == 1 then parts[0]
    else parts[0] + [sep] + Join(parts[1..], sep)
  }

  /** `s.split('/')[-1]`: what follows the last `/`. */
  function LastComponent(s: string): string
  {
    var parts := Split(s, '/');
    parts[|parts| - 1]
  }

  /** No piece of a split contains the separator. */
  lemma {:induction false} SplitPartsHaveNoSeparator(s: string, sep: char)
    ensures forall k :: 0 <= k < |Split(s, sep)| ==> sep !in Split(s, sep)[k]
    decreases |s|
  {
    if |s| > 0 {
      SplitPartsHaveNoSeparator(s[1..], sep);
    }
  }

  /** A string without the separator splits into itself alone. */
  lemma {:induction false} SplitWithoutSeparator(s: string, sep: char)
    requires sep !in s
    ensures Split(s, sep) == [s]
    decreases |s|
  {
    if |s| > 0 {
      assert sep !in s[1..];
      SplitWithoutSeparator(s[1..], sep);
      assert [s[0]] + s[1..] == s;
    }
  }

  /** Joining the pieces of a split gives back the string. */
  lemma {:induction false} JoinSplit(s: string, sep: char)
    ensures Join(Split(s, sep), sep) == s
    decreases |s|
  {
    if |s| > 0 {
      var rest := Split(s[1..], sep);
      JoinSplit(s[1..], sep);
      if s[0] == sep {
        assert Split(s, sep) == [""] + rest;
        assert s == "" + [sep] + s[1..];
      } else {
        var parts := Split(s, sep);
        assert parts == [[s[0]] + rest[0]] + rest[1..];
        if |rest| == 1 {
          assert s == [s[0]] + rest[0];
        } else {
          assert parts[1..] == rest[1..];
          assert Join(rest, sep) == rest[0] + [sep] + Join(rest[1..], sep);
          assert Join(parts, sep) == ([s[0]] + rest[0]) + [sep] + Join(rest[1..], sep);
          assert s == [s[0]] + s[1..];
        }
      }
    }
  }

  /** Splitting a join of separator-free pieces gives back the pieces. */
  lemma {:induction false} SplitJoin(parts: seq<string>, sep: char)
    requires |parts| >= 1
    requires forall k :: 0 <= k < |parts| ==> sep !in parts[k]
    ensures Split(Join(parts, sep), sep) == parts
    decreases |parts|
  {
    if |parts| == 1 {
      SplitWithoutSeparator(parts[0], sep);
    } else {
      SplitJoin(parts[1..], sep);
      SplitPrefix(parts[0], Join(parts[1..], sep), sep);
      assert [parts[0]] + parts[1..] == parts;
    }
  }

  /** Splitting `p + sep + t`, when `p` has no separator, puts `p` in front of
      the split of `t`. */
  lemma {:induction false} SplitPrefix(p: string, t: string, sep: char)
    requires sep !in p
    ensures Split(p + [sep] + t, sep) == [p] + Split(t, sep)
    decreases |p|
  {
    if |p| == 0 {
      assert p + [sep] + t == [sep] + t;
      assert ([sep] + t)[1..] == t;
    } else {
      var s := p + [sep] + t;
      assert s[0] == p[0] && s[1..] == p[1..] + [sep] + t;
      assert sep !in p[1..];
      SplitPrefix(p[1..], t, sep);
      assert [p[0]] + p[1..] == p;
    }
  }

  /** Joining at least two pieces puts the last one after a separator. */
  lemma {:induction false} JoinLast(parts: seq<string>, sep: char)
    requires |parts| >= 2
    ensures Join(parts, sep) == Join(parts[..|parts| - 1], sep) + [sep] + parts[|parts| - 1]
    decreases |parts|
  {
    if |parts| > 2 {
      JoinLast(parts[1..], sep);
      assert parts[1..][..|parts| - 2] == parts[..|parts| - 1][1..];
    }
  }

  /** The last component is exactly the longest suffix without `/`: the string
      is some prefix ending in `/` (or nothing) followed by it. */
  lemma LastComponentIsSuffix(s: string)
    ensures '/' !in LastComponent(s)
    ensures exists p :: s == p + LastComponent(s) && (p == "" || p[|p| - 1] == '/')
  {
    var parts := Split(s, '/');
    var n := |parts|;
    SplitPartsHaveNoSeparator(s, '/');
    JoinSplit(s, '/');
    if n == 1 {
      assert s == "" + LastComponent(s);
    } else {
      JoinLast(parts, '/');
      var p := Join(parts[..n - 1], '/') + ['/'];
      assert s == p + LastComponent(s);
    }
  }

  /** A name without `/` is its own last component. */
  lemma LastComponentOfPlainName(s: string)
    requires '/' !in s
    ensures LastComponent(s) == s
  {
    SplitWithoutSeparator(s, '/');
  }

  /** Trimming is idempotent. */
  lemma LastComponentIdempotent(s: string)
    ensures LastComponent(LastComponent(s)) == LastComponent(s)
  {
    LastComponentIsSuffix(s);
    LastComponentOfPlainName(LastComponent(s));
  }

  /** Appending `/name` to any path makes `name` its last component. */
  lemma LastComponentAfterSlash(dir: string, name: string)
    requires '/' !in name
    ensures LastComponent(dir + "/" + name) == name
  {
    var s := dir + "/" + name;
    LastComponentIsSuffix(s);
    var p :| s == p + LastComponent(s) && (p == "" || p[|p| - 1] == '/');
    var t := LastComponent(s);
    // both `name` and `t` are slash-free suffixes of `s`; `name` follows a `/`
    // and `t` follows `p`, which is empty or ends in `/`
    assert forall i | |s| - |t| <= i < |s| :: s[i] == t[i - (|s| - |t|)];
    assert forall i | |s| - |name| <= i < |s| :: s[i] == name[i - (|s| - |name|)];
    assert s[|s| - |name| - 1] == '/';
    assert |t| <= |name|;
    assert p != "" ==> s[|p| - 1] == '/';
    assert |name| <= |t|;
    assert t == s[|s| - |t|..] == name;
  }
}
