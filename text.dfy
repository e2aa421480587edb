/**
 * The string operations the handlers rely on: `split(" ")` on the
 * authorization header, and the case-insensitive substring match that the
 * property listing's location filter performs.
 */
module Text {

  /** JavaScript's `s.split(sep)` for a one-character separator: the maximal separator-free runs, empty ones included. */
  function Split(s: string, sep: char): (r: seq<string>)
    ensures |r| >= 1
    ensures |r| >= 2 <==> sep in s
    ensures forall f :: f in r ==> sep !in f
  {
    if s == [] then [""]
    else
      var rest := Split(s[1..], sep);
      if s[0] == sep then [""] + rest
      else [[s[0]] + rest[0]] + rest[1..]
  }

  /** `fs.join(sep)`: the inverse of Split. */
  function Join(fs: seq<string>, sep: char): string
    requires |fs| >= 1
  {
    if |fs| == 1 then fs[0] else fs[0] + [sep] + Join(fs[1..], sep)
  }

  /** Joining the pieces of a split gives back the original string. */
  lemma {:induction false} JoinSplit(s: string, sep: char)
    ensures Join(Split(s, sep), sep) == s
  {
    if s != [] {
      JoinSplit(s[1..], sep);
      var rest := Split(s[1..], sep);
      if s[0] == sep {
        var fs := [""] + rest;
        assert Split(s, sep) == fs && fs[1..] == rest;
      } else {
        assert Split(s, sep) == [[s[0]] + rest[0]] + rest[1..];
        JoinPrepend([s[0]], rest, sep);
      }
      assert s == [s[0]] + s[1..];
    }
  }

  /** Prefixing the first field prefixes the joined string. */
  lemma JoinPrepend(a: string, fs: seq<string>, sep: char)
    requires |fs| >= 1
    ensures Join([a + fs[0]] + fs[1..], sep) == a + Join(fs, sep)
  {
    var gs := [a + fs[0]] + fs[1..];
    if |fs| > 1 {
      assert gs[1..] == fs[1..];
    }
  }

  /** A join of two or more fields: the first, the separator, the second, and the rest led by the separator. */
  lemma JoinFirstTwo(fs: seq<string>, sep: char)
    requires |fs| >= 2
    ensures Join(fs, sep) == fs[0] + [sep] + fs[1] + (if |fs| == 2 then [] else [sep] + Join(fs[2..], sep))
  {
    var rest := fs[1..];
    assert Join(fs, sep) == fs[0] + [sep] + Join(rest, sep);
    if |fs| == 2 {
      assert rest == [fs[1]];
    } else {
      assert rest[0] == fs[1] && rest[1..] == fs[2..];
      var x := Join(fs[2..], sep);
      assert Join(rest, sep) == fs[1] + [sep] + x;
      AppendRegroup(fs[0] + [sep], fs[1], [sep], x);
    }
  }

  /** Regrouping a concatenation of four strings. */
  lemma AppendRegroup(a: string, b: string, c: string, d: string)
    ensures a + (b + c + d) == a + b + (c + d)
  {
    assert b + c + d == b + (c + d);
  }

  /** Splitting a joined list of separator-free fields gives back the fields. */
  lemma {:induction false} SplitJoin(fs: seq<string>, sep: char)
    requires |fs| >= 1
    requires forall f :: f in fs ==> sep !in f
    ensures Split(Join(fs, sep), sep) == fs
  {
    if |fs| == 1 {
      SplitPlain(fs[0], sep);
    } else {
      SplitJoin(fs[1..], sep);
      SplitField(fs[0], Join(fs[1..], sep), sep);
      assert fs == [fs[0]] + fs[1..];
    }
  }

  lemma {:induction false} SplitPlain(a: string, sep: char)
    requires sep !in a
    ensures Split(a, sep) == [a]
  {
    if a != [] {
      SplitPlain(a[1..], sep);
      assert a == [a[0]] + a[1..];
    }
  }

  lemma {:induction false} SplitField(a: string, b: string, sep: char)
    requires sep !in a
    ensures Split(a + [sep] + b, sep) == [a] + Split(b, sep)
  {
    var s := a + [sep] + b;
    if a == [] {
      assert s[0] == sep && s[1..] == b;
    } else {
      assert s[0] == a[0] && s[1..] == a[1..] + [sep] + b;
      SplitField(a[1..], b, sep);
      var rest := Split(s[1..], sep);
      assert rest[0] == a[1..] && rest[1..] == Split(b, sep);
      assert [a[0]] + rest[0] == a;
    }
  }

  /** ASCII lower-casing of one character. */
  function LowerChar(c: char): char {
    if 'A' <= c <= 'Z' then (c as int + 32) as char else c
  }

  /** ASCII lower-casing of a string, character by character. */
  function Lower(s: string): string {
    seq(|s|, i requires 0 <= i < |s| => LowerChar(s[i]))
  }

  /** `t` occurs in `s` as a contiguous run. */
  function Contains(s: string, t: string): bool
    decreases |s|
  {
    if |t| > |s| then false
    else if s[..|t|] == t then true
    else Contains(s[1..], t)
  }

  /** `t` occurs in `s` starting at index `i`. */
  predicate OccursAt(s: string, t: string, i: int) {
    0 <= i && i + |t| <= |s| && s[i..i + |t|] == t
  }

  /** Contains agrees with the reference definition: `t` occurs in `s` at some index. */
  lemma {:induction false} ContainsIff(s: string, t: string)
    ensures Contains(s, t) <==> exists i :: OccursAt(s, t, i)
    decreases |s|
  {
    if |t| > |s| {
    } else if s[..|t|] == t {
      assert OccursAt(s, t, 0);
    } else {
      ContainsIff(s[1..], t);
      if Contains(s, t) {
        var i :| OccursAt(s[1..], t, i);
        assert s[i + 1..i + 1 + |t|] == s[1..][i..i + |t|];
        assert OccursAt(s, t, i + 1);
      }
      if exists i :: OccursAt(s, t, i) {
        var i :| OccursAt(s, t, i);
        assert i != 0;
        assert s[1..][i - 1..i - 1 + |t|] == s[i..i + |t|];
        assert OccursAt(s[1..], t, i - 1);
      }
    }
  }

  /** A case-insensitive literal substring test (the regex flag "i", for a pattern without metacharacters). */
  function ContainsIgnoreCase(s: string, t: string): bool {
    Contains(Lower(s), Lower(t))
  }

  /** `t` occurs in `s` at index `i` when case is ignored, character by character. */
  predicate MatchesIgnoreCaseAt(s: string, t: string, i: int) {
    0 <= i && i + |t| <= |s| && forall k :: 0 <= k < |t| ==> LowerChar(s[i + k]) == LowerChar(t[k])
  }

  /** The case-insensitive test holds exactly when some index of `s` starts a run equal to `t` up to case. */
  lemma ContainsIgnoreCaseIff(s: string, t: string)
    ensures ContainsIgnoreCase(s, t) <==> exists i :: MatchesIgnoreCaseAt(s, t, i)
  {
    var ls, lt := Lower(s), Lower(t);
    ContainsIff(ls, lt);
    forall i | 0 <= i && i + |t| <= |s|
      ensures OccursAt(ls, lt, i) <==> MatchesIgnoreCaseAt(s, t, i)
    {
      if OccursAt(ls, lt, i) {
        forall k | 0 <= k < |t| ensures LowerChar(s[i + k]) == LowerChar(t[k]) {
          assert ls[i..i + |t|][k] == ls[i + k];
        }
      }
      if MatchesIgnoreCaseAt(s, t, i) {
        assert ls[i..i + |t|] == lt;
      }
    }
  }
}
